/** The process environment as the two route handlers read it. */
module Environment {
  import opened Js

  /** Every environment variable either handler consults; an unset variable is `None`. */
  datatype Env = Env(
    awsRegion: Option<string>,              // AWS_REGION
    awsDefaultRegion: Option<string>,       // AWS_DEFAULT_REGION
    awsAccessKeyId: Option<string>,         // AWS_ACCESS_KEY_ID
    awsSecretAccessKey: Option<string>,     // AWS_SECRET_ACCESS_KEY
    awsS3Bucket: Option<string>,            // AWS_S3_BUCKET
    supabaseUrl: Option<string>,            // SUPABASE_URL
    supabaseServiceRoleKey: Option<string>, // SUPABASE_SERVICE_ROLE_KEY
    supabaseBucket: Option<string>,         // SUPABASE_BUCKET
    openaiApiKey: Option<string>            // OPENAI_API_KEY
  )
}
