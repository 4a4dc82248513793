/** How the two routes fit together: the key the upload route issues is the
    key the pipeline is given back. */
module Protocol {
  import opened Js
  import opened Strings
  import opened Environment
  import opened Services
  import Presign
  import Translate

  /** The pipeline names the transcribed file after the last segment of the
      key, which for any key the upload route builds is `suffix-sanitized`. */
  lemma {:induction false} FileNameOfIssuedKey(now: Presign.UtcDate, suffix: string, fileName: string)
    requires Presign.ValidSuffix(suffix)
    ensures Translate.FileName(Presign.ObjectKey(now, suffix, fileName)) == suffix + "-" + Presign.Sanitize(fileName)
  {
    var key := Presign.ObjectKey(now, suffix, fileName);
    var tail := suffix + "-" + Presign.Sanitize(fileName);
    Presign.KeySegments(now, suffix, fileName);
    assert LastSegment(key, '/') == tail;
    assert tail[|suffix|] == '-';
  }

  /** Whatever provider granted the upload, the pipeline asked for the granted
      key transcribes a file named `suffix-sanitized`, never the default name. */
  lemma GrantedKeyKeepsUploadName(
    env: Env, body: Presign.PresignBody, now: Presign.UtcDate, suffix: string, backends: Backends, blob: Blob)
    requires Presign.ValidSuffix(suffix)
    requires Presign.Post(env, Returned(body), now, suffix, backends).response.Granted()
    ensures var key := Presign.Post(env, Returned(body), now, suffix, backends).response.key;
      Translate.Artifact(blob, key).name == suffix + "-" + Presign.Sanitize(body.fileName.value)
  {
    FileNameOfIssuedKey(now, suffix, body.fileName.value);
  }

  /** The pipeline never reads from S3: a key granted under the AWS branch of
      the upload route is looked up in Supabase storage, in the body's bucket
      or SUPABASE_BUCKET, with the Supabase credentials. (This is the code as
      written: the upload and the download can target different stores.)
      It is a corollary of `Translate.Post`'s contract, restricted to the keys
      the upload route grants under AWS; the premise only names those keys. */
  lemma AwsGrantLookedUpInSupabase(
    env: Env, body: Presign.PresignBody, now: Presign.UtcDate, suffix: string, backends: Backends,
    bucket: Option<string>)
    requires Presign.Post(env, Returned(body), now, suffix, backends).response.AwsGrant?
    ensures var grant := Presign.Post(env, Returned(body), now, suffix, backends).response;
      var request := Translate.TranslateBody(Some(grant.key), bucket);
      var h := Translate.Post(env, Returned(request), backends);
      && (forall c :: c in h.calls && c.IsStorage() ==> c.SupabaseDownload?)
      && (h.calls != [] ==>
            && h.calls[0].download.url == env.supabaseUrl.value
            && h.calls[0].download.bucket == Or(bucket, env.supabaseBucket).value
            && h.calls[0].download.key == grant.key)
  {
  }

  /** A deployment configured for AWS only (no Supabase URL or service key)
      grants S3 uploads, yet the pipeline, given back the granted key and
      bucket, answers 500 for want of Supabase settings instead of fetching
      the object. */
  lemma AwsOnlyDeploymentCannotFetch(
    env: Env, body: Presign.PresignBody, now: Presign.UtcDate, suffix: string, backends: Backends)
    requires Presign.Post(env, Returned(body), now, suffix, backends).response.AwsGrant?
    requires Truthy(env.openaiApiKey) && !Translate.SupabaseReachable(env)
    ensures var grant := Presign.Post(env, Returned(body), now, suffix, backends).response;
      var request := Translate.TranslateBody(Some(grant.key), Some(grant.bucket));
      Translate.Post(env, Returned(request), backends)
        == Handled(Translate.Failure(500, Translate.MissingSupabaseMessage), [])
  {
  }
}
