/** The upload-authorisation route (`POST /api/presign`): validates the
    request, builds the object key and issues a short-lived upload credential
    from AWS S3 or, failing that, from Supabase storage. */
module Presign {
  import opened Js
  import opened Strings
  import opened Environment
  import opened Services

  /** Lifetime of every issued credential, in seconds (`60 * 5`). */
  const ExpirySeconds: nat := 300

  const MissingFieldsMessage := "Champs requis: fileName, contentType"
  const MissingRegionMessage := "AWS_REGION manquant dans l'environnement"
  const NoProviderMessage :=
    "Aucun provider configur\U{e9}: d\U{e9}finir AWS_* ou SUPABASE_URL, SUPABASE_SERVICE_ROLE_KEY, SUPABASE_BUCKET"
  const SignUploadFailedMessage := "createSignedUploadUrl a \U{e9}chou\U{e9}"

  /** The JSON body's `fileName` and `contentType`; `None` when a field is absent. */
  datatype PresignBody = PresignBody(fileName: Option<string>, contentType: Option<string>)

  /** The UTC calendar date of `new Date()`: full year, month counted from 0
      (`getUTCMonth`) and day of the month (`getUTCDate`). */
  datatype UtcDate = UtcDate(year: nat, month0: nat, day: nat)

  predicate ValidDate(d: UtcDate) {
    d.month0 < 12 && 1 <= d.day <= 31
  }

  predicate IsBase36Digit(c: char) {
    '0' <= c <= '9' || 'a' <= c <= 'z'
  }

  /** What `Math.random().toString(36).slice(2, 10)` can produce: at most
      eight base-36 digits. */
  predicate ValidSuffix(s: string) {
    |s| <= 8 && forall i :: 0 <= i < |s| ==> IsBase36Digit(s[i])
  }

  /** The response of the route; a grant is a 200. */
  datatype PresignResponse =
    | Failure(status: nat, error: string)
    | AwsGrant(url: string, key: string, bucket: string, region: string)
    | SupabaseGrant(key: string, bucket: string, signedUrl: string, token: string)
  {
    function Status(): nat {
      if Failure? then status else 200
    }

    predicate Granted() {
      AwsGrant? || SupabaseGrant?
    }
  }

  // ---- request validation ----

  /** `!fileName || !contentType` does not hold. */
  predicate Valid(body: PresignBody) {
    Truthy(body.fileName) && Truthy(body.contentType)
  }

  // ---- object key ----

  /** The characters the filename regex `[a-zA-Z0-9._-]` keeps. */
  predicate IsAllowed(c: char) {
    'a' <= c <= 'z' || 'A' <= c <= 'Z' || '0' <= c <= '9' || c == '.' || c == '_' || c == '-'
  }

  /** `fileName.replace(/[^a-zA-Z0-9._-]/g, "_")`. */
  function Sanitize(s: string): (r: string)
    ensures |r| == |s|
    ensures forall i :: 0 <= i < |r| ==> IsAllowed(r[i])
    ensures forall i :: 0 <= i < |s| && IsAllowed(s[i]) ==> r[i] == s[i]
    ensures forall i :: 0 <= i < |s| && !IsAllowed(s[i]) ==> r[i] == '_'
  {
    if s == [] then []
    else [if IsAllowed(s[0]) then s[0] else '_'] + Sanitize(s[1..])
  }

  /** Sanitising twice is sanitising once. */
  lemma SanitizeIdempotent(s: string)
    ensures Sanitize(Sanitize(s)) == Sanitize(s)
  {
    var r := Sanitize(s);
    assert forall i :: 0 <= i < |r| ==> Sanitize(r)[i] == r[i];
  }

  /** A name is left unchanged exactly when it holds only allowed characters. */
  lemma SanitizeFixedPoints(s: string)
    ensures Sanitize(s) == s <==> forall i :: 0 <= i < |s| ==> IsAllowed(s[i])
  {
    if forall i :: 0 <= i < |s| ==> IsAllowed(s[i]) {
      assert forall i :: 0 <= i < |s| ==> Sanitize(s)[i] == s[i];
    }
  }

  /** `String(n).padStart(2, "0")`. */
  function TwoDigits(n: nat): (r: string)
    ensures AllDigits(r)
    ensures 1 <= n < 100 ==> |r| == 2 && Value(r) == n
  {
    var d := Decimal(n);
    var r := PadStart(d, 2, '0');
    assert r == r[..|r| - |d|] + d;
    LeadingZeros(r[..|r| - |d|], d);
    ValueOfDecimal(n);
    r
  }

  /** `${yyyy}/${mm}/${dd}/${randomSuffix}-${sanitized}` */
  function ObjectKey(date: UtcDate, suffix: string, fileName: string): string {
    Decimal(date.year) + "/" + TwoDigits(date.month0 + 1) + "/" + TwoDigits(date.day) + "/"
      + suffix + "-" + Sanitize(fileName)
  }

  /** The date segments of a key: the year as written by `String`, then month
      (01..12) and day (01..31) as exactly two digits, all read back as the
      UTC date they came from. */
  lemma DateSegments(date: UtcDate)
    requires ValidDate(date)
    ensures Value(Decimal(date.year)) == date.year
    ensures var mm := TwoDigits(date.month0 + 1);
      |mm| == 2 && Value(mm) == date.month0 + 1 && 1 <= Value(mm) <= 12
    ensures var dd := TwoDigits(date.day);
      |dd| == 2 && Value(dd) == date.day && 1 <= Value(dd) <= 31
  {
    ValueOfDecimal(date.year);
  }

  /** Neither the suffix nor the sanitised name holds `/`, so the key splits on
      `/` into exactly four segments: year, month, day, `suffix-sanitized`. */
  lemma {:induction false} KeySegments(date: UtcDate, suffix: string, fileName: string)
    requires ValidSuffix(suffix)
    ensures Split(ObjectKey(date, suffix, fileName), '/')
      == [Decimal(date.year), TwoDigits(date.month0 + 1), TwoDigits(date.day), suffix + "-" + Sanitize(fileName)]
  {
    var yyyy, mm, dd := Decimal(date.year), TwoDigits(date.month0 + 1), TwoDigits(date.day);
    var tail := suffix + "-" + Sanitize(fileName);
    TailHasNoSlash(suffix, fileName);
    DigitsHaveNoSlash(yyyy);
    DigitsHaveNoSlash(mm);
    DigitsHaveNoSlash(dd);
    JoinFour(yyyy, mm, dd, tail, '/');
    assert ObjectKey(date, suffix, fileName) == yyyy + ['/'] + mm + ['/'] + dd + ['/'] + tail;
    SplitJoin([yyyy, mm, dd, tail], '/');
  }

  lemma TailHasNoSlash(suffix: string, fileName: string)
    requires ValidSuffix(suffix)
    ensures '/' !in suffix + "-" + Sanitize(fileName)
  {
    var sanitized := Sanitize(fileName);
    var tail := suffix + "-" + sanitized;
    forall i | 0 <= i < |tail| ensures tail[i] != '/' {
      if i < |suffix| { assert tail[i] == suffix[i]; }
      else if i > |suffix| { assert tail[i] == sanitized[i - |suffix| - 1]; }
    }
  }

  lemma DigitsHaveNoSlash(s: string)
    requires AllDigits(s)
    ensures '/' !in s
  {
    assert forall i :: 0 <= i < |s| ==> s[i] != '/';
  }

  // ---- provider selection ----

  /** `AWS_REGION || AWS_DEFAULT_REGION` */
  function Region(env: Env): Option<string> {
    Or(env.awsRegion, env.awsDefaultRegion)
  }

  /** `hasAws && bucket`: an S3 bucket and a region are configured. */
  predicate AwsSelected(env: Env) {
    Truthy(env.awsS3Bucket) && Truthy(Region(env))
  }

  /** The three Supabase variables the fallback needs are all set. */
  predicate SupabaseConfigured(env: Env) {
    Truthy(env.supabaseUrl) && Truthy(env.supabaseServiceRoleKey) && Truthy(env.supabaseBucket)
  }

  /** `createS3Client()`: throws when no region is configured; passes explicit
      credentials only when both halves of the key pair are set. */
  function CreateS3Client(env: Env): (r: Attempt<S3ClientSettings>)
    ensures r.Threw? <==> !Truthy(Region(env))
    ensures r.Threw? ==> r.thrown == ErrorValue(MissingRegionMessage)
    ensures r.Returned? ==> Some(r.value.region) == Region(env) && r.value.region != ""
    ensures r.Returned? ==>
      (r.value.credentials.Some? <==> Truthy(env.awsAccessKeyId) && Truthy(env.awsSecretAccessKey))
    ensures r.Returned? && r.value.credentials.Some? ==>
      r.value.credentials.value == S3Credentials(env.awsAccessKeyId.value, env.awsSecretAccessKey.value)
  {
    var region := Region(env);
    if !Truthy(region) then Threw(ErrorValue(MissingRegionMessage))
    else if Truthy(env.awsAccessKeyId) && Truthy(env.awsSecretAccessKey) then
      Returned(S3ClientSettings(region.value, Some(S3Credentials(env.awsAccessKeyId.value, env.awsSecretAccessKey.value))))
    else
      Returned(S3ClientSettings(region.value, None))
  }

  /** Whenever the route takes the AWS branch, `createS3Client` finds a region:
      its throw cannot be reached from `POST`. */
  lemma S3ClientNeverThrowsFromPost(env: Env)
    requires AwsSelected(env)
    ensures CreateS3Client(env).Returned?
    ensures CreateS3Client(env).value.region == Region(env).value
  {
  }

  // ---- the handler ----

  /** The key, content type and expiry a storage credential request binds. */
  function BoundKey(c: Call): string
    requires c.S3PresignPut? || c.SupabaseSignUpload?
  {
    if c.S3PresignPut? then c.put.key else c.upload.key
  }

  function BoundContentType(c: Call): string
    requires c.S3PresignPut? || c.SupabaseSignUpload?
  {
    if c.S3PresignPut? then c.put.contentType else c.upload.contentType
  }

  function BoundExpiry(c: Call): nat
    requires c.S3PresignPut? || c.SupabaseSignUpload?
  {
    if c.S3PresignPut? then c.put.expiresIn else c.upload.expiresIn
  }

  /** The AWS branch: `createS3Client()`, a `PutObjectCommand` for the key and
      content type, and `getSignedUrl` with a 300 s expiry. The region check in
      `createS3Client` always passes here (`S3ClientNeverThrowsFromPost`). */
  function IssueFromS3(env: Env, key: string, contentType: string, backends: Backends): (h: Handled<PresignResponse>)
    requires AwsSelected(env)
    ensures |h.calls| == 1 && h.calls[0].S3PresignPut?
    ensures var put := h.calls[0].put;
      && Returned(put.client) == CreateS3Client(env)
      && put.bucket == env.awsS3Bucket.value && put.key == key
      && put.contentType == contentType && put.expiresIn == ExpirySeconds
    // signing succeeds: the grant names the signed URL, the key, the bucket and the region
    ensures backends.presignPut(h.calls[0].put).Returned? ==>
      h.response == AwsGrant(backends.presignPut(h.calls[0].put).value, key, env.awsS3Bucket.value, Region(env).value)
    // signing throws: the catch-all 500
    ensures backends.presignPut(h.calls[0].put).Threw? ==>
      h.response == Failure(500, CaughtMessage(backends.presignPut(h.calls[0].put).thrown))
  {
    S3ClientNeverThrowsFromPost(env);
    var client := CreateS3Client(env).value;
    var bucket := env.awsS3Bucket.value;
    var put := S3PutRequest(client, bucket, key, contentType, ExpirySeconds);
    match backends.presignPut(put)
    case Threw(t) => Handled(Failure(500, CaughtMessage(t)), [S3PresignPut(put)])
    case Returned(url) => Handled(AwsGrant(url, key, bucket, Region(env).value), [S3PresignPut(put)])
  }

  /** The Supabase branch: `createSignedUploadUrl(key, 300, { contentType })`
      on the Supabase bucket with the service-role client. */
  function IssueFromSupabase(env: Env, key: string, contentType: string, backends: Backends)
    : (h: Handled<PresignResponse>)
    requires SupabaseConfigured(env)
    ensures |h.calls| == 1 && h.calls[0].SupabaseSignUpload?
    ensures h.calls[0].upload == SignUploadRequest(env.supabaseUrl.value, env.supabaseServiceRoleKey.value,
      env.supabaseBucket.value, key, ExpirySeconds, contentType)
    ensures var answer := backends.signUpload(h.calls[0].upload);
      // signing succeeds: the grant names the key, the Supabase bucket, the signed URL and the token
      && (answer.Returned? && !answer.value.Failed() ==>
            h.response == SupabaseGrant(key, env.supabaseBucket.value,
              answer.value.data.value.signedUrl, answer.value.data.value.token))
      // signing fails: a 500 with the backend's message or the default one
      && (answer.Returned? && answer.value.Failed() ==>
            h.response == Failure(500, ReplyErrorMessage(answer.value.error, SignUploadFailedMessage)))
      && (answer.Threw? ==> h.response == Failure(500, CaughtMessage(answer.thrown)))
  {
    var bucket := env.supabaseBucket.value;
    var upload := SignUploadRequest(
      env.supabaseUrl.value, env.supabaseServiceRoleKey.value, bucket, key, ExpirySeconds, contentType);
    match backends.signUpload(upload)
    case Threw(t) => Handled(Failure(500, CaughtMessage(t)), [SupabaseSignUpload(upload)])
    case Returned(reply) =>
      if reply.Failed() then
        Handled(Failure(500, ReplyErrorMessage(reply.error, SignUploadFailedMessage)), [SupabaseSignUpload(upload)])
      else
        Handled(SupabaseGrant(key, bucket, reply.data.value.signedUrl, reply.data.value.token),
          [SupabaseSignUpload(upload)])
  }

  /** `POST /api/presign` for a request whose body parsed to `request` (or whose
      parsing threw), at UTC date `now`, with random suffix `suffix`. */
  function Post(env: Env, request: Attempt<PresignBody>, now: UtcDate, suffix: string, backends: Backends)
    : (h: Handled<PresignResponse>)
    // a missing field is a 400, and nothing is contacted
    ensures h.response.Status() == 400 <==> request.Returned? && !Valid(request.value)
    ensures h.response.Status() == 400 ==> h.response.error == MissingFieldsMessage && h.calls == []
    // an unparsable body ends in the catch-all
    ensures request.Threw? ==> h == Handled(Failure(500, CaughtMessage(request.thrown)), [])
    // at most one external call: a credential request, made only for a valid request,
    // and made whenever a provider is configured
    ensures |h.calls| <= 1
    ensures h.calls != [] <==>
      request.Returned? && Valid(request.value) && (AwsSelected(env) || SupabaseConfigured(env))
    // the provider is the one the configuration alone selects
    ensures h.calls != [] ==> h.calls[0].IsStorage() && !h.calls[0].SupabaseDownload?
    ensures h.calls != [] ==> h.calls[0].Provider() == if AwsSelected(env) then Aws else Supabase
    // that request binds the key built from the date, suffix and file name,
    // the requested content type and a 300 s expiry
    ensures h.calls != [] ==>
      && BoundKey(h.calls[0]) == ObjectKey(now, suffix, request.value.fileName.value)
      && BoundContentType(h.calls[0]) == request.value.contentType.value
      && BoundExpiry(h.calls[0]) == ExpirySeconds
    // a credential is issued only through that request, for the key it binds
    ensures h.response.Granted() ==> h.calls != [] && h.response.key == BoundKey(h.calls[0])
    // neither provider configured: a 500 and no credential
    ensures request.Returned? && Valid(request.value) && !AwsSelected(env) && !SupabaseConfigured(env) ==>
      h == Handled(Failure(500, NoProviderMessage), [])
    // otherwise the answer is the selected branch's
    ensures request.Returned? && Valid(request.value) && AwsSelected(env) ==>
      h == IssueFromS3(env, ObjectKey(now, suffix, request.value.fileName.value),
        request.value.contentType.value, backends)
    ensures request.Returned? && Valid(request.value) && !AwsSelected(env) && SupabaseConfigured(env) ==>
      h == IssueFromSupabase(env, ObjectKey(now, suffix, request.value.fileName.value),
        request.value.contentType.value, backends)
  {
    match request
    case Threw(t) => Handled(Failure(500, CaughtMessage(t)), [])
    case Returned(body) =>
      if !Truthy(body.fileName) || !Truthy(body.contentType) then
        Handled(Failure(400, MissingFieldsMessage), [])
      else
        var contentType := body.contentType.value;
        var key := ObjectKey(now, suffix, body.fileName.value);
        if AwsSelected(env) then
          IssueFromS3(env, key, contentType, backends)
        else if !SupabaseConfigured(env) then
          Handled(Failure(500, NoProviderMessage), [])
        else
          IssueFromSupabase(env, key, contentType, backends)
  }

  /** The S3 request `POST` makes for a valid body under an AWS configuration. */
  function S3RequestFor(env: Env, body: PresignBody, now: UtcDate, suffix: string): S3PutRequest
    requires AwsSelected(env) && Valid(body)
  {
    S3ClientNeverThrowsFromPost(env);
    S3PutRequest(CreateS3Client(env).value, env.awsS3Bucket.value, ObjectKey(now, suffix, body.fileName.value),
      body.contentType.value, ExpirySeconds)
  }

  /** The Supabase request `POST` makes for a valid body under a Supabase-only configuration. */
  function UploadRequestFor(env: Env, body: PresignBody, now: UtcDate, suffix: string): SignUploadRequest
    requires SupabaseConfigured(env) && Valid(body)
  {
    SignUploadRequest(env.supabaseUrl.value, env.supabaseServiceRoleKey.value, env.supabaseBucket.value,
      ObjectKey(now, suffix, body.fileName.value), ExpirySeconds, body.contentType.value)
  }

  /** A valid request under an AWS configuration whose signing succeeds is
      answered with the AWS grant for the built key: the signed URL, the key,
      `AWS_S3_BUCKET` and the region, after exactly one presign call. */
  lemma AwsSigningGrants(env: Env, body: PresignBody, now: UtcDate, suffix: string, backends: Backends)
    requires Valid(body) && AwsSelected(env)
    requires backends.presignPut(S3RequestFor(env, body, now, suffix)).Returned?
    ensures Post(env, Returned(body), now, suffix, backends) == Handled(
      AwsGrant(backends.presignPut(S3RequestFor(env, body, now, suffix)).value,
        ObjectKey(now, suffix, body.fileName.value), env.awsS3Bucket.value, Region(env).value),
      [S3PresignPut(S3RequestFor(env, body, now, suffix))])
  {
  }

  /** A valid request under a Supabase-only configuration whose signing returns
      a ticket without error is answered with the Supabase grant for the built
      key: the key, `SUPABASE_BUCKET`, the signed URL and the token. */
  lemma SupabaseSigningGrants(
    env: Env, body: PresignBody, now: UtcDate, suffix: string, backends: Backends, ticket: UploadTicket)
    requires Valid(body) && !AwsSelected(env) && SupabaseConfigured(env)
    requires backends.signUpload(UploadRequestFor(env, body, now, suffix)) == Returned(StorageReply(Some(ticket), None))
    ensures Post(env, Returned(body), now, suffix, backends) == Handled(
      SupabaseGrant(ObjectKey(now, suffix, body.fileName.value), env.supabaseBucket.value, ticket.signedUrl, ticket.token),
      [SupabaseSignUpload(UploadRequestFor(env, body, now, suffix))])
  {
  }

  /** The provider is chosen by configuration alone: two valid requests under
      the same configuration go to the same provider, whatever their file
      names, content types, dates and suffixes. */
  lemma ProviderIndependentOfRequest(
    env: Env, b1: PresignBody, b2: PresignBody, d1: UtcDate, d2: UtcDate, s1: string, s2: string, backends: Backends)
    requires Valid(b1) && Valid(b2)
    requires AwsSelected(env) || SupabaseConfigured(env)
    ensures var h1, h2 := Post(env, Returned(b1), d1, s1, backends), Post(env, Returned(b2), d2, s2, backends);
      |h1.calls| == |h2.calls| == 1 && h1.calls[0].Provider() == h2.calls[0].Provider()
  {
  }
}
