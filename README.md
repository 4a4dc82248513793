# Presigned upload and transcribe-translate routes, modelled in Dafny

This project models the two Next.js API routes at the core of the media
pipeline:

- `POST /api/presign` (`web/src/app/api/presign/route.ts`) checks that the
  request names a `fileName` and a `contentType`. It builds the object key
  `yyyy/mm/dd/<suffix>-<sanitized>` from the UTC date, a random base-36 suffix
  and the file name with every character outside `[a-zA-Z0-9._-]` replaced by
  `_`. It then issues a 300-second upload credential: an S3 pre-signed PUT URL
  when `AWS_S3_BUCKET` and a region are configured, otherwise a Supabase
  signed-upload URL and token when the three Supabase variables are set,
  otherwise a 500.
- `POST /api/translate` (`web/src/app/api/translate/route.ts`) resolves the
  bucket (body, then `SUPABASE_BUCKET`) and checks, in order, the request
  fields (400), `OPENAI_API_KEY` (500) and the Supabase URL and service key
  (500). It downloads the object from Supabase storage and wraps it as a file
  named after the last `/`-segment of the key (default `media`). It has it
  transcribed (`whisper-1`), rejects an empty transcript with a 500, and has
  the transcript translated into French (`gpt-4o-mini`, temperature 0.2).

Both routes are pure straight-line code over `const` bindings, so both are
modelled as functions. The calls to the AWS SDK, Supabase and OpenAI are
opaque. `Services.Backends` holds one function per kind of call, giving the
answer to each request. Each handler returns `Handled(response, calls)`:
`calls` lists the external requests the handler made, in order. This lets the
contracts state which service is contacted, with what, and in which order.
The clock and `Math.random` are parameters: a `UtcDate` and a `suffix` string.

Modules: `Js` (truthiness, `||`, thrown values, the catch-all message),
`Strings` (`split`/`pop`, `String(n)`, `padStart`), `Environment` (the
environment variables), `Services` (external requests and answers), `Presign`,
`Translate`, and `Protocol` (lemmas connecting the two routes).

Facts about the code worth stating plainly:

- The upload route names its two providers `aws` and `supabase`. AWS is tried
  first and Supabase only when AWS is not configured.
- The random suffix is `Math.random().toString(36).slice(2, 10)`: at most eight
  base-36 characters, possibly fewer.
- The translate route never consults the AWS settings: it always downloads
  from Supabase storage. A key issued under the AWS branch of the upload route
  is therefore looked up in Supabase (`Protocol.AwsGrantLookedUpInSupabase`,
  `Protocol.AwsOnlyDeploymentCannotFetch`).

## Model

| member | source | states |
|---|---|---|
| `Presign.Sanitize` | web/src/app/api/presign/route.ts:43 | Preserves length. Every output character is in `[a-zA-Z0-9._-]`. Allowed characters are kept in place and every other character becomes `_`. |
| `Presign.SanitizeIdempotent` | web/src/app/api/presign/route.ts:43 | Sanitising an already-sanitised name returns it unchanged. |
| `Presign.SanitizeFixedPoints` | web/src/app/api/presign/route.ts:43 | A name is unchanged by sanitisation exactly when all its characters are allowed. |
| `Presign.TwoDigits` | web/src/app/api/presign/route.ts:39-40 | `String(n).padStart(2,"0")` is all digits. For 1..99 it is exactly two digits that read back as `n`. |
| `Presign.DateSegments` | web/src/app/api/presign/route.ts:37-41 | For a UTC date, the year segment reads back as the year. The month segment is two digits with value month+1 in 1..12, and the day segment is two digits with value 1..31. |
| `Presign.KeySegments` | web/src/app/api/presign/route.ts:41-44 | For a base-36 suffix of length at most 8, the key splits on `/` into exactly four segments: year, month, day and `suffix-sanitized`. |
| `Presign.CreateS3Client` | web/src/app/api/presign/route.ts:6-23 | Throws the missing-region error exactly when neither `AWS_REGION` nor `AWS_DEFAULT_REGION` is set. The region is the first one set. Explicit credentials are used exactly when both key-pair variables are set. |
| `Presign.S3ClientNeverThrowsFromPost` | web/src/app/api/presign/route.ts:47-51 | Whenever the AWS branch is taken, `createS3Client` returns a client for the selected region, so its throw is unreachable from `POST`. |
| `Presign.Post` | web/src/app/api/presign/route.ts:25-82 | 400 exactly on a missing or empty field, with no external call. At most one credential request is made, and one is made exactly when the request is valid and a provider is configured. Its provider is chosen by configuration alone (AWS first), and it binds the built key, the content type and 300 s; a grant is only ever for that key. No provider configured gives a 500 with no call. A valid request under AWS is answered as `Presign.IssueFromS3`, under Supabase only as `Presign.IssueFromSupabase`. An unparsable body gives the catch-all 500. |
| `Presign.IssueFromS3` | web/src/app/api/presign/route.ts:47-58 | One `getSignedUrl` call for a `PutObjectCommand` on `AWS_S3_BUCKET` with the key, the content type and 300 s, through the client `createS3Client` builds. When signing returns, the answer is the `aws` grant with the URL, key, bucket and region; when it throws, the catch-all 500. |
| `Presign.IssueFromSupabase` | web/src/app/api/presign/route.ts:62-77 | One `createSignedUploadUrl` call on `SUPABASE_BUCKET` with the Supabase URL and service key, the key, 300 s and the content type. Data without error gives the `supabase` grant with the key, bucket, signed URL and token; an error or no data gives a 500 with the backend's message or the default one; a throw gives the catch-all 500. |
| `Presign.AwsSigningGrants` | web/src/app/api/presign/route.ts:47-58 | For every valid request under an AWS configuration whose signing returns a URL, the whole answer is the `aws` grant for the built key, after exactly that one presign call. |
| `Presign.SupabaseSigningGrants` | web/src/app/api/presign/route.ts:61-77 | For every valid request under a Supabase-only configuration whose signing returns a ticket without error, the whole answer is the `supabase` grant for the built key with that ticket's URL and token, after exactly that one call. |
| `Presign.ProviderIndependentOfRequest` | web/src/app/api/presign/route.ts:47-70 | Two valid requests under the same configuration go to the same provider, whatever their file names, content types, dates and suffixes. |
| `Strings.Split` | web/src/app/api/translate/route.ts:31 | `split("/")` gives at least one part. No part holds the separator, and joining the parts with the separator gives the input back. |
| `Strings.SplitJoin` | web/src/app/api/translate/route.ts:31 | Splitting a join of separator-free parts returns those parts, so `split` is the unique such decomposition. |
| `Strings.LastSegment` | web/src/app/api/translate/route.ts:31 | `split("/").pop()` is a separator-free suffix of the input. It is either the whole input or preceded by the separator, that is, the text after the last `/`. |
| `Strings.Decimal` | web/src/app/api/presign/route.ts:38-40 | `String(n)` is a non-empty digit string without a leading zero. It has one digit below 10 and two digits from 10 to 99. |
| `Strings.ValueOfDecimal` | web/src/app/api/presign/route.ts:38-40 | Reading `String(n)` back as a decimal numeral gives `n`. |
| `Strings.PadStart` | web/src/app/api/presign/route.ts:39-40 | `padStart` gives length max(len, width). The input is a suffix of the result and everything before it is the pad character. |
| `Strings.LeadingZeros` | web/src/app/api/presign/route.ts:39-40 | Zero padding does not change the value of a numeral. |
| `Js.CaughtMessage` | web/src/app/api/presign/route.ts:78-81 | A thrown `Error` is reported by its own message, unchanged; any message other than `"Erreur inconnue"` is exactly the message of the `Error` that was thrown, so the catch-all never invents a text. |
| `Services.ReplyErrorMessage` | web/src/app/api/presign/route.ts:73-74 | The backend's message wins when it is non-empty. The reported message is always either the backend's own message or the route's default, and it is never empty when the default is not. |
| `Translate.ResolvedBucket` | web/src/app/api/translate/route.ts:11 | A bucket is resolved exactly when the body or `SUPABASE_BUCKET` names one; the body's takes precedence, and the result is always one of the two. |
| `Translate.FileNameIsLastSegment` | web/src/app/api/translate/route.ts:31 | The upload name is non-empty and has no `/`. It is `"media"` when the key is empty or ends in `/`. Otherwise it is the text after the key's last `/`, or the whole key if the key has no `/`. |
| `Translate.MediaType` | web/src/app/api/translate/route.ts:32 | The media type is the downloaded type when non-empty and `application/octet-stream` when it is empty; never empty. |
| `Translate.TranscriptText` | web/src/app/api/translate/route.ts:43 | The transcript is `text` when truthy, otherwise the first result's `text`. It is empty exactly when neither is truthy. |
| `Translate.Translation` | web/src/app/api/translate/route.ts:48-60 | Makes exactly one chat call, with `Translate.TranslationRequest`: `gpt-4o-mini` at temperature 0.2, the French-translator system message, and a user message that is the fixed prompt followed by exactly the transcript. When the call returns, the answer is the transcript and `Translate.TranslationText` of the reply (the first choice's content, or `""`, which is not an error); when it throws, the catch-all 500. |
| `Translate.Transcription` | web/src/app/api/translate/route.ts:30-60 | Transcribes, with `whisper-1`, the file `Translate.Artifact` builds: the downloaded bytes, named by the file-name rule and typed by the media-type rule. A thrown call or an empty transcript gives a 500 and no translation call. The translation is requested exactly when the transcript is non-empty, for that transcript only, and its outcome is the answer. |
| `Translate.Retrieval` | web/src/app/api/translate/route.ts:25-60 | Downloads first. A download that throws, reports an error or returns no data gives a 500 with the backend or default message, and nothing is transcribed. After a successful download, the answer and the remaining calls are the transcription step's for the downloaded blob. The calls follow stage order. |
| `Translate.Post` | web/src/app/api/translate/route.ts:8-65 | The guards run in order (fields 400, OpenAI key 500, Supabase settings 500), each with no external call. An external call happens exactly when every guard passes, and then the answer is the download step's for the key in the resolved bucket. Storage calls only ever go to Supabase, and calls follow download, transcription, translation order. A transcript is returned only after all three stages, and it is never empty. |
| `Translate.PipelineSucceeds` | web/src/app/api/translate/route.ts:25-60 | When every guard passes and the download, the transcription (non-empty) and the chat all answer, the response is the transcript and the first choice's text, after exactly those three calls in that order. |
| `Translate.EmptyTranscriptRejected` | web/src/app/api/translate/route.ts:43-46 | When the transcript is empty, the answer is the 500 `"Transcription vide"` after only the download and the transcription: the translation is never requested. |
| `Translate.DownloadFailureReported` | web/src/app/api/translate/route.ts:26-29 | A download that reports an error or returns no data is answered by a 500 carrying the backend's message or the default one, after that single call. |
| `Protocol.FileNameOfIssuedKey` | web/src/app/api/translate/route.ts:31 | For any key the presign route builds, the file name the pipeline derives is exactly `suffix-sanitized`. |
| `Protocol.GrantedKeyKeepsUploadName` | web/src/app/api/presign/route.ts:44 | For any granted upload, whichever provider granted it, the pipeline names the file after the granted key's `suffix-sanitized`. |
| `Protocol.AwsGrantLookedUpInSupabase` | web/src/app/api/translate/route.ts:20-26 | For a key granted under the AWS branch, the pipeline's only storage access is a Supabase download. It uses the Supabase URL and the body's bucket or `SUPABASE_BUCKET`. |
| `Protocol.AwsOnlyDeploymentCannotFetch` | web/src/app/api/translate/route.ts:20-24 | Take an AWS-only configuration with an OpenAI key. The pipeline, given the AWS-granted key and bucket, answers 500 for missing Supabase settings and fetches nothing. |

## Left out

- External services: `getSignedUrl`, `createSignedUploadUrl`, `storage.download` and the OpenAI transcription and chat calls are opaque functions in `Services.Backends`. Only the request sent and the answer received are modelled. `toFile` is not a service call here: it is the pure `Translate.Artifact`.
- `createClient`: the Supabase client is folded into each storage request (URL and service key). A throw from `createClient` itself, for example on a malformed URL, is not modelled.
- `arrayBuffer()` and `toFile` are assumed not to reject. A rejection would reach the catch-all 500 like any other thrown value.
- Time and randomness: `new Date()` becomes the `UtcDate` parameter. `Math.random().toString(36).slice(2, 10)` becomes the `suffix` parameter, constrained by `Presign.ValidSuffix` where a lemma needs it.
- JSON request parsing: a body is either parsed into optional string fields or throws. Fields holding non-string JSON values, which would make `replace`/`split` throw into the catch-all, are not modelled.
- `NextResponse` plumbing: a response is a datatype with a status and fields, not an HTTP object.
- `Presign.Sanitize`: strings are sequences of characters, each standing for one UTF-16 code unit. A character outside the Basic Multilingual Plane counts as two code units in JavaScript and is replaced by `__` there. Here it is one character and becomes `_`.
- Async/await: it adds no concurrency semantics within one request, and requests share no state.
- `web/src/app/page.tsx` (the client UI) and `cloud/asr_function/main.py`, `cloud/llm_function/main.py` (unimplemented stubs) are not part of this model.
