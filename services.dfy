/** The external services the handlers call (AWS S3 presigner, Supabase
    storage, OpenAI), seen only through the requests sent to them and the
    answers they give back. */
module Services {
  import opened Js

  type Bytes = seq<bv8>

  // ---- AWS S3 ----

  datatype S3Credentials = S3Credentials(accessKeyId: string, secretAccessKey: string)

  /** The settings an `S3Client` is constructed with. */
  datatype S3ClientSettings = S3ClientSettings(region: string, credentials: Option<S3Credentials>)

  /** `getSignedUrl(client, new PutObjectCommand({Bucket, Key, ContentType}), {expiresIn})`. */
  datatype S3PutRequest = S3PutRequest(
    client: S3ClientSettings, bucket: string, key: string, contentType: string, expiresIn: nat)

  // ---- Supabase storage ----

  /** `createClient(url, serviceKey).storage.from(bucket).createSignedUploadUrl(key, expiresIn, {contentType})`. */
  datatype SignUploadRequest = SignUploadRequest(
    url: string, serviceKey: string, bucket: string, key: string, expiresIn: nat, contentType: string)

  datatype UploadTicket = UploadTicket(signedUrl: string, token: string)

  /** `createClient(url, serviceKey).storage.from(bucket).download(key)`. */
  datatype DownloadRequest = DownloadRequest(url: string, serviceKey: string, bucket: string, key: string)

  /** A downloaded blob: its bytes and its `type` (`""` when storage reports none). */
  datatype Blob = Blob(bytes: Bytes, mediaType: string)

  datatype StorageError = StorageError(message: string)

  /** Supabase's `{ data, error }` answer. */
  datatype StorageReply<+T> = StorageReply(data: Option<T>, error: Option<StorageError>)
  {
    /** `error || !data` */
    predicate Failed() { error.Some? || data.None? }
  }

  /** `error?.message || fallback`: the backend's own message wins when it has
      one; otherwise the handler's fallback. The result is always one of the
      two, and is never empty when the fallback is not. */
  function ReplyErrorMessage(error: Option<StorageError>, fallback: string): (m: string)
    ensures error.Some? && error.value.message != "" ==> m == error.value.message
    ensures m == fallback || error == Some(StorageError(m))
    ensures fallback != "" ==> m != ""
  {
    if error.Some? && error.value.message != "" then error.value.message else fallback
  }

  // ---- OpenAI ----

  /** The file handed to the transcription endpoint (`toFile(blob, name, {type})`). */
  datatype FileArtifact = FileArtifact(bytes: Bytes, name: string, mediaType: string)

  datatype TranscriptionRequest = TranscriptionRequest(apiKey: string, model: string, file: FileArtifact)

  datatype Segment = Segment(text: Option<string>)

  /** The fields of a transcription answer the pipeline reads: `text` and `results[*].text`. */
  datatype Transcription = Transcription(text: Option<string>, results: Option<seq<Segment>>)

  datatype ChatMessage = ChatMessage(role: string, content: string)

  datatype ChatRequest = ChatRequest(apiKey: string, model: string, messages: seq<ChatMessage>, temperature: real)

  /** One entry of `choices`; `content` is `None` when the message or its content is absent. */
  datatype Choice = Choice(content: Option<string>)

  datatype ChatReply = ChatReply(choices: Option<seq<Choice>>)

  // ---- what a handler does to the outside world ----

  datatype Provider = Aws | Supabase

  /** One request a handler sends to an external service. */
  datatype Call =
    | S3PresignPut(put: S3PutRequest)
    | SupabaseSignUpload(upload: SignUploadRequest)
    | SupabaseDownload(download: DownloadRequest)
    | OpenAITranscribe(transcription: TranscriptionRequest)
    | OpenAIChat(chat: ChatRequest)
  {
    predicate IsStorage() {
      S3PresignPut? || SupabaseSignUpload? || SupabaseDownload?
    }

    /** The storage backend a storage call goes to. */
    function Provider(): Provider
      requires IsStorage()
    {
      if S3PresignPut? then Aws else Supabase
    }
  }

  /** The answers the external services give, one function per kind of call.
      A handler sees nothing of them but the answer to the requests it makes. */
  datatype Backends = Backends(
    presignPut: S3PutRequest -> Attempt<string>,
    signUpload: SignUploadRequest -> Attempt<StorageReply<UploadTicket>>,
    download: DownloadRequest -> Attempt<StorageReply<Blob>>,
    transcribe: TranscriptionRequest -> Attempt<Transcription>,
    chat: ChatRequest -> Attempt<ChatReply>
  )

  /** What a handler returns: its response and, in order, the external calls it made. */
  datatype Handled<+R> = Handled(response: R, calls: seq<Call>)
}
