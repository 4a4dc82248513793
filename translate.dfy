/** The transcribe-and-translate route (`POST /api/translate`): resolves the
    bucket, checks the request and configuration, downloads the object from
    Supabase storage, transcribes it and translates the transcript into French. */
module Translate {
  import opened Js
  import opened Strings
  import opened Environment
  import opened Services

  const MissingFieldsMessage := "Champs requis: key (+ bucket si non d\U{e9}fini en env)"
  const MissingOpenAIKeyMessage := "OPENAI_API_KEY manquant"
  const MissingSupabaseMessage := "Configurer SUPABASE_URL et SUPABASE_SERVICE_ROLE_KEY"
  const DownloadFailedMessage := "T\U{e9}l\U{e9}chargement Supabase \U{e9}chou\U{e9}"
  const EmptyTranscriptMessage := "Transcription vide"
  const DefaultFileName := "media"
  const DefaultMediaType := "application/octet-stream"
  const TranscriptionModel := "whisper-1"
  const TranslationModel := "gpt-4o-mini"
  const SystemPrompt := "Tu es un traducteur professionnel vers le fran\U{e7}ais."
  const PromptPrefix := "Traduire fid\U{e8}lement en fran\U{e7}ais, style clair et professionnel:\n\n"
  const Temperature: real := 0.2

  /** The JSON body's `key` and optional `bucket`. */
  datatype TranslateBody = TranslateBody(key: Option<string>, bucket: Option<string>)

  datatype TranslateResponse =
    | Failure(status: nat, error: string)
    | Translated(transcript: string, translationFr: string)

  // ---- guards ----

  /** `bodyBucket || SUPABASE_BUCKET`: a bucket is resolved exactly when the
      body or the environment names one; the body's takes precedence, and the
      result is always one of the two. */
  function ResolvedBucket(env: Env, body: TranslateBody): (b: Option<string>)
    ensures Truthy(b) <==> Truthy(body.bucket) || Truthy(env.supabaseBucket)
    ensures Truthy(body.bucket) ==> b == body.bucket
    ensures Truthy(b) ==> b == body.bucket || b == env.supabaseBucket
  {
    Or(body.bucket, env.supabaseBucket)
  }

  /** The request names a key and a bucket can be resolved. */
  predicate FieldsPresent(env: Env, body: TranslateBody) {
    Truthy(ResolvedBucket(env, body)) && Truthy(body.key)
  }

  predicate SupabaseReachable(env: Env) {
    Truthy(env.supabaseUrl) && Truthy(env.supabaseServiceRoleKey)
  }

  /** Every guard before the download passes. */
  predicate GuardsPass(env: Env, body: TranslateBody) {
    FieldsPresent(env, body) && Truthy(env.openaiApiKey) && SupabaseReachable(env)
  }

  // ---- file artefact ----

  /** `key.split("/").pop() || "media"` */
  function FileName(key: string): string {
    var last := LastSegment(key, '/');
    if last == "" then DefaultFileName else last
  }

  /** The file name is the text after the last `/` of the key (the whole key
      when it has no `/`), or `"media"` when that text is empty; either way it
      is a non-empty name without `/`. */
  lemma FileNameIsLastSegment(key: string)
    ensures var name := FileName(key);
      && name != "" && '/' !in name
      && (key == [] || key[|key| - 1] == '/' ==> name == DefaultFileName)
      && (key != [] && key[|key| - 1] != '/' ==>
            && |name| <= |key| && key[|key| - |name|..] == name
            && (|name| == |key| || key[|key| - |name| - 1] == '/'))
  {
    var last := LastSegment(key, '/');
    if last == "" {
      DefaultFileNameHasNoSlash();
    } else {
      assert last[|last| - 1] == key[|key| - 1];
    }
  }

  lemma DefaultFileNameHasNoSlash()
    ensures '/' !in DefaultFileName
  {
    assert forall i :: 0 <= i < |DefaultFileName| ==> DefaultFileName[i] != '/';
  }

  /** `downloadData.type || "application/octet-stream"` */
  function MediaType(t: string): (m: string)
    ensures m != ""
    ensures t != "" ==> m == t
    ensures t == "" ==> m == DefaultMediaType
  {
    if t == "" then DefaultMediaType else t
  }

  /** `toFile(blob, filename, { type })`: the downloaded bytes, named after the
      key and typed by what storage reported. */
  function Artifact(blob: Blob, key: string): (f: FileArtifact)
    ensures f.bytes == blob.bytes
    ensures f.name == FileName(key) && f.mediaType == MediaType(blob.mediaType)
  {
    FileArtifact(blob.bytes, FileName(key), MediaType(blob.mediaType))
  }

  // ---- transcript and translation ----

  /** `results?.[0]?.text` */
  function FirstSegmentText(t: Transcription): Option<string> {
    if t.results.Some? && |t.results.value| > 0 then t.results.value[0].text else None
  }

  /** `text || results?.[0]?.text || ""` */
  function TranscriptText(t: Transcription): (r: string)
    ensures r != "" <==> Truthy(t.text) || Truthy(FirstSegmentText(t))
    ensures Truthy(t.text) ==> r == t.text.value
    ensures !Truthy(t.text) && r != "" ==> Some(r) == FirstSegmentText(t)
  {
    if Truthy(t.text) then t.text.value
    else if Truthy(FirstSegmentText(t)) then FirstSegmentText(t).value
    else ""
  }

  /** `chat.choices?.[0]?.message?.content || ""` */
  function TranslationText(c: ChatReply): (r: string)
    ensures r != "" ==> c.choices.Some? && |c.choices.value| > 0 && c.choices.value[0].content == Some(r)
    ensures c.choices.Some? && |c.choices.value| > 0 && Truthy(c.choices.value[0].content) ==>
      r == c.choices.value[0].content.value
  {
    if c.choices.Some? && |c.choices.value| > 0 && Truthy(c.choices.value[0].content) then
      c.choices.value[0].content.value
    else ""
  }

  /** The chat completion request that translates `transcript` into French. */
  function TranslationRequest(apiKey: string, transcript: string): (r: ChatRequest)
    ensures r.model == TranslationModel && r.temperature == Temperature
    ensures |r.messages| == 2
    ensures r.messages[0] == ChatMessage("system", SystemPrompt)
    ensures r.messages[1].role == "user"
    ensures |r.messages[1].content| == |PromptPrefix| + |transcript|
    ensures r.messages[1].content[..|PromptPrefix|] == PromptPrefix
    ensures r.messages[1].content[|PromptPrefix|..] == transcript
  {
    ChatRequest(apiKey, TranslationModel,
      [ChatMessage("system", SystemPrompt), ChatMessage("user", PromptPrefix + transcript)], Temperature)
  }

  // ---- the handler ----

  /** Position of a call in the pipeline: download, then transcription, then translation. */
  function Stage(c: Call): nat {
    match c
    case SupabaseDownload(_) => 0
    case OpenAITranscribe(_) => 1
    case OpenAIChat(_) => 2
    case _ => 3
  }

  /** Stage order holds for a trace: the i-th call is the i-th stage. */
  predicate InStageOrder(calls: seq<Call>) {
    |calls| <= 3 && forall i :: 0 <= i < |calls| ==> Stage(calls[i]) == i
  }

  /** The translation step: `chat.completions.create` on a non-empty transcript. */
  function Translation(apiKey: string, transcript: string, backends: Backends): (h: Handled<TranslateResponse>)
    requires transcript != ""
    ensures h.calls == [OpenAIChat(TranslationRequest(apiKey, transcript))]
    ensures h.response.Translated? <==> backends.chat(h.calls[0].chat).Returned?
    ensures h.response.Translated? ==>
      && h.response.transcript == transcript
      && h.response.translationFr == TranslationText(backends.chat(h.calls[0].chat).value)
    ensures h.response.Failure? ==>
      h.response == Failure(500, CaughtMessage(backends.chat(h.calls[0].chat).thrown))
  {
    var chat := OpenAIChat(TranslationRequest(apiKey, transcript));
    match backends.chat(chat.chat)
    case Threw(t) => Handled(Failure(500, CaughtMessage(t)), [chat])
    case Returned(reply) => Handled(Translated(transcript, TranslationText(reply)), [chat])
  }

  /** The transcription step and what follows it: the downloaded blob is
      transcribed under the name taken from the key, and an empty transcript is
      rejected before the translation is ever requested. */
  function Transcription(apiKey: string, key: string, blob: Blob, backends: Backends): (h: Handled<TranslateResponse>)
    ensures 1 <= |h.calls| <= 2
    ensures h.calls[0] == OpenAITranscribe(TranscriptionRequest(apiKey, TranscriptionModel, Artifact(blob, key)))
    ensures var answer := backends.transcribe(h.calls[0].transcription);
      && (answer.Threw? ==> h == Handled(Failure(500, CaughtMessage(answer.thrown)), h.calls[..1]))
      && (answer.Returned? && TranscriptText(answer.value) == "" ==>
            h == Handled(Failure(500, EmptyTranscriptMessage), h.calls[..1]))
      && (|h.calls| == 2 <==> answer.Returned? && TranscriptText(answer.value) != "")
      && (|h.calls| == 2 ==> h.calls[1] == OpenAIChat(TranslationRequest(apiKey, TranscriptText(answer.value))))
      && (h.response.Translated? ==> |h.calls| == 2 && h.response.transcript == TranscriptText(answer.value))
    // the translation's outcome is the answer: the transcript with the first
    // choice's text (an empty translation is not an error), or the catch-all 500
    ensures |h.calls| == 2 ==>
      var transcript := TranscriptText(backends.transcribe(h.calls[0].transcription).value);
      var chat := backends.chat(h.calls[1].chat);
      && (chat.Returned? ==> h.response == Translated(transcript, TranslationText(chat.value)))
      && (chat.Threw? ==> h.response == Failure(500, CaughtMessage(chat.thrown)))
    ensures h.response.Translated? ==>
      && h.response.transcript != ""
      && backends.chat(h.calls[1].chat).Returned?
      && h.response.translationFr == TranslationText(backends.chat(h.calls[1].chat).value)
    ensures forall i :: 0 <= i < |h.calls| ==> Stage(h.calls[i]) == i + 1
  {
    var transcribe := OpenAITranscribe(TranscriptionRequest(apiKey, TranscriptionModel, Artifact(blob, key)));
    match backends.transcribe(transcribe.transcription)
    case Threw(t) => Handled(Failure(500, CaughtMessage(t)), [transcribe])
    case Returned(transcription) =>
      var transcript := TranscriptText(transcription);
      if transcript == "" then
        Handled(Failure(500, EmptyTranscriptMessage), [transcribe])
      else
        var rest := Translation(apiKey, transcript, backends);
        Handled(rest.response, [transcribe] + rest.calls)
  }

  /** The download step and what follows it: a failed download is a 500 and
      nothing is transcribed. */
  function Retrieval(request: DownloadRequest, apiKey: string, backends: Backends): (h: Handled<TranslateResponse>)
    ensures 1 <= |h.calls| <= 3
    ensures h.calls[0] == SupabaseDownload(request)
    ensures var answer := backends.download(request);
      && (answer.Threw? ==> h.response == Failure(500, CaughtMessage(answer.thrown)) && |h.calls| == 1)
      && (answer.Returned? && answer.value.Failed() ==>
            h.response == Failure(500, ReplyErrorMessage(answer.value.error, DownloadFailedMessage)) && |h.calls| == 1)
      && (|h.calls| >= 2 <==> answer.Returned? && !answer.value.Failed())
    ensures |h.calls| >= 2 ==>
      var blob := backends.download(request).value.data.value;
      h.calls[1] == OpenAITranscribe(TranscriptionRequest(apiKey, TranscriptionModel, Artifact(blob, request.key)))
    // after a successful download, the answer and the remaining calls are the transcription step's
    ensures |h.calls| >= 2 ==>
      var rest := Transcription(apiKey, request.key, backends.download(request).value.data.value, backends);
      h.response == rest.response && h.calls[1..] == rest.calls
    ensures InStageOrder(h.calls)
    ensures h.response.Translated? ==> |h.calls| == 3 && h.response.transcript != ""
  {
    var download := SupabaseDownload(request);
    match backends.download(request)
    case Threw(t) => Handled(Failure(500, CaughtMessage(t)), [download])
    case Returned(reply) =>
      if reply.Failed() then
        Handled(Failure(500, ReplyErrorMessage(reply.error, DownloadFailedMessage)), [download])
      else
        var blob := reply.data.value;
        var rest := Transcription(apiKey, request.key, blob, backends);
        var calls := [download] + rest.calls;
        assert calls[1..] == rest.calls;
        assert forall i :: 1 <= i < |calls| ==> Stage(calls[i]) == Stage(rest.calls[i - 1]);
        Handled(rest.response, calls)
  }

  /** `POST /api/translate` for a request whose body parsed to `request` (or
      whose parsing threw). */
  function Post(env: Env, request: Attempt<TranslateBody>, backends: Backends): (h: Handled<TranslateResponse>)
    // the guards, in order; each failing guard answers before anything is contacted
    ensures request.Returned? && !FieldsPresent(env, request.value) ==>
      h == Handled(Failure(400, MissingFieldsMessage), [])
    ensures request.Returned? && FieldsPresent(env, request.value) && !Truthy(env.openaiApiKey) ==>
      h == Handled(Failure(500, MissingOpenAIKeyMessage), [])
    ensures (request.Returned? && FieldsPresent(env, request.value) && Truthy(env.openaiApiKey)
      && !SupabaseReachable(env)) ==>
      h == Handled(Failure(500, MissingSupabaseMessage), [])
    ensures request.Threw? ==> h == Handled(Failure(500, CaughtMessage(request.thrown)), [])
    // once every guard passes the object is downloaded from Supabase storage,
    // from the resolved bucket, under the key; later calls follow in stage order
    ensures h.calls != [] <==> request.Returned? && GuardsPass(env, request.value)
    ensures h.calls != [] ==>
      h.calls[0] == SupabaseDownload(DownloadRequest(env.supabaseUrl.value, env.supabaseServiceRoleKey.value,
        ResolvedBucket(env, request.value).value, request.value.key.value))
    ensures InStageOrder(h.calls)
    ensures forall c :: c in h.calls && c.IsStorage() ==> c.Provider() == Supabase
    // only a completed pipeline answers with a transcript, and never an empty one
    ensures h.response.Translated? ==> |h.calls| == 3 && h.response.transcript != ""
    // once every guard passes, the answer is the download step's
    ensures request.Returned? && GuardsPass(env, request.value) ==>
      h == Retrieval(DownloadRequestFor(env, request.value), env.openaiApiKey.value, backends)
  {
    match request
    case Threw(t) => Handled(Failure(500, CaughtMessage(t)), [])
    case Returned(body) =>
      var bucket := ResolvedBucket(env, body);
      if !Truthy(bucket) || !Truthy(body.key) then
        Handled(Failure(400, MissingFieldsMessage), [])
      else if !Truthy(env.openaiApiKey) then
        Handled(Failure(500, MissingOpenAIKeyMessage), [])
      else if !Truthy(env.supabaseUrl) || !Truthy(env.supabaseServiceRoleKey) then
        Handled(Failure(500, MissingSupabaseMessage), [])
      else
        Retrieval(DownloadRequest(env.supabaseUrl.value, env.supabaseServiceRoleKey.value, bucket.value, body.key.value),
          env.openaiApiKey.value, backends)
  }

  /** The download `POST` requests once every guard passes. */
  function DownloadRequestFor(env: Env, body: TranslateBody): DownloadRequest
    requires GuardsPass(env, body)
  {
    DownloadRequest(env.supabaseUrl.value, env.supabaseServiceRoleKey.value,
      ResolvedBucket(env, body).value, body.key.value)
  }

  /** The transcription request for a downloaded blob. */
  function TranscriptionRequestFor(env: Env, body: TranslateBody, blob: Blob): TranscriptionRequest
    requires GuardsPass(env, body)
  {
    TranscriptionRequest(env.openaiApiKey.value, TranscriptionModel, Artifact(blob, body.key.value))
  }

  /** When every guard passes and every service answers, the response is the
      transcript and the translation, after exactly a download, a transcription
      and a translation, in that order. */
  lemma PipelineSucceeds(
    env: Env, body: TranslateBody, backends: Backends, blob: Blob, transcription: Transcription, reply: ChatReply)
    requires GuardsPass(env, body)
    requires backends.download(DownloadRequestFor(env, body)) == Returned(StorageReply(Some(blob), None))
    requires backends.transcribe(TranscriptionRequestFor(env, body, blob)) == Returned(transcription)
    requires TranscriptText(transcription) != ""
    requires backends.chat(TranslationRequest(env.openaiApiKey.value, TranscriptText(transcription))) == Returned(reply)
    ensures Post(env, Returned(body), backends) == Handled(
      Translated(TranscriptText(transcription), TranslationText(reply)),
      [ SupabaseDownload(DownloadRequestFor(env, body)),
        OpenAITranscribe(TranscriptionRequestFor(env, body, blob)),
        OpenAIChat(TranslationRequest(env.openaiApiKey.value, TranscriptText(transcription))) ])
  {
  }

  /** An empty transcript is a 500 `"Transcription vide"`, and the translation
      is never requested: the only calls are the download and the transcription. */
  lemma EmptyTranscriptRejected(
    env: Env, body: TranslateBody, backends: Backends, blob: Blob, transcription: Transcription)
    requires GuardsPass(env, body)
    requires backends.download(DownloadRequestFor(env, body)) == Returned(StorageReply(Some(blob), None))
    requires backends.transcribe(TranscriptionRequestFor(env, body, blob)) == Returned(transcription)
    requires TranscriptText(transcription) == ""
    ensures Post(env, Returned(body), backends) == Handled(
      Failure(500, EmptyTranscriptMessage),
      [SupabaseDownload(DownloadRequestFor(env, body)), OpenAITranscribe(TranscriptionRequestFor(env, body, blob))])
  {
  }

  /** A download that reports an error or returns no data is a 500 carrying the
      backend's message (or the default one), and nothing is transcribed. */
  lemma DownloadFailureReported(env: Env, body: TranslateBody, backends: Backends, reply: StorageReply<Blob>)
    requires GuardsPass(env, body)
    requires backends.download(DownloadRequestFor(env, body)) == Returned(reply)
    requires reply.Failed()
    ensures Post(env, Returned(body), backends) == Handled(
      Failure(500, ReplyErrorMessage(reply.error, DownloadFailedMessage)),
      [SupabaseDownload(DownloadRequestFor(env, body))])
  {
  }
}
