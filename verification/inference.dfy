/** The two inference backends of the relay (Anthropic Claude and Google
    Gemini) over an abstract HTTP exchange.

    The network is the parameter `post`: the reply the provider gives to a
    request. A provider operation is specified by a function returning the
    requests it issued, in order, and its outcome (`Call`); each backend
    method walks the same steps one at a time, with the early exits of the
    Python code, and is proved to agree with that function. */
module Inference {
  import opened Results
  import opened PyStr

  newtype byte = x: int | 0 <= x < 256

  /** One JPEG-encoded still image, as received from the client. */
  type Frame = seq<byte>

  /** The process environment after the .env file is loaded. */
  type Env = map<string, string>

  const ClaudeKeyVariable := "ANTHROPIC_KEY"
  const GeminiKeyVariable := "DEEPMIND_KEY"
  const ClaudeModel := "claude-3-haiku-20240307"
  const ClaudeMessagesUrl := "https://api.anthropic.com/v1/messages"
  const AnthropicVersion := "2023-06-01"
  const GeminiUploadUrl := "https://generativelanguage.googleapis.com/upload/v1beta/files"
  const GeminiGenerateUrl := "https://generativelanguage.googleapis.com/v1beta/models/gemini-1.5-flash:generateContent"
  const JpegMime := "image/jpeg"
  /** Output budget of a Claude description. */
  const DescribeMaxTokens: nat := 50
  /** Output budget of a hazard check, on both providers. */
  const HazardMaxTokens: nat := 1

  // ---------------------------------------------------------------------
  // Requests and replies

  /** A part of a prompt. `Image` embeds the frame (its `data` is sent
      base64-encoded; the encoding itself is not modelled). */
  datatype Part =
    | Image(sourceType: string, mediaType: string, data: Frame)
    | Text(text: string)
    | FileData(mimeType: string, fileUri: string)

  datatype Message = Message(role: string, content: seq<Part>)

  datatype Body =
    | Messages(model: string, maxTokens: nat, messages: seq<Message>)  // Claude messages call
    | Contents(contents: seq<seq<Part>>, tokenLimit: Option<nat>)      // Gemini generateContent call
    | FileMetadata(displayName: string)                                // Gemini upload start
    | Raw(bytes: Frame)                                                // Gemini upload finalize

  datatype HttpRequest = Post(url: string, headers: map<string, string>, body: Body)

  /** What the provider answered, reduced to the fields the backend reads:
      the status, the X-Goog-Upload-URL header, the `file.uri` field and the
      generated text (`content[0].text` for Claude,
      `candidates[0].content.parts[0].text` for Gemini). `NoResponse` stands
      for an exception raised by the HTTP client (timeout, connection error). */
  datatype HttpResponse =
    | Response(status: int, uploadUrl: Option<string>, fileUri: Option<string>, text: Option<string>)
    | NoResponse

  /** The requests an operation issued, in order, and its outcome. */
  datatype Call<+T> = Call(sent: seq<HttpRequest>, result: Result<T>)

  predicate Succeeded(response: HttpResponse) {
    response.Response? && response.status == 200
  }

  /** Python truthiness of an optional string: present and non-empty. */
  predicate Truthy(s: Option<string>) {
    s.Some? && s.value != ""
  }

  // ---------------------------------------------------------------------
  // Backends

  datatype BackendClass = ClaudeClass | GeminiClass

  datatype Backend = Claude(claude: ClaudeBackend) | Gemini(gemini: GeminiBackend) {
    function Class(): BackendClass {
      if Claude? then ClaudeClass else GeminiClass
    }
    function ApiKey(): string {
      if Claude? then claude.apiKey else gemini.apiKey
    }
  }

  function KeyVariable(cls: BackendClass): string {
    match cls
    case ClaudeClass => ClaudeKeyVariable
    case GeminiClass => GeminiKeyVariable
  }

  /** `ClaudeBackend()`: reads ANTHROPIC_KEY; absent or empty is an error. */
  function NewClaude(env: Env): (r: Result<ClaudeBackend>)
    ensures r.Ok? <==> ClaudeKeyVariable in env && env[ClaudeKeyVariable] != ""
    ensures r.Ok? ==> r.value == ClaudeBackend(env[ClaudeKeyVariable], ClaudeModel)
    ensures r.Err? ==> r.error == MissingCredential(ClaudeKeyVariable)
  {
    if ClaudeKeyVariable in env && env[ClaudeKeyVariable] != "" then
      Ok(ClaudeBackend(env[ClaudeKeyVariable], ClaudeModel))
    else
      Err(MissingCredential(ClaudeKeyVariable))
  }

  /** `GeminiBackend()`: reads DEEPMIND_KEY; absent or empty is an error. */
  function NewGemini(env: Env): (r: Result<GeminiBackend>)
    ensures r.Ok? <==> GeminiKeyVariable in env && env[GeminiKeyVariable] != ""
    ensures r.Ok? ==> r.value == GeminiBackend(env[GeminiKeyVariable], GeminiUploadUrl, GeminiGenerateUrl)
    ensures r.Err? ==> r.error == MissingCredential(GeminiKeyVariable)
  {
    if GeminiKeyVariable in env && env[GeminiKeyVariable] != "" then
      Ok(GeminiBackend(env[GeminiKeyVariable], GeminiUploadUrl, GeminiGenerateUrl))
    else
      Err(MissingCredential(GeminiKeyVariable))
  }

  /** Calling a backend class with no arguments, as the caption service does:
      the backend it builds is of that class and always holds a non-empty
      key, read from that class's variable. */
  function Instantiate(cls: BackendClass, env: Env): (r: Result<Backend>)
    ensures r.Ok? <==> KeyVariable(cls) in env && env[KeyVariable(cls)] != ""
    ensures r.Ok? ==> r.value.Class() == cls && r.value.ApiKey() == env[KeyVariable(cls)] != ""
    ensures r.Err? ==> r.error == MissingCredential(KeyVariable(cls))
  {
    match cls
    case ClaudeClass =>
      (match NewClaude(env) case Ok(c) => Ok(Claude(c)) case Err(e) => Err(e))
    case GeminiClass =>
      (match NewGemini(env) case Ok(g) => Ok(Gemini(g)) case Err(e) => Err(e))
  }

  // ---------------------------------------------------------------------
  // Request composition

  function ClaudeRequest(c: ClaudeBackend, frame: Frame, prompt: string, maxTokens: nat): HttpRequest {
    var headers := map[
      "x-api-key" := c.apiKey,
      "anthropic-version" := AnthropicVersion,
      "content-type" := "application/json"];
    var content := [Image("base64", JpegMime, frame), Text(prompt)];
    Post(ClaudeMessagesUrl, headers, Messages(c.model, maxTokens, [Message("user", content)]))
  }

  function UploadStartRequest(g: GeminiBackend, frame: Frame): HttpRequest {
    var headers := map[
      "X-Goog-Upload-Protocol" := "resumable",
      "X-Goog-Upload-Command" := "start",
      "X-Goog-Upload-Header-Content-Length" := DecimalString(|frame|),
      "X-Goog-Upload-Header-Content-Type" := JpegMime,
      "Content-Type" := "application/json"];
    Post(g.uploadUrl + "?key=" + g.apiKey, headers, FileMetadata("Uploaded Image"))
  }

  function UploadBytesRequest(uploadUrl: string, frame: Frame): HttpRequest {
    var headers := map[
      "Content-Length" := DecimalString(|frame|),
      "X-Goog-Upload-Offset" := "0",
      "X-Goog-Upload-Command" := "upload, finalize"];
    Post(uploadUrl, headers, Raw(frame))
  }

  function GenerateRequest(g: GeminiBackend, fileUri: string, prompt: string, maxTokens: Option<nat>): HttpRequest {
    var parts := [Text(prompt), FileData(JpegMime, fileUri)];
    Post(g.generateUrl + "?key=" + g.apiKey, map["Content-Type" := "application/json"], Contents([parts], maxTokens))
  }

  /** Reads a numeric header the way the receiving server does. */
  function HeaderNumber(request: HttpRequest, name: string): Option<nat> {
    if name in request.headers then ParseDecimal(request.headers[name]) else None
  }

  /** The output budget a request asks for, if any. */
  function MaxTokensOf(request: HttpRequest): Option<nat> {
    match request.body
    case Messages(_, n, _) => Some(n)
    case Contents(_, n) => n
    case _ => None
  }

  /** The prompt parts of a generation request, in the order they are sent. */
  function PartsOf(request: HttpRequest): seq<Part> {
    match request.body
    case Messages(_, _, messages) => if messages == [] then [] else messages[0].content
    case Contents(contents, _) => if contents == [] then [] else contents[0]
    case _ => []
  }

  // ---------------------------------------------------------------------
  // Replies

  /** The reply to a generation call: the text, once the status is 200. */
  function TextReply(response: HttpResponse): (r: Result<string>)
    ensures r.Ok? ==> Succeeded(response) && response.text == Some(r.value)
    ensures response.NoResponse? ==> r == Err(TransportFailure)
    ensures response.Response? && response.status != 200 ==> r == Err(BadStatus(response.status))
    ensures Succeeded(response) && response.text.None? ==> r == Err(MissingText)
    ensures Succeeded(response) && response.text.Some? ==> r == Ok(response.text.value)
  {
    match response
    case NoResponse => Err(TransportFailure)
    case Response(status, _, _, text) =>
      if status != 200 then Err(BadStatus(status))
      else if text.None? then Err(MissingText)
      else Ok(text.value)
  }

  /** The hazard answer as the model sends it, trimmed and lower-cased. */
  function Normalize(text: string): string {
    Lower(Strip(text))
  }

  /** The verdict parser of both `is_hazard` implementations. */
  function ParseVerdict(text: string): (r: Result<bool>)
    ensures r == Ok(true) <==> Normalize(text) == "yes"
    ensures r == Ok(false) <==> Normalize(text) == "no"
    ensures r.Err? ==> r.error == UnexpectedAnswer
  {
    var answer := Normalize(text);
    if answer == "yes" then Ok(true)
    else if answer == "no" then Ok(false)
    else Err(UnexpectedAnswer)
  }

  function AsVerdict(r: Result<string>): Result<bool> {
    match r
    case Err(e) => Err(e)
    case Ok(text) => ParseVerdict(text)
  }

  // ---------------------------------------------------------------------
  // Provider operations

  /** One Claude messages call with the given output budget. */
  function ClaudeCall(c: ClaudeBackend, frame: Frame, prompt: string, maxTokens: nat,
                      post: HttpRequest -> HttpResponse): Call<string>
  {
    var request := ClaudeRequest(c, frame, prompt, maxTokens);
    Call([request], TextReply(post(request)))
  }

  /** `GeminiBackend.upload_image`: the two-phase resumable upload. */
  function Upload(g: GeminiBackend, frame: Frame, post: HttpRequest -> HttpResponse): (r: Call<string>)
    ensures 1 <= |r.sent| <= 2 && r.sent[0] == UploadStartRequest(g, frame)
  {
    var start := UploadStartRequest(g, frame);
    match post(start)
    case NoResponse => Call([start], Err(TransportFailure))
    case Response(status, uploadUrl, _, _) =>
      if status != 200 then Call([start], Err(BadStatus(status)))
      else if !Truthy(uploadUrl) then Call([start], Err(NoUploadUrl))
      else
        var finalize := UploadBytesRequest(uploadUrl.value, frame);
        match post(finalize)
        case NoResponse => Call([start, finalize], Err(TransportFailure))
        case Response(status', _, fileUri, _) =>
          if status' != 200 then Call([start, finalize], Err(BadStatus(status')))
          else if !Truthy(fileUri) then Call([start, finalize], Err(NoFileUri))
          else Call([start, finalize], Ok(fileUri.value))
  }

  /** Upload, then one generateContent call over the uploaded file. */
  function GeminiCall(g: GeminiBackend, frame: Frame, prompt: string, maxTokens: Option<nat>,
                      post: HttpRequest -> HttpResponse): Call<string>
  {
    var upload := Upload(g, frame, post);
    match upload.result
    case Err(e) => Call(upload.sent, Err(e))
    case Ok(fileUri) =>
      var request := GenerateRequest(g, fileUri, prompt, maxTokens);
      Call(upload.sent + [request], TextReply(post(request)))
  }

  /** `describe_frame` of either backend. */
  function DescribeCall(b: Backend, frame: Frame, prompt: string, post: HttpRequest -> HttpResponse): Call<string> {
    match b
    case Claude(c) => ClaudeCall(c, frame, prompt, DescribeMaxTokens, post)
    case Gemini(g) => GeminiCall(g, frame, prompt, None, post)
  }

  /** `is_hazard` of either backend. */
  function HazardCall(b: Backend, frame: Frame, prompt: string, post: HttpRequest -> HttpResponse): Call<bool> {
    var call := match b
      case Claude(c) => ClaudeCall(c, frame, prompt, HazardMaxTokens, post)
      case Gemini(g) => GeminiCall(g, frame, prompt, Some(HazardMaxTokens), post);
    Call(call.sent, AsVerdict(call.result))
  }

  // ---------------------------------------------------------------------
  // Properties of the verdict parser

  /** `word`, in any letter case, with nothing but whitespace around it. */
  predicate PaddedWord(s: string, word: string) {
    exists i, j :: 0 <= i <= j <= |s| && AllSpace(s[..i]) && AllSpace(s[j..]) && Lower(s[i..j]) == word
  }

  lemma NormalizePadded(s: string, i: nat, j: nat, word: string)
    requires i <= j <= |s| && AllSpace(s[..i]) && AllSpace(s[j..]) && Lower(s[i..j]) == word
    requires word != [] && !IsSpace(word[0]) && !IsSpace(word[|word| - 1])
    ensures Normalize(s) == word
  {
    var w := s[i..j];
    assert s == s[..i] + w + s[j..];
    StripPadded(s[..i], w, s[j..]);
    LowerKeepsSpace(w[0]);
    LowerKeepsSpace(w[|w| - 1]);
    assert Lower(w)[0] == LowerChar(w[0]) && Lower(w)[|w| - 1] == LowerChar(w[|w| - 1]);
    assert TrimStart(w) == w;
    assert Strip(w) == w;
  }

  /** A padded `word` is exactly what normalises to `word`. */
  lemma PaddedWordIffNormal(s: string, word: string)
    requires word != [] && !IsSpace(word[0]) && !IsSpace(word[|word| - 1])
    ensures PaddedWord(s, word) <==> Normalize(s) == word
  {
    var i, j := StripSlice(s);
    assert Normalize(s) == Lower(s[i..j]);
    if PaddedWord(s, word) {
      var i', j' :| 0 <= i' <= j' <= |s| && AllSpace(s[..i']) && AllSpace(s[j'..]) && Lower(s[i'..j']) == word;
      NormalizePadded(s, i', j', word);
    }
  }

  /** The verdict is true exactly for "yes" and false exactly for "no", each
      in any case and with any surrounding whitespace; every other answer is
      an error, never a silent false. */
  lemma VerdictIsPaddedWord(s: string)
    ensures ParseVerdict(s) == Ok(true) <==> PaddedWord(s, "yes")
    ensures ParseVerdict(s) == Ok(false) <==> PaddedWord(s, "no")
    ensures ParseVerdict(s).Err? <==> !PaddedWord(s, "yes") && !PaddedWord(s, "no")
  {
    PaddedWordIffNormal(s, "yes");
    PaddedWordIffNormal(s, "no");
  }

  /** The verdict ignores whitespace around the answer. */
  lemma VerdictIgnoresPadding(p: string, s: string, q: string)
    requires AllSpace(p) && AllSpace(q)
    ensures ParseVerdict(p + s + q) == ParseVerdict(s)
  {
    StripPadded(p, s, q);
  }

  /** The verdict ignores letter case. */
  lemma VerdictIgnoresCase(s: string, t: string)
    requires Lower(s) == Lower(t)
    ensures ParseVerdict(s) == ParseVerdict(t)
  {
    StripLowerCommute(s);
    StripLowerCommute(t);
  }

  // ---------------------------------------------------------------------
  // Properties of the provider calls

  /** `upload_image` yields the file URI exactly when both replies are 200,
      the first carries an upload URL and the second a file URI; the second
      request goes to that URL and is sent only if the first reply passed
      both checks; each failed check is reported as such. */
  lemma UploadContract(g: GeminiBackend, frame: Frame, post: HttpRequest -> HttpResponse)
    ensures var r := Upload(g, frame, post);
      var start := post(r.sent[0]);
      && (|r.sent| == 2 <==> Succeeded(start) && Truthy(start.uploadUrl))
      && (|r.sent| == 2 ==> r.sent[1] == UploadBytesRequest(start.uploadUrl.value, frame))
      && (start.Response? && start.status != 200 ==> r.result == Err(BadStatus(start.status)))
      && (Succeeded(start) && !Truthy(start.uploadUrl) ==> r.result == Err(NoUploadUrl))
      && (r.result.Ok? <==> |r.sent| == 2 && Succeeded(post(r.sent[1])) && Truthy(post(r.sent[1]).fileUri))
      && (r.result.Ok? ==> Some(r.result.value) == post(r.sent[1]).fileUri)
      && (|r.sent| == 2 && post(r.sent[1]).Response? && post(r.sent[1]).status != 200 ==>
            r.result == Err(BadStatus(post(r.sent[1]).status)))
      && (|r.sent| == 2 && Succeeded(post(r.sent[1])) && !Truthy(post(r.sent[1]).fileUri) ==>
            r.result == Err(NoFileUri))
  {
  }

  /** Each operation stops at the first failed exchange: every request but
      the last got a 200 reply, a success means every reply was 200, and a
      non-200 status on the last reply is the error reported, whatever the
      body says. */
  lemma StatusCheckedFirst(b: Backend, frame: Frame, prompt: string, post: HttpRequest -> HttpResponse)
    ensures var d := DescribeCall(b, frame, prompt, post);
      && d.sent != []
      && (forall k :: 0 <= k < |d.sent| - 1 ==> Succeeded(post(d.sent[k])))
      && (d.result.Ok? ==> forall k :: 0 <= k < |d.sent| ==> Succeeded(post(d.sent[k])))
      && (post(d.sent[|d.sent| - 1]).Response? && post(d.sent[|d.sent| - 1]).status != 200 ==>
            d.result == Err(BadStatus(post(d.sent[|d.sent| - 1]).status)))
    ensures var h := HazardCall(b, frame, prompt, post);
      && h.sent != []
      && (forall k :: 0 <= k < |h.sent| - 1 ==> Succeeded(post(h.sent[k])))
      && (h.result.Ok? ==> forall k :: 0 <= k < |h.sent| ==> Succeeded(post(h.sent[k])))
      && (post(h.sent[|h.sent| - 1]).Response? && post(h.sent[|h.sent| - 1]).status != 200 ==>
            h.result == Err(BadStatus(post(h.sent[|h.sent| - 1]).status)))
  {
    if b.Gemini? {
      var up := Upload(b.gemini, frame, post);
      if up.result.Ok? {
        assert Succeeded(post(up.sent[0])) && Succeeded(post(up.sent[1]));
      }
    }
  }

  /** Both upload requests declare the frame's length, read back as a
      number; the second goes to the URL the first reply named, at offset 0,
      carrying the frame itself. */
  lemma UploadDeclaresFrameLength(g: GeminiBackend, frame: Frame, post: HttpRequest -> HttpResponse)
    ensures var sent := Upload(g, frame, post).sent;
      && HeaderNumber(sent[0], "X-Goog-Upload-Header-Content-Length") == Some(|frame|)
      && (|sent| == 2 ==>
            && HeaderNumber(sent[1], "Content-Length") == Some(|frame|)
            && HeaderNumber(sent[1], "X-Goog-Upload-Offset") == Some(0)
            && sent[1].url == post(sent[0]).uploadUrl.value
            && sent[1].body == Raw(frame))
  {
    DecimalRoundTrip(|frame|);
    DecimalRoundTrip(0);
  }

  /** What each generation request asks for: Claude 50 tokens to describe
      and 1 to judge a hazard, with the image before the prompt; Gemini no
      limit to describe and 1 to judge, with the prompt before the uploaded
      file. Both carry the prompt verbatim. */
  lemma GenerationRequestShape(b: Backend, frame: Frame, prompt: string, post: HttpRequest -> HttpResponse)
    ensures var d := DescribeCall(b, frame, prompt, post);
      var h := HazardCall(b, frame, prompt, post);
      && (b.Claude? ==>
            && |d.sent| == 1 && MaxTokensOf(d.sent[0]) == Some(DescribeMaxTokens)
            && |h.sent| == 1 && MaxTokensOf(h.sent[0]) == Some(HazardMaxTokens)
            && PartsOf(d.sent[0]) == PartsOf(h.sent[0]) == [Image("base64", JpegMime, frame), Text(prompt)])
      && (b.Gemini? ==>
            var up := Upload(b.gemini, frame, post);
            && d.sent[..|up.sent|] == h.sent[..|up.sent|] == up.sent
            && (up.result.Ok? <==> |d.sent| == |up.sent| + 1)
            && |h.sent| == |d.sent|
            && (up.result.Ok? ==>
                  && MaxTokensOf(d.sent[|up.sent|]) == None
                  && MaxTokensOf(h.sent[|up.sent|]) == Some(HazardMaxTokens)
                  && PartsOf(d.sent[|up.sent|]) == PartsOf(h.sent[|up.sent|])
                     == [Text(prompt), FileData(JpegMime, up.result.value)]))
  {
  }

  /** A description call forwards its inputs unchanged: every prompt part
      sent is `prompt`, and every image or uploaded body is `frame`. */
  lemma DescribeForwards(b: Backend, frame: Frame, prompt: string, post: HttpRequest -> HttpResponse)
    ensures var sent := DescribeCall(b, frame, prompt, post).sent;
      && (forall k, p :: 0 <= k < |sent| && p in PartsOf(sent[k]) && p.Text? ==> p.text == prompt)
      && (forall k, p :: 0 <= k < |sent| && p in PartsOf(sent[k]) && p.Image? ==> p.data == frame)
      && (forall k :: 0 <= k < |sent| && sent[k].body.Raw? ==> sent[k].body.bytes == frame)
  {
    match b
    case Claude(c) =>
    case Gemini(g) =>
      var up := Upload(g, frame, post);
      var sent := DescribeCall(b, frame, prompt, post).sent;
      assert PartsOf(up.sent[0]) == [] && !up.sent[0].body.Raw?;
      assert |up.sent| == 2 ==> PartsOf(up.sent[1]) == [] && up.sent[1].body == Raw(frame);
      assert sent[..|up.sent|] == up.sent;
      assert |sent| == |up.sent| + 1 ==> !sent[|up.sent|].body.Raw?;
  }

  /** How a call ends. Claude's single reply decides it. A failed Gemini
      upload is the error of both operations, with nothing more sent;
      after a successful upload the generation reply decides it. */
  lemma CallOutcome(b: Backend, frame: Frame, prompt: string, post: HttpRequest -> HttpResponse)
    ensures var d := DescribeCall(b, frame, prompt, post);
      var h := HazardCall(b, frame, prompt, post);
      && (b.Claude? ==>
            && |d.sent| == |h.sent| == 1
            && d.result == TextReply(post(d.sent[0]))
            && h.result == AsVerdict(TextReply(post(h.sent[0]))))
      && (b.Gemini? ==>
            var up := Upload(b.gemini, frame, post);
            && (up.result.Err? ==>
                  && d.sent == h.sent == up.sent
                  && d.result == Err(up.result.error)
                  && h.result == Err(up.result.error))
            && (up.result.Ok? ==>
                  && d.result == TextReply(post(d.sent[|d.sent| - 1]))
                  && h.result == AsVerdict(TextReply(post(h.sent[|h.sent| - 1])))))
  {
  }

  /** The hazard check is the description call with a one-token budget, its
      text put through the verdict parser: it yields `v` only when every
      reply was 200 and the final text parses to `v`. */
  lemma HazardIsParsedAnswer(b: Backend, frame: Frame, prompt: string, post: HttpRequest -> HttpResponse)
    ensures var h := HazardCall(b, frame, prompt, post);
      var last := post(h.sent[|h.sent| - 1]);
      && (h.result.Ok? ==> Succeeded(last) && last.text.Some? && ParseVerdict(last.text.value) == h.result)
      && (h.result == Ok(false) ==> Normalize(last.text.value) == "no")
      && (MaxTokensOf(h.sent[|h.sent| - 1]) == Some(HazardMaxTokens) && Succeeded(last) && last.text.Some? ==>
            h.result == ParseVerdict(last.text.value))
  {
    match b
    case Claude(c) =>
    case Gemini(g) =>
      var up := Upload(g, frame, post);
      var call := GeminiCall(g, frame, prompt, Some(HazardMaxTokens), post);
      if up.result.Err? {
        assert call.sent == up.sent;
        assert MaxTokensOf(up.sent[|up.sent| - 1]) == None;
      } else {
        assert call.sent[|call.sent| - 1] == GenerateRequest(g, up.result.value, prompt, Some(HazardMaxTokens));
        assert call.result == TextReply(post(call.sent[|call.sent| - 1]));
      }
  }

  /** A verdict is only ever read from the one-token generation reply,
      never from an upload reply. */
  lemma VerdictFromGenerationReply(b: Backend, frame: Frame, prompt: string, post: HttpRequest -> HttpResponse)
    ensures var h := HazardCall(b, frame, prompt, post);
      h.result.Ok? ==> MaxTokensOf(h.sent[|h.sent| - 1]) == Some(HazardMaxTokens)
  {
    if b.Gemini? {
      var up := Upload(b.gemini, frame, post);
      if up.result.Err? {
        assert HazardCall(b, frame, prompt, post).result.Err?;
      }
    }
  }

  // ---------------------------------------------------------------------
  // The backends' methods, step by step

  datatype ClaudeBackend = ClaudeBackend(apiKey: string, model: string) {

    method DescribeFrame(frame: Frame, prompt: string, post: HttpRequest -> HttpResponse)
      returns (r: Result<string>, sent: seq<HttpRequest>)
      ensures r == DescribeCall(Claude(this), frame, prompt, post).result
      ensures sent == DescribeCall(Claude(this), frame, prompt, post).sent
    {
      var request := ClaudeRequest(this, frame, prompt, DescribeMaxTokens);
      sent := [request];
      var response := post(request);
      if response.NoResponse? {
        return Err(TransportFailure), sent;
      }
      if response.status != 200 {
        return Err(BadStatus(response.status)), sent;
      }
      if response.text.None? {
        return Err(MissingText), sent;
      }
      r := Ok(response.text.value);
    }

    method IsHazard(frame: Frame, prompt: string, post: HttpRequest -> HttpResponse)
      returns (r: Result<bool>, sent: seq<HttpRequest>)
      ensures r == HazardCall(Claude(this), frame, prompt, post).result
      ensures sent == HazardCall(Claude(this), frame, prompt, post).sent
    {
      var request := ClaudeRequest(this, frame, prompt, HazardMaxTokens);
      sent := [request];
      var response := post(request);
      if response.NoResponse? {
        return Err(TransportFailure), sent;
      }
      if response.status != 200 {
        return Err(BadStatus(response.status)), sent;
      }
      if response.text.None? {
        return Err(MissingText), sent;
      }
      var answer := Lower(Strip(response.text.value));
      if answer == "yes" {
        r := Ok(true);
      } else if answer == "no" {
        r := Ok(false);
      } else {
        r := Err(UnexpectedAnswer);
      }
    }
  }

  datatype GeminiBackend = GeminiBackend(apiKey: string, uploadUrl: string, generateUrl: string) {

    method UploadImage(frame: Frame, post: HttpRequest -> HttpResponse)
      returns (r: Result<string>, sent: seq<HttpRequest>)
      ensures r == Upload(this, frame, post).result
      ensures sent == Upload(this, frame, post).sent
    {
      var start := UploadStartRequest(this, frame);
      sent := [start];
      var startResponse := post(start);
      if startResponse.NoResponse? {
        return Err(TransportFailure), sent;
      }
      if startResponse.status != 200 {
        return Err(BadStatus(startResponse.status)), sent;
      }
      var url := startResponse.uploadUrl;
      if !Truthy(url) {
        return Err(NoUploadUrl), sent;
      }
      var finalize := UploadBytesRequest(url.value, frame);
      sent := sent + [finalize];
      var uploadResponse := post(finalize);
      if uploadResponse.NoResponse? {
        return Err(TransportFailure), sent;
      }
      if uploadResponse.status != 200 {
        return Err(BadStatus(uploadResponse.status)), sent;
      }
      var fileUri := uploadResponse.fileUri;
      if !Truthy(fileUri) {
        return Err(NoFileUri), sent;
      }
      r := Ok(fileUri.value);
    }

    method DescribeFrame(frame: Frame, prompt: string, post: HttpRequest -> HttpResponse)
      returns (r: Result<string>, sent: seq<HttpRequest>)
      ensures r == DescribeCall(Gemini(this), frame, prompt, post).result
      ensures sent == DescribeCall(Gemini(this), frame, prompt, post).sent
    {
      var fileUri;
      fileUri, sent := UploadImage(frame, post);
      if fileUri.Err? {
        return Err(fileUri.error), sent;
      }
      var request := GenerateRequest(this, fileUri.value, prompt, None);
      sent := sent + [request];
      var response := post(request);
      if response.NoResponse? {
        return Err(TransportFailure), sent;
      }
      if response.status != 200 {
        return Err(BadStatus(response.status)), sent;
      }
      if response.text.None? {
        return Err(MissingText), sent;
      }
      r := Ok(response.text.value);
    }

    method IsHazard(frame: Frame, prompt: string, post: HttpRequest -> HttpResponse)
      returns (r: Result<bool>, sent: seq<HttpRequest>)
      ensures r == HazardCall(Gemini(this), frame, prompt, post).result
      ensures sent == HazardCall(Gemini(this), frame, prompt, post).sent
    {
      var fileUri;
      fileUri, sent := UploadImage(frame, post);
      if fileUri.Err? {
        return Err(fileUri.error), sent;
      }
      var request := GenerateRequest(this, fileUri.value, prompt, Some(HazardMaxTokens));
      sent := sent + [request];
      var response := post(request);
      if response.NoResponse? {
        return Err(TransportFailure), sent;
      }
      if response.status != 200 {
        return Err(BadStatus(response.status)), sent;
      }
      if response.text.None? {
        return Err(MissingText), sent;
      }
      var answer := Lower(Strip(response.text.value));
      if answer == "yes" {
        r := Ok(true);
      } else if answer == "no" {
        r := Ok(false);
      } else {
        r := Err(UnexpectedAnswer);
      }
    }
  }
}
