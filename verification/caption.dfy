/** The caption service: the prompt read once when the module is imported,
    and `describe_frame`, which builds the chosen backend and hands it the
    frame and that prompt. */
module Caption {
  import opened Results
  import opened PyStr
  import opened Inference

  /** The module's state after import: the text of prompt.txt, as read. */
  datatype CaptionModule = CaptionModule(prompt: string)

  /** Importing the module, given the contents of prompt.txt: a prompt that
      is blank after strip() stops the import; any other prompt is kept
      exactly as read, surrounding whitespace included. */
  function Import(contents: string): (r: Result<CaptionModule>)
    ensures r.Ok? <==> exists i :: 0 <= i < |contents| && !IsSpace(contents[i])
    ensures r.Ok? ==> r.value.prompt == contents
    ensures r.Err? ==> r.error == BlankPrompt
  {
    StripEmptyIffAllSpace(contents);
    if Strip(contents) == [] then Err(BlankPrompt) else Ok(CaptionModule(contents))
  }

  /** `describe_frame(frame, backend=ClaudeBackend)`: builds a new backend of
      the given class on every call (so the credential is checked per call)
      and returns what its `describe_frame` returns for this frame and the
      module's prompt. */
  function DescribeFrame(m: CaptionModule, frame: Frame, env: Env, post: HttpRequest -> HttpResponse,
                         backend: BackendClass := ClaudeClass): (r: Call<string>)
    ensures Instantiate(backend, env).Err? ==> r == Call([], Err(MissingCredential(KeyVariable(backend))))
    ensures Instantiate(backend, env).Ok? ==> r == DescribeCall(Instantiate(backend, env).value, frame, m.prompt, post)
  {
    match Instantiate(backend, env)
    case Err(e) => Call([], Err(e))
    case Ok(b) => DescribeCall(b, frame, m.prompt, post)
  }

  /** Only the class's own credential decides whether any request is made. */
  lemma CredentialCheckedPerCall(m: CaptionModule, frame: Frame, env: Env, post: HttpRequest -> HttpResponse,
                                 backend: BackendClass)
    ensures var r := DescribeFrame(m, frame, env, post, backend);
      r.sent == [] <==> !(KeyVariable(backend) in env && env[KeyVariable(backend)] != "")
  {
    if Instantiate(backend, env).Ok? && backend == GeminiClass {
      assert DescribeFrame(m, frame, env, post, backend).sent[0]
          == UploadStartRequest(Instantiate(backend, env).value.gemini, frame);
    }
  }

  /** The frame and the prompt reach the provider unchanged: every prompt
      part sent is the module's prompt as read (not stripped), and every
      image or uploaded body is the frame. */
  lemma ForwardsFrameAndPrompt(m: CaptionModule, frame: Frame, env: Env, post: HttpRequest -> HttpResponse,
                               backend: BackendClass)
    ensures var r := DescribeFrame(m, frame, env, post, backend);
      && (forall k, p :: 0 <= k < |r.sent| && p in PartsOf(r.sent[k]) && p.Text? ==> p.text == m.prompt)
      && (forall k, p :: 0 <= k < |r.sent| && p in PartsOf(r.sent[k]) && p.Image? ==> p.data == frame)
      && (forall k :: 0 <= k < |r.sent| && r.sent[k].body.Raw? ==> r.sent[k].body.bytes == frame)
  {
    if Instantiate(backend, env).Ok? {
      DescribeForwards(Instantiate(backend, env).value, frame, m.prompt, post);
    }
  }

  /** With no backend named, the Claude backend is used: its key is the one
      checked and every request goes to Anthropic's messages endpoint. */
  lemma DefaultIsClaude(m: CaptionModule, frame: Frame, env: Env, post: HttpRequest -> HttpResponse)
    ensures var r := DescribeFrame(m, frame, env, post);
      && r == DescribeFrame(m, frame, env, post, ClaudeClass)
      && (r.result == Err(MissingCredential(ClaudeKeyVariable)) <==> !(ClaudeKeyVariable in env && env[ClaudeKeyVariable] != ""))
      && (forall k :: 0 <= k < |r.sent| ==> r.sent[k].url == ClaudeMessagesUrl)
  {
  }
}
