# iris frame relay: a verified model

This project models the backend of iris. It is a WebSocket server that takes
JPEG frames from a client. It asks a vision model (Anthropic Claude or Google
Gemini) to describe each frame and sends the description back to the client.
The model covers:

- the two inference backends of `backend/iris/src/inference.py`: their
  constructors' credential checks, the requests they compose, the status and
  field checks on every reply, Gemini's two-phase upload, and the yes/no
  parser of `is_hazard`;
- the caption service of `backend/iris/src/caption.py`: validation of the
  prompt at import, and `describe_frame`, which delegates to a backend
  (Claude by default);
- the per-connection loop `receive_frames` of `backend/iris/src/api.py`.

Files and modules:

- `results.dfy` (`Results`): `Option`, `Result` and the failures the code raises.
- `pystr.dfy` (`PyStr`): Python's `str.strip()`, `str.lower()` and `str(n)`,
  with their properties.
- `inference.dfy` (`Inference`): backends, requests, replies and the verdict
  parser. Each provider operation has a specification function
  (`DescribeCall`, `HazardCall`, `Upload`). It returns the requests issued, in
  order, and the outcome. Each backend method walks the same steps with the
  Python code's early exits and is proved equal to that function.
- `caption.dfy` (`Caption`): the prompt import and `describe_frame`.
- `api.dfy` (`Api`): `receive_frames` as a loop over a finite sequence of
  inbound messages. Its behaviour is specified by the function `Relay`. The
  loop takes the backend call as a parameter. The call the server makes is
  `GeminiDescriber`, which is `caption.describe_frame` with the Gemini class.

The network is a parameter `post` that maps each request to a reply (a
function, so identical requests get identical replies; see "Left out"). A reply keeps only what the code reads: the status, the
`X-Goog-Upload-URL` header, `file.uri` and the generated text. `NoResponse`
stands for an exception from the HTTP client, such as a timeout. The
environment is a map from variable names to values.

Facts about the code that the model keeps:

- `receive_frames` never consults `is_hazard` and never issues two provider
  calls concurrently. It answers every binary frame with its description
  (`api.py:14-15`), so no reply is held back by a hazard verdict.
- The credential check runs on every `describe_frame`, not once at startup,
  because `caption.py:19` builds a new backend per call.
- The failures are of several Python kinds. A bad status, a missing upload
  URL or file URI, an unexpected answer and a missing credential raise
  `ValueError`. A client timeout or connection error raises an httpx
  exception (`inference.py:57-60`, `:141-144`). A reply without the text
  field raises `KeyError`, `IndexError` or `TypeError`. The model names which
  check failed (`Results.Error`) and does not distinguish these kinds.

`str.lower()` is modelled for A to Z only. For the verdict this is exact. The
only code points Python lower-cases to an ASCII letter are A to Z, KELVIN SIGN
(to `k`) and LATIN CAPITAL LETTER I WITH DOT ABOVE (to `i` plus a combining
mark). None of them yields a letter of "yes" or "no". Whitespace for
`strip()` is the full set of code points for which `str.isspace()` is true.

## Model

| member | source | states |
|---|---|---|
| `Inference.NewClaude` | backend/iris/src/inference.py:21-27 | construction succeeds iff ANTHROPIC_KEY is set and non-empty; the backend holds that key and the haiku model name; otherwise the error names the variable |
| `Inference.NewGemini` | backend/iris/src/inference.py:117-126 | construction succeeds iff DEEPMIND_KEY is set and non-empty; the backend holds that key and the upload and generate URLs |
| `Inference.Instantiate` | backend/iris/src/caption.py:17-19 | calling a backend class builds a backend of that class whose key is the class's non-empty variable, or fails with that variable missing |
| `Inference.TextReply` | backend/iris/src/inference.py:62-66 | the full case split: no reply is a transport failure, a non-200 status is reported as that status whatever the body, a 200 reply without text is a missing-text error, and a 200 reply carrying text `t` yields exactly `t` |
| `Inference.ParseVerdict` | backend/iris/src/inference.py:105-112 | true iff the trimmed, lower-cased answer is "yes", false iff it is "no", otherwise an unexpected-answer error |
| `Inference.Upload` | backend/iris/src/inference.py:128-178 | the upload issues one or two requests, the first being the start request for this frame |
| `Inference.UploadContract` | backend/iris/src/inference.py:146-178 | the upload yields the file URI iff both replies are 200, the first carries an upload URL and the second a file URI; the second request goes to that URL and is sent only after the first passed; each failed check gives its own error |
| `Inference.ClaudeBackend.DescribeFrame` | backend/iris/src/inference.py:29-66 | the step-by-step method issues exactly the request and returns exactly the outcome of the Claude description call, which `CallOutcome` and `TextReply` pin down: the reply's text on a 200 reply carrying it, otherwise the failed check |
| `Inference.ClaudeBackend.IsHazard` | backend/iris/src/inference.py:68-112 | the method agrees with the Claude hazard call: one 1-token request, status check, then the verdict parser |
| `Inference.GeminiBackend.UploadImage` | backend/iris/src/inference.py:128-178 | the method issues the same requests and returns the same outcome as `Upload` |
| `Inference.GeminiBackend.DescribeFrame` | backend/iris/src/inference.py:180-216 | the method agrees with the Gemini description call: upload, then one generation request over the uploaded file; by `CallOutcome` an upload failure is the call's error and a 200 generation reply with text yields that text |
| `Inference.GeminiBackend.IsHazard` | backend/iris/src/inference.py:218-264 | the method agrees with the Gemini hazard call: upload, a generation request asking for 1 token, then the verdict parser; by `CallOutcome` a failed upload fails the call |
| `Inference.VerdictIsPaddedWord` | backend/iris/src/inference.py:253-264 | the verdict is true exactly for "yes" and false exactly for "no", in any letter case with only whitespace around; every other answer is an error and never false |
| `Inference.VerdictIgnoresPadding` | backend/iris/src/inference.py:253-257 | whitespace added around an answer does not change the verdict |
| `Inference.VerdictIgnoresCase` | backend/iris/src/inference.py:105 | two answers equal up to letter case get the same verdict |
| `Inference.StatusCheckedFirst` | backend/iris/src/inference.py:146-211 | for both operations on both backends, every request but the last got a 200 reply, success means every reply was 200, and a non-200 last reply is reported as that status |
| `Inference.UploadDeclaresFrameLength` | backend/iris/src/inference.py:131-165 | both upload requests declare the frame's length, read back as a number; the second has offset 0, goes to the URL from the first reply and carries the frame |
| `Inference.GenerationRequestShape` | backend/iris/src/inference.py:32-88 | Claude asks for 50 tokens to describe and 1 to judge, image before prompt; Gemini sets no limit to describe and 1 to judge, prompt before the uploaded file; both operations share the upload requests |
| `Inference.DescribeForwards` | backend/iris/src/inference.py:180-201 | on both backends, every prompt part a description call sends is the prompt it was given, and every image or uploaded body is the frame |
| `Inference.CallOutcome` | backend/iris/src/inference.py:180-264 | how each provider call ends: Claude's one reply decides both operations; a failed Gemini upload is the error of `describe_frame` and `is_hazard` with nothing more sent; after a successful upload the generation reply decides the description text and the verdict |
| `Inference.VerdictFromGenerationReply` | backend/iris/src/inference.py:242-264 | a verdict is only ever taken from the one-token generation reply, never from an upload reply |
| `Inference.HazardIsParsedAnswer` | backend/iris/src/inference.py:242-264 | a hazard verdict comes only from a 200 reply whose text parses to it; false only when the answer is "no"; a 200 reply to the generation request with text is always parsed |
| `PyStr.StripPadded` | backend/iris/src/inference.py:105 | `strip()` ignores any whitespace added on either side |
| `PyStr.StripSlice` | backend/iris/src/inference.py:253-255 | `strip()` keeps a slice of the input and drops only whitespace around it |
| `PyStr.StripEnds` | backend/iris/src/inference.py:253-255 | what `strip()` keeps neither starts nor ends with whitespace |
| `PyStr.StripLowerCommute` | backend/iris/src/inference.py:253-257 | stripping then lower-casing equals lower-casing then stripping |
| `PyStr.DecimalRoundTrip` | backend/iris/src/inference.py:134 | the decimal text written by `str(n)` reads back as `n` |
| `PyStr.StripEmptyIffAllSpace` | backend/iris/src/caption.py:12 | a string strips to nothing iff every character is whitespace |
| `Caption.Import` | backend/iris/src/caption.py:9-13 | the import succeeds iff the prompt has a non-whitespace character, and keeps the prompt exactly as read; otherwise a blank-prompt error |
| `Caption.DescribeFrame` | backend/iris/src/caption.py:16-19 | with no credential nothing is sent and the error names the variable; otherwise the result is the chosen backend's description of the frame with the module's prompt |
| `Caption.CredentialCheckedPerCall` | backend/iris/src/caption.py:19 | a call issues requests iff the chosen class's credential is present and non-empty |
| `Caption.ForwardsFrameAndPrompt` | backend/iris/src/caption.py:19 | every prompt part sent is the module's prompt, unstripped, and every image or uploaded body is the frame itself |
| `Caption.DefaultIsClaude` | backend/iris/src/caption.py:17 | without a backend argument the Claude class is used: ANTHROPIC_KEY is checked and every request goes to Anthropic's messages endpoint |
| `Api.ReceiveFrames` | backend/iris/src/api.py:8-19 | the loop's replies and way of ending are those of `Relay` over the inbound messages, for the backend call it is given |
| `Api.GeminiDescribesEveryFrame` | backend/iris/src/api.py:14 | the handler's backend call is the caption service with the Gemini class: it fails before any request without DEEPMIND_KEY, and otherwise is a Gemini description of the frame with the module's prompt |
| `Api.RepliesAreDescriptions` | backend/iris/src/api.py:11-15 | each frame handed to the backend gets one reply, its description, in order; only a failing last frame is unanswered, and its error ends the session |
| `Api.DescribesEveryBinaryFrame` | backend/iris/src/api.py:11-14 | the backend is called exactly on the binary frames received, in order; text messages cause no call |
| `Api.EveryFrameAnswered` | backend/iris/src/api.py:13-15 | unless a backend error ended the session, every binary frame received got exactly one reply, its description, with no hazard gating |
| `Api.StopsAtFirstClose` | backend/iris/src/api.py:17-19 | no close precedes the last message received; a close ends the session on that message, an error ends it on a binary frame, and a listening session has received everything |
| `Api.NothingAfterEnd` | backend/iris/src/api.py:17-19 | after a close or an escaped error, later inbound messages change nothing: none is received and nothing more is sent |
| `Api.RelayExtends` | backend/iris/src/api.py:9-15 | while the connection stays open, later messages only append to the trace, so replies keep the order of the frames |

## Left out

- The `websockets.serve` setup and the asyncio event loop (`api.py:22-24`) are not modelled. Each connection's handler is sequential, and handlers share no state.
- The `ConnectionClosed` that `websocket.send` can raise is left out. Only a close seen by `recv()` is an inbound event, so the model does not cover a peer that closes while a frame is being described.
- An error escaping `receive_frames` ends the model's session. The close that the WebSocket library then performs is outside the model.
- HTTP transport, JSON encoding and decoding, and `response.json()` are abstracted. A reply is reduced to the fields the code reads, and an undecodable body counts as a missing field.
- Timeouts are left out: 30 s for Claude, the HTTP client's default for Gemini. A timeout is the `NoResponse` reply, like any other client exception.
- Base64 encoding of the frame is left out. An `Image` part carries the frame itself with its declared source type "base64".
- Reading `prompt.txt` and `load_dotenv()` are left out. The file's contents and the environment are inputs.
- Inference.Upload: its own ensures state only the first request. The full upload contract is `UploadContract`, kept apart so that each proof stays small.
- The `print` of the close reason (`api.py:18`) is left out. It only writes to the console.
- The provider and the backend call are modelled as functions (`post`, and the `describe` of `ReceiveFrames`). Equal requests therefore get equal replies, and a frame sent twice in one session gets the same outcome both times. The real provider answers each call afresh: Gemini hands out a new upload URL per start request, and a resent frame may fail where it succeeded before. The model does not capture replies that vary between identical calls.
- The error-message texts are left out. Only which check failed is modelled.
- Python's `str.lower()` beyond A to Z is left out. This does not change any verdict, as explained above.
