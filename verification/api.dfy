/** The WebSocket handler: one connection's receive loop. Inbound messages
    are a finite sequence; a binary message is a frame to describe with the
    Gemini backend, and its description is sent back. */
module Api {
  import opened Results
  import opened Inference
  import Caption

  /** What `recv()` produces: a binary frame, a text message, or the
      ConnectionClosed exception. */
  datatype Inbound = BinaryMessage(frame: Frame) | TextMessage(text: string) | ConnectionClosed

  /** How a connection's handler ends: still waiting in `recv()` when the
      inbound messages run out, stopped by the peer's close, or stopped by
      an error from the backend, which escapes the handler. */
  datatype End = Listening | ClosedByPeer | Crashed(error: Error)

  /** The trace of one connection: how many inbound messages were received,
      the frames handed to the backend, the text messages sent back, and how
      it ended. */
  datatype Session = Session(received: nat, described: seq<Frame>, replies: seq<string>, end: End)

  /** The description used for every frame: `caption.describe_frame` with the
      Gemini backend. */
  function GeminiDescriber(m: Caption.CaptionModule, env: Env, post: HttpRequest -> HttpResponse): Frame -> Result<string> {
    frame => Caption.DescribeFrame(m, frame, env, post, GeminiClass).result
  }

  /** The loop's behaviour over a sequence of inbound messages. */
  function Relay(inbound: seq<Inbound>, describe: Frame -> Result<string>): (s: Session)
    ensures s.received <= |inbound|
  {
    if inbound == [] then Session(0, [], [], Listening)
    else
      match inbound[0]
      case ConnectionClosed => Session(1, [], [], ClosedByPeer)
      case TextMessage(_) =>
        var rest := Relay(inbound[1..], describe);
        rest.(received := rest.received + 1)
      case BinaryMessage(frame) =>
        match describe(frame)
        case Err(e) => Session(1, [frame], [], Crashed(e))
        case Ok(description) =>
          var rest := Relay(inbound[1..], describe);
          Session(rest.received + 1, [frame] + rest.described, [description] + rest.replies, rest.end)
  }

  /** A session that continues `rest` after `received` messages that handed
      `described` to the backend and sent `replies`. */
  function Resume(received: nat, described: seq<Frame>, replies: seq<string>, rest: Session): Session {
    Session(received + rest.received, described + rest.described, replies + rest.replies, rest.end)
  }

  /** The frames of the binary messages among `inbound`, in order. */
  function BinaryFrames(inbound: seq<Inbound>): seq<Frame> {
    if inbound == [] then []
    else (if inbound[0].BinaryMessage? then [inbound[0].frame] else []) + BinaryFrames(inbound[1..])
  }

  /** Every reply is the backend's description of the frame handed to it,
      one reply per frame and in the same order; only a failing last frame
      goes unanswered, and its error is how the session ends. */
  lemma {:induction false} RepliesAreDescriptions(inbound: seq<Inbound>, describe: Frame -> Result<string>)
    ensures var s := Relay(inbound, describe);
      && |s.replies| == |s.described| - (if s.end.Crashed? then 1 else 0)
      && (forall k :: 0 <= k < |s.replies| ==> describe(s.described[k]) == Ok(s.replies[k]))
      && (s.end.Crashed? ==> describe(s.described[|s.described| - 1]) == Err(s.end.error))
  {
    if inbound != [] && !inbound[0].ConnectionClosed? {
      RepliesAreDescriptions(inbound[1..], describe);
    }
  }

  /** The backend is called exactly on the binary frames received, in
      order: text messages cause no call. */
  lemma {:induction false} DescribesEveryBinaryFrame(inbound: seq<Inbound>, describe: Frame -> Result<string>)
    ensures var s := Relay(inbound, describe);
      s.described == BinaryFrames(inbound[..s.received])
  {
    if inbound != [] {
      var s := Relay(inbound, describe);
      var rest := Relay(inbound[1..], describe);
      if inbound[0].ConnectionClosed? || (inbound[0].BinaryMessage? && describe(inbound[0].frame).Err?) {
        assert inbound[..s.received][1..] == [];
      } else {
        DescribesEveryBinaryFrame(inbound[1..], describe);
        assert inbound[..s.received][1..] == inbound[1..][..rest.received];
      }
    }
  }

  /** The loop stops at the first ConnectionClosed: no close was received
      before the last message received; a session ending by close ended on
      a close, one ending by error on a binary frame, and a session still
      listening has received every message. */
  lemma {:induction false} StopsAtFirstClose(inbound: seq<Inbound>, describe: Frame -> Result<string>)
    ensures var s := Relay(inbound, describe);
      && (forall k :: 0 <= k < s.received - 1 ==> !inbound[k].ConnectionClosed?)
      && (s.end == Listening ==> s.received == |inbound| && forall k :: 0 <= k < |inbound| ==> !inbound[k].ConnectionClosed?)
      && (s.end == ClosedByPeer ==> 1 <= s.received && inbound[s.received - 1] == ConnectionClosed)
      && (s.end.Crashed? ==> 1 <= s.received && inbound[s.received - 1].BinaryMessage?)
  {
    if inbound != [] && !inbound[0].ConnectionClosed? {
      StopsAtFirstClose(inbound[1..], describe);
    }
  }

  /** Nothing is received or sent after the session ends: whatever the
      client would have sent afterwards changes nothing. */
  lemma {:induction false} NothingAfterEnd(inbound: seq<Inbound>, later: seq<Inbound>, describe: Frame -> Result<string>)
    requires Relay(inbound, describe).end != Listening
    ensures Relay(inbound + later, describe) == Relay(inbound, describe)
  {
    assert inbound != [];
    assert (inbound + later)[0] == inbound[0];
    assert (inbound + later)[1..] == inbound[1..] + later;
    if !inbound[0].ConnectionClosed? && !(inbound[0].BinaryMessage? && describe(inbound[0].frame).Err?) {
      NothingAfterEnd(inbound[1..], later, describe);
    }
  }

  /** While the connection is open, later messages only add to the trace:
      the replies to earlier frames are sent first and are not changed. */
  lemma {:induction false} RelayExtends(inbound: seq<Inbound>, later: seq<Inbound>, describe: Frame -> Result<string>)
    requires Relay(inbound, describe).end == Listening
    ensures var s := Relay(inbound, describe);
      Relay(inbound + later, describe) == Resume(s.received, s.described, s.replies, Relay(later, describe))
  {
    if inbound == [] {
      assert inbound + later == later;
    } else {
      assert (inbound + later)[0] == inbound[0];
      assert (inbound + later)[1..] == inbound[1..] + later;
      RelayExtends(inbound[1..], later, describe);
    }
  }

  /** No hazard gating: unless a backend error ended the session, every
      binary frame received got exactly one reply, its description, in the
      order the frames arrived. */
  lemma EveryFrameAnswered(inbound: seq<Inbound>, describe: Frame -> Result<string>)
    ensures var s := Relay(inbound, describe);
      var frames := BinaryFrames(inbound[..s.received]);
      !s.end.Crashed? ==>
        && |s.replies| == |frames|
        && forall k :: 0 <= k < |frames| ==> describe(frames[k]) == Ok(s.replies[k])
  {
    RepliesAreDescriptions(inbound, describe);
    DescribesEveryBinaryFrame(inbound, describe);
  }

  /** One turn of the loop: how the trace from message `i` on continues
      from message `i + 1` on. */
  lemma Advance(inbound: seq<Inbound>, i: nat, described: seq<Frame>, replies: seq<string>,
                describe: Frame -> Result<string>)
    requires i < |inbound|
    ensures var here := Resume(i, described, replies, Relay(inbound[i..], describe));
      var rest := Relay(inbound[i + 1..], describe);
      match inbound[i]
      case ConnectionClosed => here == Session(i + 1, described, replies, ClosedByPeer)
      case TextMessage(_) => here == Resume(i + 1, described, replies, rest)
      case BinaryMessage(frame) =>
        match describe(frame)
        case Err(e) => here == Session(i + 1, described + [frame], replies, Crashed(e))
        case Ok(d) => here == Resume(i + 1, described + [frame], replies + [d], rest)
  {
    assert inbound[i..][1..] == inbound[i + 1..];
    assert inbound[i..][0] == inbound[i];
  }

  /** `receive_frames`: receive, describe binary frames and send each
      description back, ignore text, stop on close; a backend error is not
      caught and ends the handler. `describe` is the backend call the
      handler makes for a frame; the server passes `GeminiDescriber`. */
  method ReceiveFrames(inbound: seq<Inbound>, describe: Frame -> Result<string>)
    returns (replies: seq<string>, end: End)
    ensures var s := Relay(inbound, describe);
      replies == s.replies && end == s.end
  {
    ghost var described: seq<Frame> := [];
    var i := 0;
    replies := [];
    while true
      invariant 0 <= i <= |inbound|
      invariant Relay(inbound, describe) == Resume(i, described, replies, Relay(inbound[i..], describe))
      decreases |inbound| - i
    {
      if i == |inbound| {
        end := Listening;
        return;
      }
      var message := inbound[i];
      Advance(inbound, i, described, replies, describe);
      i := i + 1;
      match message {
        case ConnectionClosed =>
          end := ClosedByPeer;
          break;
        case TextMessage(_) =>
        case BinaryMessage(frame) =>
          var description := describe(frame);
          if description.Err? {
            end := Crashed(description.error);
            return;
          }
          described := described + [frame];
          replies := replies + [description.value];
      }
    }
  }

  /** The server describes every frame with the Gemini backend: the
      handler's call is `caption.describe_frame` with that class, so a
      missing DEEPMIND_KEY fails it before any request, and otherwise the
      frame goes to a Gemini backend holding that key. */
  lemma GeminiDescribesEveryFrame(m: Caption.CaptionModule, env: Env, post: HttpRequest -> HttpResponse, frame: Frame)
    ensures GeminiDescriber(m, env, post)(frame) ==
      match NewGemini(env)
      case Err(e) => Err(e)
      case Ok(g) => DescribeCall(Gemini(g), frame, m.prompt, post).result
    ensures Caption.DescribeFrame(m, frame, env, post, GeminiClass).sent == [] <==>
      !(GeminiKeyVariable in env && env[GeminiKeyVariable] != "")
  {
    Caption.CredentialCheckedPerCall(m, frame, env, post, GeminiClass);
  }
}
