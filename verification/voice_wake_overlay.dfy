/** The voice-wake overlay without its UI: a session token gate and the
    snapshot (token, visibility, transcript text, input level) that
    `startSession`, `updatePartial`, `updateLevel` and `dismiss` change. */
module VoiceWakeOverlay {
  import opened Wrappers

  /** A session identifier (a UUID in the application). */
  type Token = nat

  /** The verdict on a call that names a session. */
  datatype TokenDecision = Accept | DropMismatch | DropNoActive

  /** The verdict on a call carrying `incoming` against the session `active`:
      with no session the call is dropped; a call naming another session is
      dropped as a mismatch; a call naming the active session, or naming none,
      is accepted. The controller's operations below always name a session. */
  function EvaluateToken(active: Option<Token>, incoming: Option<Token>): (d: TokenDecision)
    ensures d == DropNoActive <==> active.None?
    ensures d == DropMismatch <==> active.Some? && incoming.Some? && incoming.value != active.value
    ensures d == Accept <==> active.Some? && (incoming.None? || incoming.value == active.value)
  {
    match active
    case None => DropNoActive
    case Some(a) =>
      match incoming
      case None => Accept
      case Some(i) => if i == a then Accept else DropMismatch
  }

  /** What a caller of `snapshot()` sees, together with the meter level. */
  datatype Overlay = Overlay(token: Option<Token>, isVisible: bool, text: string, level: real)

  /** The overlay before any session and after one is dismissed. */
  const Idle: Overlay := Overlay(None, false, "", 0.0)

  /** The overlay is shown exactly while a session is active, and its level
      is a fraction. */
  predicate Valid(o: Overlay) {
    && (o.isVisible <==> o.token.Some?)
    && 0.0 <= o.level <= 1.0
  }

  /** Brings an input level into [0, 1]. */
  function Clamp(x: real): (y: real)
    ensures 0.0 <= y <= 1.0
    ensures 0.0 <= x <= 1.0 ==> y == x
    ensures x < 0.0 ==> y == 0.0
    ensures x > 1.0 ==> y == 1.0
  {
    if x < 0.0 then 0.0 else if x > 1.0 then 1.0 else x
  }

  datatype Started = Started(overlay: Overlay, token: Token)

  /** Opens a session under the new token `newToken` showing `transcript`,
      replacing any session that was active. */
  function StartSession(o: Overlay, newToken: Token, transcript: string): (r: Started)
    ensures r.token == newToken
    ensures r.overlay.token == Some(r.token)
    ensures r.overlay.isVisible && r.overlay.text == transcript
    ensures Valid(r.overlay)
  {
    Started(Overlay(Some(newToken), true, transcript, 0.0), newToken)
  }

  predicate Accepts(o: Overlay, token: Token) {
    EvaluateToken(o.token, Some(token)) == Accept
  }

  /** Replaces the transcript of the session `token`; a stale or foreign
      token changes nothing. */
  function UpdatePartial(o: Overlay, token: Token, transcript: string): (r: Overlay)
    ensures Accepts(o, token) ==> r == o.(text := transcript)
    ensures !Accepts(o, token) ==> r == o
  {
    if Accepts(o, token) then o.(text := transcript) else o
  }

  /** Sets the meter of the session `token` to `level` brought into [0, 1]. */
  function UpdateLevel(o: Overlay, token: Token, level: real): (r: Overlay)
    ensures Accepts(o, token) ==> r == o.(level := Clamp(level))
    ensures !Accepts(o, token) ==> r == o
    ensures Valid(o) ==> Valid(r)
  {
    if Accepts(o, token) then o.(level := Clamp(level)) else o
  }

  /** Closes the session `token`: the overlay is hidden and no session is active. */
  function Dismiss(o: Overlay, token: Token): (r: Overlay)
    ensures Accepts(o, token) ==> !r.isVisible && r.token.None?
    ensures !Accepts(o, token) ==> r == o
    ensures Valid(o) ==> Valid(r)
  {
    if Accepts(o, token) then Idle else o
  }

  /** One call on the controller. */
  datatype Command =
    | Start(newToken: Token, transcript: string)
    | Partial(token: Token, transcript: string)
    | Level(token: Token, level: real)
    | Close(token: Token)

  function Apply(o: Overlay, c: Command): Overlay {
    match c
    case Start(newToken, transcript) => StartSession(o, newToken, transcript).overlay
    case Partial(token, transcript) => UpdatePartial(o, token, transcript)
    case Level(token, level) => UpdateLevel(o, token, level)
    case Close(token) => Dismiss(o, token)
  }

  function Replay(o: Overlay, cs: seq<Command>): Overlay
    decreases |cs|
  {
    if |cs| == 0 then o else Replay(Apply(o, cs[0]), cs[1..])
  }

  /** Whatever calls arrive, the overlay stays valid: visible exactly while a
      session is active, and its level never leaves [0, 1]. */
  lemma {:induction false} ReplayKeepsValid(o: Overlay, cs: seq<Command>)
    requires Valid(o)
    ensures Valid(Replay(o, cs))
    decreases |cs|
  {
    if |cs| > 0 {
      ReplayKeepsValid(Apply(o, cs[0]), cs[1..]);
    }
  }

  /** After a session is dismissed its token is stale: every later call that
      names it is dropped for want of an active session. */
  lemma StaleTokenIgnored(o: Overlay, token: Token, transcript: string, level: real)
    requires Accepts(o, token)
    ensures EvaluateToken(Dismiss(o, token).token, Some(token)) == DropNoActive
    ensures UpdatePartial(Dismiss(o, token), token, transcript) == Dismiss(o, token)
    ensures UpdateLevel(Dismiss(o, token), token, level) == Dismiss(o, token)
  {
  }

  /** Calls naming a session other than the active one change nothing. */
  lemma {:induction false} ForeignTokensIgnored(o: Overlay, cs: seq<Command>)
    requires o.token.Some?
    requires forall i :: 0 <= i < |cs| ==> !cs[i].Start? && cs[i].token != o.token.value
    ensures Replay(o, cs) == o
    decreases |cs|
  {
    if |cs| > 0 {
      ForeignTokensIgnored(Apply(o, cs[0]), cs[1..]);
    }
  }

  /** The controller lifecycle: start a session, extend its transcript, push
      the level below 0 and above 1, then dismiss. */
  lemma SessionLifecycle(o: Overlay, newToken: Token)
    ensures
      var s := StartSession(o, newToken, "hello");
      var t := s.token;
      var o1 := UpdatePartial(s.overlay, t, "hello world");
      var o2 := UpdateLevel(o1, t, -0.5);
      var o3 := UpdateLevel(o2, t, 2.0);
      var o4 := Dismiss(o3, t);
      && s.overlay.token == Some(t) && s.overlay.isVisible
      && o1.text == "hello world"
      && o2.level == 0.0
      && o3.level == 1.0
      && !o4.isVisible && o4.token.None?
  {
  }
}
