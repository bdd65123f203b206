/**
  The setup state as one frame payload: phase, flags, and the parts that the flags announce.
  Source: internal/enrollmentsetup/wire.go, EncodeState and DecodeState.
*/
module StateWire {
  import opened Common
  import W = SetupWire
  import X = ExchangeSession

  datatype State = State(phase: X.Phase, parts: W.Parts)
  {
    /** `validateStateShape`. */
    predicate ValidShape() {
      match phase
      case PendingComparison => parts.words.Some? && parts.action.Some? && parts.tombstone.None?
      case TranscriptConfirmed => parts.words.None? && parts.action.Some? && parts.tombstone.None?
      case ResponseVerified => parts.words.None? && parts.action.None? && parts.tombstone.None?
      case Applied => parts.words.None? && parts.action.None? && parts.tombstone.None?
      case Cancelled => parts.words.None? && parts.action.None? && parts.tombstone.None?
      case Ready => parts.words.None? && parts.action.None?
    }

    predicate Valid() {
      ValidShape() && parts.Valid()
    }
  }

  function PhaseByte(phase: X.Phase): Byte {
    match phase
    case PendingComparison => 1
    case TranscriptConfirmed => 2
    case ResponseVerified => 3
    case Applied => 4
    case Cancelled => 5
    case Ready => 6
  }

  function PhaseOf(b: Byte): Option<X.Phase> {
    if b == 1 then Some(X.PendingComparison)
    else if b == 2 then Some(X.TranscriptConfirmed)
    else if b == 3 then Some(X.ResponseVerified)
    else if b == 4 then Some(X.Phase.Applied)
    else if b == 5 then Some(X.Phase.Cancelled)
    else if b == 6 then Some(X.Ready) else None
  }

  lemma PhasesRoundTrip(b: Byte, phase: X.Phase)
    ensures PhaseOf(PhaseByte(phase)) == Some(phase)
    ensures PhaseOf(b).Some? ==> PhaseByte(PhaseOf(b).value) == b
  {
  }

  /** One bit for each part that is present. */
  function Flags(words: bool, action: bool, tombstone: bool): Byte {
    (if words then 1 else 0) + (if action then 2 else 0) + (if tombstone then 4 else 0)
  }

  predicate HasWords(flags: Byte) { flags % 2 == 1 }

  predicate HasAction(flags: Byte) { flags / 2 % 2 == 1 }

  predicate HasTombstone(flags: Byte) { flags / 4 % 2 == 1 }

  lemma FlagsRoundTrip(b: Byte, words: bool, action: bool, tombstone: bool)
    ensures var f := Flags(words, action, tombstone);
      f < 8 && HasWords(f) == words && HasAction(f) == action && HasTombstone(f) == tombstone
    ensures b < 8 ==> Flags(HasWords(b), HasAction(b), HasTombstone(b)) == b
  {
  }

  function StateBytes(s: State): Bytes
    requires s.Valid()
  {
    [PhaseByte(s.phase), Flags(s.parts.words.Some?, s.parts.action.Some?, s.parts.tombstone.Some?), 0, 0] + W.PartsBytes(s.parts)
  }

  /** `EncodeState`: phase and flags before the parts, and a frame around them. A valid state
      always has an encoding. */
  method EncodeState(s: State) returns (r: Option<Bytes>)
    ensures r == if s.Valid() then Some(W.FrameBytes(W.StateFrame, StateBytes(s))) else None
  {
    if !s.ValidShape() {
      return None;
    }
    var parts := W.EncodeParts(s.parts);
    if parts.None? {
      return None;
    }
    W.PartsFit(s.parts);
    var flags := Flags(s.parts.words.Some?, s.parts.action.Some?, s.parts.tombstone.Some?);
    r := W.EncodeFrame(W.StateFrame, [PhaseByte(s.phase), flags, 0, 0] + parts.value);
  }

  /** The parts that are announced, in order, and nothing behind them. */
  function TakeParts(words: bool, action: bool, tombstone: bool, p: Bytes): Option<W.Parts> {
    var ws := W.TakeOptionalWords(words, p);
    if ws.None? then None
    else
      var q := p[ws.value.1..];
      var a := W.TakeOptionalAction(action, q);
      if a.None? then None
      else
        var u := q[a.value.1..];
        var t := W.TakeOptionalTombstone(tombstone, u);
        if t.None? || t.value.1 != |u| then None else Some(W.Parts(ws.value.0, a.value.0, t.value.0))
  }

  /** `DecodeState`. */
  function DecodeState(p: Bytes): Option<State> {
    if |p| < 4 || p[2] != 0 || p[3] != 0 || p[1] >= 8 || PhaseOf(p[0]).None? then None
    else
      var parts := TakeParts(HasWords(p[1]), HasAction(p[1]), HasTombstone(p[1]), p[4..]);
      if parts.None? then None
      else
        var s := State(PhaseOf(p[0]).value, parts.value);
        if s.ValidShape() then Some(s) else None
  }

  lemma PartsAreReadBack(parts: W.Parts)
    requires parts.Valid()
    ensures TakeParts(parts.words.Some?, parts.action.Some?, parts.tombstone.Some?, W.PartsBytes(parts)) == Some(parts)
  {
    var ws, a, t := W.OptionalWords(parts.words), W.OptionalAction(parts.action), W.OptionalTombstone(parts.tombstone);
    W.OptionalWordsAreReadBack(parts.words, a + t);
    assert (ws + (a + t))[|ws|..] == a + t;
    W.OptionalActionIsReadBack(parts.action, t);
    assert (a + t)[|a|..] == t;
    W.OptionalTombstoneIsReadBack(parts.tombstone, []);
    assert t + [] == t;
  }

  lemma ReadPartsWereWritten(words: bool, action: bool, tombstone: bool, p: Bytes)
    requires TakeParts(words, action, tombstone, p).Some?
    ensures var parts := TakeParts(words, action, tombstone, p).value;
      && parts.Valid() && W.PartsBytes(parts) == p
      && parts.words.Some? == words && parts.action.Some? == action && parts.tombstone.Some? == tombstone
  {
    var (ws, n) := W.TakeOptionalWords(words, p).value;
    W.ReadOptionalWordsWereWritten(words, p);
    var q := p[n..];
    var (a, m) := W.TakeOptionalAction(action, q).value;
    W.ReadOptionalActionWasWritten(action, q);
    var u := q[m..];
    var (t, k) := W.TakeOptionalTombstone(tombstone, u).value;
    W.ReadOptionalTombstoneWasWritten(tombstone, u);
    PiecesOf(p, n, m, W.OptionalWords(ws), W.OptionalAction(a), W.OptionalTombstone(t));
  }

  lemma PiecesOf(p: Bytes, n: nat, m: nat, x: Bytes, y: Bytes, z: Bytes)
    requires n <= |p| && n + m <= |p| && p[..n] == x && p[n..][..m] == y
    requires var u := p[n..][m..]; u[..|u|] == z
    ensures x + (y + z) == p
  {
    var q := p[n..];
    assert q == q[..m] + q[m..];
    assert p == p[..n] + q;
  }

  /** States are exact inverses both ways: a valid state is decoded to itself, from the payload
      of the very frame that it was encoded to. */
  lemma StateIsReadBack(s: State)
    requires s.Valid()
    ensures DecodeState(StateBytes(s)) == Some(s)
    ensures W.ReadFrame(W.FrameBytes(W.StateFrame, StateBytes(s)), W.StateFrame, W.MAX_FRAME_SIZE) == Some(StateBytes(s))
  {
    var p := StateBytes(s);
    assert p[4..] == W.PartsBytes(s.parts);
    PartsAreReadBack(s.parts);
    PhasesRoundTrip(0, s.phase);
    FlagsRoundTrip(0, s.parts.words.Some?, s.parts.action.Some?, s.parts.tombstone.Some?);
    W.PartsFit(s.parts);
    W.FramesRoundTrip(W.StateFrame, p, [], W.MAX_FRAME_SIZE);
  }

  lemma HeaderIs(p: Bytes, s: State, words: bool, action: bool, tombstone: bool)
    requires |p| >= 4 && p[1] < 8 && p[2] == p[3] == 0 && PhaseOf(p[0]) == Some(s.phase)
    requires words == HasWords(p[1]) && action == HasAction(p[1]) && tombstone == HasTombstone(p[1])
    ensures p[..4] == [PhaseByte(s.phase), Flags(words, action, tombstone), 0, 0]
  {
    PhasesRoundTrip(p[0], s.phase);
    FlagsRoundTrip(p[1], false, false, false);
    assert p[..4] == [p[0], p[1], p[2], p[3]];
  }

  /** Re-encoding whatever is accepted gives the same bytes, so every state has one encoding. */
  lemma ReadStateWasWritten(p: Bytes)
    requires DecodeState(p).Some?
    ensures DecodeState(p).value.Valid() && StateBytes(DecodeState(p).value) == p
  {
    var words, action, tombstone := HasWords(p[1]), HasAction(p[1]), HasTombstone(p[1]);
    var parts := TakeParts(words, action, tombstone, p[4..]).value;
    ReadPartsWereWritten(words, action, tombstone, p[4..]);
    HeaderIs(p, State(PhaseOf(p[0]).value, parts), words, action, tombstone);
    assert p == p[..4] + p[4..];
  }
}
