/**
  The target's exchange session: one phase machine, durable under a generation
  compare-and-swap.
  Source: internal/enrollmentexchange/session.go, response_binding.go and store.go.
*/
module ExchangeSession {
  import opened Common
  import Lifecycle

  const WORDS_PER_DIRECTION := 3

  datatype Phase = PendingComparison | TranscriptConfirmed | ResponseVerified | Applied | Ready | Cancelled

  /** A signed invitation. `installation` is the identifier derived from its exact bytes. */
  datatype Invitation = Invitation(
    sha: Digest, created: int, expires: int, runtime: Id, release: U64, trust: Id, signer: Id, installation: Id)
  {
    predicate CurrentAt(now: int) {
      release != 0 && created - CLOCK_SKEW <= now < expires
    }
  }

  datatype SignedRequest = SignedRequest(sha: Digest, created: int, expires: int)
  {
    predicate CurrentAt(now: int) {
      created - CLOCK_SKEW <= now < expires
    }

    predicate Within(invitation: Invitation) {
      invitation.created <= created && expires <= invitation.expires
    }
  }

  /** A bound response as it opens: `signer` is the key its signature verifies under. */
  datatype BoundResponse = BoundResponse(
    sha: Digest, signer: Id, invitation: Digest, ciphertext: Digest, transcript: Digest, response: Lifecycle.Envelope)

  /** One durable target session (`encodedTargetSession`). The zero digest is None here. */
  datatype TargetState = TargetState(
    generation: nat,
    phase: Phase,
    invitation: Invitation,
    request: SignedRequest,
    ciphertext: Digest,
    transcript: Digest,
    phrase: seq<string>,
    confirmed: Option<Digest>,
    response: Option<BoundResponse>)
  {
    /** `validateShape`. */
    predicate ValidShape() {
      && generation > 0 && |phrase| == 2 * WORDS_PER_DIRECTION
      && (match phase
          case PendingComparison => confirmed.None? && response.None?
          case TranscriptConfirmed => confirmed.Some? && response.None?
          case ResponseVerified => confirmed.Some? && response.Some?
          case Applied => confirmed.Some? && response.Some?
          case Ready => confirmed.Some? && response.Some?
          case Cancelled => confirmed.None? && response.None?)
      && (confirmed.Some? ==> confirmed.value == transcript)
    }

    /** `verifyBoundResponse`. */
    predicate Binds(bound: BoundResponse) {
      && bound.signer == invitation.signer
      && bound.invitation == invitation.sha && bound.ciphertext == ciphertext && bound.transcript == transcript
    }

    /** `ParseTargetSession` at time `now`. */
    predicate ParsesAt(now: int) {
      && invitation.CurrentAt(now) && request.CurrentAt(now) && request.Within(invitation)
      && ValidShape()
      && (response.Some? ==> Binds(response.value))
    }

    function ReverseWords(): seq<string>
      requires |phrase| == 2 * WORDS_PER_DIRECTION
    {
      phrase[WORDS_PER_DIRECTION..]
    }
  }

  predicate SameExchange(s: TargetState, t: TargetState) {
    s.invitation == t.invitation && s.request == t.request && s.ciphertext == t.ciphertext &&
    s.transcript == t.transcript && s.phrase == t.phrase
  }

  /** The legal edges of the phase machine. */
  predicate Edge(s: TargetState, t: TargetState) {
    && SameExchange(s, t) && t.generation == s.generation + 1
    && match t.phase
       case PendingComparison => false
       case TranscriptConfirmed => s.phase.PendingComparison? && t.confirmed == Some(s.transcript) && t.response == s.response
       case ResponseVerified =>
         s.phase.TranscriptConfirmed? && t.confirmed == s.confirmed && t.response.Some? && s.Binds(t.response.value)
       case Applied => s.phase.ResponseVerified? && t.confirmed == s.confirmed && t.response == s.response
       case Ready => s.phase.Applied? && t.confirmed == s.confirmed && t.response == s.response
       case Cancelled =>
         (s.phase.PendingComparison? || s.phase.TranscriptConfirmed? || s.phase.ResponseVerified?) &&
         t.confirmed.None? && t.response.None?
  }

  /** The generation that each phase carries; a cancelled session shows how far it had come. */
  predicate Numbered(s: TargetState) {
    match s.phase
    case PendingComparison => s.generation == 1
    case TranscriptConfirmed => s.generation == 2
    case ResponseVerified => s.generation == 3
    case Applied => s.generation == 4
    case Ready => s.generation == 5
    case Cancelled => 2 <= s.generation <= 4
  }

  predicate Initial(s: TargetState) {
    s.generation == 1 && s.phase.PendingComparison? && s.ValidShape()
  }

  lemma EdgeKeepsSession(s: TargetState, t: TargetState)
    requires Edge(s, t) && s.ValidShape() && Numbered(s)
    ensures t.ValidShape() && Numbered(t)
    ensures s.response.Some? && s.Binds(s.response.value) && t.response.Some? ==> t.Binds(t.response.value)
  {
  }

  predicate StoredRun(ss: seq<TargetState>) {
    && ss != [] && Initial(ss[0])
    && forall i {:trigger ss[i]} :: 0 < i < |ss| ==> Edge(ss[i - 1], ss[i])
  }

  /** Everything ever stored: well shaped, numbered by its place in the history and by its
      phase, always the same exchange, and never more than five of them. */
  lemma {:induction false} StoredHistory(ss: seq<TargetState>, k: nat)
    requires StoredRun(ss) && k < |ss|
    ensures ss[k].generation == k + 1 && ss[k].ValidShape() && Numbered(ss[k]) && SameExchange(ss[0], ss[k])
    ensures k < 5
    ensures ss[k].response.Some? ==> ss[k].Binds(ss[k].response.value)
    ensures ss[k].phase.Cancelled? || ss[k].phase.Ready? ==> k == |ss| - 1
  {
    if k > 0 {
      StoredHistory(ss, k - 1);
      assert Edge(ss[k - 1], ss[k]);
      EdgeKeepsSession(ss[k - 1], ss[k]);
    }
    if k + 1 < |ss| {
      assert Edge(ss[k], ss[k + 1]);
    }
  }

  /** Whatever was stored can be loaded again: only the clock can lock a stored session out. */
  lemma StoredParsesWhileCurrent(ss: seq<TargetState>, k: nat, now: int)
    requires StoredRun(ss) && k < |ss| && ss[0].request.Within(ss[0].invitation)
    ensures ss[k].ParsesAt(now) <==> ss[0].invitation.CurrentAt(now) && ss[0].request.CurrentAt(now)
  {
    StoredHistory(ss, k);
  }

  // ------------------------------------------------------------- comparing the words

  predicate IsSpace(c: char) {
    c == ' ' || c == '\t' || c == '\n' || c == '\r'
  }

  function TrimLeft(w: string): string {
    if w != "" && IsSpace(w[0]) then TrimLeft(w[1..]) else w
  }

  function TrimRight(w: string): string {
    if w != "" && IsSpace(w[|w| - 1]) then TrimRight(w[..|w| - 1]) else w
  }

  function ToLower(c: char): char {
    if 'A' <= c <= 'Z' then c + 32 as char else c
  }

  function Canonical(w: string): string {
    var t := TrimRight(TrimLeft(w));
    seq(|t|, i requires 0 <= i < |t| => ToLower(t[i]))
  }

  function JoinGroup(ws: seq<string>): string
    requires |ws| == WORDS_PER_DIRECTION
  {
    Join(ws[0], Join(ws[1], ws[2]))
  }

  /** The comparison as the code makes it: canonical words, joined by NUL, equal to the
      expected words joined by NUL. */
  predicate GroupMatches(words: seq<string>, expected: seq<string>)
    requires |words| == |expected| == WORDS_PER_DIRECTION
  {
    var canonical := seq(WORDS_PER_DIRECTION, i requires 0 <= i < WORDS_PER_DIRECTION => Canonical(words[i]));
    (forall w <- canonical :: ComparisonWord(w)) && JoinGroup(canonical) == JoinGroup(expected)
  }

  /** The joined comparison is word-by-word comparison: no two different groups of vocabulary
      words collide when joined. */
  lemma GroupMatchesExactly(words: seq<string>, expected: seq<string>)
    requires |words| == |expected| == WORDS_PER_DIRECTION && forall w <- expected :: ComparisonWord(w)
    ensures GroupMatches(words, expected) <==> forall i | 0 <= i < WORDS_PER_DIRECTION :: Canonical(words[i]) == expected[i]
  {
    var cs := seq(WORDS_PER_DIRECTION, i requires 0 <= i < WORDS_PER_DIRECTION => Canonical(words[i]));
    if (forall w <- cs :: ComparisonWord(w)) && JoinGroup(cs) == JoinGroup(expected) {
      assert ComparisonWord(cs[0]) && ComparisonWord(cs[1]) && ComparisonWord(expected[0]) && ComparisonWord(expected[1]);
      JoinSplits(cs[0], Join(cs[1], cs[2]), expected[0], Join(expected[1], expected[2]));
      JoinSplits(cs[1], cs[2], expected[1], expected[2]);
    }
    if forall i | 0 <= i < WORDS_PER_DIRECTION :: Canonical(words[i]) == expected[i] {
      assert cs == expected;
    }
  }

  predicate AllBlank(words: seq<string>) {
    forall w <- words :: TrimRight(TrimLeft(w)) == ""
  }

  datatype Outcome = Unavailable | Deferred | Confirmed | Mismatched

  // ---------------------------------------------------------------- the session object

  class TargetSession {
    var generation: nat
    var phase: Phase
    const invitation: Invitation
    const request: SignedRequest
    const ciphertext: Digest
    const transcript: Digest
    const phrase: seq<string>
    var confirmed: Option<Digest>
    var response: Option<BoundResponse>

    constructor (s: TargetState)
      ensures Snapshot() == s
    {
      generation, phase, confirmed, response := s.generation, s.phase, s.confirmed, s.response;
      invitation, request, ciphertext, transcript, phrase := s.invitation, s.request, s.ciphertext, s.transcript, s.phrase;
    }

    /** What `Encode` would write. */
    function Snapshot(): TargetState
      reads this
    {
      TargetState(generation, phase, invitation, request, ciphertext, transcript, phrase, confirmed, response)
    }

    method ConfirmProvisionerWords(words: seq<string>) returns (outcome: Outcome)
      requires |words| == WORDS_PER_DIRECTION && |phrase| == 2 * WORDS_PER_DIRECTION
      modifies this
      ensures outcome.Unavailable? <==> !old(phase).PendingComparison?
      ensures outcome.Deferred? <==> old(phase).PendingComparison? && AllBlank(words)
      ensures outcome.Confirmed? ==> GroupMatches(words, Snapshot().ReverseWords()) && phase.TranscriptConfirmed?
      ensures outcome.Mismatched? ==> !GroupMatches(words, Snapshot().ReverseWords()) && phase.Cancelled?
      ensures outcome.Confirmed? || outcome.Mismatched? <==> Snapshot() != old(Snapshot())
      ensures Snapshot() != old(Snapshot()) && old(Snapshot().ValidShape()) ==> Edge(old(Snapshot()), Snapshot())
    {
      if phase != PendingComparison {
        return Unavailable;
      }
      if AllBlank(words) {
        return Deferred;
      }
      generation := generation + 1;
      if !GroupMatches(words, phrase[WORDS_PER_DIRECTION..]) {
        phase, confirmed := Phase.Cancelled, None;
        return Mismatched;
      }
      phase, confirmed := TranscriptConfirmed, Some(transcript);
      return Outcome.Confirmed;
    }

    method Cancel() returns (ok: bool)
      modifies this
      ensures ok <==> !old(phase).Applied? && !old(phase).Ready?
      ensures !ok || old(phase).Cancelled? ==> Snapshot() == old(Snapshot())
      ensures ok && !old(phase).Cancelled? ==> Edge(old(Snapshot()), Snapshot()) && phase.Cancelled?
    {
      if phase == Phase.Cancelled {
        return true;
      }
      if phase == Phase.Applied || phase == Ready {
        return false;
      }
      generation, phase, confirmed, response := generation + 1, Phase.Cancelled, None, None;
      return true;
    }

    method AcceptBoundResponse(bound: BoundResponse) returns (ok: bool)
      modifies this
      ensures ok <==> old(phase).TranscriptConfirmed? && old(confirmed) == Some(transcript) && old(Snapshot()).Binds(bound)
      ensures !ok ==> Snapshot() == old(Snapshot())
      ensures ok ==> Edge(old(Snapshot()), Snapshot()) && phase.ResponseVerified? && response == Some(bound)
    {
      if phase != TranscriptConfirmed || confirmed != Some(transcript) || !Snapshot().Binds(bound) {
        return false;
      }
      generation, phase, response := generation + 1, ResponseVerified, Some(bound);
      return true;
    }

    method RecordApplied() returns (ok: bool)
      modifies this
      ensures ok <==> old(phase).ResponseVerified? && response.Some?
      ensures if ok then Edge(old(Snapshot()), Snapshot()) && phase.Applied? else Snapshot() == old(Snapshot())
    {
      if phase != ResponseVerified || response.None? {
        return false;
      }
      generation, phase := generation + 1, Phase.Applied;
      return true;
    }

    /** `probe` is the outcome of the carrier-only READY operation. */
    method CompleteReadyProbe(probe: bool) returns (ok: bool)
      modifies this
      ensures ok <==> old(phase).Applied? && probe
      ensures if ok then Edge(old(Snapshot()), Snapshot()) && phase.Ready? else Snapshot() == old(Snapshot())
    {
      if phase != Phase.Applied || !probe {
        return false;
      }
      generation, phase := generation + 1, Ready;
      return true;
    }
  }

  // ------------------------------------------------------------- compare-and-swap store

  /** One durable session file. Writers work on copies that they loaded at any earlier time. */
  class TargetStore {
    var stored: TargetState
    ghost var history: seq<TargetState>

    ghost predicate Valid()
      reads this
    {
      StoredRun(history) && stored == history[|history| - 1]
    }

    constructor (s: TargetState)
      requires Initial(s)
      ensures Valid() && history == [s]
    {
      stored := s;
      history := [s];
    }

    /** A writer replaces the session it loaded earlier (`loaded`, at generation `expected`) by
        its successor. A stale writer is refused, so what is stored stays one linear history. The
        write itself may fail, before or after taking effect, unless `calm`. */
    method Replace(expected: nat, s: TargetState, now: int, calm: bool, ghost loaded: TargetState) returns (ok: bool)
      requires Valid() && loaded in history && loaded.generation == expected && Edge(loaded, s)
      modifies this
      ensures Valid()
      ensures ok ==> history == old(history) + [s]
      ensures history == old(history) || (history == old(history) + [s] && loaded == old(stored) && loaded.ParsesAt(now))
      ensures calm ==> (ok <==> loaded == old(stored) && loaded.ParsesAt(now)) && (!ok ==> history == old(history))
    {
      ghost var k :| 0 <= k < |history| && history[k] == loaded;
      StoredHistory(history, k);
      StoredHistory(history, |history| - 1);
      EdgeKeepsSession(loaded, s);
      if expected == 0 || s.generation != expected + 1 || !stored.ParsesAt(now) || stored.generation != expected {
        return false;
      }
      ok := true;
      var applied := true;
      if !calm {
        ok, applied := *, *;
      }
      if ok || applied {
        stored := s;
        history := history + [s];
      }
    }
  }

  /** At most one writer wins each generation: of two successors of one stored session, only
      the one that was stored is ever followed by anything. */
  lemma OneWinnerPerGeneration(ss: seq<TargetState>, i: nat, j: nat)
    requires StoredRun(ss) && i < |ss| && j < |ss| && ss[i].generation == ss[j].generation
    ensures i == j
  {
    StoredHistory(ss, i);
    StoredHistory(ss, j);
  }
}
