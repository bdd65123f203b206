/**
  The bounded loop that carries one client setup from wherever it stands to READY.
  Source: cmd/owntransit/setup_client_unix.go.
*/
module SetupDriver {
  import opened Common
  import opened SetupState
  import L = Lifecycle
  import LS = LocalState
  import X = ExchangeSession
  import C = Coordinator

  const MAX_SETUP_TRANSITIONS := 6

  /** What the surroundings contribute to one turn: whether the courier delivers, the words
      that were typed, the response that was fetched, the carrier proof, the clock, and whether
      the durable writes of the turn succeed. */
  datatype Turn = Turn(
    courier: bool, words: Option<seq<string>>, response: X.BoundResponse, probe: bool, now: int, calm: bool)
  {
    /** `readSetupWords`: three blank-separated fields, or nothing typed at all. */
    predicate Typed() {
      words.Some? ==> |words.value| == X.WORDS_PER_DIRECTION && !X.AllBlank(words.value)
    }
  }

  datatype Exit = SavedNotReady | CarrierReady(cleaned: bool) | ComparisonFailed | ControlFailed | LimitExceeded

  /** How far a phase is along the setup. */
  function Rank(phase: X.Phase): nat {
    match phase
    case PendingComparison => 0
    case TranscriptConfirmed => 1
    case ResponseVerified => 1
    case Applied => 2
    case Ready => 3
    case Cancelled => 3
  }

  /** A reply that reports a cleaned setup reports the stored receipt. */
  predicate Truthful(s: Setup, reply: C.Reply) {
    reply.phase.Ready? && !reply.cleanup ==> s.receipt.Whole? && s.receipt.value.cleaned.Some?
  }

  // -------------------------------------------------------------- the undisturbed run

  /** One enrolment as it should go: what was staged when, and the response it is to receive. */
  datatype Script = Script(invitation: X.Invitation, seed: C.Seed, start: int, bound: X.BoundResponse)
  {
    function Material(): L.Material {
      C.Minted(invitation, seed, start)
    }

    function Staged(): X.TargetState {
      C.FirstSession(invitation, Material(), seed)
    }

    function Confirmed(): X.TargetState {
      C.AsConfirmed(Staged())
    }

    function Verified(): X.TargetState {
      C.AsVerified(Confirmed(), bound)
    }

    function State(): LS.State {
      L.ImportNext(L.InitialState(OptionsFor(invitation)), Material())
    }

    /** The operator answered this request: the response is bound to the exchange, and deploys
        the first credential of this very request and release. */
    predicate Answered() {
      && |seed.phrase| == 2 * X.WORDS_PER_DIRECTION && Staged().Binds(bound)
      && bound.response.deployment.Some?
      && var d := bound.response.deployment.value;
      && d.request == seed.request && d.release == invitation.release
      && d.credentialEpoch == 1 && d.sequence > 0
    }

    predicate Open(t: int) {
      start <= t && 0 < start && invitation.created <= start && invitation.CurrentAt(t) && Material().CurrentAt(t)
    }

    /** Nothing goes wrong in this turn, and everybody plays their part. */
    predicate Plays(turn: Turn)
      requires |seed.phrase| == 2 * X.WORDS_PER_DIRECTION
    {
      && turn.courier && turn.probe && turn.calm && Open(turn.now) && turn.response == bound
      && turn.words.Some? && |turn.words.value| == X.WORDS_PER_DIRECTION && !X.AllBlank(turn.words.value)
      && X.GroupMatches(turn.words.value, Staged().ReverseWords())
    }
  }

  /** The workspace at each phase of that enrolment. */
  function WorkspaceAt(script: Script, phase: X.Phase): Workspace {
    var first := C.FirstWorkspace(script.invitation, script.seed, script.start);
    match phase
    case TranscriptConfirmed => first.(pending := Missing).WithSession(Whole(script.Confirmed()))
    case Applied => first.(pending := Missing).WithSession(Whole(C.AsApplied(script.Verified())))
    case _ => first
  }

  /** The lifecycle at each phase. */
  predicate LifeAt(script: Script, phase: X.Phase, life: Life) {
    match phase
    case PendingComparison => life.boot.Absent? && life.state.None? && script.seed.nonce !in life.records
    case TranscriptConfirmed =>
      && life.settled && life.state == Some(script.State())
      && script.seed.nonce in life.records && life.records[script.seed.nonce] == L.Record(L.AllFiles(script.Material()), true, L.NoFiles)
    case _ =>
      && life.settled && RunsResponse(life, script.Verified())
      && life.state.value.role == LS.Client && life.state.value.installation == script.invitation.installation
  }

  /** Setup and lifecycle are where an undisturbed enrolment has them in this phase; `t` is not
      before READY. */
  predicate OnTrack(s: Setup, life: Life, runtime: Id, script: Script, phase: X.Phase, t: int) {
    var i := script.invitation.sha;
    && script.Answered() && script.invitation.runtime == runtime && LifeAt(script, phase, life)
    && if phase.Ready? then
         && C.CleanupUnblocked(s, life, runtime)
         && s.receipt.value.cleaned.None? && s.receipt.value.ready <= t
       else
         && !phase.ResponseVerified? && !phase.Cancelled?
         && s.selector == Whole(i) && s.receipt.Missing? && i in s.workspaces && s.workspaces[i] == WorkspaceAt(script, phase)
  }

  lemma OnTrackOpens(s: Setup, life: Life, runtime: Id, script: Script, phase: X.Phase, t: int, now: int)
    requires OnTrack(s, life, runtime, script, phase, t) && !phase.Ready? && script.Open(now)
    ensures var c := OpenCurrent(s, runtime, now, false);
      c == Some(Current(script.invitation.sha, Plan(script.invitation, script.start), s.workspaces[script.invitation.sha].Session().value))
    ensures s.workspaces[script.invitation.sha].Session().value.phase == phase
    ensures s.workspaces[script.invitation.sha].Session().value.ParsesAt(script.start)
  {
  }

  /** A client on its way, and a turn in which nothing goes wrong. */
  ghost predicate Undisturbed(client: C.Client, script: Script, phase: X.Phase, t: int, turn: Turn)
    reads client
  {
    OnTrack(client.setup, client.life, client.runtime, script, phase, t) && script.Plays(turn) && t <= turn.now
  }

  /** What was just imported is what the response answers. */
  lemma AnswerIsAccepted(life: Life, script: Script, now: int)
    requires script.Answered() && script.Open(now) && LifeAt(script, X.TranscriptConfirmed, life)
    ensures HoldsRequest(life, script.Confirmed()) && C.CanApply(life, script.Verified(), now)
  {
    var s, m, e := script.State(), script.Material(), script.bound.response;
    assert L.InitialState(OptionsFor(script.invitation)).Valid();
    L.ImportCommits(L.InitialState(OptionsFor(script.invitation)), m, now);
    assert L.ApplyAllowed(s, m, e);
    L.ApplyCommitsIffRecordIsNew(s, m, e);
  }

  lemma ConfirmIsOnTrack(
      s: Setup, life: Life, runtime: Id, script: Script, t: int, cur: Current, turn: Turn, s': Setup, life': Life, reply: Option<X.Phase>)
    requires OnTrack(s, life, runtime, script, X.PendingComparison, t) && script.Plays(turn) && t <= turn.now
    requires OpenCurrent(s, runtime, turn.now, false) == Some(cur) && cur.workspace in s'.workspaces
    requires s' == s.Put(cur.workspace, s'.workspaces[cur.workspace])
    requires C.ConfirmOutcome(life, s, cur, turn.words.value, life', s', reply)
    requires reply == C.ConfirmReply(life, s, cur, turn.words.value, turn.now)
    ensures reply == Some(X.TranscriptConfirmed)
    ensures OnTrack(s', life', runtime, script, X.TranscriptConfirmed, turn.now)
  {
    OnTrackOpens(s, life, runtime, script, X.PendingComparison, t, turn.now);
  }

  lemma AcceptIsPossible(s: Setup, life: Life, runtime: Id, script: Script, t: int, cur: Current, turn: Turn)
    requires OnTrack(s, life, runtime, script, X.TranscriptConfirmed, t) && script.Plays(turn) && t <= turn.now
    requires OpenCurrent(s, runtime, turn.now, false) == Some(cur)
    ensures cur.session == script.Confirmed() && HoldsRequest(life, cur.session) && life.Readable()
    ensures C.AcceptPossible(life, s, cur, turn.response, turn.now)
  {
    OnTrackOpens(s, life, runtime, script, X.TranscriptConfirmed, t, turn.now);
    AnswerIsAccepted(life, script, turn.now);
  }

  lemma AcceptIsOnTrack(s: Setup, life: Life, runtime: Id, script: Script, t: int, cur: Current, turn: Turn, s': Setup, life': Life)
    requires OnTrack(s, life, runtime, script, X.TranscriptConfirmed, t) && script.Plays(turn) && t <= turn.now
    requires OpenCurrent(s, runtime, turn.now, false) == Some(cur) && cur.workspace in s'.workspaces
    requires s' == s.Put(cur.workspace, s'.workspaces[cur.workspace])
    requires C.AcceptedAs(life, s.workspaces[cur.workspace], cur.session, turn.response, turn.now, life', s'.workspaces[cur.workspace])
    ensures OnTrack(s', life', runtime, script, X.Phase.Applied, turn.now)
  {
    AcceptIsPossible(s, life, runtime, script, t, cur, turn);
  }

  lemma ReadyIsOnTrack(
      s: Setup, life: Life, runtime: Id, script: Script, t: int, cur: Current, turn: Turn, s': Setup, life': Life, reply: Option<C.Reply>)
    requires OnTrack(s, life, runtime, script, X.Phase.Applied, t) && script.Plays(turn) && t <= turn.now
    requires OpenCurrent(s, runtime, turn.now, false) == Some(cur)
    requires life' == life.(records := life'.records) && RunsResponse(life', script.Verified())
    requires C.ReadyOutcome(cur, s, true, turn.now, life', s', runtime, reply)
    requires reply.Some? <==> life.settled && C.ReadyProven(life, cur, true, turn.now)
    ensures reply == Some(C.Reply(X.Ready, true)) && OnTrack(s', life', runtime, script, X.Ready, turn.now)
  {
    OnTrackOpens(s, life, runtime, script, X.Phase.Applied, t, turn.now);
  }

  // ------------------------------------------------------------------ the turns

  /** The comparison: the courier first, then the words that were read back. */
  method Compare(client: C.Client, turn: Turn, ghost script: Script, ghost t: int) returns (phase: Option<X.Phase>, exit: Exit)
    requires client.Valid() && turn.Typed()
    modifies client, client.target, client.target.root
    ensures client.Valid() && !exit.LimitExceeded? && !exit.CarrierReady?
    ensures phase.Some? ==> Rank(phase.value) > 0 && !phase.value.Ready?
    ensures old(Undisturbed(client, script, X.PendingComparison, t, turn)) ==>
      phase == Some(X.TranscriptConfirmed) &&
      OnTrack(client.setup, client.life, client.runtime, script, X.TranscriptConfirmed, turn.now)
  {
    if !turn.courier || turn.words.None? {
      return None, SavedNotReady;
    }
    ghost var c := client.Open(turn.now);
    if Undisturbed(client, script, X.PendingComparison, t, turn) {
      OnTrackOpens(client.setup, client.life, client.runtime, script, X.PendingComparison, t, turn.now);
    }
    phase := client.Confirm(turn.words.value, turn.now, turn.calm);
    exit := ControlFailed;
    if old(Undisturbed(client, script, X.PendingComparison, t, turn)) {
      ConfirmIsOnTrack(old(client.setup), old(client.life), client.runtime, script, t, c.value, turn, client.setup, client.life, phase);
    }
  }

  /** The response that was fetched. */
  method Accept(client: C.Client, turn: Turn, ghost script: Script, ghost t: int) returns (phase: Option<X.Phase>)
    requires client.Valid()
    modifies client, client.target, client.target.root
    ensures client.Valid() && (phase.Some? ==> phase == Some(X.Phase.Applied))
    ensures old(Undisturbed(client, script, X.TranscriptConfirmed, t, turn)) ==>
      phase.Some? && OnTrack(client.setup, client.life, client.runtime, script, X.Phase.Applied, turn.now)
  {
    ghost var c := client.Open(turn.now);
    if Undisturbed(client, script, X.TranscriptConfirmed, t, turn) {
      OnTrackOpens(client.setup, client.life, client.runtime, script, X.TranscriptConfirmed, t, turn.now);
      AcceptIsPossible(client.setup, client.life, client.runtime, script, t, c.value, turn);
    }
    phase := client.AcceptAndApply(turn.response, turn.now, turn.calm);
    if old(Undisturbed(client, script, X.TranscriptConfirmed, t, turn)) {
      AcceptIsOnTrack(old(client.setup), old(client.life), client.runtime, script, t, c.value, turn, client.setup, client.life);
    }
  }

  method Resume(client: C.Client, turn: Turn) returns (phase: Option<X.Phase>)
    requires client.Valid()
    modifies client, client.target, client.target.root
    ensures client.Valid() && (phase.Some? ==> phase == Some(X.Phase.Applied))
  {
    phase := client.ResumeApply(turn.now, turn.calm);
  }

  /** READY, and whether the local capabilities are gone too. */
  method Finish(client: C.Client, cleanup: bool, turn: Turn, ghost script: Script, ghost t: int) returns (exit: Exit)
    requires client.Valid() && Truthful(client.setup, C.Reply(X.Ready, cleanup))
    modifies client, client.target, client.target.root
    ensures client.Valid() && exit.CarrierReady?
    ensures exit.cleaned ==> client.setup.receipt.Whole? && client.setup.receipt.value.cleaned.Some?
    ensures old(Undisturbed(client, script, X.Ready, t, turn)) ==>
      exit.cleaned && RunsResponse(client.life, script.Verified())
  {
    if cleanup {
      var reply := client.CleanupReady(turn.now, turn.calm);
      if reply.None? || !reply.value.phase.Ready? || reply.value.cleanup {
        return CarrierReady(false);
      }
    }
    return CarrierReady(true);
  }

  method Prove(client: C.Client, turn: Turn, ghost script: Script, ghost t: int) returns (next: Option<C.Reply>)
    requires client.Valid()
    modifies client, client.target
    ensures client.Valid()
    ensures next.Some? ==> next.value.phase.Ready? && Truthful(client.setup, next.value)
    ensures old(Undisturbed(client, script, X.Phase.Applied, t, turn)) ==>
      next == Some(C.Reply(X.Ready, true)) && OnTrack(client.setup, client.life, client.runtime, script, X.Ready, turn.now)
  {
    ghost var c := client.Open(turn.now);
    if Undisturbed(client, script, X.Phase.Applied, t, turn) {
      OnTrackOpens(client.setup, client.life, client.runtime, script, X.Phase.Applied, t, turn.now);
    }
    next := client.CompleteReady(turn.probe, turn.now, turn.calm);
    if old(Undisturbed(client, script, X.Phase.Applied, t, turn)) {
      assert WorkspaceAgrees(World(client.setup, client.life), c.value.workspace);
      ReadyIsOnTrack(old(client.setup), old(client.life), client.runtime, script, t, c.value, turn, client.setup, client.life, next);
    }
  }

  /** One turn of one phase: the next reply, or the way out. */
  method TakeTurn(client: C.Client, state: C.Reply, turn: Turn, ghost script: Script, ghost t: int) returns (next: Option<C.Reply>, exit: Exit)
    requires client.Valid() && turn.Typed() && Truthful(client.setup, state)
    modifies client, client.target, client.target.root
    ensures client.Valid() && !exit.LimitExceeded?
    ensures next.Some? ==> Rank(next.value.phase) > Rank(state.phase) && Truthful(client.setup, next.value)
    ensures exit == CarrierReady(true) ==> client.setup.receipt.Whole? && client.setup.receipt.value.cleaned.Some?
    ensures old(Undisturbed(client, script, state.phase, t, turn)) ==>
      if next.Some? then OnTrack(client.setup, client.life, client.runtime, script, next.value.phase, turn.now)
      else exit == CarrierReady(true) && RunsResponse(client.life, script.Verified())
  {
    next, exit := None, ControlFailed;
    match state.phase
    case PendingComparison =>
      var phase;
      phase, exit := Compare(client, turn, script, t);
      next := if phase.Some? then Some(C.Reply(phase.value, false)) else None;
    case TranscriptConfirmed =>
      if !turn.courier {
        return None, SavedNotReady;
      }
      var phase := Accept(client, turn, script, t);
      next := if phase.Some? then Some(C.Reply(phase.value, false)) else None;
    case ResponseVerified =>
      var phase := Resume(client, turn);
      next := if phase.Some? then Some(C.Reply(phase.value, false)) else None;
    case Applied =>
      next := Prove(client, turn, script, t);
      exit := SavedNotReady;
    case Ready =>
      exit := Finish(client, state.cleanup, turn, script, t);
    case Cancelled =>
      exit := ComparisonFailed;
  }

  /** The clock of the last turn that has been taken. */
  function ClockBefore(start: int, turns: seq<Turn>, k: nat): int
    requires k <= |turns|
  {
    if k == 0 then start else turns[k - 1].now
  }

  /** No turn goes wrong, and the clock never goes back. */
  predicate AllPlay(script: Script, turns: seq<Turn>)
    requires |script.seed.phrase| == 2 * X.WORDS_PER_DIRECTION
  {
    forall k {:trigger turns[k]} :: 0 <= k < |turns| ==> script.Plays(turns[k]) && ClockBefore(script.start, turns, k) <= turns[k].now
  }

  /** Nothing has gone wrong before turn `k`, and nothing will. */
  ghost predicate Smooth(client: C.Client, script: Script, turns: seq<Turn>, k: nat, phase: X.Phase)
    requires k <= |turns|
    reads client
  {
    OnTrack(client.setup, client.life, client.runtime, script, phase, ClockBefore(script.start, turns, k)) && AllPlay(script, turns)
  }

  method TakeTurnOf(client: C.Client, state: C.Reply, turns: seq<Turn>, k: nat, ghost script: Script, ghost smooth: bool)
    returns (next: Option<C.Reply>, exit: Exit)
    requires client.Valid() && k < |turns| && turns[k].Typed() && Truthful(client.setup, state)
    requires smooth ==> Smooth(client, script, turns, k, state.phase)
    modifies client, client.target, client.target.root
    ensures client.Valid() && !exit.LimitExceeded?
    ensures next.Some? ==> Rank(next.value.phase) > Rank(state.phase) && Truthful(client.setup, next.value)
    ensures exit == CarrierReady(true) ==> client.setup.receipt.Whole? && client.setup.receipt.value.cleaned.Some?
    ensures smooth ==>
      if next.Some? then Smooth(client, script, turns, k + 1, next.value.phase)
      else exit == CarrierReady(true) && RunsResponse(client.life, script.Verified())
  {
    ghost var turn := turns[k];
    assert smooth ==> script.Plays(turn);
    next, exit := TakeTurn(client, state, turns[k], script, ClockBefore(script.start, turns, k));
  }

  /** Every turn moves the phase on, so four turns always suffice and the limit is never hit. An
      enrolment in which nothing goes wrong ends READY, cleaned up, and running its response. */
  method ContinueClientSetup(client: C.Client, start: C.Reply, turns: seq<Turn>, ghost script: Script) returns (exit: Exit, used: nat)
    requires client.Valid() && Truthful(client.setup, start)
    requires |turns| == MAX_SETUP_TRANSITIONS && forall k | 0 <= k < |turns| :: turns[k].Typed()
    modifies client, client.target, client.target.root
    ensures client.Valid()
    ensures exit != LimitExceeded && used <= 4 - Rank(start.phase)
    ensures exit == CarrierReady(true) ==> client.setup.receipt.Whole? && client.setup.receipt.value.cleaned.Some?
    ensures old(Smooth(client, script, turns, 0, start.phase)) ==>
      exit == CarrierReady(true) && RunsResponse(client.life, script.Verified())
  {
    var state := start;
    used := 0;
    ghost var rank := Rank(start.phase);
    ghost var smooth := Smooth(client, script, turns, 0, start.phase);
    for transitions := 0 to MAX_SETUP_TRANSITIONS
      invariant client.Valid() && Truthful(client.setup, state)
      invariant used == transitions
      invariant rank == Rank(state.phase) && Rank(start.phase) + transitions <= rank <= 3
      invariant smooth ==> Smooth(client, script, turns, transitions, state.phase)
    {
      var next, out := TakeTurnOf(client, state, turns, transitions, script, smooth);
      used := used + 1;
      if next.None? {
        return out, used;
      }
      state := next.value;
      rank := Rank(state.phase);
    }
    exit := LimitExceeded;
  }

  /** A whole enrolment in which nothing goes wrong: from the invitation to READY. */
  method Enrol(client: C.Client, script: Script, turns: seq<Turn>) returns (exit: Exit)
    requires client.Valid() && script.Answered() && script.Open(script.start)
    requires C.FirstStage(client.life, client.setup, script.invitation, client.runtime, script.start)
    requires client.life.boot.Absent? && script.seed.nonce !in client.life.records
    requires |turns| == MAX_SETUP_TRANSITIONS && AllPlay(script, turns)
    modifies client, client.target, client.target.root
    ensures client.Valid() && exit == CarrierReady(true)
    ensures client.setup.receipt.Whole? && client.setup.receipt.value.cleaned.Some?
    ensures RunsResponse(client.life, script.Verified())
  {
    var reply := client.Stage(script.invitation, script.seed, script.start, true);
    var used;
    exit, used := ContinueClientSetup(client, C.Reply(reply.value, false), turns, script);
  }
}
