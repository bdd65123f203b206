/**
  The client enrolment coordinator: it keeps the exchange session and the target lifecycle in
  step across crashes, writes the READY receipt and retires the setup files.
  Source: internal/enrollmentsetup/coordinator_unix.go.

  Every durable write may fail, before or after taking effect, unless the call is `calm`; a
  crash is a call whose remaining writes all fail. `history` and `moves` record every durable
  change that any sequence of such calls makes.
*/
module Coordinator {
  import opened Common
  import opened SetupState
  import L = Lifecycle
  import LS = LocalState
  import A = Anchor
  import X = ExchangeSession

  predicate Confirmed(s: X.TargetState) {
    s.phase.TranscriptConfirmed? || s.phase.ResponseVerified?
  }

  function AsApplied(s: X.TargetState): X.TargetState {
    s.(generation := s.generation + 1, phase := X.Phase.Applied)
  }

  function AsConfirmed(s: X.TargetState): X.TargetState {
    s.(generation := s.generation + 1, phase := X.TranscriptConfirmed, confirmed := Some(s.transcript))
  }

  function AsVerified(s: X.TargetState, bound: X.BoundResponse): X.TargetState {
    s.(generation := s.generation + 1, phase := X.ResponseVerified, response := Some(bound))
  }

  // --------------------------------------------------- the lifecycle as seen from here

  /** The session's request is pending in the lifecycle, or its response is what runs there. */
  predicate Asked(life: Life, s: X.TargetState) {
    HoldsRequest(life, s) || RunsResponse(life, s)
  }

  /** The lifecycle would accept this material, or already holds it. */
  predicate CanImport(life: Life, s: X.TargetState, m: L.Material, now: int) {
    var o := OptionsFor(s.invitation);
    && L.MaterialFits(o, m, now)
    && match life.boot
       case Partial => false
       case Absent => L.MaterialEnsurable(life.records, m)
       case Complete(options) =>
         && options == o && life.state.Some? && life.settled
         && var l := life.state.value;
         && l.role == o.role && l.installation == o.installation && l.releaseHigh == o.release
         && (|| L.ImportedAlready(l, life.records, m)
             || (L.FreshFor(l, m) && L.MaterialEnsurable(life.records, m)))
  }

  /** The lifecycle that the import of `m` makes out of an absent or untouched one. */
  function AfterImport(life: Life, invitation: X.Invitation, m: L.Material): Life {
    var o := OptionsFor(invitation);
    var base := if life.state.Some? then life.state.value else L.InitialState(o);
    if L.FreshFor(base, m) then Life(L.Complete(o), Some(L.ImportNext(base, m)), true, L.WithMaterial(life.records, m)) else life
  }

  /** The lifecycle once the retained material, if any, is handed over. */
  function AfterCommit(life: Life, s: X.TargetState, f: File<L.Material>): Life {
    if f.Whole? && !Asked(life, s) then AfterImport(life, s.invitation, f.value) else life
  }

  /** The retained material does not stand in the way of applying. */
  predicate PendingUsable(life: Life, s: X.TargetState, ws: Workspace, now: int) {
    ws.pending.Missing? || (ws.pending.Whole? && CanImport(life, s, ws.pending.value, now))
  }

  /** The reply to `words` when no write fails. */
  function ConfirmReply(life: Life, s: Setup, cur: Current, words: seq<string>, now: int): Option<X.Phase>
    requires |words| == X.WORDS_PER_DIRECTION && cur.session.ValidShape() && cur.workspace in s.workspaces
  {
    if X.AllBlank(words) then Some(X.PendingComparison)
    else if !X.GroupMatches(words, cur.session.ReverseWords()) then Some(X.Phase.Cancelled)
    else if PendingUsable(life, cur.session, s.workspaces[cur.workspace], now) then Some(X.TranscriptConfirmed)
    else None
  }

  /** What each reply to `words` proves, and what even a failed call cannot have done. */
  predicate ConfirmOutcome(
    life: Life, s: Setup, cur: Current, words: seq<string>, life': Life, s': Setup, reply: Option<X.Phase>)
    requires |words| == X.WORDS_PER_DIRECTION && cur.session.ValidShape() && cur.workspace in s.workspaces
  {
    var i, matches := cur.workspace, X.GroupMatches(words, cur.session.ReverseWords());
    && (life' != life ==> matches && s'.Stores(i, X.TranscriptConfirmed))
    && (s'.Stores(i, X.TranscriptConfirmed) ==> matches)
    && (s'.Tombstoned(i) ==> !matches && s'.Stores(i, X.Phase.Cancelled))
    && i in s'.workspaces
    && (reply.Some? ==>
          match reply.value
          case PendingComparison => X.AllBlank(words) && s' == s
          case Cancelled => s'.Tombstoned(i) && s'.workspaces[i].pending.Missing?
          case TranscriptConfirmed => ConfirmedAs(life, s.workspaces[i], cur.session, life', s'.workspaces[i])
          case _ => false)
  }

  /** A confirmation leaves the confirmed session, and exactly the retained material, which is
      this session's own, as the pending request of a new lifecycle. */
  predicate ConfirmedAs(life: Life, ws: Workspace, s: X.TargetState, life': Life, ws': Workspace) {
    && ws' == ws.(pending := Missing).WithSession(Whole(AsConfirmed(s)))
    && ws.pending.Whole? && ws.pending.value.request == s.request.sha
    && life' == AfterImport(life, s.invitation, ws.pending.value)
  }

  /** The lifecycle gate would accept the session's response. */
  predicate CanApply(life: Life, s: X.TargetState, now: int) {
    life.state.Some? && s.response.Some? && L.ApplyReady(life.state.value, life.records, s.response.value.response, now)
  }

  predicate Appliable(life: Life, s: X.TargetState, now: int) {
    CanApply(life, s, now) || RunsResponse(life, s)
  }

  /** The record of the pending request is complete: applying writes no file of it any more. */
  predicate Rendered(life: Life) {
    life.state.Some? && life.state.value.pending.Some? && L.RecordAt(life.records, life.state.value.pending.value.nonce).applied.AllFiles?
  }

  function AfterApply(life: Life, s: X.TargetState, now: int): LS.State
    requires CanApply(life, s, now)
  {
    L.AppliedState(life.state.value, life.records, s.response.value.response, now)
  }

  /** What the gate asks about the request, the response and the clock. */
  predicate Admitted(life: Life, s: X.TargetState, now: int) {
    && life.state.Some? && life.state.value.pending.Some? && life.state.value.pending.value.nonce in life.records
    && s.response.Some?
    && var l, e := life.state.value, s.response.value.response;
    && var r := life.records[l.pending.value.nonce];
    && r.Imported() && r.material.of.CurrentAt(now) && L.ApplyAllowed(l, r.material.of, e)
    && (r.applied.NoFiles? || r.applied.of == L.AppliedManifest(l, r.material.of, e))
    && LS.ValidTransition(l, L.ApplyNext(l, r.material.of, e))
  }

  /** At every time at which the response could be applied it still can be, or has been: only a
      record file torn meanwhile ends that. */
  ghost predicate StaysAppliable(life: Life, s: X.TargetState, life': Life) {
    forall t {:trigger Appliable(life, s, t)} :: Appliable(life, s, t) ==> (Appliable(life', s, t) <==> !life'.Ruined())
  }

  /** Reconciling afterwards changes nothing about that. */
  lemma ReconciledStays(life: Life, s: X.TargetState, gated: Life, after: Life)
    requires StaysAppliable(life, s, gated) && after == gated.(records := after.records)
    requires if RunsResponse(gated, s) then RunsResponse(after, s) else after == gated
    ensures StaysAppliable(life, s, after)
  {
    forall t {:trigger Appliable(life, s, t)} | Appliable(life, s, t)
      ensures Appliable(after, s, t) <==> !after.Ruined()
    {
      assert Appliable(gated, s, t) <==> !gated.Ruined();
    }
  }

  lemma ResumeFollows(life: Life, s: Setup, life': Life, s': Setup, runtime: Id, cur: Current, now: int)
    requires Consistent(World(s', life')) && OpenCurrent(s, runtime, now, false) == Some(cur) && cur.session.phase.ResponseVerified?
    requires cur.workspace in s'.workspaces && s' == s.Put(cur.workspace, s'.workspaces[cur.workspace])
    requires var c := OpenCurrent(s', runtime, now, false);
      c == Some(cur) || (c == Some(cur.(session := AsApplied(cur.session))) && RunsResponse(life', cur.session))
    requires var p := s'.workspaces[cur.workspace].pending;
      p.Missing? || (p == s.workspaces[cur.workspace].pending && life' == life)
    requires StaysAppliable(life, cur.session, life')
    ensures ResumePossible(life, s, runtime, now) ==>
      && (life'.Ruined() <==> !ResumePossible(life', s', runtime, now) && !AppliedAt(s', runtime, now))
      && (AppliedAt(s', runtime, now) ==> RunsResponse(life', s.Selected().value))
  {
    if Appliable(life, cur.session, now) {
      assert Appliable(life', cur.session, now) <==> !life'.Ruined();
    }
  }

  lemma RuinedCannotApply(life: Life, s: Setup, now: int)
    requires life.Ruined()
    ensures s.Selected().Some? ==> !Appliable(life, s.Selected().value, now)
  {
  }

  /** What each reply to a bound response proves, and what even a failed call cannot have done.
      Once the response is stored as verified, only a torn record file stands in the way of
      resuming. `ahead` is the lifecycle that holds the request. */
  ghost predicate AcceptOutcome(
    life: Life, ahead: Life, s: X.TargetState, bound: X.BoundResponse, life': Life, s': X.TargetState, reply: Option<X.Phase>)
  {
    && (|| s' == s
        || (s.Binds(bound) && s' == AsVerified(s, bound))
        || (s.Binds(bound) && s' == AsApplied(AsVerified(s, bound)) && RunsResponse(life', s')))
    && (reply.Some? ==> s'.phase.Applied?)
    && (s' == s && Asked(life, s) ==> life' == life)
    && (s' != s ==> StaysAppliable(ahead, AsVerified(s, bound), life'))
  }

  /** What a successful call leaves: the applied session, no retained material, and a lifecycle
      that runs the response, by one apply to the lifecycle that holds the request. */
  predicate AcceptedAs(
    ahead: Life, ws: Workspace, s: X.TargetState, bound: X.BoundResponse, now: int, life': Life, ws': Workspace)
  {
    var verified := AsVerified(s, bound);
    && ws' == ws.(pending := Missing).WithSession(Whole(AsApplied(verified)))
    && RunsResponse(life', verified) && life'.Readable()
    && CanApply(ahead, verified, now) && life'.state == Some(AfterApply(ahead, verified, now))
  }

  lemma OutcomeOfApply(
      life: Life, ws: Workspace, s: X.TargetState, bound: X.BoundResponse, now: int, life': Life, ws': Workspace, s': X.TargetState, ok: bool)
    requires s.Binds(bound) && s.phase.TranscriptConfirmed? && HoldsRequest(life, s) && ws.pending.Missing?
    requires s' == AsVerified(s, bound) || (s' == AsApplied(AsVerified(s, bound)) && RunsResponse(life', AsVerified(s, bound)))
    requires StaysAppliable(life, AsVerified(s, bound), life')
    requires life'.state != life.state ==>
      CanApply(life, AsVerified(s, bound), now) && life'.state == Some(AfterApply(life, AsVerified(s, bound), now))
    requires ok ==>
      && s' == AsApplied(AsVerified(s, bound)) && RunsResponse(life', AsVerified(s, bound)) && life'.Readable()
      && ws' == ws.WithSession(Whole(AsVerified(s, bound))).WithSession(Whole(s'))
    ensures AcceptOutcome(life, life, s, bound, life', s', if ok then Some(X.Phase.Applied) else None)
    ensures ok ==> AcceptedAs(life, ws, s, bound, now, life', ws')
    ensures Appliable(life, AsVerified(s, bound), now) <==> CanApply(life, AsVerified(s, bound), now)
  {
  }

  /** Exactly when an undisturbed `AcceptAndApply` succeeds. */
  predicate AcceptPossible(life: Life, s: Setup, cur: Current, bound: X.BoundResponse, now: int)
    requires cur.workspace in s.workspaces
  {
    && PendingUsable(life, cur.session, s.workspaces[cur.workspace], now)
    && cur.session.Binds(bound)
    && CanApply(AfterCommit(life, cur.session, s.workspaces[cur.workspace].pending), AsVerified(cur.session, bound), now)
  }

  predicate AppliedAt(s: Setup, runtime: Id, now: int) {
    var c := OpenCurrent(s, runtime, now, false);
    c.Some? && c.value.session.phase.Applied?
  }

  /** Exactly when resuming works: nothing else is retained, and the response is applied or
      can be. Whether the last lifecycle commit still needs recovery does not matter here. */
  predicate ResumePossible(life: Life, s: Setup, runtime: Id, now: int) {
    var c := OpenCurrent(s, runtime, now, false);
    && c.Some? && c.value.session.phase.ResponseVerified? && Appliable(life, c.value.session, now)
    && PendingUsable(life.(settled := true), c.value.session, s.workspaces[c.value.workspace], now)
  }

  // ----------------------------------------------------------- the READY receipt

  datatype ReadyAnswer = NoReceipt | Refused | IsReady(receipt: Receipt)

  /** `cleanup`: the READY setup still holds mailbox capabilities that cleanup will retire. */
  datatype Reply = Reply(phase: X.Phase, cleanup: bool)

  function ReplyOf(r: Receipt): Reply {
    Reply(X.Ready, r.cleaned.None?)
  }

  /** `validateReadyTarget`: the receipt speaks about the lifecycle as it is now. */
  predicate Matches(r: Receipt, l: LS.State, runtime: Id) {
    && r.runtime == runtime && l.role == LS.Client && l.installation == r.installation
    && l.activeRecord.Some? && l.activeRecord.value.id == r.record && r.request in l.consumed
  }

  function Answer(s: Setup, life: Life, runtime: Id): ReadyAnswer {
    if s.receipt.Missing? then NoReceipt
    else if s.receipt.Whole? && WellFormed(s.receipt.value) && life.state.Some? && life.settled && Matches(s.receipt.value, life.state.value, runtime)
    then IsReady(s.receipt.value)
    else Refused
  }

  /** The open setup, or what its validity window has left of it. */
  function Reopened(s: Setup, runtime: Id, now: int): Option<Current> {
    var c := OpenCurrent(s, runtime, now, false);
    if c.Some? then c else OpenCurrent(s, runtime, now, true)
  }

  function ReceiptFor(c: Current, record: Id, now: int): Receipt {
    Receipt(c.workspace, c.plan.invitation.installation, c.session.request.sha, record, c.plan.invitation.runtime,
            c.session.generation + 1, c.plan.verified, now, None)
  }

  /** The carrier proof counts: it was made, for the response that the lifecycle runs. */
  predicate ReadyProven(life: Life, c: Current, probe: bool, now: int) {
    && probe && c.plan.verified <= now && life.state.Some?
    && life.state.value.role == LS.Client && life.state.value.installation == c.plan.invitation.installation
  }

  /** Session and selector gone, receipt redacted. */
  function Cleaned(s: Setup, now: int): Setup
    requires s.receipt.Whole?
  {
    s.(selector := Missing, receipt := Whole(s.receipt.value.(cleaned := Some(now))))
  }

  /** Nothing is left to keep cleanup from running to its end. */
  predicate CleanupUnblocked(s: Setup, life: Life, runtime: Id) {
    && Answer(s, life, runtime).IsReady?
    && (s.receipt.value.cleaned.None? ==> !s.Littered(s.receipt.value.workspace))
  }

  function AsReady(s: X.TargetState): X.TargetState {
    s.(generation := s.generation + 1, phase := X.Ready)
  }

  /** What each reply proves. Once the receipt is there it is readable, whatever happened to
      the session, and cleanup is possible unless a cut replacement left its temporary file. */
  predicate ReadyOutcome(
    c: Current, s: Setup, probe: bool, now: int, life': Life, s': Setup, runtime: Id, reply: Option<Reply>)
    requires c.workspace in s.workspaces
  {
    && (reply.Some? ==>
          && reply == Some(Reply(X.Ready, true)) && s'.receipt.Whole?
          && s' == s.(receipt := s'.receipt).Put(c.workspace, s.workspaces[c.workspace].WithSession(Whole(AsReady(c.session)))))
    && (s'.receipt.Whole? ==>
          && ReadyProven(life', c, probe, now) && life'.state.value.activeRecord.Some?
          && s'.receipt.value == ReceiptFor(c, life'.state.value.activeRecord.value.id, now)
          && Answer(s', life', runtime) == IsReady(s'.receipt.value)
          && (CleanupUnblocked(s', life', runtime) <==> !s'.Littered(c.workspace)))
    && s'.selector == s.selector && s'.workspaces - {c.workspace} == s.workspaces - {c.workspace}
  }

  /** What is open again parses at the plan's validation time too, unless the clock is before it:
      the validation time is not before the request's creation, and the request was current when
      the session was opened. */
  lemma ReopenedParses(w: World, c: Current, runtime: Id, now: int)
    requires Consistent(w) && Reopened(w.setup, runtime, now) == Some(c) && c.plan.verified <= now
    ensures c.session.ParsesAt(c.plan.verified)
  {
    assert WorkspaceAgrees(w, c.workspace);
  }

  /** Where a call that proves READY is cut on purpose. */
  datatype ReadyCut = Uncut | InReceipt | InSession

  /** What the two cuts leave: a torn receipt, or a whole one beside the temporary file of the
      session's replacement. */
  predicate CutReady(c: Current, s: Setup, life: Life, now: int, cut: ReadyCut, s': Setup, reply: Option<Reply>) {
    && reply.None? && c.workspace in s.workspaces && life.state.Some? && life.state.value.activeRecord.Some?
    && (cut.InReceipt? ==> s' == s.(receipt := Torn))
    && (cut.InSession? ==>
          s' == s.(receipt := Whole(ReceiptFor(c, life.state.value.activeRecord.value.id, now))).Put(c.workspace, s.workspaces[c.workspace].Strayed()))
  }

  lemma OutcomeOfReceipt(c: Current, s: Setup, now: int, life: Life, s': Setup, runtime: Id, reply: Option<Reply>)
    requires c.workspace in s.workspaces && s.receipt.Missing? && s.workspaces[c.workspace].Session() == Whole(c.session)
    requires ReadyProven(life, c, true, now) && life.settled && life.state.value.activeRecord.Some?
    requires c.plan.invitation.runtime == runtime && c.session.request.sha in life.state.value.consumed
    requires c.session.phase.Applied? && c.session.ValidShape()
    requires var ws, r := s.workspaces[c.workspace], ReceiptFor(c, life.state.value.activeRecord.value.id, now);
      && WellFormed(r)
      && (|| s' == s || s' == s.(receipt := Torn)
          || s' == s.(receipt := Whole(r))
          || s' == s.(receipt := Whole(r)).Put(c.workspace, ws.Strayed())
          || s' == s.(receipt := Whole(r)).Put(c.workspace, ws.WithSession(Whole(AsReady(c.session)))))
      && (reply.Some? ==> reply == Some(Reply(X.Ready, true)) && s' == s.(receipt := Whole(r)).Put(c.workspace, ws.WithSession(Whole(AsReady(c.session)))))
    ensures ReadyOutcome(c, s, true, now, life, s', runtime, reply)
  {
  }

  // ------------------------------------------------------------------------ cancel

  /** The selected setup may be cancelled: it is readable, and nothing has been applied. */
  predicate Cancellable(life: Life, s: Setup, runtime: Id, now: int) {
    && s.selector.Whole? && s.selector.value in s.workspaces
    && var plan := ReadPlan(s.workspaces[s.selector.value], false, runtime, now);
    && plan.Some? && plan.value.invitation.sha == s.selector.value
    && life.Readable() && (life.state.Some? ==> life.state.value.activeRecord.None?)
  }

  predicate Withdrawable(life: Life, s: Setup)
    requires s.selector.Whole? && s.selector.value in s.workspaces
  {
    && !s.workspaces[s.selector.value].cancelled.Torn?
    && (life.state.Some? && life.state.value.pending.Some? ==> L.CancelPossible(life.state.value))
  }

  /** Under the tombstone the lifecycle may give up its pending request, and the record of it. */
  lemma WithdrawalFits(w: World, life: Life, move: LifeMove)
    requires Consistent(w) && w.setup.selector.Whole? && w.setup.Tombstoned(w.setup.selector.value)
    requires w.life.state.Some? && w.life.state.value.activeRecord.None? && life.Sound()
    requires move == if life.state == w.life.state then Unmoved else Withdrawn
    requires if life.state == w.life.state then life.records == w.life.records
      else && L.CancelPossible(w.life.state.value) && life.state == Some(L.CancelNext(w.life.state.value))
           && (life.records == w.life.records || life.records == w.life.records - {w.life.state.value.pending.value.nonce})
    ensures Consistent(w.(life := life)) && WorldSteps(w, move, w.(life := life))
  {
    LifeMoveKeepsConsistency(w, life);
  }

  /** The tombstone may be set where the session is cancelled, or nothing has been applied. */
  lemma TombstoneFits(w: World, i: Digest, f: File<()>)
    requires Consistent(w) && i in w.setup.workspaces && w.setup.selector == Whole(i) && w.setup.workspaces[i].cancelled.Missing?
    requires w.setup.Stores(i, X.Phase.Cancelled) || (w.life.state.Some? ==> w.life.state.value.activeRecord.None?)
    ensures ChangeFits(w, i, w.setup.workspaces[i].(cancelled := f))
  {
    assert WorkspaceAgrees(w, i);
  }

  /** Under it the retained material may go. */
  lemma ForgettingFits(w: World, i: Digest)
    requires Consistent(w) && w.setup.Tombstoned(i)
    ensures ChangeFits(w, i, w.setup.workspaces[i].(pending := Missing))
  {
    assert WorkspaceAgrees(w, i);
  }

  /** Nothing can be imported or applied from here any more. */
  predicate Unreachable(f: File<X.TargetState>, now: int) {
    f.Whole? && f.value.ParsesAt(now) ==> !f.value.phase.PendingComparison? && !Confirmed(f.value)
  }

  // ------------------------------------------------------------------------- stage

  const REQUEST_VALIDITY := 60 * 60

  /** What key generation and sealing draw at random, and the transcript they lead to. */
  datatype Seed = Seed(
    request: Digest, nonce: Id, secrets: nat, ciphertext: Digest, transcript: Digest, phrase: seq<string>)

  /** `NewPendingRequest` for an invitation that is current at `now`. */
  function Minted(invitation: X.Invitation, seed: Seed, now: int): L.Material {
    var remaining := invitation.expires - now;
    L.Material(seed.request, seed.nonce, 1, now, now + (if remaining < REQUEST_VALIDITY then remaining else REQUEST_VALIDITY),
               invitation.installation, invitation.release, seed.secrets)
  }

  function FirstSession(invitation: X.Invitation, m: L.Material, seed: Seed): X.TargetState {
    X.TargetState(1, X.PendingComparison, invitation, X.SignedRequest(m.request, m.created, m.expires),
                  seed.ciphertext, seed.transcript, seed.phrase, None, None)
  }

  /** A workspace that nothing selects may be begun, and given its plan. */
  lemma PlanFits(w: World, i: Digest, f: File<Plan>)
    requires Consistent(w) && w.setup.selector != Whole(i) && w.setup.receipt.Missing?
    requires i in w.setup.workspaces ==> w.setup.workspaces[i] == EMPTY_WORKSPACE
    requires f.Whole? ==> PlanSound(i, f.value)
    ensures ChangeFits(w, i, EMPTY_WORKSPACE.(plan := f))
  {
  }

  /** A cut replacement of the plan. */
  lemma StrayFits(w: World, i: Digest)
    requires Consistent(w) && i in w.setup.workspaces
    ensures ChangeFits(w, i, w.setup.workspaces[i].(stray := true))
  {
    assert WorkspaceAgrees(w, i);
  }

  /** A plan may be bound to the creation time of a later request. */
  lemma RebindingFits(w: World, i: Digest, verified: int)
    requires Consistent(w) && i in w.setup.workspaces && w.setup.workspaces[i].plan.Whole? && w.setup.receipt.Missing?
    requires var p := w.setup.workspaces[i].plan.value; p.verified <= verified && p.invitation.CurrentAt(verified)
    ensures ChangeFits(w, i, w.setup.workspaces[i].(plan := Whole(Plan(w.setup.workspaces[i].plan.value.invitation, verified))), true)
  {
    assert WorkspaceAgrees(w, i);
  }

  /** Where no request is retained, one may be. */
  lemma RequestFits(w: World, i: Digest, f: File<L.Material>)
    requires Consistent(w) && i in w.setup.workspaces && w.setup.workspaces[i].pending.Missing? && w.setup.receipt.Missing?
    ensures ChangeFits(w, i, w.setup.workspaces[i].(pending := f))
  {
    assert WorkspaceAgrees(w, i);
  }

  /** `validateMaterialPlan`. */
  predicate FitsPlan(m: L.Material, invitation: X.Invitation) {
    m.installation == invitation.installation && m.release == invitation.release && m.sequence == 1
  }

  /** The retained request is the session's own, and the plan's validation time is its birth. */
  predicate Retained(ws: Workspace, s: X.TargetState, now: int) {
    && ws.pending.Whole? && ws.plan.Whole?
    && ws.pending.value.request == s.request.sha && ws.pending.value.CurrentAt(now)
    && FitsPlan(ws.pending.value, s.invitation) && ws.plan.value.verified == ws.pending.value.created
  }

  predicate PlanStands(s: Setup, invitation: X.Invitation, runtime: Id, now: int) {
    && invitation.sha in s.workspaces
    && var plan := ReadPlan(s.workspaces[invitation.sha], false, runtime, now);
    && plan.Some? && plan.value.invitation == invitation
  }

  /** The invitation is the selected one, not cancelled, and has no READY receipt yet. */
  predicate Staging(s: Setup, invitation: X.Invitation) {
    && s.receipt.Missing? && s.selector == Whole(invitation.sha) && invitation.sha in s.workspaces
    && var ws := s.workspaces[invitation.sha];
    && ws.cancelled.Missing? && ws.plan.Whole? && ws.plan.value.invitation == invitation
  }

  /** What a successful call leaves in the workspace. */
  predicate StagedAs(ws: Workspace, invitation: X.Invitation, phase: X.Phase, now: int) {
    && ws.cancelled.Missing? && ws.plan.Whole? && ws.plan.value.invitation == invitation
    && invitation.CurrentAt(ws.plan.value.verified) && 0 < ws.plan.value.verified
    && ws.Session().Whole?
    && var s := ws.Session().value;
    && s.phase == phase && s.invitation == invitation && s.ParsesAt(now) && Retained(ws, s, now)
  }

  /** The workspace of an invitation staged for the first time. */
  function FirstWorkspace(invitation: X.Invitation, seed: Seed, now: int): Workspace {
    var m := Minted(invitation, seed, now);
    EMPTY_WORKSPACE.(plan := Whole(Plan(invitation, now)), pending := Whole(m),
                     exchange := Some(ExchangeDir(Whole(FirstSession(invitation, m, seed)), false)))
  }

  /** Undisturbed staging of an untouched workspace, of one that is complete, and of one whose
      retained request is gone. */
  predicate StageReply(ws: Workspace, invitation: X.Invitation, seed: Seed, now: int, ws': Workspace, reply: Option<X.Phase>) {
    && (ws == EMPTY_WORKSPACE.(plan := Whole(Plan(invitation, now))) && invitation.created <= now ==>
          reply == Some(X.PendingComparison) && ws' == FirstWorkspace(invitation, seed, now))
    && (ws.Session().Whole? ==>
          var s := ws.Session().value;
          && (s.ParsesAt(now) && s.invitation == invitation && Retained(ws, s, now) ==> reply == Some(s.phase) && ws' == ws)
          && (ws.pending.Missing? && s.request.sha != seed.request ==>
                reply.None? && ws'.pending == Whole(Minted(invitation, seed, now)) && ws'.exchange == ws.exchange && ws'.cancelled == ws.cancelled
                && (ws'.plan == ws.plan || ws'.plan == Whole(Plan(invitation, now)))))
  }

  /** The plan once it is bound to request `m`, or as it was where that cannot be. */
  function BoundPlan(plan: Plan, m: L.Material): Plan {
    if plan.verified <= m.created && plan.invitation.CurrentAt(m.created) then Plan(plan.invitation, m.created) else plan
  }

  /** The request that staging works with: the retained one, or a new one. */
  function StagedRequest(ws: Workspace, invitation: X.Invitation, seed: Seed, now: int): Option<L.Material> {
    match ws.pending
    case Missing => Some(Minted(invitation, seed, now))
    case Torn => None
    case Whole(m) => if m.CurrentAt(now) && FitsPlan(m, invitation) then Some(m) else None
  }

  function PlanAfter(ws: Workspace, invitation: X.Invitation, seed: Seed, now: int): Plan
    requires ws.plan.Whole?
  {
    var m := StagedRequest(ws, invitation, seed, now);
    if m.Some? then BoundPlan(ws.plan.value, m.value) else ws.plan.value
  }

  /** Staging an invitation again can move the plan to the birth of the request it works with,
      and undisturbed it does. A stored session stays as it is. */
  predicate Restages(ws: Workspace, invitation: X.Invitation, seed: Seed, now: int, calm: bool, ws': Workspace)
    requires ws.plan.Whole?
  {
    && (ws'.plan == ws.plan || ws'.plan == Whole(PlanAfter(ws, invitation, seed, now)))
    && (calm ==> ws'.plan == Whole(PlanAfter(ws, invitation, seed, now)))
    && (ws.Session().Whole? ==> ws'.Session() == ws.Session())
  }

  /** Where the retained request is gone, and the validation time is not ahead of the clock,
      staging leaves the stored session overdue exactly when its request has expired. */
  lemma RestagingIsOverdueIff(ws: Workspace, invitation: X.Invitation, seed: Seed, now: int, ws': Workspace)
    requires ws.plan.Whole? && ws.plan.value.invitation == invitation && invitation.CurrentAt(now) && ws.plan.value.verified <= now
    requires ws.pending.Missing? && ws.Session().Whole? && Restages(ws, invitation, seed, now, true, ws')
    ensures ws'.Overdue() <==> ws.Session().value.request.expires <= now
  {
  }

  /** What the plan and the session become once request `m` is retained. */
  predicate SessionStaged(
    ws: Workspace, invitation: X.Invitation, m: L.Material, seed: Seed, now: int, ws': Workspace, reply: Option<X.Phase>)
    requires ws.plan.Whole?
  {
    var verified := ws.plan.value.verified;
    var bound := verified <= m.created && invitation.CurrentAt(m.created);
    && ws'.pending == ws.pending && ws'.cancelled == ws.cancelled
    && (ws'.plan == ws.plan || ws'.plan == Whole(Plan(invitation, m.created)))
    && (verified == m.created ==> ws' == ws.(exchange := ws'.exchange))
    && (!bound ==> reply.None? && ws'.exchange == ws.exchange)
    && (bound && ws.Session().Whole? ==>
          var s := ws.Session().value;
          ws'.exchange == ws.exchange && reply == if s.ParsesAt(now) && s.request.sha == m.request then Some(s.phase) else None)
    && (bound && !ws.Session().Whole? ==>
          (reply.Some? <==> ws.Session().Missing? && |seed.phrase| == 2 * X.WORDS_PER_DIRECTION && FirstSession(invitation, m, seed).ParsesAt(now)))
    && (bound && ws.Session().Missing? && X.SignedRequest(m.request, m.created, m.expires).Within(invitation) ==>
          reply == Some(X.PendingComparison) && ws'.exchange == ws.WithSession(Whole(FirstSession(invitation, m, seed))).exchange)
  }

  lemma StageReplyFollows(
      ws: Workspace, invitation: X.Invitation, seed: Seed, now: int, m: L.Material, ws': Workspace, reply: Option<X.Phase>)
    requires invitation.CurrentAt(now) && 0 < now && ws.plan.Whole?
    requires invitation.CurrentAt(ws.plan.value.verified) && ws.plan.value.invitation == invitation
    requires m.CurrentAt(now) && FitsPlan(m, invitation)
    requires (ws.pending.Whole? && m == ws.pending.value) || (ws.pending.Missing? && m == Minted(invitation, seed, now))
    requires SessionStaged(ws.(pending := Whole(m)), invitation, m, seed, now, ws', reply)
    ensures StageReply(ws, invitation, seed, now, ws', reply)
    ensures reply.Some? <==> RequestPossible(ws, invitation, seed, now)
  {
  }

  lemma StagedOpens(s: Setup, invitation: X.Invitation, phase: X.Phase, runtime: Id, now: int)
    requires s.selector == Whole(invitation.sha) && invitation.sha in s.workspaces && invitation.runtime == runtime && invitation.CurrentAt(now)
    requires StagedAs(s.workspaces[invitation.sha], invitation, phase, now)
    ensures var ws := s.workspaces[invitation.sha];
      OpenCurrent(s, runtime, now, false) == Some(Current(invitation.sha, ws.plan.value, ws.Session().value))
  {
  }

  /** Nothing is under way, so that another invitation may be selected. */
  predicate StartsAnew(life: Life, s: Setup) {
    && life.state.None? && s.receipt.Missing?
    && (s.selector.Missing? || (s.selector.Whole? && s.Tombstoned(s.selector.value)))
  }

  /** As the code tells it: an earlier selection is readable, cancelled, and has no lifecycle. */
  predicate MayStart(life: Life, s: Setup, runtime: Id, now: int) {
    || s.selector.Missing?
    || (&& s.selector.Whole? && s.selector.value in s.workspaces
        && ReadPlan(s.workspaces[s.selector.value], false, runtime, now).Some?
        && s.workspaces[s.selector.value].cancelled.Whole? && life.state.None?)
  }

  predicate SelectPossible(life: Life, s: Setup, invitation: X.Invitation, runtime: Id, now: int) {
    && 0 < now
    && if s.selector == Whole(invitation.sha) then PlanStands(s, invitation, runtime, now)
       else
         && MayStart(life, s, runtime, now)
         && (invitation.sha in s.workspaces ==>
               PlanStands(s, invitation, runtime, now) && s.workspaces[invitation.sha].cancelled.Missing?)
  }

  /** The retained request, or the one that would be made, is current, fits the plan, and is the
      one that the stored session asks about. */
  predicate RequestPossible(ws: Workspace, invitation: X.Invitation, seed: Seed, now: int) {
    var m := if ws.pending.Whole? then ws.pending.value else Minted(invitation, seed, now);
    && ws.plan.Whole? && !ws.pending.Torn? && m.CurrentAt(now) && FitsPlan(m, invitation)
    && ws.plan.value.verified <= m.created && invitation.CurrentAt(m.created)
    && match ws.Session()
       case Whole(s) => s.ParsesAt(now) && s.request.sha == m.request
       case Missing => |seed.phrase| == 2 * X.WORDS_PER_DIRECTION && FirstSession(invitation, m, seed).ParsesAt(now)
       case Torn => false
  }

  /** The selected, uncancelled invitation is staged again. */
  predicate Reselected(s: Setup, invitation: X.Invitation, runtime: Id, now: int) {
    && invitation.runtime == runtime && invitation.CurrentAt(now) && 0 < now && s.receipt.Missing?
    && s.selector == Whole(invitation.sha) && PlanStands(s, invitation, runtime, now)
    && s.workspaces[invitation.sha].cancelled.Missing?
  }

  /** Exactly when undisturbed staging succeeds. */
  predicate StagePossible(life: Life, s: Setup, invitation: X.Invitation, seed: Seed, runtime: Id, now: int) {
    && invitation.runtime == runtime && invitation.CurrentAt(now) && s.receipt.Missing?
    && SelectPossible(life, s, invitation, runtime, now)
    && var ws := if invitation.sha in s.workspaces then s.workspaces[invitation.sha]
                 else EMPTY_WORKSPACE.(plan := Whole(Plan(invitation, now)));
    && ws.cancelled.Missing? && RequestPossible(ws, invitation, seed, now)
  }

  /** A current invitation never seen before, with nothing under way. */
  predicate FirstStage(life: Life, s: Setup, invitation: X.Invitation, runtime: Id, now: int) {
    && StartsAnew(life, s) && invitation.sha !in s.workspaces
    && (s.selector.Whole? ==> ReadPlan(s.workspaces[s.selector.value], false, runtime, now).Some?)
    && invitation.runtime == runtime && invitation.CurrentAt(now) && 0 < now && invitation.created <= now
  }

  /** The selected invitation again, with its request still retained. */
  predicate Restaged(s: Setup, invitation: X.Invitation, runtime: Id, now: int) {
    && s.receipt.Missing? && 0 < now
    && var c := OpenCurrent(s, runtime, now, false);
    && c.Some? && c.value.plan.invitation == invitation && Retained(s.workspaces[c.value.workspace], c.value.session, now)
  }

  /** The selected invitation again, after its retained request went into the lifecycle. */
  predicate Stranded(s: Setup, invitation: X.Invitation, seed: Seed, runtime: Id, now: int) {
    && s.receipt.Missing?
    && var c := OpenCurrent(s, runtime, now, false);
    && c.Some? && c.value.plan.invitation == invitation && s.workspaces[c.value.workspace].pending.Missing?
    && seed.request != c.value.session.request.sha && 0 < now
  }

  /** What an undisturbed call does: to an invitation never seen, to one whose request is still
      retained, and to one whose request is gone. In the last case it fails, and leaves a new
      request behind. */
  predicate StageEffect(life: Life, s: Setup, invitation: X.Invitation, seed: Seed, runtime: Id, now: int, s': Setup, reply: Option<X.Phase>) {
    && (FirstStage(life, s, invitation, runtime, now) ==>
          && reply == Some(X.PendingComparison) && s'.selector == Whole(invitation.sha)
          && invitation.sha in s'.workspaces && s'.workspaces[invitation.sha] == FirstWorkspace(invitation, seed, now))
    && (Restaged(s, invitation, runtime, now) ==> reply == Some(OpenCurrent(s, runtime, now, false).value.session.phase) && s' == s)
    && (Stranded(s, invitation, seed, runtime, now) ==>
          var c, c' := OpenCurrent(s, runtime, now, false), OpenCurrent(s', runtime, now, false);
          && reply.None? && c'.Some? && c'.value.session == c.value.session
          && invitation.sha in s'.workspaces && s'.workspaces[invitation.sha].pending == Whole(Minted(invitation, seed, now)))
  }

  lemma StageFollows(s: Setup, w: World, invitation: X.Invitation, seed: Seed, runtime: Id, now: int, s': Setup, reply: Option<X.Phase>)
    requires Consistent(w) && Staging(w.setup, invitation) && invitation.sha in s'.workspaces
    requires s.selector == Whole(invitation.sha) ==> w.setup == s
    requires invitation.sha !in s.workspaces ==> w.setup.workspaces[invitation.sha] == EMPTY_WORKSPACE.(plan := Whole(Plan(invitation, now)))
    requires s' == w.setup.Put(invitation.sha, s'.workspaces[invitation.sha])
    requires StageReply(w.setup.workspaces[invitation.sha], invitation, seed, now, s'.workspaces[invitation.sha], reply)
    ensures StageEffect(w.life, s, invitation, seed, runtime, now, s', reply)
  {
    if w.setup.workspaces[invitation.sha].Session().Whole? {
      SessionOfPlan(w, invitation.sha);
    }
    assert w.setup.workspaces == w.setup.workspaces[invitation.sha := w.setup.workspaces[invitation.sha]];
  }

  /** The applied session of the open setup, under its plan. */
  predicate Holds(s: Setup, runtime: Id, c: Current) {
    && PlanIn(s, c.workspace) == Whole(c.plan)
    && s.selector == Whole(c.workspace) && s.Selected() == Some(c.session) && !s.Tombstoned(c.workspace)
    && c.plan.invitation.runtime == runtime && 0 < c.plan.verified && c.session.ValidShape()
  }

  /** Which move an import made, told from its effect. */
  function ImportMove(before: World, after: Option<LS.State>, m: L.Material): LifeMove
    requires before.setup.Selected().Some?
  {
    if after == before.life.state then Unmoved
    else if before.life.state.None? && after == Some(ImportBase(before.setup, None)) then Bootstrapped
    else LifeMove.Imported(m)
  }

  /** What one pass through the gate may leave: nothing new, a partly or wholly rendered record,
      or the whole committed response with or without its one-time identity. */
  predicate GatePassed(before: Life, s: X.TargetState, now: int, after: Life) {
    || after == before
    || (&& CanApply(before, s, now)
        && var e := s.response.value.response;
        && var l := before.state.value;
        && (|| (after == before.(records := after.records) && L.RenderStep(l, before.records, e, now, after.records))
            || (after.boot == before.boot && after.state == Some(AfterApply(before, s, now)) &&
                (|| after.records == L.AppliedRecords(l, before.records, e, now, true)
                 || after.records == L.AppliedRecords(l, before.records, e, now, false)))))
  }

  function GateMove(before: Life, s: X.TargetState, now: int, after: Life): LifeMove {
    if after.state == before.state || !CanApply(before, s, now) then Unmoved
    else LifeMove.Applied(before.records[before.state.value.pending.value.nonce].material.of, s.response.value.response)
  }

  lemma GateKeepsConsistency(w: World, s: X.TargetState, now: int, life: Life)
    requires Consistent(w) && w.setup.Selected() == Some(s) && s.phase.ResponseVerified? && !w.setup.Tombstoned(w.setup.selector.value)
    requires GatePassed(w.life, s, now, life)
    ensures Consistent(w.(life := life)) && WorldSteps(w, GateMove(w.life, s, now, life), w.(life := life))
    ensures Asked(life, s)
    ensures RunsResponse(w.life, s) ==> life == w.life
    ensures life.state != w.life.state ==> RunsResponse(life, s)
  {
    assert WorkspaceAgrees(w, w.setup.selector.value);
    GateLeavesAsked(w.life, s, now, life);
    GateSteps(w, s, now, life);
    LifeMoveKeepsConsistency(w, life);
  }

  lemma VerifiedIsAsked(w: World, s: X.TargetState)
    requires Consistent(w) && w.setup.Selected() == Some(s) && s.phase.ResponseVerified? && !w.setup.Tombstoned(w.setup.selector.value)
    ensures Asked(w.life, s)
  {
    assert WorkspaceAgrees(w, w.setup.selector.value);
  }

  lemma GateLeavesAsked(before: Life, s: X.TargetState, now: int, life: Life)
    requires GatePassed(before, s, now, life) && Asked(before, s)
    ensures Asked(life, s) && life.boot == before.boot && (life.state.Some? <==> before.state.Some?)
    ensures RunsResponse(before, s) ==> life == before
    ensures life.state != before.state ==> RunsResponse(life, s)
  {
  }

  lemma GateSteps(w: World, s: X.TargetState, now: int, life: Life)
    requires w.setup.Selected() == Some(s) && s.phase.ResponseVerified? && !w.setup.Tombstoned(w.setup.selector.value)
    requires s.confirmed == Some(s.transcript) && s.response.Some? && Asked(w.life, s)
    requires GatePassed(w.life, s, now, life)
    ensures WorldSteps(w, GateMove(w.life, s, now, life), w.(life := life))
  {
  }

  /** Retiring one-time identities of records changes nothing else. */
  lemma RetiringFits(w: World, s: X.TargetState, life: Life)
    requires Consistent(w) && w.setup.Selected() == Some(s) && (s.phase.ResponseVerified? || s.phase.Applied?)
    requires life == w.life.(records := life.records) && life.records.Keys == w.life.records.Keys
    requires forall id <- life.records :: life.records[id] == w.life.records[id] || life.records[id] == w.life.records[id].(identity := false)
    requires if RunsResponse(w.life, s) then RunsResponse(life, s) else life == w.life
    ensures Consistent(w.(life := life)) && WorldSteps(w, Unmoved, w.(life := life))
  {
    assert WorkspaceAgrees(w, w.setup.selector.value);
    LifeMoveKeepsConsistency(w, life);
  }

  lemma AppliedMeansRuns(w: World, s: X.TargetState)
    requires Consistent(w) && w.setup.Selected() == Some(s) && s.response.Some? && !w.setup.Tombstoned(w.setup.selector.value)
    requires s.phase.ResponseVerified? || s.phase.Applied?
    ensures w.life.state.Some? && L.AppliedExactly(w.life.state.value, w.life.records, s.response.value.response.digest, s.request.sha) ==>
      RunsResponse(w.life, s)
  {
    assert WorkspaceAgrees(w, w.setup.selector.value);
  }

  lemma StillRuns(life: Life, s: X.TargetState, life': Life)
    requires life' == life.(records := life'.records) && life'.records.Keys == life.records.Keys
    requires forall id <- life'.records :: life'.records[id] == life.records[id] || life'.records[id] == life.records[id].(identity := false)
    ensures RunsResponse(life', s) <==> RunsResponse(life, s)
  {
  }

  /** Whatever the gate leaves behind, it can be passed again, unless a file was torn. */
  lemma GateStaysOpen(before: Life, s: X.TargetState, now: int, after: Life)
    requires GatePassed(before, s, now, after)
    requires after.state != before.state ==> RunsResponse(after, s)
    ensures StaysAppliable(before, s, after)
  {
  }

  /** What handing material to the lifecycle may leave. */
  predicate ImportLeaves(w: World, m: L.Material, life: Life)
    requires w.setup.Selected().Some?
  {
    && life.Sound() && L.MaterialStep(w.life.records, m, life.records)
    && (w.life.state.Some? && !L.FreshFor(w.life.state.value, m) ==> life.records == w.life.records)
    && (|| life.state == w.life.state
        || (w.life.state.None? && life.state == Some(ImportBase(w.setup, None)))
        || (L.FreshFor(ImportBase(w.setup, w.life.state), m) && life.state == Some(L.ImportNext(ImportBase(w.setup, w.life.state), m))))
    && (ImportMove(w, life.state, m).Imported? ==>
          m.nonce in life.records && life.records[m.nonce].material == L.AllFiles(m) && life.records[m.nonce].identity)
  }

  /** A fresh lifecycle beside a confirmed session means that the retained material is that
      session's own, so an import that moves the lifecycle imports exactly that request. */
  lemma ImportKeepsConsistency(w: World, s: X.TargetState, m: L.Material, life: Life, move: LifeMove)
    requires Consistent(w) && w.setup.Selected() == Some(s) && Confirmed(s) && !w.setup.Tombstoned(w.setup.selector.value)
    requires w.setup.workspaces[w.setup.selector.value].pending == Whole(m)
    requires ImportLeaves(w, m, life) && move == ImportMove(w, life.state, m)
    ensures Consistent(w.(life := life)) && WorldSteps(w, move, w.(life := life))
    ensures Asked(w.life, s) ==> life.state == w.life.state
  {
    assert WorkspaceAgrees(w, w.setup.selector.value);
    LifeMoveKeepsConsistency(w, life);
  }

  /** What the lifecycle then holds as imported is this session's request. */
  lemma ImportedHolds(w: World, s: X.TargetState, m: L.Material, life: Life)
    requires Consistent(w) && w.setup.Selected() == Some(s) && Confirmed(s) && !w.setup.Tombstoned(w.setup.selector.value)
    requires w.setup.workspaces[w.setup.selector.value].pending == Whole(m)
    requires life.boot == L.Complete(OptionsFor(s.invitation)) && life.settled && life.state.Some? && L.ImportedAlready(life.state.value, life.records, m)
    requires ImportLeaves(w, m, life)
    ensures HoldsRequest(life, s) && m.request == s.request.sha
    ensures !Asked(w.life, s) ==> life == AfterImport(w.life, s.invitation, m)
  {
    assert WorkspaceAgrees(w, w.setup.selector.value);
  }

  /** Once the lifecycle holds the request the retained material may go. */
  lemma ImportedFits(w: World, i: Digest, s: X.TargetState)
    requires Consistent(w) && SessionIn(w.setup, i) == Whole(s) && Confirmed(s) && HoldsRequest(w.life, s)
    ensures ChangeFits(w, i, w.setup.workspaces[i].(pending := Missing))
  {
    assert WorkspaceAgrees(w, i);
  }

  class Client {
    const runtime: Id
    const target: L.Target
    var setup: Setup
    ghost var life: Life
    ghost var history: seq<World>
    ghost var moves: seq<LifeMove>
    ghost var rebindings: nat

    ghost function LifeNow(): Life
      reads target, target.root
      requires target.Valid()
    {
      if target.boot.Complete? then Life(target.boot, Some(target.Now()), A.Settled(target.root.disk), target.records)
      else Life(target.boot, None, true, target.records)
    }

    ghost predicate Recorded(w: World)
      reads this
    {
      SetupRun(history, moves) && history[|history| - 1] == w
    }

    ghost predicate Valid()
      reads this, target, target.root
    {
      && target.Valid() && life == LifeNow() && Consistent(World(setup, life)) && Recorded(World(setup, life))
      && rebindings == Rebindings(moves)
    }

    twostate predicate Extended()
      reads this
    {
      old(history) <= history && old(moves) <= moves
    }

    /** The history has grown, and no plan was bound to another request meanwhile. */
    twostate predicate Grown()
      reads this
    {
      Extended() && rebindings == old(rebindings)
    }

    function Workspace(i: Digest): Workspace
      reads this`setup
    {
      if i in setup.workspaces then setup.workspaces[i] else EMPTY_WORKSPACE
    }

    /** Nothing but the files of workspace `i` has changed. */
    twostate predicate Touched(i: Digest)
      reads this`setup
    {
      i in setup.workspaces && setup == old(setup).Put(i, setup.workspaces[i])
    }

    /** What the selected setup opens as, now. */
    function Open(now: int): Option<Current>
      reads this`setup
    {
      OpenCurrent(setup, runtime, now, false)
    }

    constructor (runtime: Id)
      ensures Valid() && fresh(target) && fresh(target.root) && this.runtime == runtime
      ensures setup == Setup(Missing, Missing, map[]) && history == [World(setup, life)] && life.boot.Absent?
    {
      this.runtime := runtime;
      var t := new L.Target();
      target := t;
      setup := Setup(Missing, Missing, map[]);
      life := Life(L.Absent, None, true, map[]);
      history, moves, rebindings := [World(Setup(Missing, Missing, map[]), Life(L.Absent, None, true, map[]))], [], 0;
    }

    // ------------------------------------------------------- calls into the lifecycle

    /** The lifecycle has moved from `before`; the move goes on record. */
    ghost method NoteLife(before: World, move: LifeMove)
      requires target.Valid() && Recorded(before) && setup == before.setup
      requires Consistent(World(setup, LifeNow())) && WorldSteps(before, move, World(setup, LifeNow()))
      requires !move.Rebound? && rebindings == Rebindings(moves)
      modifies this`life, this`history, this`moves
      ensures Valid() && Grown()
    {
      life := LifeNow();
      RunExtends(history, moves, World(setup, life), move);
      history, moves := history + [World(setup, life)], moves + [move];
    }

    lemma CanImportHere(s: X.TargetState, m: L.Material, now: int)
      requires target.Valid()
      ensures CanImport(LifeNow(), s, m, now) <==>
        L.ImportPossible(target.boot, target.root.disk, target.records, OptionsFor(s.invitation), m, now)
    {
    }

    method HandOver(s: X.TargetState, m: L.Material, now: int, calm: bool, cut: bool) returns (ok: bool)
      requires target.Valid() && life == LifeNow() && setup.Selected() == Some(s) && s.invitation.release != 0
      modifies target, target.root
      ensures target.Valid() && ImportLeaves(World(setup, life), m, LifeNow())
      ensures ok ==> CanImport(life, s, m, now)
      ensures ok ==>
        && LifeNow().boot == L.Complete(OptionsFor(s.invitation)) && LifeNow().settled && LifeNow().state.Some?
        && L.ImportedAlready(LifeNow().state.value, LifeNow().records, m)
      ensures life.state.Some? && !L.FreshFor(life.state.value, m) ==> LifeNow() == life
      ensures calm && !cut && CanImport(life, s, m, now) ==> ok
      ensures calm && cut && CanImport(life, s, m, now) && life.boot.Absent? ==>
        L.RecordAt(life.records, m.nonce).Imported() || (!ok && LifeNow().records == L.PutMaterial(life.records, m, L.TornFile(m)))
    {
      CanImportHere(s, m, now);
      ok := target.ImportPendingClient(OptionsFor(s.invitation), m, now, calm, cut);
    }

    /** Hands the retained material to the lifecycle, whatever request it holds. It can only
        ever be the confirmed one. */
    method ImportMaterial(cur: Current, m: L.Material, now: int, calm: bool, cut: bool := false) returns (ok: bool)
      requires Valid() && Open(now) == Some(cur) && Confirmed(cur.session)
      requires setup.workspaces[cur.workspace].pending == Whole(m)
      modifies this, target, target.root
      ensures Valid() && Grown() && setup == old(setup)
      ensures ok ==> CanImport(old(life), cur.session, m, now)
      ensures calm && !cut && CanImport(old(life), cur.session, m, now) ==> ok
      ensures calm && cut && CanImport(old(life), cur.session, m, now) && old(life).boot.Absent? ==>
        L.RecordAt(old(life).records, m.nonce).Imported() || (!ok && life.records == L.PutMaterial(old(life).records, m, L.TornFile(m)))
      ensures ok ==> life.Readable() && HoldsRequest(life, cur.session) && m.request == cur.session.request.sha
      ensures ok && !Asked(old(life), cur.session) ==> life == AfterImport(old(life), cur.session.invitation, m)
      ensures Asked(old(life), cur.session) ==> life == old(life)
    {
      ghost var before := World(setup, life);
      assert WorkspaceAgrees(before, cur.workspace);
      ok := HandOver(cur.session, m, now, calm, cut);
      ghost var move := ImportMove(before, LifeNow().state, m);
      ImportKeepsConsistency(before, cur.session, m, LifeNow(), move);
      if ok {
        ImportedHolds(before, cur.session, m, LifeNow());
      }
      NoteLife(before, move);
    }

    /** The lifecycle gate: applies the bound response to the imported request, or nothing. */
    method ApplyThroughGate(s: X.TargetState, now: int, calm: bool, cut: bool) returns (r: Option<bool>)
      requires Valid() && setup.Selected() == Some(s) && s.phase.ResponseVerified? && s.response.Some? && !setup.Tombstoned(setup.selector.value)
      modifies this, target, target.root
      ensures Valid() && Grown() && setup == old(setup)
      ensures life.state != old(life).state ==>
        CanApply(old(life), s, now) && life.state == Some(AfterApply(old(life), s, now)) && RunsResponse(life, s)
      ensures StaysAppliable(old(life), s, life)
      ensures RunsResponse(old(life), s) ==> life == old(life)
      ensures r.Some? ==> life.Readable() && RunsResponse(life, s)
      ensures calm && !cut && old(life).Readable() && CanApply(old(life), s, now) ==> life.Readable() && RunsResponse(life, s)
      ensures calm && cut && old(life).Readable() && CanApply(old(life), s, now) ==>
        Rendered(old(life)) || (r.None? && life.Ruined() && life.Readable())
      ensures !CanApply(old(life), s, now) ==> life == old(life)
    {
      ghost var before := World(setup, life);
      VerifiedIsAsked(before, s);
      r := target.ApplyResponse(s.response.value.response, now, calm, cut);
      GateKeepsConsistency(before, s, now, LifeNow());
      GateStaysOpen(before.life, s, now, LifeNow());
      NoteLife(before, GateMove(before.life, s, now, LifeNow()));
    }

    /** Proof that the lifecycle already runs this response; it only retires the one-time identity. */
    method Reconcile(s: X.TargetState, calm: bool) returns (r: Option<Id>)
      requires Valid() && setup.Selected() == Some(s) && s.response.Some? && !setup.Tombstoned(setup.selector.value)
      requires s.phase.ResponseVerified? || s.phase.Applied?
      modifies this, target
      ensures Valid() && Grown() && setup == old(setup)
      ensures life == old(life).(records := life.records)
      ensures r.Some? ==> life.Readable() && RunsResponse(life, s)
      ensures r.Some? ==> life.state.value.activeRecord.Some? && r.value == life.state.value.activeRecord.value.id
      ensures RunsResponse(old(life), s) ==> RunsResponse(life, s)
      ensures !RunsResponse(old(life), s) ==> life == old(life)
      ensures calm && old(life).Readable() && RunsResponse(old(life), s) ==> r.Some?
    {
      ghost var before := World(setup, life);
      r := target.ReconcileAppliedResponse(s.response.value.response.digest, s.request.sha, calm);
      AppliedMeansRuns(before, s);
      StillRuns(before.life, s, LifeNow());
      RetiringFits(before, s, LifeNow());
      NoteLife(before, Unmoved);
    }

    /** `mayReconcileCommittedApply` and the check before it. */
    method RequestRetained(i: Digest, s: X.TargetState) returns (ok: bool)
      requires Valid() && setup.Selected() == Some(s) && setup.selector == Whole(i) && Confirmed(s)
      requires !setup.Tombstoned(i) && setup.workspaces[i].pending.Missing?
      ensures ok ==> Asked(life, s)
      ensures ok <==> life.Readable()
    {
      assert WorkspaceAgrees(World(setup, life), i);
      var request := target.ReadPendingRequest();
      if request == Some(s.request.sha) {
        return true;
      }
      var status := target.ReadStatus();
      return s.phase.ResponseVerified? && status.Present? && status.state.activeRecord.Some?;
    }

    /** Finishes an interrupted lifecycle commit; the atomic state does not change. Undisturbed,
        readers are served again, even where the generation can never be exposed to runtimes. */
    method Recover(calm: bool) returns (ok: bool)
      requires Valid()
      modifies this, target.root
      ensures Valid() && Grown() && setup == old(setup)
      ensures life == old(life).(settled := life.settled)
      ensures calm && life.state.Some? ==>
        life.settled && (ok <==> old(A.Publishable(true, target.root.disk, A.AnchoredBytes(target.root.disk))))
      ensures ok ==> life.state.Some? && life.Readable()
    {
      ghost var before := World(setup, life);
      ok := target.RecoverTransaction(calm);
      RecoveryKeepsConsistency(before, LifeNow());
      NoteLife(before, Unmoved);
    }

    // ------------------------------------------------------------------ durable writes

    /** One durable change of the setup files; cut short, it may leave `partial` instead. */
    method Save(partial: Setup, next: Setup, calm: bool, cut: bool := false) returns (ok: bool)
      requires Valid()
      requires Consistent(World(partial, life)) && SetupSteps(setup, partial, false)
      requires Consistent(World(next, life)) && SetupSteps(setup, next, false)
      modifies this`setup, this`history, this`moves
      ensures Valid() && Grown()
      ensures setup == old(setup) || setup == partial || setup == next
      ensures ok ==> setup == next
      ensures calm ==> ok == !cut
      ensures calm && cut ==> setup == partial
    {
      ok := !cut;
      var torn, applied := cut, !cut;
      if !calm {
        ok, torn, applied := *, *, *;
      }
      if ok || applied || torn {
        setup := if ok || applied then next else partial;
        RunExtends(history, moves, World(setup, life), Unmoved);
        history, moves := history + [World(setup, life)], moves + [Unmoved];
      }
    }

    /** A replacement in the workspace that never reached its rename. */
    method LeaveStray(i: Digest, calm: bool)
      requires Valid() && i in setup.workspaces
      modifies this`setup, this`history, this`moves
      ensures Valid() && Grown()
      ensures setup == old(setup) || setup == old(setup).Put(i, old(setup.workspaces[i]).(stray := true))
    {
      var ws := setup.workspaces[i].(stray := true);
      StrayFits(World(setup, life), i);
      var _ := SaveWorkspace(i, ws, ws, calm);
    }

    /** The replacement of a plan by one that is bound to a later request. */
    method RebindPlan(i: Digest, plan: Plan, calm: bool) returns (ok: bool)
      requires Valid() && i in setup.workspaces && setup.workspaces[i].plan.Whole? && setup.receipt.Missing?
      requires var p := setup.workspaces[i].plan.value;
        plan.invitation == p.invitation && p.verified <= plan.verified && p.invitation.CurrentAt(plan.verified)
      modifies this`setup, this`history, this`moves, this`rebindings
      ensures Valid() && Extended()
      ensures var ws := old(setup.workspaces[i]);
        setup == old(setup) || setup == old(setup).Put(i, ws.(stray := true)) || setup == old(setup).Put(i, ws.(plan := Whole(plan)))
      ensures ok ==> setup == old(setup).Put(i, old(setup.workspaces[i]).(plan := Whole(plan)))
      ensures calm ==> ok
    {
      var ws := setup.workspaces[i];
      ok := true;
      var applied := true;
      if !calm {
        ok, applied := *, *;
      }
      if !ok && !applied {
        LeaveStray(i, calm);
        return;
      }
      RebindingFits(World(setup, life), i, plan.verified);
      ChangeKeepsConsistency(World(setup, life), i, ws.(plan := Whole(plan)), true);
      setup := setup.Put(i, ws.(plan := Whole(plan)));
      RunExtends(history, moves, World(setup, life), Rebound);
      history, moves, rebindings := history + [World(setup, life)], moves + [Rebound], rebindings + 1;
    }

    method SaveWorkspace(i: Digest, partial: Workspace, ws: Workspace, calm: bool, cut: bool := false) returns (ok: bool)
      requires Valid() && ChangeFits(World(setup, life), i, partial) && ChangeFits(World(setup, life), i, ws)
      modifies this`setup, this`history, this`moves
      ensures Valid() && Grown()
      ensures setup == old(setup) || setup == old(setup).Put(i, partial) || setup == old(setup).Put(i, ws)
      ensures ok ==> setup == old(setup).Put(i, ws)
      ensures calm ==> ok == !cut
      ensures calm && cut ==> setup == old(setup).Put(i, partial)
    {
      ChangeKeepsConsistency(World(setup, life), i, partial);
      ChangeKeepsConsistency(World(setup, life), i, ws);
      ok := Save(setup.Put(i, partial), setup.Put(i, ws), calm, cut);
    }

    /** The generation compare-and-swap of the stored session, made under the setup lock. A
        replacement cut before its rename leaves its temporary file. */
    method ReplaceSession(i: Digest, next: X.TargetState, now: int, calm: bool, cut: bool := false) returns (ok: bool)
      requires Valid() && i in setup.workspaces && setup.workspaces[i].Session().Whole?
      requires X.Edge(setup.workspaces[i].Session().value, next) && PhaseAgrees(life, setup.workspaces[i], next)
      requires next.phase.Applied? ==> setup.workspaces[i].cancelled.Missing?
      requires next.phase.Ready? ==> setup.receipt.Whole? && setup.receipt.value.workspace == i
      modifies this`setup, this`history, this`moves
      ensures Valid() && Grown()
      ensures var ws := old(setup.workspaces[i]);
        || setup == old(setup)
        || setup == old(setup).Put(i, ws.Strayed())
        || setup == old(setup).Put(i, ws.WithSession(Whole(next)))
      ensures ok ==> setup == old(setup).Put(i, old(setup.workspaces[i]).WithSession(Whole(next)))
      ensures calm && !cut ==> (ok <==> old(setup.workspaces[i]).Session().value.ParsesAt(now))
      ensures calm && cut && old(setup.workspaces[i]).Session().value.ParsesAt(now) ==>
        !ok && setup == old(setup).Put(i, old(setup.workspaces[i]).Strayed())
    {
      var ws := setup.workspaces[i];
      if !ws.Session().value.ParsesAt(now) {
        return false;
      }
      assert WorkspaceAgrees(World(setup, life), i);
      EdgeFits(World(setup, life), i, next);
      ok := SaveWorkspace(i, ws.Strayed(), ws.WithSession(Whole(next)), calm, cut);
    }

    /** The open session moves along one edge, or stays. */
    method Advance(cur: Current, next: X.TargetState, now: int, calm: bool) returns (ok: bool)
      requires Valid() && Open(now) == Some(cur) && X.Edge(cur.session, next) && !next.phase.Ready?
      requires PhaseAgrees(life, setup.workspaces[cur.workspace], next)
      modifies this`setup, this`history, this`moves
      ensures Valid() && Grown()
      ensures Open(now) == Some(cur) || Open(now) == Some(cur.(session := next))
      ensures Touched(cur.workspace) && Workspace(cur.workspace).pending == old(Workspace(cur.workspace)).pending
      ensures ok ==> Open(now) == Some(cur.(session := next))
      ensures ok ==> Workspace(cur.workspace) == old(Workspace(cur.workspace)).WithSession(Whole(next))
      ensures calm ==> ok
    {
      var i, ws := cur.workspace, setup.workspaces[cur.workspace];
      assert WorkspaceAgrees(World(setup, life), i);
      X.EdgeKeepsSession(cur.session, next);
      OpenFollows(setup, runtime, now, cur, ws.Strayed());
      OpenFollows(setup, runtime, now, cur, ws.WithSession(Whole(next)));
      ok := ReplaceSession(i, next, now, calm);
    }

    method UnlinkPending(i: Digest, calm: bool) returns (ok: bool)
      requires Valid() && i in setup.workspaces
      requires ChangeFits(World(setup, life), i, setup.workspaces[i].(pending := Missing))
      modifies this`setup, this`history, this`moves
      ensures Valid() && Grown()
      ensures setup == old(setup) || setup == old(setup).Put(i, old(setup.workspaces[i]).(pending := Missing))
      ensures ok ==> setup == old(setup).Put(i, old(setup.workspaces[i]).(pending := Missing))
      ensures calm ==> ok
    {
      var ws := setup.workspaces[i].(pending := Missing);
      ok := SaveWorkspace(i, ws, ws, calm);
    }

    // ---------------------------------------------------------------- lifecycle import

    /** `commitPending`: import the retained material, then forget it. Where it is gone already,
        the lifecycle must hold the request or have applied it. */
    method CommitPending(cur: Current, now: int, calm: bool) returns (ok: bool)
      requires Valid() && Open(now) == Some(cur) && Confirmed(cur.session)
      modifies this, target, target.root
      ensures Valid() && Grown()
      ensures Open(now) == Some(cur) && Touched(cur.workspace)
      ensures Workspace(cur.workspace).pending.Missing? || Workspace(cur.workspace) == old(Workspace(cur.workspace))
      ensures ok ==> Asked(life, cur.session) && Workspace(cur.workspace) == old(Workspace(cur.workspace)).(pending := Missing)
      ensures ok ==> life == AfterCommit(old(life), cur.session, old(Workspace(cur.workspace)).pending)
      ensures ok && old(life).state.None? ==> old(Workspace(cur.workspace)).pending.Whole?
      ensures calm && old(life).Readable() ==> (ok <==> PendingUsable(old(life), cur.session, old(Workspace(cur.workspace)), now))
      ensures ok && old(life).Readable() ==> life.Readable()
      ensures Asked(old(life), cur.session) ==> life == old(life)
    {
      var i, ws := cur.workspace, setup.workspaces[cur.workspace];
      assert WorkspaceAgrees(World(setup, life), i);
      OpenFollows(setup, runtime, now, cur, ws.(pending := Missing));
      if ws.pending.Missing? {
        assert setup.workspaces == setup.workspaces[i := ws];
        ok := RequestRetained(i, cur.session);
        return;
      }
      if ws.pending.Torn? || !ws.pending.value.CurrentAt(now) {
        return false;
      }
      ok := ImportAndForget(cur, ws.pending.value, now, calm);
    }

    method ImportAndForget(cur: Current, m: L.Material, now: int, calm: bool) returns (ok: bool)
      requires Valid() && Open(now) == Some(cur) && Confirmed(cur.session)
      requires setup.workspaces[cur.workspace].pending == Whole(m)
      modifies this, target, target.root
      ensures Valid() && Grown()
      ensures var ws := old(setup.workspaces[cur.workspace]);
        setup == old(setup) || setup == old(setup).Put(cur.workspace, ws.(pending := Missing))
      ensures ok ==> setup != old(setup) && HoldsRequest(life, cur.session) && life.Readable()
      ensures ok ==> CanImport(old(life), cur.session, m, now)
      ensures ok && !Asked(old(life), cur.session) ==> life == AfterImport(old(life), cur.session.invitation, m)
      ensures calm && CanImport(old(life), cur.session, m, now) ==> ok
      ensures Asked(old(life), cur.session) ==> life == old(life)
    {
      ok := ImportMaterial(cur, m, now, calm);
      if !ok || m.request != cur.session.request.sha {
        return false;
      }
      ImportedFits(World(setup, life), cur.workspace, cur.session);
      ok := UnlinkPending(cur.workspace, calm);
      assert ok ==> setup.workspaces[cur.workspace].pending.Missing?;
    }

    // ------------------------------------------------------------- comparing the words

    /** Creates the cancellation tombstone, exclusively; an identical one is enough. */
    method MarkCancelled(i: Digest, calm: bool) returns (ok: bool)
      requires Valid() && i in setup.workspaces && setup.selector == Whole(i)
      requires setup.Stores(i, X.Phase.Cancelled) || (life.state.Some? ==> life.state.value.activeRecord.None?)
      modifies this`setup, this`history, this`moves
      ensures Valid() && Grown()
      ensures var ws := old(setup.workspaces[i]);
        || setup == old(setup)
        || (ws.cancelled.Missing? && setup == old(setup).Put(i, ws.(cancelled := Torn)))
        || (ws.cancelled.Missing? && setup == old(setup).Put(i, ws.(cancelled := Whole(()))))
      ensures ok ==> setup == old(setup).Put(i, old(setup.workspaces[i]).(cancelled := Whole(())))
      ensures calm ==> (ok <==> !old(setup.workspaces[i]).cancelled.Torn?)
    {
      var ws := setup.workspaces[i];
      if ws.cancelled.Whole? {
        var mark := ws.cancelled.value;
        assert mark == ();
        assert setup.workspaces == setup.workspaces[i := ws.(cancelled := Whole(()))];
        return true;
      }
      if ws.cancelled.Torn? {
        return false;
      }
      TombstoneFits(World(setup, life), i, Torn);
      TombstoneFits(World(setup, life), i, Whole(()));
      ok := SaveWorkspace(i, ws.(cancelled := Torn), ws.(cancelled := Whole(())), calm);
    }

    /** The mismatched session is already stored as cancelled. */
    method RecordMismatch(i: Digest, calm: bool) returns (ok: bool)
      requires Valid() && setup.selector == Whole(i) && setup.Stores(i, X.Phase.Cancelled) && setup.workspaces[i].cancelled.Missing?
      modifies this`setup, this`history, this`moves
      ensures Valid() && Grown() && Touched(i) && setup.Stores(i, X.Phase.Cancelled)
      ensures ok ==> setup == old(setup).Put(i, old(setup.workspaces[i]).(cancelled := Whole(()), pending := Missing))
      ensures calm ==> ok
    {
      ghost var ws := setup.workspaces[i];
      assert setup.workspaces == setup.workspaces[i := ws];
      ok := MarkCancelled(i, calm);
      if ok {
        ForgettingFits(World(setup, life), i);
        ok := UnlinkPending(i, calm);
      }
    }

    /** Records the reverse words before any tentative authority is imported; a mismatch is
        terminal. */
    method Confirm(words: seq<string>, now: int, calm: bool) returns (reply: Option<X.Phase>)
      requires Valid() && |words| == X.WORDS_PER_DIRECTION
      modifies this, target, target.root
      ensures Valid() && Grown()
      ensures var c := old(Open(now));
        if c.None? || !c.value.session.phase.PendingComparison? then
          reply.None? && setup == old(setup) && life == old(life)
        else
          && Touched(c.value.workspace)
          && ConfirmOutcome(old(life), old(setup), c.value, words, life, setup, reply)
          && (calm ==> reply == ConfirmReply(old(life), old(setup), c.value, words, now))
    {
      var c := Open(now);
      if c.None? {
        return None;
      }
      var cur := c.value;
      assert WorkspaceAgrees(World(setup, life), cur.workspace);
      var session := new X.TargetSession(cur.session);
      var outcome := session.ConfirmProvisionerWords(words);
      if outcome.Unavailable? {
        return None;
      }
      if outcome.Deferred? {
        assert setup.workspaces == setup.workspaces[cur.workspace := setup.workspaces[cur.workspace]];
        return Some(X.PendingComparison);
      }
      var ok;
      if outcome.Mismatched? {
        ok := StoreMismatch(cur, session.Snapshot(), now, calm);
      } else {
        ok := StoreConfirmed(cur, session.Snapshot(), now, calm);
      }
      return if ok then Some(session.phase) else None;
    }

    method StoreMismatch(cur: Current, next: X.TargetState, now: int, calm: bool) returns (ok: bool)
      requires Valid() && Open(now) == Some(cur) && cur.session.phase.PendingComparison?
      requires X.Edge(cur.session, next) && next.phase.Cancelled?
      modifies this`setup, this`history, this`moves
      ensures Valid() && Grown() && Touched(cur.workspace)
      ensures setup.Tombstoned(cur.workspace) ==> setup.Stores(cur.workspace, X.Phase.Cancelled)
      ensures !setup.Stores(cur.workspace, X.TranscriptConfirmed)
      ensures ok ==> setup.Tombstoned(cur.workspace) && setup.workspaces[cur.workspace].pending.Missing?
      ensures calm ==> ok
    {
      ok := Advance(cur, next, now, calm);
      if ok {
        ok := RecordMismatch(cur.workspace, calm);
      }
    }

    /** Only now does the request enter the lifecycle. */
    method StoreConfirmed(cur: Current, next: X.TargetState, now: int, calm: bool) returns (ok: bool)
      requires Valid() && Open(now) == Some(cur) && cur.session.phase.PendingComparison?
      requires X.Edge(cur.session, next) && next.phase.TranscriptConfirmed? && next == AsConfirmed(cur.session)
      modifies this, target, target.root
      ensures Valid() && Grown() && Touched(cur.workspace) && !setup.Tombstoned(cur.workspace)
      ensures life != old(life) ==> setup.Stores(cur.workspace, X.TranscriptConfirmed)
      ensures ok ==> ConfirmedAs(old(life), old(Workspace(cur.workspace)), cur.session, life, Workspace(cur.workspace))
      ensures calm ==> (ok <==> PendingUsable(old(life), cur.session, old(setup.workspaces[cur.workspace]), now))
    {
      assert WorkspaceAgrees(World(setup, life), cur.workspace);
      ok := Advance(cur, next, now, calm);
      if ok {
        ok := CommitPending(cur.(session := next), now, calm);
      }
    }

    // ------------------------------------------------------------- applying the response

    /** `applyVerified`: the gate, or proof that it was passed before; then the exchange phase. */
    method ApplyVerified(cur: Current, now: int, calm: bool, cut: bool) returns (ok: bool)
      requires Valid() && Open(now) == Some(cur) && cur.session.phase.ResponseVerified?
      modifies this, target, target.root
      ensures Valid() && Grown()
      ensures Touched(cur.workspace) && Workspace(cur.workspace).pending == old(Workspace(cur.workspace)).pending
      ensures Open(now) == Some(cur) || (Open(now) == Some(cur.(session := AsApplied(cur.session))) && RunsResponse(life, cur.session))
      ensures ok ==> Open(now) == Some(cur.(session := AsApplied(cur.session))) && RunsResponse(life, cur.session) && life.Readable()
      ensures ok ==> Workspace(cur.workspace) == old(Workspace(cur.workspace)).WithSession(Whole(AsApplied(cur.session)))
      ensures life.state != old(life).state ==>
        CanApply(old(life), cur.session, now) && life.state == Some(AfterApply(old(life), cur.session, now)) && RunsResponse(life, cur.session)
      ensures StaysAppliable(old(life), cur.session, life)
      ensures calm && !cut && old(life).Readable() ==> (ok <==> Appliable(old(life), cur.session, now))
      ensures calm && cut && old(life).Readable() && CanApply(old(life), cur.session, now) ==>
        Rendered(old(life)) || (!ok && life.Ruined() && life.Readable())
    {
      assert WorkspaceAgrees(World(setup, life), cur.workspace);
      ok := PassGate(cur.session, now, calm, cut);
      assert setup.workspaces == setup.workspaces[cur.workspace := setup.workspaces[cur.workspace]];
      if ok {
        ok := MarkApplied(cur, now, calm);
      }
    }

    /** The exchange phase follows the lifecycle. */
    method MarkApplied(cur: Current, now: int, calm: bool) returns (ok: bool)
      requires Valid() && Open(now) == Some(cur) && cur.session.phase.ResponseVerified? && RunsResponse(life, cur.session)
      modifies this`setup, this`history, this`moves
      ensures Valid() && Grown() && Touched(cur.workspace)
      ensures Open(now) == Some(cur) || Open(now) == Some(cur.(session := AsApplied(cur.session)))
      ensures Workspace(cur.workspace).pending == old(Workspace(cur.workspace)).pending
      ensures ok ==> Open(now) == Some(cur.(session := AsApplied(cur.session)))
      ensures ok ==> Workspace(cur.workspace) == old(Workspace(cur.workspace)).WithSession(Whole(AsApplied(cur.session)))
      ensures calm ==> ok
    {
      var session := new X.TargetSession(cur.session);
      ok := session.RecordApplied();
      if ok {
        ok := Advance(cur, session.Snapshot(), now, calm);
      }
    }

    method PassGate(s: X.TargetState, now: int, calm: bool, cut: bool) returns (ok: bool)
      requires Valid() && setup.Selected() == Some(s) && s.phase.ResponseVerified? && s.response.Some? && !setup.Tombstoned(setup.selector.value)
      modifies this, target, target.root
      ensures Valid() && Grown() && setup == old(setup)
      ensures ok ==> RunsResponse(life, s) && life.Readable()
      ensures life.state != old(life).state ==>
        CanApply(old(life), s, now) && life.state == Some(AfterApply(old(life), s, now)) && RunsResponse(life, s)
      ensures StaysAppliable(old(life), s, life)
      ensures calm && !cut && old(life).Readable() ==> (ok <==> Appliable(old(life), s, now))
      ensures calm && cut && old(life).Readable() && CanApply(old(life), s, now) ==>
        Rendered(old(life)) || (!ok && life.Ruined() && life.Readable())
    {
      var applied := ApplyThroughGate(s, now, calm, cut);
      if applied == Some(true) {
        return true;
      }
      ghost var gated := life;
      var active := Reconcile(s, calm);
      ReconciledStays(old(life), s, gated, life);
      return active.Some?;
    }

    /** Stores one bound response as verified, then applies it through the lifecycle gate. */
    method AcceptAndApply(bound: X.BoundResponse, now: int, calm: bool) returns (reply: Option<X.Phase>)
      requires Valid()
      modifies this, target, target.root
      ensures Valid() && Grown()
      ensures reply.Some? ==> reply == Some(X.Phase.Applied)
      ensures var c := old(Open(now));
        if c.None? || !c.value.session.phase.TranscriptConfirmed? then
          reply.None? && setup == old(setup) && life == old(life)
        else
          && Touched(c.value.workspace) && Open(now).Some?
          && Open(now).value == c.value.(session := Open(now).value.session)
          && var ahead := AfterCommit(old(life), c.value.session, old(Workspace(c.value.workspace)).pending);
          && AcceptOutcome(old(life), ahead, c.value.session, bound, life, Open(now).value.session, reply)
          && (if Open(now).value == c.value then
                Workspace(c.value.workspace).pending.Missing? || Workspace(c.value.workspace).pending == old(Workspace(c.value.workspace)).pending
              else Workspace(c.value.workspace).pending.Missing?)
          && (reply.Some? ==> AcceptedAs(ahead, old(Workspace(c.value.workspace)), c.value.session, bound, now, life, Workspace(c.value.workspace)))
          && (calm && old(life).Readable() ==>
                (reply.Some? <==> AcceptPossible(old(life), old(setup), c.value, bound, now)))
    {
      var c := Open(now);
      if c.None? || c.value.session.phase != X.TranscriptConfirmed {
        return None;
      }
      reply := CommitAndVerify(c.value, bound, now, calm);
    }

    method CommitAndVerify(cur: Current, bound: X.BoundResponse, now: int, calm: bool) returns (reply: Option<X.Phase>)
      requires Valid() && Open(now) == Some(cur) && cur.session.phase.TranscriptConfirmed?
      modifies this, target, target.root
      ensures Valid() && Grown() && Touched(cur.workspace)
      ensures reply.Some? ==> reply == Some(X.Phase.Applied)
      ensures Open(now).Some? && Open(now).value == cur.(session := Open(now).value.session)
      ensures AcceptOutcome(old(life), AfterCommit(old(life), cur.session, old(Workspace(cur.workspace)).pending),
                            cur.session, bound, life, Open(now).value.session, reply)
      ensures if Open(now).value == cur then
          Workspace(cur.workspace).pending.Missing? || Workspace(cur.workspace).pending == old(Workspace(cur.workspace)).pending
        else Workspace(cur.workspace).pending.Missing?
      ensures reply.Some? ==>
        AcceptedAs(AfterCommit(old(life), cur.session, old(Workspace(cur.workspace)).pending), old(Workspace(cur.workspace)), cur.session, bound, now, life, Workspace(cur.workspace))
      ensures calm && old(life).Readable() ==>
        (reply.Some? <==> AcceptPossible(old(life), old(setup), cur, bound, now))
    {
      assert WorkspaceAgrees(World(setup, life), cur.workspace);
      var ok := CommitPending(cur, now, calm);
      if !ok {
        return None;
      }
      ghost var committed := setup;
      ok := VerifyAndApply(cur, bound, now, calm);
      PutTwice(old(setup), committed, setup, cur.workspace);
      reply := if ok then Some(X.Phase.Applied) else None;
    }

    method StoreVerified(cur: Current, bound: X.BoundResponse, now: int, calm: bool) returns (ok: bool)
      requires Valid() && Open(now) == Some(cur) && cur.session.phase.TranscriptConfirmed?
      requires setup.workspaces[cur.workspace].pending.Missing? && HoldsRequest(life, cur.session)
      modifies this`setup, this`history, this`moves
      ensures Valid() && Grown() && Touched(cur.workspace) && Workspace(cur.workspace).pending.Missing?
      ensures Open(now) == Some(cur) || (cur.session.Binds(bound) && Open(now) == Some(cur.(session := AsVerified(cur.session, bound))))
      ensures ok ==> Open(now) == Some(cur.(session := AsVerified(cur.session, bound)))
      ensures ok ==> Workspace(cur.workspace) == old(Workspace(cur.workspace)).WithSession(Whole(AsVerified(cur.session, bound)))
      ensures calm ==> (ok <==> cur.session.Binds(bound))
    {
      var session := new X.TargetSession(cur.session);
      ok := session.AcceptBoundResponse(bound);
      if ok {
        ok := Advance(cur, session.Snapshot(), now, calm);
      } else {
        assert setup.workspaces == setup.workspaces[cur.workspace := setup.workspaces[cur.workspace]];
      }
    }

    /** The bound response is stored as verified before the lifecycle sees it. */
    method VerifyAndApply(cur: Current, bound: X.BoundResponse, now: int, calm: bool) returns (ok: bool)
      requires Valid() && Open(now) == Some(cur) && cur.session.phase.TranscriptConfirmed?
      requires setup.workspaces[cur.workspace].pending.Missing? && HoldsRequest(life, cur.session)
      modifies this, target, target.root
      ensures Valid() && Grown() && Touched(cur.workspace) && Workspace(cur.workspace).pending.Missing?
      ensures Open(now).Some? && Open(now).value == cur.(session := Open(now).value.session)
      ensures AcceptOutcome(old(life), old(life), cur.session, bound, life, Open(now).value.session, if ok then Some(X.Phase.Applied) else None)
      ensures ok ==> AcceptedAs(old(life), old(Workspace(cur.workspace)), cur.session, bound, now, life, Workspace(cur.workspace))
      ensures calm && old(life).Readable() ==>
        (ok <==> cur.session.Binds(bound) && CanApply(old(life), AsVerified(cur.session, bound), now))
    {
      ok := StoreVerified(cur, bound, now, calm);
      if ok {
        ghost var stored := setup;
        ok := ApplyVerified(cur.(session := AsVerified(cur.session, bound)), now, calm, false);
        PutTwice(old(setup), stored, setup, cur.workspace);
        OutcomeOfApply(old(life), old(Workspace(cur.workspace)), cur.session, bound, now, life, Workspace(cur.workspace), Open(now).value.session, ok);
      }
    }

    /** Completes a crash after verification, inside the lifecycle commit, or after it. What an
        interruption of it can break is the record: a torn file there ends all resuming. */
    method ResumeApply(now: int, calm: bool, cut: bool := false) returns (reply: Option<X.Phase>)
      requires Valid()
      modifies this, target, target.root
      ensures Valid() && Grown()
      ensures var c := old(Open(now));
        if c.None? || !(c.value.session.phase.ResponseVerified? || c.value.session.phase.Applied?) then
          reply.None? && setup == old(setup) && life == old(life)
        else
          && Touched(c.value.workspace)
          && (Open(now) == c || (c.value.session.phase.ResponseVerified? && Open(now) == Some(c.value.(session := AsApplied(c.value.session)))))
          && (reply.Some? ==> RunsResponse(life, c.value.session))
          && (life.state != old(life).state ==>
                CanApply(old(life), c.value.session, now) && life.state == Some(AfterApply(old(life), c.value.session, now)))
      ensures reply.Some? ==> reply == Some(X.Phase.Applied) && AppliedAt(setup, runtime, now)
      ensures calm && !cut && old(life).Readable() ==>
        (reply.Some? <==> ResumePossible(old(life), old(setup), runtime, now) || AppliedAt(old(setup), runtime, now))
      ensures calm && cut && old(life).Readable() && ResumePossible(old(life), old(setup), runtime, now) && !RunsResponse(old(life), old(setup).Selected().value) ==>
        Rendered(old(life)) || (reply.None? && life.Ruined() && life.Readable())
      ensures ResumePossible(old(life), old(setup), runtime, now) ==>
        && (life.Ruined() <==> !ResumePossible(life, setup, runtime, now) && !AppliedAt(setup, runtime, now))
        && (AppliedAt(setup, runtime, now) ==> RunsResponse(life, old(setup).Selected().value))
    {
      var c := Open(now);
      if c.None? {
        return None;
      }
      var cur := c.value;
      assert WorkspaceAgrees(World(setup, life), cur.workspace);
      if cur.session.phase == X.Phase.Applied {
        assert setup.workspaces == setup.workspaces[cur.workspace := setup.workspaces[cur.workspace]];
        return Some(X.Phase.Applied);
      }
      if cur.session.phase != X.ResponseVerified {
        return None;
      }
      var ok := ResumeVerified(cur, now, calm, cut);
      ResumeFollows(old(life), old(setup), life, setup, runtime, cur, now);
      return if ok then Some(X.Phase.Applied) else None;
    }

    method ResumeVerified(cur: Current, now: int, calm: bool, cut: bool) returns (ok: bool)
      requires Valid() && Open(now) == Some(cur) && cur.session.phase.ResponseVerified?
      modifies this, target, target.root
      ensures Valid() && Grown() && Touched(cur.workspace)
      ensures Open(now) == Some(cur) || (Open(now) == Some(cur.(session := AsApplied(cur.session))) && RunsResponse(life, cur.session))
      ensures ok ==> Open(now) == Some(cur.(session := AsApplied(cur.session)))
      ensures Workspace(cur.workspace).pending.Missing? ||
        (Workspace(cur.workspace).pending == old(Workspace(cur.workspace)).pending && life == old(life))
      ensures life.state != old(life).state ==>
        CanApply(old(life), cur.session, now) && life.state == Some(AfterApply(old(life), cur.session, now))
      ensures StaysAppliable(old(life), cur.session, life)
      ensures calm && !cut && old(life).Readable() ==>
        (ok <==> PendingUsable(old(life), cur.session, old(Workspace(cur.workspace)), now) && Appliable(old(life), cur.session, now))
      ensures calm && cut && old(life).Readable() && PendingUsable(old(life), cur.session, old(Workspace(cur.workspace)), now) && CanApply(old(life), cur.session, now) ==>
        Rendered(old(life)) || (!ok && life.Ruined() && life.Readable())
    {
      assert WorkspaceAgrees(World(setup, life), cur.workspace);
      ok := CommitPending(cur, now, calm);
      if ok {
        ghost var committed := setup;
        ok := ApplyVerified(cur, now, calm, cut);
        PutTwice(old(setup), committed, setup, cur.workspace);
      } else {
        ReconciledStays(life, cur.session, life, life);
      }
    }

    // ------------------------------------------------------------------------ READY

    /** The lifecycle state as a reader sees it. */
    method ReadLife() returns (state: Option<LS.State>)
      requires Valid()
      ensures state == if life.Readable() then life.state else None
    {
      var status := target.ReadStatus();
      return if status.Present? then Some(status.state) else None;
    }

    method ReadReady() returns (answer: ReadyAnswer)
      requires Valid()
      ensures answer == Answer(setup, life, runtime)
    {
      if setup.receipt.Missing? {
        return NoReceipt;
      }
      if setup.receipt.Torn? || !WellFormed(setup.receipt.value) {
        return Refused;
      }
      var r := setup.receipt.value;
      var state := ReadLife();
      return if state.Some? && Matches(r, state.value, runtime) then IsReady(r) else Refused;
    }

    /** Reports the selected setup, and finishes an import that a crash cut after confirmation. */
    method Status(now: int, calm: bool) returns (reply: Option<Reply>)
      requires Valid()
      modifies this, target, target.root
      ensures Valid() && Grown()
      ensures match Answer(old(setup), old(life), runtime)
        case IsReady(r) => reply == Some(ReplyOf(r)) && setup == old(setup) && life == old(life)
        case Refused => reply.None? && setup == old(setup) && life == old(life)
        case NoReceipt =>
          var c := Reopened(old(setup), runtime, now);
          if c.None? || c.value.session.phase.Ready? then reply.None? && setup == old(setup) && life == old(life)
          else if !Confirmed(c.value.session) then reply == Some(Reply(c.value.session.phase, false)) && setup == old(setup) && life == old(life)
          else
            && Touched(c.value.workspace) && Reopened(setup, runtime, now) == c
            && (reply.Some? ==> reply == Some(Reply(c.value.session.phase, false)) && Asked(life, c.value.session))
            && (calm && old(life).Readable() ==>
                  (reply.Some? <==> PendingUsable(old(life), c.value.session, old(setup).workspaces[c.value.workspace], now)))
    {
      var answer := ReadReady();
      if answer.IsReady? {
        return Some(ReplyOf(answer.receipt));
      }
      if answer.Refused? {
        return None;
      }
      var c := Reopened(setup, runtime, now);
      if c.None? || c.value.session.phase == X.Ready {
        return None;
      }
      if Confirmed(c.value.session) {
        var ok := CommitPending(c.value, now, calm);
        if !ok {
          return None;
        }
      }
      return Some(Reply(c.value.session.phase, false));
    }

    /** The receipt comes first: once it is written whole, the proof is not lost. Cut inside the
        creation of that file, it is, although the probe has succeeded. */
    method CompleteReady(probe: bool, now: int, calm: bool, cut: ReadyCut := Uncut) returns (reply: Option<Reply>)
      requires Valid()
      modifies this, target
      ensures Valid() && Grown() && life == old(life).(records := life.records)
      ensures match Answer(old(setup), old(life), runtime)
        case IsReady(r) => reply == Some(ReplyOf(r)) && setup == old(setup) && life == old(life)
        case Refused => reply.None? && setup == old(setup) && life == old(life)
        case NoReceipt =>
          var c := Reopened(old(setup), runtime, now);
          if c.None? || !c.value.session.phase.Applied? then reply.None? && setup == old(setup) && life == old(life)
          else ReadyOutcome(c.value, old(setup), probe, now, life, setup, runtime, reply) &&
               (calm && cut.Uncut? ==> (reply.Some? <==> old(life).settled && ReadyProven(old(life), c.value, probe, now))) &&
               (calm && !cut.Uncut? && old(life).settled && ReadyProven(old(life), c.value, probe, now) ==>
                  CutReady(c.value, old(setup), life, now, cut, setup, reply))
    {
      var answer := ReadReady();
      if answer.IsReady? {
        return Some(ReplyOf(answer.receipt));
      }
      if answer.Refused? {
        return None;
      }
      var c := Reopened(setup, runtime, now);
      if c.None? || c.value.session.phase != X.Phase.Applied {
        return None;
      }
      if c.value.plan.verified <= now {
        ReopenedParses(World(setup, life), c.value, runtime, now);
      }
      reply := ProveReady(c.value, probe, now, calm, cut);
    }

    /** The proof, the receipt, and only then the session's own last phase. */
    method ProveReady(cur: Current, probe: bool, now: int, calm: bool, cut: ReadyCut) returns (reply: Option<Reply>)
      requires Valid() && setup.receipt.Missing? && Holds(setup, runtime, cur) && cur.session.phase.Applied?
      requires cur.plan.verified <= now ==> cur.session.ParsesAt(cur.plan.verified)
      modifies this, target
      ensures Valid() && Grown() && life == old(life).(records := life.records)
      ensures ReadyOutcome(cur, old(setup), probe, now, life, setup, runtime, reply)
      ensures calm && cut.Uncut? ==> (reply.Some? <==> old(life).settled && ReadyProven(old(life), cur, probe, now))
      ensures calm && !cut.Uncut? && old(life).settled && ReadyProven(old(life), cur, probe, now) ==>
        CutReady(cur, old(setup), life, now, cut, setup, reply)
    {
      assert WorkspaceAgrees(World(setup, life), cur.workspace);
      var record := Reconcile(cur.session, calm);
      var state := ReadLife();
      if record.None? || state.None? || state.value.role != LS.Client || state.value.installation != cur.plan.invitation.installation {
        return None;
      }
      if !probe || !WellFormed(ReceiptFor(cur, record.value, now)) {
        return None;
      }
      reply := RecordReady(cur, record.value, now, calm, cut);
    }

    method RecordReady(cur: Current, record: Id, now: int, calm: bool, cut: ReadyCut) returns (reply: Option<Reply>)
      requires Valid() && setup.receipt.Missing? && Holds(setup, runtime, cur) && cur.session.phase.Applied?
      requires life.settled && RunsResponse(life, cur.session) && record == life.state.value.activeRecord.value.id
      requires ReadyProven(life, cur, true, now) && WellFormed(ReceiptFor(cur, record, now)) && cur.session.ParsesAt(cur.plan.verified)
      modifies this`setup, this`history, this`moves
      ensures Valid() && Grown()
      ensures ReadyOutcome(cur, old(setup), true, now, life, setup, runtime, reply)
      ensures calm && cut.Uncut? ==> reply.Some?
      ensures calm && !cut.Uncut? ==> CutReady(cur, old(setup), life, now, cut, setup, reply)
    {
      var session := new X.TargetSession(cur.session);
      var ok := session.CompleteReadyProbe(true);
      if ok {
        ok := WriteReceipt(cur, ReceiptFor(cur, record, now), calm, cut.InReceipt?);
      }
      if ok {
        ok := StoreReady(cur, session.Snapshot(), calm, cut.InSession?);
      }
      reply := if ok then Some(Reply(X.Ready, true)) else None;
      OutcomeOfReceipt(cur, old(setup), now, life, setup, runtime, reply);
    }

    /** Behind the receipt the session takes its last phase. */
    method StoreReady(cur: Current, next: X.TargetState, calm: bool, cut: bool) returns (ok: bool)
      requires Valid() && SessionIn(setup, cur.workspace) == Whole(cur.session) && X.Edge(cur.session, next) && next.phase.Ready?
      requires setup.receipt.Whole? && setup.receipt.value.workspace == cur.workspace && cur.session.ParsesAt(cur.plan.verified)
      requires setup.selector == Whole(cur.workspace)
      modifies this`setup, this`history, this`moves
      ensures Valid() && Grown()
      ensures var ws := old(setup.workspaces[cur.workspace]);
        || setup == old(setup)
        || setup == old(setup).Put(cur.workspace, ws.Strayed())
        || setup == old(setup).Put(cur.workspace, ws.WithSession(Whole(next)))
      ensures ok ==> setup == old(setup).Put(cur.workspace, old(setup.workspaces[cur.workspace]).WithSession(Whole(next)))
      ensures calm ==> ok == !cut
      ensures calm && cut ==> setup == old(setup).Put(cur.workspace, old(setup.workspaces[cur.workspace]).Strayed())
    {
      assert WorkspaceAgrees(World(setup, life), cur.workspace);
      ok := ReplaceSession(cur.workspace, next, cur.plan.verified, calm, cut);
    }

    method WriteReceipt(cur: Current, receipt: Receipt, calm: bool, cut: bool) returns (ok: bool)
      requires Valid() && setup.receipt.Missing? && setup.Selected() == Some(cur.session) && setup.selector == Whole(cur.workspace)
      requires cur.session.phase.Applied? && !setup.Tombstoned(cur.workspace) && WellFormed(receipt)
      requires receipt.workspace == cur.workspace && receipt.cleaned.None? && Paired(receipt, cur.session)
      requires PlanIn(setup, cur.workspace) == Whole(cur.plan) && receipt.validation == cur.plan.verified && cur.session.ParsesAt(cur.plan.verified)
      modifies this`setup, this`history, this`moves
      ensures Valid() && Grown()
      ensures setup == old(setup) || setup == old(setup).(receipt := Torn) || setup == old(setup).(receipt := Whole(receipt))
      ensures ok ==> setup == old(setup).(receipt := Whole(receipt))
      ensures calm ==> ok == !cut
      ensures calm && cut ==> setup == old(setup).(receipt := Torn)
    {
      assert WorkspaceAgrees(World(setup, life), cur.workspace);
      ReceiptKeepsConsistency(World(setup, life), Torn);
      ReceiptKeepsConsistency(World(setup, life), Whole(receipt));
      ok := Save(setup.(receipt := Torn), setup.(receipt := Whole(receipt)), calm, cut);
    }

    // ---------------------------------------------------------------------- cleanup

    /** One file of the receipt's workspace goes. */
    method Retire(i: Digest, ws: Workspace, calm: bool) returns (ok: bool)
      requires Valid() && setup.receipt.Whole? && i == setup.receipt.value.workspace && i in setup.workspaces
      requires Retires(setup.workspaces[i], ws)
      modifies this`setup, this`history, this`moves
      ensures Valid() && Grown()
      ensures setup == old(setup) || setup == old(setup).Put(i, ws)
      ensures ok ==> setup == old(setup).Put(i, ws)
      ensures calm ==> ok
    {
      RetirementFits(World(setup, life), i, ws);
      ok := SaveWorkspace(i, ws, ws, calm);
    }

    /** `RetireTargetStore`, then the exchange directory that held the session. */
    method RetireExchange(i: Digest, r: Receipt, calm: bool) returns (ok: bool)
      requires Valid() && Answer(setup, life, runtime) == IsReady(r) && i == r.workspace && r.cleaned.None? && i in setup.workspaces
      modifies this`setup, this`history, this`moves
      ensures Valid() && Grown() && setup == old(setup).Put(i, Workspace(i)) && i in setup.workspaces
      ensures Workspace(i) == old(Workspace(i)).(exchange := Workspace(i).exchange)
      ensures ok ==> Workspace(i).exchange.None?
      ensures Workspace(i).exchange.Some? ==> old(Workspace(i)).exchange.Some? && Workspace(i).exchange.value.stray == old(Workspace(i)).exchange.value.stray
      ensures calm ==> (ok <==> (old(Workspace(i)).exchange.Some? ==> !old(Workspace(i)).exchange.value.stray))
    {
      var ws := setup.workspaces[i];
      assert setup.workspaces == setup.workspaces[i := ws];
      if ws.exchange.None? {
        return true;
      }
      assert WorkspaceAgrees(World(setup, life), i);
      var session := ws.exchange.value.session;
      ok := !session.Torn? && (session.Whole? ==> session.value.ParsesAt(r.validation) && Paired(r, session.value));
      if ok && session.Whole? {
        ok := Retire(i, ws.WithSession(Missing), calm);
      }
      if !ok || ws.exchange.value.stray {
        return false;
      }
      ghost var was := setup;
      ok := Retire(i, ws.(exchange := None), calm);
      PutTwice(old(setup), was, setup, i);
    }

    /** The remaining files of the workspace. */
    method RemoveFiles(i: Digest, calm: bool) returns (ok: bool)
      requires Valid() && setup.receipt.Whole? && i == setup.receipt.value.workspace && i in setup.workspaces
      requires setup.workspaces[i].exchange.None?
      modifies this`setup, this`history, this`moves
      ensures Valid() && Grown() && setup == old(setup).Put(i, Workspace(i)) && i in setup.workspaces
      ensures Workspace(i).exchange.None? && Workspace(i).stray == old(Workspace(i)).stray
      ensures ok ==> Workspace(i) == EMPTY_WORKSPACE.(stray := old(Workspace(i)).stray)
      ensures calm ==> ok
    {
      var ws := setup.workspaces[i];
      assert setup.workspaces == setup.workspaces[i := ws];
      ok := Retire(i, ws.(pending := Missing), calm);
      ghost var was := setup;
      if ok {
        ok := Retire(i, ws.(pending := Missing, plan := Missing), calm);
        PutTwice(old(setup), was, setup, i);
      }
      was := setup;
      if ok {
        ok := Retire(i, ws.(pending := Missing, plan := Missing, cancelled := Missing), calm);
        PutTwice(old(setup), was, setup, i);
      }
    }

    /** Then the workspace itself; removing it demands that it is empty. */
    method RemoveWorkspace(i: Digest, calm: bool) returns (ok: bool)
      requires Valid() && setup.receipt.Whole? && i == setup.receipt.value.workspace && i in setup.workspaces
      requires setup.workspaces[i].exchange.None?
      modifies this`setup, this`history, this`moves
      ensures Valid() && Grown()
      ensures Without(setup, i) == Without(old(setup), i)
      ensures i in setup.workspaces ==> setup.workspaces[i].exchange.None? && setup.workspaces[i].stray == old(setup).workspaces[i].stray
      ensures ok ==> i !in setup.workspaces
      ensures calm ==> (ok <==> !old(setup).workspaces[i].stray)
    {
      ok := RemoveFiles(i, calm);
      if !ok || setup.workspaces[i].stray {
        return false;
      }
      RemovalKeepsConsistency(World(setup, life), Without(setup, i));
      ok := Save(Without(setup, i), Without(setup, i), calm);
    }

    /** The selector, then the redacted receipt. */
    method FinishCleanup(now: int, calm: bool) returns (ok: bool)
      requires Valid() && setup.receipt.Whole? && setup.receipt.value.cleaned.None? && setup.receipt.value.workspace !in setup.workspaces
      modifies this`setup, this`history, this`moves
      ensures Valid() && Grown() && setup.workspaces == old(setup).workspaces
      ensures setup.receipt == old(setup).receipt || setup == Cleaned(old(setup), now)
      ensures ok ==> setup == Cleaned(old(setup), now)
      ensures calm ==> (ok <==> old(setup).receipt.value.ready <= now)
    {
      RemovalKeepsConsistency(World(setup, life), setup.(selector := Missing));
      ok := Save(setup.(selector := Missing), setup.(selector := Missing), calm);
      var r := setup.receipt.value.(cleaned := Some(now));
      if !ok || !WellFormed(r) {
        return false;
      }
      ReceiptKeepsConsistency(World(setup, life), Whole(r));
      ok := Save(setup.(receipt := Whole(r)), setup.(receipt := Whole(r)), calm);
    }

    method RetireWorkspace(r: Receipt, calm: bool) returns (ok: bool)
      requires Valid() && Answer(setup, life, runtime) == IsReady(r) && r.cleaned.None?
      modifies this`setup, this`history, this`moves
      ensures Valid() && Grown() && Answer(setup, life, runtime) == IsReady(r)
      ensures Without(setup, r.workspace) == Without(old(setup), r.workspace)
      ensures ok ==> r.workspace !in setup.workspaces
      ensures CleanupUnblocked(old(setup), life, runtime) ==> CleanupUnblocked(setup, life, runtime)
      ensures calm ==> (ok <==> CleanupUnblocked(old(setup), life, runtime))
    {
      ok := true;
      if r.workspace in setup.workspaces {
        ok := RetireExchange(r.workspace, r, calm);
        if ok {
          ok := RemoveWorkspace(r.workspace, calm);
        }
      }
    }

    /** Retires exactly the workspace that the receipt names. It can be cut anywhere and run
        again: what it needs stays true until it is done. */
    method CleanupReady(now: int, calm: bool) returns (reply: Option<Reply>)
      requires Valid()
      modifies this`setup, this`history, this`moves
      ensures Valid() && Grown()
      ensures var answer := Answer(old(setup), life, runtime);
        if !answer.IsReady? then reply.None? && setup == old(setup)
        else if answer.receipt.cleaned.Some? then reply == Some(Reply(X.Ready, false)) && setup == old(setup)
        else
          && Answer(setup, life, runtime).IsReady?
          && Without(setup, answer.receipt.workspace).workspaces == Without(old(setup), answer.receipt.workspace).workspaces
          && (reply.Some? ==> reply == Some(Reply(X.Ready, false)) && setup == Cleaned(Without(old(setup), answer.receipt.workspace), now))
          && (CleanupUnblocked(old(setup), life, runtime) ==> CleanupUnblocked(setup, life, runtime))
          && (calm ==> (reply.Some? <==> CleanupUnblocked(old(setup), life, runtime) && answer.receipt.ready <= now))
    {
      var answer := ReadReady();
      if !answer.IsReady? {
        return None;
      }
      var r := answer.receipt;
      if r.cleaned.Some? {
        return Some(ReplyOf(r));
      }
      var ok := RetireWorkspace(r, calm);
      if ok {
        ok := FinishCleanup(now, calm);
      }
      return if ok then Some(Reply(X.Ready, false)) else None;
    }

    // ----------------------------------------------------------------------- cancel

    /** The lifecycle consumes its pending request. */
    method CancelLifecycle(calm: bool) returns (ok: bool)
      requires Valid() && setup.selector.Whole? && setup.Tombstoned(setup.selector.value)
      requires life.state.Some? && life.state.value.activeRecord.None?
      modifies this, target, target.root
      ensures Valid() && Grown() && setup == old(setup)
      ensures life.state == old(life).state || (L.CancelPossible(old(life).state.value) && life.state == Some(L.CancelNext(old(life).state.value)))
      ensures ok ==> life.state != old(life).state
      ensures calm && old(life).settled && L.CancelPossible(old(life).state.value) ==> ok
    {
      ghost var before := World(setup, life);
      ok := target.CancelPending(calm);
      ghost var move := if LifeNow().state == before.life.state then Unmoved else Withdrawn;
      WithdrawalFits(before, LifeNow(), move);
      NoteLife(before, move);
    }

    /** Tombstones the selected setup first, then withdraws everything that could be used. */
    method Cancel(now: int, calm: bool) returns (ok: bool)
      requires Valid()
      modifies this, target, target.root
      ensures Valid() && Grown()
      ensures !Cancellable(old(life), old(setup), runtime, now) ==> !ok && setup == old(setup) && life == old(life)
      ensures Cancellable(old(life), old(setup), runtime, now) ==> Touched(old(setup).selector.value)
      ensures setup.selector == old(setup).selector
      ensures ok ==> setup.Tombstoned(setup.selector.value) && setup.workspaces[setup.selector.value].pending.Missing?
      ensures ok ==> life.state.Some? ==> life.state.value.pending.None? && life.state.value.activeRecord.None?
      ensures life.state != old(life).state ==> setup.Tombstoned(setup.selector.value)
      ensures calm ==> (ok <==> Cancellable(old(life), old(setup), runtime, now) && Withdrawable(old(life), old(setup)))
    {
      if !setup.selector.Whole? || setup.selector.value !in setup.workspaces {
        return false;
      }
      var i := setup.selector.value;
      var plan := ReadPlan(setup.workspaces[i], false, runtime, now);
      if plan.None? || plan.value.invitation.sha != i {
        return false;
      }
      var status := target.ReadStatus();
      if status.Unanchored? || (status.Present? && status.state.activeRecord.Some?) {
        return false;
      }
      ok := CancelSession(i, now, calm);
      if ok {
        ok := WithdrawRequest(i, status, calm);
      }
    }

    /** Under the tombstone: the lifecycle's pending request, then the retained material. */
    method WithdrawRequest(i: Digest, status: L.Status, calm: bool) returns (ok: bool)
      requires Valid() && setup.selector == Whole(i) && setup.Tombstoned(i)
      requires if status.Present? then life.state == Some(status.state) && life.settled else life.state.None?
      requires status.Present? ==> status.state.activeRecord.None?
      modifies this, target, target.root
      ensures Valid() && Grown() && Touched(i) && setup.Tombstoned(i)
      ensures ok ==> setup.workspaces[i].pending.Missing?
      ensures ok && life.state.Some? ==> life.state.value.pending.None? && life.state.value.activeRecord.None?
      ensures calm ==> (ok <==> status.Present? && status.state.pending.Some? ==> L.CancelPossible(status.state))
    {
      assert setup.workspaces == setup.workspaces[i := setup.workspaces[i]];
      ok := true;
      if status.Present? && status.state.pending.Some? {
        ok := CancelLifecycle(calm);
      }
      if ok {
        ForgettingFits(World(setup, life), i);
        ok := UnlinkPending(i, calm);
      }
    }

    /** The tombstone, and the session's own last phase where it still opens. */
    method CancelSession(i: Digest, now: int, calm: bool) returns (ok: bool)
      requires Valid() && setup.selector == Whole(i) && i in setup.workspaces
      requires life.state.Some? ==> life.state.value.activeRecord.None?
      modifies this`setup, this`history, this`moves
      ensures Valid() && Grown() && Touched(i)
      ensures ok ==> setup.Tombstoned(i)
      ensures calm ==> (ok <==> !old(setup).workspaces[i].cancelled.Torn?)
    {
      ghost var ws := setup.workspaces[i];
      assert setup.workspaces == setup.workspaces[i := ws];
      ok := MarkCancelled(i, calm);
      if ok {
        ok := WithdrawSession(i, now, calm);
      }
    }

    method WithdrawSession(i: Digest, now: int, calm: bool) returns (ok: bool)
      requires Valid() && setup.Tombstoned(i)
      modifies this`setup, this`history, this`moves
      ensures Valid() && Grown() && Touched(i) && setup.Tombstoned(i)
      ensures ok ==> Unreachable(setup.workspaces[i].Session(), now)
      ensures calm ==> ok
    {
      var f := setup.workspaces[i].Session();
      assert setup.workspaces == setup.workspaces[i := setup.workspaces[i]];
      if !f.Whole? || !f.value.ParsesAt(now) || f.value.phase == X.Phase.Cancelled {
        return true;
      }
      var session := new X.TargetSession(f.value);
      var cancelled := session.Cancel();
      if !cancelled {
        return true;
      }
      ok := ReplaceSession(i, session.Snapshot(), now, calm);
    }

    // ------------------------------------------------------------------------ stage

    /** Creates or resumes one tentative request and session. It never touches the lifecycle. */
    method Stage(invitation: X.Invitation, seed: Seed, now: int, calm: bool) returns (reply: Option<X.Phase>)
      requires Valid() && |seed.phrase| == 2 * X.WORDS_PER_DIRECTION
      modifies this`setup, this`history, this`moves, this`rebindings
      ensures Valid() && Extended()
      ensures setup.receipt == old(setup).receipt
      ensures Without(setup, invitation.sha).workspaces == Without(old(setup), invitation.sha).workspaces
      ensures setup.selector != old(setup).selector ==> StartsAnew(old(life), old(setup))
      ensures reply.Some? ==>
        && invitation.runtime == runtime && setup.receipt.Missing? && Open(now).Some?
        && var c := Open(now).value;
        && c.workspace == invitation.sha && c.session.phase == reply.value
        && Retained(setup.workspaces[c.workspace], c.session, now)
      ensures calm ==> StageEffect(old(life), old(setup), invitation, seed, runtime, now, setup, reply)
      ensures calm ==> (reply.Some? <==> StagePossible(old(life), old(setup), invitation, seed, runtime, now))
      ensures Reselected(old(setup), invitation, runtime, now) ==>
        Touched(invitation.sha) && Restages(old(Workspace(invitation.sha)), invitation, seed, now, calm, Workspace(invitation.sha))
    {
      if invitation.runtime != runtime || !invitation.CurrentAt(now) || !setup.receipt.Missing? {
        return None;
      }
      var ok := SelectInvitation(invitation, now, calm);
      if !ok || !setup.workspaces[invitation.sha].cancelled.Missing? {
        return None;
      }
      ghost var selected := World(setup, life);
      reply := StageSelected(invitation, seed, now, calm);
      if calm {
        StageFollows(old(setup), selected, invitation, seed, runtime, now, setup, reply);
      }
    }

    method StageSelected(invitation: X.Invitation, seed: Seed, now: int, calm: bool) returns (reply: Option<X.Phase>)
      requires Valid() && Staging(setup, invitation) && PlanStands(setup, invitation, runtime, now)
      requires invitation.runtime == runtime && invitation.CurrentAt(now) && 0 < now && |seed.phrase| == 2 * X.WORDS_PER_DIRECTION
      modifies this`setup, this`history, this`moves, this`rebindings
      ensures Valid() && Extended() && Touched(invitation.sha)
      ensures reply.Some? ==>
        && Open(now).Some?
        && var c := Open(now).value;
        && c.workspace == invitation.sha && c.session.phase == reply.value
        && Retained(setup.workspaces[c.workspace], c.session, now)
      ensures calm ==> StageReply(old(Workspace(invitation.sha)), invitation, seed, now, Workspace(invitation.sha), reply)
      ensures calm ==> (reply.Some? <==> RequestPossible(old(Workspace(invitation.sha)), invitation, seed, now))
      ensures Restages(old(Workspace(invitation.sha)), invitation, seed, now, calm, Workspace(invitation.sha))
    {
      reply := StageRequest(invitation, seed, now, calm);
      if reply.Some? {
        StagedOpens(setup, invitation, reply.value, runtime, now);
      }
    }

    /** The request, the plan bound to it, and the session for it. */
    method StageRequest(invitation: X.Invitation, seed: Seed, now: int, calm: bool) returns (reply: Option<X.Phase>)
      requires Valid() && Staging(setup, invitation) && PlanStands(setup, invitation, runtime, now)
      requires invitation.CurrentAt(now) && 0 < now && |seed.phrase| == 2 * X.WORDS_PER_DIRECTION
      modifies this`setup, this`history, this`moves, this`rebindings
      ensures Valid() && Extended() && Touched(invitation.sha)
      ensures reply.Some? ==> StagedAs(Workspace(invitation.sha), invitation, reply.value, now)
      ensures calm ==> StageReply(old(Workspace(invitation.sha)), invitation, seed, now, Workspace(invitation.sha), reply)
      ensures calm ==> (reply.Some? <==> RequestPossible(old(Workspace(invitation.sha)), invitation, seed, now))
      ensures Restages(old(Workspace(invitation.sha)), invitation, seed, now, calm, Workspace(invitation.sha))
    {
      var m := EnsurePending(invitation, seed, now, calm);
      if m.None? {
        return None;
      }
      reply := StageSession(invitation, m.value, seed, now, calm);
      if calm {
        StageReplyFollows(old(Workspace(invitation.sha)), invitation, seed, now, m.value, Workspace(invitation.sha), reply);
      }
    }

    method StageSession(invitation: X.Invitation, m: L.Material, seed: Seed, now: int, calm: bool) returns (reply: Option<X.Phase>)
      requires Valid() && Staging(setup, invitation) && setup.workspaces[invitation.sha].pending == Whole(m)
      requires invitation.CurrentAt(now) && 0 < now && m.CurrentAt(now) && FitsPlan(m, invitation) && |seed.phrase| == 2 * X.WORDS_PER_DIRECTION
      modifies this`setup, this`history, this`moves, this`rebindings
      ensures Valid() && Extended() && Touched(invitation.sha)
      ensures reply.Some? ==> StagedAs(Workspace(invitation.sha), invitation, reply.value, now)
      ensures calm ==> SessionStaged(old(Workspace(invitation.sha)), invitation, m, seed, now, Workspace(invitation.sha), reply)
      ensures var ws, ws' := old(Workspace(invitation.sha)), Workspace(invitation.sha);
        && (ws'.plan == ws.plan || ws'.plan == Whole(BoundPlan(ws.plan.value, m)))
        && (calm ==> ws'.plan == Whole(BoundPlan(ws.plan.value, m)))
        && (ws.Session().Whole? ==> ws'.Session() == ws.Session())
    {
      var ok := BindPlan(invitation, m, calm);
      if !ok {
        return None;
      }
      reply := OpenOrCreateSession(invitation, m, seed, now, calm);
    }

    /** `selectInvitation`: the same invitation again, or a new one where nothing is under way. */
    method SelectInvitation(invitation: X.Invitation, now: int, calm: bool) returns (ok: bool)
      requires Valid() && setup.receipt.Missing? && invitation.runtime == runtime && invitation.CurrentAt(now)
      modifies this`setup, this`history, this`moves
      ensures Valid() && Grown() && setup.receipt.Missing?
      ensures Without(setup, invitation.sha).workspaces == Without(old(setup), invitation.sha).workspaces
      ensures setup.selector != old(setup).selector ==> StartsAnew(old(life), old(setup))
      ensures old(setup).selector == Whole(invitation.sha) ==> setup == old(setup)
      ensures ok ==> 0 < now && setup.selector == Whole(invitation.sha) && PlanStands(setup, invitation, runtime, now)
      ensures invitation.sha in old(setup).workspaces ==> invitation.sha in setup.workspaces && Workspace(invitation.sha) == old(Workspace(invitation.sha))
      ensures ok && invitation.sha !in old(setup).workspaces ==> Workspace(invitation.sha) == EMPTY_WORKSPACE.(plan := Whole(Plan(invitation, now)))
      ensures calm ==> (ok <==> SelectPossible(old(life), old(setup), invitation, runtime, now))
    {
      var i := invitation.sha;
      if now <= 0 || setup.selector.Torn? {
        return false;
      }
      if setup.selector == Whole(i) {
        return PlanStands(setup, invitation, runtime, now);
      }
      ok := MayStartAnew(now);
      if !ok {
        return false;
      }
      if i in setup.workspaces {
        ok := PlanStands(setup, invitation, runtime, now) && setup.workspaces[i].cancelled.Missing?;
      } else {
        ok := CreateWorkspace(i, Plan(invitation, now), calm);
      }
      if !ok {
        return;
      }
      assert setup.selector.Whole? ==> setup.selector.value in Without(setup, i).workspaces;
      var partial := if setup.selector.Missing? then Torn else setup.selector;
      SelectionKeepsConsistency(World(setup, life), partial);
      SelectionKeepsConsistency(World(setup, life), Whole(i));
      ok := Save(setup.(selector := partial), setup.(selector := Whole(i)), calm);
    }

    /** An earlier selection must be readable, cancelled, and without a lifecycle. */
    method MayStartAnew(now: int) returns (ok: bool)
      requires Valid() && setup.receipt.Missing? && !setup.selector.Torn?
      ensures ok ==> StartsAnew(life, setup)
      ensures ok <==> MayStart(life, setup, runtime, now)
    {
      if setup.selector.Missing? {
        return true;
      }
      var j := setup.selector.value;
      if j !in setup.workspaces || ReadPlan(setup.workspaces[j], false, runtime, now).None? || !setup.workspaces[j].cancelled.Whole? {
        return false;
      }
      var status := target.ReadStatus();
      return status.Missing?;
    }

    method WritePlan(i: Digest, plan: Plan, calm: bool) returns (ok: bool)
      requires Valid() && setup.receipt.Missing? && i in setup.workspaces && setup.workspaces[i] == EMPTY_WORKSPACE
      requires setup.selector != Whole(i) && PlanSound(i, plan)
      modifies this`setup, this`history, this`moves
      ensures Valid() && Grown() && Touched(i)
      ensures ok ==> setup.workspaces[i] == EMPTY_WORKSPACE.(plan := Whole(plan))
      ensures calm ==> ok
    {
      assert setup.workspaces == setup.workspaces[i := setup.workspaces[i]];
      PlanFits(World(setup, life), i, Torn);
      PlanFits(World(setup, life), i, Whole(plan));
      ok := SaveWorkspace(i, EMPTY_WORKSPACE.(plan := Torn), EMPTY_WORKSPACE.(plan := Whole(plan)), calm);
    }

    method CreateWorkspace(i: Digest, plan: Plan, calm: bool) returns (ok: bool)
      requires Valid() && setup.receipt.Missing? && i !in setup.workspaces && setup.selector != Whole(i) && PlanSound(i, plan)
      modifies this`setup, this`history, this`moves
      ensures Valid() && Grown() && setup == old(setup).(workspaces := setup.workspaces)
      ensures Without(setup, i).workspaces == Without(old(setup), i).workspaces
      ensures ok ==> i in setup.workspaces && setup.workspaces[i] == EMPTY_WORKSPACE.(plan := Whole(plan))
      ensures calm ==> ok
    {
      PlanFits(World(setup, life), i, Missing);
      ok := SaveWorkspace(i, EMPTY_WORKSPACE, EMPTY_WORKSPACE, calm);
      if ok {
        ghost var was := setup;
        ok := WritePlan(i, plan, calm);
        PutTwice(old(setup), was, setup, i);
      }
      PutElsewhere(old(setup), setup, i);
    }

    /** `ensurePendingMaterial`: the retained request, or a new one. */
    method EnsurePending(invitation: X.Invitation, seed: Seed, now: int, calm: bool) returns (m: Option<L.Material>)
      requires Valid() && Staging(setup, invitation) && invitation.CurrentAt(now) && 0 < now
      modifies this`setup, this`history, this`moves
      ensures Valid() && Grown() && Touched(invitation.sha)
      ensures Workspace(invitation.sha) == old(Workspace(invitation.sha)).(pending := Workspace(invitation.sha).pending)
      ensures m.Some? ==> Workspace(invitation.sha).pending == Whole(m.value) && m.value.CurrentAt(now) && FitsPlan(m.value, invitation)
      ensures var p := old(Workspace(invitation.sha)).pending;
        && (p.Whole? ==> setup == old(setup) && (m.Some? <==> p.value.CurrentAt(now) && FitsPlan(p.value, invitation)))
        && (p.Torn? ==> setup == old(setup) && m.None?)
        && (p.Missing? ==> (m.Some? ==> m.value == Minted(invitation, seed, now)) && (calm ==> m.Some?))
    {
      var i, ws := invitation.sha, setup.workspaces[invitation.sha];
      assert setup.workspaces == setup.workspaces[i := ws];
      assert WorkspaceAgrees(World(setup, life), i);
      match ws.pending
      case Whole(retained) =>
        m := if retained.CurrentAt(now) && FitsPlan(retained, invitation) then Some(retained) else None;
      case Torn =>
        m := None;
      case Missing =>
        var minted := Minted(invitation, seed, now);
        RequestFits(World(setup, life), i, Torn);
        RequestFits(World(setup, life), i, Whole(minted));
        var ok := SaveWorkspace(i, ws.(pending := Torn), ws.(pending := Whole(minted)), calm);
        m := if ok then Some(minted) else None;
    }

    /** `bindPlanValidationToRequest`: the plan's validation time moves to the request's birth. */
    method BindPlan(invitation: X.Invitation, m: L.Material, calm: bool) returns (ok: bool)
      requires Valid() && Staging(setup, invitation)
      modifies this`setup, this`history, this`moves, this`rebindings
      ensures Valid() && Extended() && Touched(invitation.sha)
      ensures var ws := old(Workspace(invitation.sha));
        && Workspace(invitation.sha) == ws.(plan := Workspace(invitation.sha).plan, stray := Workspace(invitation.sha).stray)
        && (Workspace(invitation.sha).plan == ws.plan || Workspace(invitation.sha).plan == Whole(Plan(invitation, m.created)))
        && (ok ==> Workspace(invitation.sha).plan == Whole(Plan(invitation, m.created)) && invitation.CurrentAt(m.created))
        && (Workspace(invitation.sha).plan != ws.plan ==> invitation.CurrentAt(m.created) && ws.plan.value.verified < m.created)
        && (ws.plan.value.verified == m.created ==> setup == old(setup))
        && (calm ==> (ok <==> ws.plan.value.verified <= m.created && invitation.CurrentAt(m.created)))
    {
      var i, ws := invitation.sha, setup.workspaces[invitation.sha];
      assert setup.workspaces == setup.workspaces[i := ws];
      assert WorkspaceAgrees(World(setup, life), i);
      var plan := ws.plan.value;
      if m.created < plan.verified || !invitation.CurrentAt(m.created) {
        return false;
      }
      if m.created == plan.verified {
        return true;
      }
      ok := RebindPlan(i, Plan(invitation, m.created), calm);
    }

    /** The stored session when it is this request's, or a new one. */
    method OpenOrCreateSession(invitation: X.Invitation, m: L.Material, seed: Seed, now: int, calm: bool) returns (reply: Option<X.Phase>)
      requires Valid() && Staging(setup, invitation) && invitation.CurrentAt(now) && |seed.phrase| == 2 * X.WORDS_PER_DIRECTION
      requires setup.workspaces[invitation.sha].pending == Whole(m) && m.CurrentAt(now)
      requires setup.workspaces[invitation.sha].plan == Whole(Plan(invitation, m.created))
      modifies this`setup, this`history, this`moves
      ensures Valid() && Grown() && Touched(invitation.sha)
      ensures Workspace(invitation.sha) == old(Workspace(invitation.sha)).WithSession(Workspace(invitation.sha).Session()) || setup == old(setup)
      ensures reply.Some? ==>
        && var f := Workspace(invitation.sha).Session();
        && f.Whole? && f.value.ParsesAt(now) && f.value.invitation == invitation && f.value.request.sha == m.request && reply == Some(f.value.phase)
      ensures old(Workspace(invitation.sha)).Session().Whole? ==>
        && setup == old(setup)
        && var s := old(Workspace(invitation.sha)).Session().value;
        (reply.Some? <==> s.ParsesAt(now) && s.request.sha == m.request)
      ensures old(Workspace(invitation.sha)).Session().Torn? ==> reply.None?
      ensures calm && old(Workspace(invitation.sha)).Session().Missing? ==>
        (reply.Some? <==> FirstSession(invitation, m, seed).ParsesAt(now)) && (reply.Some? ==> reply == Some(X.PendingComparison))
      ensures old(Workspace(invitation.sha)).Session().Missing? && reply.Some? ==>
        Workspace(invitation.sha) == old(Workspace(invitation.sha)).WithSession(Whole(FirstSession(invitation, m, seed)))
    {
      var i, ws := invitation.sha, setup.workspaces[invitation.sha];
      assert setup.workspaces == setup.workspaces[i := ws];
      assert WorkspaceAgrees(World(setup, life), i);
      if ws.Session().Whole? {
        var s := ws.Session().value;
        return if s.ParsesAt(now) && s.invitation.sha == i && s.request.sha == m.request then Some(s.phase) else None;
      }
      var first := FirstSession(invitation, m, seed);
      if ws.Session().Torn? || !first.ParsesAt(now) {
        return None;
      }
      var ok := SaveWorkspace(i, ws.WithSession(Torn), ws.WithSession(Whole(first)), calm);
      if ok || Workspace(i).Session() == Whole(first) {
        return Some(first.phase);
      }
      return None;
    }
  }
}
