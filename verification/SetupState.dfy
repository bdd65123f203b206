/**
  What the client setup coordinator keeps on disk, and which changes of it the setup protocol
  allows, given the target lifecycle beside it.
  Source: internal/enrollmentsetup/coordinator_unix.go.
*/
module SetupState {
  import opened Common
  import A = Anchor
  import LS = LocalState
  import L = Lifecycle
  import X = ExchangeSession

  /** A file as a reader finds it. An exclusive creation that is cut short leaves it Torn. */
  datatype File<+T> = Missing | Torn | Whole(value: T)

  datatype Plan = Plan(invitation: X.Invitation, verified: int)

  /** `stray`: a replacement was cut between its temporary file and the rename, and the
      temporary name is still in the directory. */
  datatype ExchangeDir = ExchangeDir(session: File<X.TargetState>, stray: bool)

  datatype Workspace = Workspace(
    plan: File<Plan>, pending: File<L.Material>, cancelled: File<()>, exchange: Option<ExchangeDir>, stray: bool)
  {
    function Session(): File<X.TargetState> {
      if exchange.Some? then exchange.value.session else Missing
    }

    function WithSession(f: File<X.TargetState>): Workspace {
      this.(exchange := Some(ExchangeDir(f, exchange.Some? && exchange.value.stray)))
    }

    /** A session replacement that never reached its rename. */
    function Strayed(): Workspace {
      this.(exchange := Some(ExchangeDir(Session(), true)))
    }

    /** A temporary name is left in one of the two directories. */
    predicate Littered() {
      stray || (exchange.Some? && exchange.value.stray)
    }

    /** The plan's validation time has passed the request of the session. */
    predicate Overdue() {
      plan.Whole? && Session().Whole? && Session().value.request.expires <= plan.value.verified
    }
  }

  const EMPTY_WORKSPACE := Workspace(Missing, Missing, Missing, None, false)

  /** The READY receipt; `cleaned` is the time of its redaction. */
  datatype Receipt = Receipt(
    workspace: Digest, installation: Id, request: Digest, record: Id, runtime: Id,
    generation: nat, validation: int, ready: int, cleaned: Option<int>)

  datatype Setup = Setup(receipt: File<Receipt>, selector: File<Digest>, workspaces: map<Digest, Workspace>)
  {
    function Put(i: Digest, ws: Workspace): Setup {
      this.(workspaces := workspaces[i := ws])
    }

    predicate Stores(i: Digest, phase: X.Phase) {
      i in workspaces && workspaces[i].Session().Whole? && workspaces[i].Session().value.phase == phase
    }

    predicate Tombstoned(i: Digest) {
      i in workspaces && workspaces[i].cancelled.Whole?
    }

    predicate Littered(i: Digest) {
      i in workspaces && workspaces[i].Littered()
    }

    /** The stored session of the selected workspace. */
    function Selected(): Option<X.TargetState> {
      if selector.Whole? && selector.value in workspaces && workspaces[selector.value].Session().Whole?
      then Some(workspaces[selector.value].Session().value) else None
    }
  }

  /** Of two changes of one workspace the last one counts. */
  lemma PutTwice(s: Setup, t: Setup, u: Setup, i: Digest)
    requires i in t.workspaces && t == s.Put(i, t.workspaces[i])
    requires i in u.workspaces && u == t.Put(i, u.workspaces[i])
    ensures u == s.Put(i, u.workspaces[i])
  {
  }

  function Without(s: Setup, i: Digest): Setup {
    s.(workspaces := s.workspaces - {i})
  }

  lemma PutElsewhere(s: Setup, t: Setup, i: Digest)
    requires t == s || (i in t.workspaces && t == s.Put(i, t.workspaces[i]))
    ensures Without(t, i) == Without(s, i)
  {
  }

  /** The other durable world: the lifecycle root as one atomic variable, and its records.
      `settled` says that no commit awaits recovery, so that readers are served. */
  datatype Life = Life(boot: L.Boot, state: Option<LS.State>, settled: bool, records: map<Id, L.Record>)
  {
    predicate Readable() {
      state.Some? ==> settled
    }

    predicate Sound() {
      state.Some? <==> boot.Complete?
    }

    /** A request was imported at some time. */
    predicate Taken() {
      state.Some? && state.value.requestHigh != 0
    }

    predicate PendingRecord(id: Id) {
      state.Some? && state.value.pending.Some? && state.value.pending.value.nonce == id
    }

    /** The pending request can never be answered any more: a file of its record is torn. */
    predicate Ruined() {
      state.Some? && L.Spoiled(state.value, records)
    }
  }

  datatype World = World(setup: Setup, life: Life)

  function OptionsFor(invitation: X.Invitation): L.Options {
    L.Options(LS.Client, invitation.installation, invitation.release, invitation.trust)
  }

  // -------------------------------------------------------------------------- reading

  /** `readPlan`: the plan verifies at its own validation time, and at `now` when asked. */
  function ReadPlan(ws: Workspace, requireCurrent: bool, runtime: Id, now: int): Option<Plan> {
    if !ws.plan.Whole? then None
    else
      var p := ws.plan.value;
      if !(0 < p.verified < p.invitation.expires) || !p.invitation.CurrentAt(p.verified) then None
      else if requireCurrent && !(p.invitation.runtime == runtime && p.invitation.CurrentAt(now)) then None
      else Some(p)
  }

  datatype Current = Current(workspace: Digest, plan: Plan, session: X.TargetState)

  /** `openCurrentValidated`: only an already applied session survives the validity window. */
  function OpenCurrent(s: Setup, runtime: Id, now: int, postApplyOnly: bool): Option<Current> {
    if !s.selector.Whole? || s.selector.value !in s.workspaces then None
    else
      var i := s.selector.value;
      var ws := s.workspaces[i];
      var plan := ReadPlan(ws, !postApplyOnly, runtime, now);
      if plan.None? || plan.value.invitation.sha != i || !ws.cancelled.Missing? || !ws.Session().Whole? then None
      else
        var validation := if postApplyOnly then plan.value.verified else now;
        var session := ws.Session().value;
        if postApplyOnly && (now < validation || plan.value.invitation.runtime != runtime) then None
        else if !session.ParsesAt(validation) || session.invitation.sha != i then None
        else if postApplyOnly && !session.phase.Applied? then None
        else Some(Current(i, plan.value, session))
  }

  // ------------------------------------------------------- how the two worlds must agree

  predicate NeverAsked(l: LS.State) {
    l.pending.None? && l.activeRecord.None? && l.requestHigh == 0
  }

  /** The lifecycle holds this session's request, ready for this session's response. */
  predicate HoldsRequest(life: Life, s: X.TargetState) {
    && life.state.Some? && life.state.value.pending.Some? && life.state.value.activeRecord.None?
    && var p := life.state.value.pending.value;
    && p.request == s.request.sha && p.nonce in life.records
    && life.records[p.nonce].material.AllFiles? && life.records[p.nonce].material.of.request == s.request.sha
    && life.records[p.nonce].identity
  }

  /** The lifecycle runs exactly this session's response. */
  predicate RunsResponse(life: Life, s: X.TargetState) {
    && life.state.Some? && s.response.Some?
    && L.AppliedExactly(life.state.value, life.records, s.response.value.response.digest, s.request.sha)
    && s.request.sha in life.state.value.consumed
  }

  predicate AwaitsImport(life: Life, ws: Workspace, s: X.TargetState) {
    && (life.state.None? || NeverAsked(life.state.value))
    && ws.pending.Whole? && ws.pending.value.request == s.request.sha
  }

  /** What each phase of an uncancelled session says about the lifecycle. */
  predicate PhaseAgrees(life: Life, ws: Workspace, s: X.TargetState) {
    match s.phase
    case PendingComparison => life.state.None? && AwaitsImport(life, ws, s)
    case TranscriptConfirmed => AwaitsImport(life, ws, s) || HoldsRequest(life, s)
    case ResponseVerified => HoldsRequest(life, s) || RunsResponse(life, s)
    case Applied => RunsResponse(life, s)
    case Ready => RunsResponse(life, s)
    case Cancelled => true
  }

  predicate SessionSound(i: Digest, ws: Workspace, s: X.TargetState) {
    && s.ValidShape() && X.Numbered(s) && s.invitation.sha == i
    && ws.plan.Whole? && ws.plan.value.invitation == s.invitation
    && s.request.created <= ws.plan.value.verified && s.request.Within(s.invitation)
    && (s.response.Some? ==> s.Binds(s.response.value))
    && (s.phase.Applied? || s.phase.Ready? ==> ws.cancelled.Missing?)
  }

  /** A stored plan was valid at its own validation time. */
  predicate PlanSound(i: Digest, p: Plan) {
    p.invitation.sha == i && 0 < p.verified && p.invitation.CurrentAt(p.verified)
  }

  predicate WorkspaceAgrees(w: World, i: Digest)
    requires i in w.setup.workspaces
  {
    var ws := w.setup.workspaces[i];
    && (ws.plan.Whole? ==> PlanSound(i, ws.plan.value))
    && (ws.Session().Whole? ==>
          var s := ws.Session().value;
          && SessionSound(i, ws, s)
          && (ws.cancelled.Whole? || (w.setup.selector == Whole(i) && PhaseAgrees(w.life, ws, s))))
  }

  /** The receipt names the session it was written for, whether or not that session's own
      READY write happened. */
  predicate Paired(r: Receipt, s: X.TargetState) {
    && s.request.sha == r.request
    && ((s.phase.Ready? && s.generation == r.generation) || (s.phase.Applied? && s.generation + 1 == r.generation))
  }

  /** What encoding a receipt demands, hence what every stored one satisfies. */
  predicate WellFormed(r: Receipt) {
    && r.generation >= 2 && 0 < r.validation <= r.ready
    && (r.cleaned.Some? ==> r.ready <= r.cleaned.value)
  }

  predicate ReceiptAgrees(w: World) {
    w.setup.receipt.Whole? ==>
      var r := w.setup.receipt.value;
      && WellFormed(r)
      && w.life.state.Some? && w.life.state.value.activeRecord.Some?
      && !w.setup.Tombstoned(r.workspace)
      && (w.setup.selector.Whole? ==> w.setup.selector.value == r.workspace)
      && (r.workspace in w.setup.workspaces ==> SessionPairs(r, w.setup.workspaces[r.workspace].Session()))
  }

  /** The session of the receipt is there whole, and parses at the receipt's validation time, or
      is retired. */
  predicate SessionPairs(r: Receipt, f: File<X.TargetState>) {
    !f.Torn? && (f.Whole? ==> r.cleaned.None? && Paired(r, f.value) && f.value.ParsesAt(r.validation))
  }

  predicate LifeExplained(w: World) {
    w.life.state.Some? && !w.setup.receipt.Whole? ==>
      w.setup.Selected().Some? && !w.setup.Selected().value.phase.PendingComparison?
  }

  ghost predicate Consistent(w: World) {
    && (forall i {:trigger WorkspaceAgrees(w, i)} :: i in w.setup.workspaces ==> WorkspaceAgrees(w, i))
    && w.life.Sound()
    && ReceiptAgrees(w)
    && LifeExplained(w)
  }

  // -------------------------------------------------------------- what one write may do

  function SessionIn(s: Setup, i: Digest): File<X.TargetState> {
    if i in s.workspaces then s.workspaces[i].Session() else Missing
  }

  /** A durable session moves along one legal edge, starts at the first phase, or is retired
      because a READY receipt pairs with it. */
  predicate SessionSteps(s: Setup, i: Digest, before: File<X.TargetState>, after: File<X.TargetState>) {
    || after == before
    || (after.Whole? && before.Whole? && X.Edge(before.value, after.value) &&
        (after.value.phase.Ready? ==> s.receipt.Whole? && s.receipt.value.workspace == i))
    || (after.Whole? && !before.Whole? && X.Initial(after.value) && s.receipt.Missing?)
    || (!after.Whole? && !before.Whole?)
    || (after.Missing? && before.Whole? && s.receipt.Whole? && s.receipt.value.workspace == i && Paired(s.receipt.value, before.value))
  }

  function PlanIn(s: Setup, i: Digest): File<Plan> {
    if i in s.workspaces then s.workspaces[i].plan else Missing
  }

  /** A plan stays until the READY setup is cleaned up. Only a rebinding moves its validation
      time, and only forward. */
  predicate PlanSteps(s: Setup, i: Digest, before: File<Plan>, after: File<Plan>, rebind: bool) {
    before.Whole? ==>
      || (s.receipt.Whole? && s.receipt.value.workspace == i)
      || (&& after.Whole? && after.value.invitation == before.value.invitation
          && (if rebind then before.value.verified <= after.value.verified else after.value.verified == before.value.verified))
  }

  ghost predicate SetupSteps(s: Setup, t: Setup, rebind: bool) {
    && (forall i {:trigger PlanIn(t, i)} :: PlanSteps(s, i, PlanIn(s, i), PlanIn(t, i), rebind))
    && (forall i {:trigger t.Littered(i)} :: s.Littered(i) ==> t.Littered(i))
    && (s.receipt.Whole? && s.receipt.value.cleaned.None? && t.receipt.Whole? && t.receipt.value.cleaned.Some? ==>
          s.receipt.value.workspace !in s.workspaces)
    && (forall i {:trigger SessionIn(t, i)} :: SessionSteps(s, i, SessionIn(s, i), SessionIn(t, i)))
    && (forall i {:trigger t.Tombstoned(i)} :: s.Tombstoned(i) ==> t.Tombstoned(i))
    && (s.receipt.Whole? ==> t.receipt.Whole? && t.receipt.value == s.receipt.value.(cleaned := t.receipt.value.cleaned))
    && (s.receipt.Torn? ==> t.receipt.Torn?)
    && (t.receipt.Whole? && !s.receipt.Whole? ==> ReadyProvable(s))
  }

  /** The selected session is applied, and its request was current at the plan's validation time. */
  predicate ReadyProvable(s: Setup) {
    s.Selected().Some? && s.Selected().value.phase.Applied? && !s.workspaces[s.selector.value].Overdue()
  }

  /** The selected, uncancelled workspace durably stores a session that confirmed exactly this
      request's transcript. */
  predicate ConfirmedFor(s: Setup, request: Digest) {
    && s.Selected().Some? && !s.Tombstoned(s.selector.value)
    && var session := s.Selected().value;
    && (session.phase.TranscriptConfirmed? || session.phase.ResponseVerified?)
    && session.confirmed == Some(session.transcript) && session.request.sha == request
  }

  predicate VerifiedFor(s: Setup, request: Digest, e: L.Envelope) {
    && ConfirmedFor(s, request) && s.Selected().value.phase.ResponseVerified?
    && s.Selected().value.response.Some? && s.Selected().value.response.value.response == e
  }

  datatype LifeMove =
    | Unmoved
    | Rebound
    | Bootstrapped
    | Imported(material: L.Material)
    | Applied(material: L.Material, envelope: L.Envelope)
    | Withdrawn

  /** The state an import starts from: bootstrap and import may be one call. */
  function ImportBase(s: Setup, before: Option<LS.State>): LS.State
    requires s.Selected().Some?
  {
    if before.Some? then before.value else L.InitialState(OptionsFor(s.Selected().value.invitation))
  }

  /** The ways in which the coordinator may move the lifecycle, each with its guard. */
  predicate LifeSteps(s: Setup, before: Option<LS.State>, move: LifeMove, after: Option<LS.State>) {
    match move
    case Unmoved => after == before
    case Rebound => after == before
    case Bootstrapped =>
      && before.None? && s.Selected().Some? && after == Some(ImportBase(s, None))
      && ConfirmedFor(s, s.Selected().value.request.sha)
    case Imported(m) =>
      && s.Selected().Some? && L.FreshFor(ImportBase(s, before), m) && after == Some(L.ImportNext(ImportBase(s, before), m))
      && ConfirmedFor(s, m.request)
    case Applied(m, e) =>
      before.Some? && L.ApplyAllowed(before.value, m, e) && after == Some(L.ApplyNext(before.value, m, e)) && VerifiedFor(s, m.request, e)
    case Withdrawn =>
      && before.Some? && L.CancelPossible(before.value) && after == Some(L.CancelNext(before.value))
      && s.selector.Whole? && s.Tombstoned(s.selector.value)
  }

  /** A record directory stays. A torn file in it stays torn, and once the lifecycle has taken a
      request the imported files are fixed. */
  predicate RecordStays(before: Life, after: Life, id: Id) {
    id in before.records ==>
      && id in after.records
      && (before.Taken() || before.records[id].material.TornFile? ==> after.records[id].material == before.records[id].material)
      && (before.records[id].applied.TornFile? ==> after.records[id].applied == before.records[id].applied)
  }

  /** What each move demands of the record directories, and what it leaves of them. */
  ghost predicate RecordsStep(before: Life, move: LifeMove, after: Life) {
    && (forall id {:trigger RecordStays(before, after, id)} :: (move.Withdrawn? && before.PendingRecord(id)) || RecordStays(before, after, id))
    && (move.Imported? ==> move.material.nonce in after.records && after.records[move.material.nonce].material == L.AllFiles(move.material))
    && (move.Applied? ==> !before.Ruined())
  }

  /** One durable change: of the setup files, or of the lifecycle. */
  ghost predicate WorldSteps(w: World, move: LifeMove, w': World) {
    && LifeSteps(w.setup, w.life.state, move, w'.life.state)
    && RecordsStep(w.life, move, w'.life)
    && (if move.Unmoved? || move.Rebound? then SetupSteps(w.setup, w'.setup, move.Rebound?) else w'.setup == w.setup)
  }

  /** `moves[k]` is the step from `ws[k]` to `ws[k + 1]`. */
  ghost predicate WorldRun(ws: seq<World>, moves: seq<LifeMove>) {
    && |ws| == |moves| + 1
    && forall k {:trigger moves[k]} :: 0 <= k < |moves| ==> WorldSteps(ws[k], moves[k], ws[k + 1])
  }

  /** Setup and lifecycle agree at every moment. */
  ghost predicate AlwaysConsistent(ws: seq<World>) {
    forall k: nat {:trigger ConsistentAt(ws, k)} :: k < |ws| ==> ConsistentAt(ws, k)
  }

  ghost predicate ConsistentAt(ws: seq<World>, k: nat)
    requires k < |ws|
  {
    Consistent(ws[k])
  }

  /** A run from the start: no lifecycle and no receipt yet. */
  ghost predicate SetupRun(ws: seq<World>, moves: seq<LifeMove>) {
    WorldRun(ws, moves) && ws[0].life.state.None? && ws[0].setup.receipt.Missing? && AlwaysConsistent(ws)
  }

  /** How often a plan's validation time was moved. */
  function Rebindings(moves: seq<LifeMove>): nat {
    if moves == [] then 0
    else Rebindings(moves[..|moves| - 1]) + (if moves[|moves| - 1].Rebound? then 1 else 0)
  }

  lemma RunExtends(ws: seq<World>, moves: seq<LifeMove>, w: World, move: LifeMove)
    requires SetupRun(ws, moves) && WorldSteps(ws[|ws| - 1], move, w) && Consistent(w)
    ensures SetupRun(ws + [w], moves + [move])
    ensures Rebindings(moves + [move]) == Rebindings(moves) + (if move.Rebound? then 1 else 0)
  {
    assert (moves + [move])[..|moves|] == moves;
    forall k: nat | k < |ws + [w]|
      ensures ConsistentAt(ws + [w], k)
    {
      assert k < |ws| ==> ConsistentAt(ws, k);
    }
    var vs, ms := ws + [w], moves + [move];
    forall k {:trigger ms[k]} | 0 <= k < |ms|
      ensures WorldSteps(vs[k], ms[k], vs[k + 1])
    {
      if k < |moves| {
        assert ms[k] == moves[k];
      }
    }
  }

  // -------------------------------------------- one workspace changes, the rest stays put

  /** What a change of workspace `i` alone has to respect. */
  predicate ChangeFits(w: World, i: Digest, ws: Workspace, rebind: bool := false) {
    && PlanSteps(w.setup, i, PlanIn(w.setup, i), ws.plan, rebind)
    && (w.setup.Littered(i) ==> ws.Littered())
    && WorkspaceAgrees(w.(setup := w.setup.Put(i, ws)), i)
    && SessionSteps(w.setup, i, SessionIn(w.setup, i), ws.Session())
    && (w.setup.Tombstoned(i) ==> ws.cancelled.Whole?)
    && (w.setup.receipt.Whole? && w.setup.receipt.value.workspace == i ==> ReceiptFits(w.setup.receipt.value, ws))
    && (w.life.state.Some? && !w.setup.receipt.Whole? && w.setup.selector == Whole(i) ==> PastComparison(ws))
  }

  predicate ReceiptFits(r: Receipt, ws: Workspace) {
    !ws.cancelled.Whole? && SessionPairs(r, ws.Session())
  }

  predicate PastComparison(ws: Workspace) {
    ws.Session().Whole? && !ws.Session().value.phase.PendingComparison?
  }

  lemma SessionOfPlan(w: World, i: Digest)
    requires Consistent(w) && i in w.setup.workspaces && w.setup.workspaces[i].Session().Whole?
    ensures w.setup.workspaces[i].plan.Whole? && w.setup.workspaces[i].plan.value.invitation == w.setup.workspaces[i].Session().value.invitation
  {
    assert WorkspaceAgrees(w, i);
  }

  /** A legal edge of a stored session, once the lifecycle agrees with the new phase. */
  lemma EdgeFits(w: World, i: Digest, next: X.TargetState)
    requires Consistent(w) && i in w.setup.workspaces && w.setup.workspaces[i].Session().Whole?
    requires X.Edge(w.setup.workspaces[i].Session().value, next) && PhaseAgrees(w.life, w.setup.workspaces[i], next)
    requires next.phase.Applied? ==> w.setup.workspaces[i].cancelled.Missing?
    requires next.phase.Ready? ==> w.setup.receipt.Whole? && w.setup.receipt.value.workspace == i
    ensures ChangeFits(w, i, w.setup.workspaces[i].WithSession(Whole(next)))
  {
    assert WorkspaceAgrees(w, i);
    X.EdgeKeepsSession(w.setup.workspaces[i].Session().value, next);
  }

  lemma ChangeKeepsConsistency(w: World, i: Digest, ws: Workspace, rebind: bool := false)
    requires Consistent(w) && ChangeFits(w, i, ws, rebind)
    ensures Consistent(w.(setup := w.setup.Put(i, ws)))
    ensures SetupSteps(w.setup, w.setup.Put(i, ws), rebind)
  {
    var w' := w.(setup := w.setup.Put(i, ws));
    forall j <- w'.setup.workspaces
      ensures WorkspaceAgrees(w', j)
    {
      if j != i {
        assert WorkspaceAgrees(w, j);
      }
    }
  }

  /** A move of the lifecycle concerns the selected session only. */
  lemma LifeMoveKeepsConsistency(w: World, life: Life)
    requires Consistent(w) && w.setup.Selected().Some? && life.Sound()
    requires w.setup.Tombstoned(w.setup.selector.value) ||
      PhaseAgrees(life, w.setup.workspaces[w.setup.selector.value], w.setup.Selected().value)
    requires w.life.state.Some? && w.life.state.value.activeRecord.Some? ==>
      life.state.Some? && life.state.value.activeRecord.Some?
    requires life.state.Some? ==> !w.setup.Selected().value.phase.PendingComparison?
    ensures Consistent(w.(life := life))
  {
    var w' := w.(life := life);
    forall j <- w'.setup.workspaces
      ensures WorkspaceAgrees(w', j)
    {
      assert WorkspaceAgrees(w, j);
    }
  }

  /** Whether a commit awaits recovery is not part of the agreement. */
  lemma RecoveryKeepsConsistency(w: World, life: Life)
    requires Consistent(w) && life == w.life.(settled := life.settled)
    ensures Consistent(w.(life := life))
  {
    var w' := w.(life := life);
    forall j <- w'.setup.workspaces
      ensures WorkspaceAgrees(w', j)
    {
      assert WorkspaceAgrees(w, j);
    }
  }

  /** A change of the open workspace that keeps its plan and its session readable keeps it open. */
  lemma OpenFollows(s: Setup, runtime: Id, now: int, cur: Current, ws: Workspace)
    requires OpenCurrent(s, runtime, now, false) == Some(cur)
    requires ws.plan == s.workspaces[cur.workspace].plan && ws.cancelled.Missing?
    requires ws.Session().Whole? && ws.Session().value.ParsesAt(now) && ws.Session().value.invitation == cur.session.invitation
    ensures OpenCurrent(s.Put(cur.workspace, ws), runtime, now, false) == Some(cur.(session := ws.Session().value))
  {
  }

  /** Only removals, the session before the plan and before its request. */
  predicate Retires(was: Workspace, ws: Workspace) {
    && (ws.Session() == was.Session() || ws.Session().Missing?)
    && (ws.plan == was.plan || (ws.plan.Missing? && !ws.Session().Whole?))
    && (ws.cancelled == was.cancelled || ws.cancelled.Missing?)
    && (ws.pending == was.pending || !ws.Session().Whole?)
    && (was.Littered() ==> ws.Littered())
  }

  /** Once the receipt is written, the files of its workspace may go. */
  lemma RetirementFits(w: World, i: Digest, ws: Workspace)
    requires Consistent(w) && w.setup.receipt.Whole? && w.setup.receipt.value.workspace == i && i in w.setup.workspaces
    requires Retires(w.setup.workspaces[i], ws)
    ensures ChangeFits(w, i, ws)
  {
    assert WorkspaceAgrees(w, i);
  }

  /** So may the emptied workspace itself, and the selector. */
  lemma RemovalKeepsConsistency(w: World, s: Setup)
    requires Consistent(w) && w.setup.receipt.Whole?
    requires var i := w.setup.receipt.value.workspace;
      && !SessionIn(w.setup, i).Whole?
      && ((s == Without(w.setup, i) && !w.setup.Littered(i)) || s == w.setup.(selector := Missing))
    ensures Consistent(w.(setup := s)) && SetupSteps(w.setup, s, false)
  {
    var w' := w.(setup := s);
    forall j <- s.workspaces
      ensures WorkspaceAgrees(w', j)
    {
      assert WorkspaceAgrees(w, j);
    }
  }

  lemma ReceiptKeepsConsistency(w: World, f: File<Receipt>)
    requires Consistent(w) && ReceiptAgrees(w.(setup := w.setup.(receipt := f)))
    requires w.setup.receipt.Whole? ==> f.Whole? && f.value == w.setup.receipt.value.(cleaned := f.value.cleaned)
    requires !w.setup.receipt.Torn?
    requires f.Whole? && !w.setup.receipt.Whole? ==> ReadyProvable(w.setup)
    requires w.setup.receipt.Whole? && w.setup.receipt.value.cleaned.None? && f.value.cleaned.Some? ==>
      w.setup.receipt.value.workspace !in w.setup.workspaces
    ensures Consistent(w.(setup := w.setup.(receipt := f))) && SetupSteps(w.setup, w.setup.(receipt := f), false)
  {
    var w' := w.(setup := w.setup.(receipt := f));
    forall j <- w'.setup.workspaces
      ensures WorkspaceAgrees(w', j)
    {
      assert WorkspaceAgrees(w, j);
    }
  }

  /** Selecting a workspace: nothing else may be under way. */
  lemma SelectionKeepsConsistency(w: World, f: File<Digest>)
    requires Consistent(w) && w.life.state.None? && w.setup.receipt.Missing?
    requires w.setup.selector.Missing? || (w.setup.selector.Whole? && w.setup.Tombstoned(w.setup.selector.value))
    ensures Consistent(w.(setup := w.setup.(selector := f))) && SetupSteps(w.setup, w.setup.(selector := f), false)
  {
    var w' := w.(setup := w.setup.(selector := f));
    forall j <- w'.setup.workspaces
      ensures WorkspaceAgrees(w', j)
    {
      assert WorkspaceAgrees(w, j);
    }
  }
}
