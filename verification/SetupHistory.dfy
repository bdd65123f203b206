/**
  What holds over every run of the client setup: any sequence of coordinator calls, each cut
  anywhere, beside a lifecycle that starts out absent. A client's `history` and `moves` are such
  a run at every moment.
*/
module SetupHistory {
  import opened Common
  import opened SetupState
  import LS = LocalState
  import L = Lifecycle
  import X = ExchangeSession
  import C = Coordinator

  predicate Enters(move: LifeMove) {
    move.Imported? || move.Applied?
  }

  /** A cancelled workspace stays cancelled, and nothing is imported or applied for it again. */
  lemma {:induction false} TombstoneIsForever(ws: seq<World>, moves: seq<LifeMove>, i: nat, j: nat, d: Digest)
    requires WorldRun(ws, moves) && i <= j < |ws| && ws[i].setup.Tombstoned(d)
    ensures ws[j].setup.Tombstoned(d)
    ensures j < |moves| && Enters(moves[j]) ==> ws[j].setup.selector != Whole(d)
    decreases j
  {
    if i < j {
      TombstoneIsForever(ws, moves, i, j - 1, d);
      assert WorldSteps(ws[j - 1], moves[j - 1], ws[j]);
      assert ws[j].setup.Tombstoned(d);
    }
    if j < |moves| {
      assert WorldSteps(ws[j], moves[j], ws[j + 1]);
    }
  }

  /** READY is never lost: the receipt stays, and only its redaction is ever added. */
  lemma {:induction false} ReceiptIsForever(ws: seq<World>, moves: seq<LifeMove>, i: nat, j: nat)
    requires WorldRun(ws, moves) && i <= j < |ws| && ws[i].setup.receipt.Whole?
    ensures ws[j].setup.receipt.Whole?
    ensures ws[j].setup.receipt.value == ws[i].setup.receipt.value.(cleaned := ws[j].setup.receipt.value.cleaned)
    decreases j
  {
    if i < j {
      ReceiptIsForever(ws, moves, i, j - 1);
      assert WorldSteps(ws[j - 1], moves[j - 1], ws[j]);
    }
  }

  /** A receipt torn by a cut creation is never whole again: READY is refused from then on. */
  lemma {:induction false} TornReceiptIsForever(ws: seq<World>, moves: seq<LifeMove>, i: nat, j: nat, runtime: Id)
    requires WorldRun(ws, moves) && i <= j < |ws| && ws[i].setup.receipt.Torn?
    ensures ws[j].setup.receipt.Torn? && C.Answer(ws[j].setup, ws[j].life, runtime).Refused?
    decreases j
  {
    if i < j {
      TornReceiptIsForever(ws, moves, i, j - 1, runtime);
      assert WorldSteps(ws[j - 1], moves[j - 1], ws[j]);
    }
  }

  /** A temporary file beside a READY setup keeps it from ever being cleaned up: the capabilities
      of its mailbox stay where they are. */
  lemma {:induction false} StrayBlocksCleanupForever(ws: seq<World>, moves: seq<LifeMove>, i: nat, j: nat, runtime: Id)
    requires WorldRun(ws, moves) && i <= j < |ws| && ws[i].setup.receipt.Whole? && ws[i].setup.receipt.value.cleaned.None?
    requires ws[i].setup.Littered(ws[i].setup.receipt.value.workspace)
    ensures ws[j].setup.receipt == ws[i].setup.receipt && ws[j].setup.Littered(ws[j].setup.receipt.value.workspace)
    ensures !C.CleanupUnblocked(ws[j].setup, ws[j].life, runtime)
    decreases j
  {
    if i < j {
      StrayBlocksCleanupForever(ws, moves, i, j - 1, runtime);
      assert WorldSteps(ws[j - 1], moves[j - 1], ws[j]);
      assert ws[j].setup.Littered(ws[j].setup.receipt.value.workspace);
    }
  }

  // ---------------------------------------------------- the validation time of the plan

  /** An applied session can be reopened, at every time from its plan's validation time on,
      exactly when that time has not passed its request. */
  lemma AppliedReopensIff(w: World, i: Digest, runtime: Id, now: int)
    requires Consistent(w) && w.setup.Stores(i, X.Phase.Applied) && PlanIn(w.setup, i).Whole?
    requires PlanIn(w.setup, i).value.verified <= now && PlanIn(w.setup, i).value.invitation.runtime == runtime
    ensures C.Reopened(w.setup, runtime, now).Some? <==> !w.setup.workspaces[i].Overdue()
  {
    assert WorkspaceAgrees(w, i);
  }

  /** An applied session that is not READY yet, in time or overdue. */
  predicate AwaitsReady(s: Setup, d: Digest) {
    !s.receipt.Whole? && s.Stores(d, X.Phase.Applied)
  }

  predicate BoundAt(moves: seq<LifeMove>, k: nat)
    requires k < |moves|
  {
    moves[k].Rebound?
  }

  /** What one durable change leaves of an applied session: itself, or the receipt that proves it
      READY, and that only while it is in time. */
  lemma AppliedSteps(w: World, move: LifeMove, w': World, d: Digest)
    requires Consistent(w) && WorldSteps(w, move, w') && AwaitsReady(w.setup, d)
    ensures SessionIn(w'.setup, d) == SessionIn(w.setup, d)
    ensures PlanIn(w.setup, d).Whole? && PlanIn(w'.setup, d).Whole? && PlanIn(w.setup, d).value.verified <= PlanIn(w'.setup, d).value.verified
    ensures !move.Rebound? ==> PlanIn(w'.setup, d).value.verified == PlanIn(w.setup, d).value.verified
    ensures w'.setup.receipt.Whole? ==> !w.setup.workspaces[d].Overdue()
  {
    assert WorkspaceAgrees(w, d);
    assert SessionIn(w'.setup, d) == SessionIn(w'.setup, d) && PlanIn(w'.setup, d) == PlanIn(w'.setup, d);
  }

  /** As long as no plan is bound to another request, an applied session stays in time. */
  lemma {:induction false} StaysInTime(ws: seq<World>, moves: seq<LifeMove>, i: nat, j: nat, d: Digest)
    requires SetupRun(ws, moves) && i <= j < |ws| && AwaitsReady(ws[i].setup, d) && !ws[i].setup.workspaces[d].Overdue()
    requires forall k: nat {:trigger BoundAt(moves, k)} :: i <= k < j ==> !BoundAt(moves, k)
    ensures ws[j].setup.receipt.Whole? || (AwaitsReady(ws[j].setup, d) && !ws[j].setup.workspaces[d].Overdue())
    decreases j
  {
    if i < j {
      StaysInTime(ws, moves, i, j - 1, d);
      assert WorldSteps(ws[j - 1], moves[j - 1], ws[j]) && ConsistentAt(ws, j - 1) && !BoundAt(moves, j - 1);
      if !ws[j - 1].setup.receipt.Whole? {
        assert WorkspaceAgrees(ws[j - 1], d);
        AppliedSteps(ws[j - 1], moves[j - 1], ws[j], d);
      }
    }
  }

  /** Once overdue it is overdue in every later run, whatever is called: it never becomes READY,
      and from the expiry of its request on it cannot be opened. */
  lemma {:induction false} OverdueIsForever(ws: seq<World>, moves: seq<LifeMove>, i: nat, j: nat, d: Digest, runtime: Id)
    requires SetupRun(ws, moves) && i <= j < |ws| && AwaitsReady(ws[i].setup, d) && ws[i].setup.workspaces[d].Overdue()
    ensures AwaitsReady(ws[j].setup, d) && ws[j].setup.workspaces[d].Overdue()
    ensures SessionIn(ws[j].setup, d) == SessionIn(ws[i].setup, d)
    ensures forall t :: ws[i].setup.workspaces[d].Session().value.request.expires <= t ==> C.Reopened(ws[j].setup, runtime, t).None?
    decreases j
  {
    assert ConsistentAt(ws, j);
    if i < j {
      OverdueIsForever(ws, moves, i, j - 1, d, runtime);
      assert WorldSteps(ws[j - 1], moves[j - 1], ws[j]) && ConsistentAt(ws, j - 1);
      AppliedSteps(ws[j - 1], moves[j - 1], ws[j], d);
    }
    assert WorkspaceAgrees(ws[j], d);
  }

  lemma {:induction false} BindingsAreCounted(moves: seq<LifeMove>, n: nat)
    requires n <= |moves|
    ensures Rebindings(moves[..n]) <= Rebindings(moves)
    ensures Rebindings(moves[..n]) == Rebindings(moves) ==> forall k: nat {:trigger BoundAt(moves, k)} :: n <= k < |moves| ==> !BoundAt(moves, k)
  {
    if n == |moves| {
      assert moves[..n] == moves;
    } else {
      var early := moves[..|moves| - 1];
      assert early[..n] == moves[..n];
      BindingsAreCounted(early, n);
      forall k: nat | n <= k < |moves| && Rebindings(moves[..n]) == Rebindings(moves)
        ensures !BoundAt(moves, k)
      {
        assert k < |early| ==> !BoundAt(early, k);
      }
    }
  }

  /** Hence no call keeps an applied session from being reopened but one that binds a plan: of the
      coordinator's calls that is staging, all others leave the count of bindings as it is. */
  lemma CallsKeepInTime(ws: seq<World>, moves: seq<LifeMove>, i: nat, d: Digest)
    requires SetupRun(ws, moves) && i < |ws| && Rebindings(moves) == Rebindings(moves[..i])
    requires AwaitsReady(ws[i].setup, d) && !ws[i].setup.workspaces[d].Overdue()
    ensures var s := ws[|ws| - 1].setup; s.receipt.Whole? || (AwaitsReady(s, d) && !s.workspaces[d].Overdue())
  {
    BindingsAreCounted(moves, i);
    StaysInTime(ws, moves, i, |ws| - 1, d);
  }

  /** The lifecycle as it can be at all: never asked, asked once, applied once, or withdrawn. */
  predicate Plain(s: Option<LS.State>) {
    s.Some? ==>
      && (s.value.activeRecord.Some? ==> s.value.pending.None? && s.value.requestHigh != 0)
      && (s.value.pending.Some? ==> s.value.requestHigh != 0)
  }

  lemma {:induction false} LifeStaysPlain(ws: seq<World>, moves: seq<LifeMove>, j: nat)
    requires SetupRun(ws, moves) && j < |ws|
    ensures Plain(ws[j].life.state)
  {
    if j > 0 {
      LifeStaysPlain(ws, moves, j - 1);
      assert WorldSteps(ws[j - 1], moves[j - 1], ws[j]);
    }
  }

  lemma {:induction false} AskedIsForever(ws: seq<World>, moves: seq<LifeMove>, i: nat, j: nat)
    requires SetupRun(ws, moves) && i <= j < |ws| && ws[i].life.state.Some? && ws[i].life.state.value.requestHigh != 0
    ensures ws[j].life.state.Some? && ws[j].life.state.value.requestHigh != 0
    ensures ws[i].life.state.value.activeRecord.Some? ==> ws[j].life.state == ws[i].life.state
    decreases j
  {
    if i < j {
      AskedIsForever(ws, moves, i, j - 1);
      LifeStaysPlain(ws, moves, j - 1);
      assert WorldSteps(ws[j - 1], moves[j - 1], ws[j]);
    }
  }

  /** At most one import and at most one apply ever happen, whatever was retried or cut. */
  lemma EachHappensOnce(ws: seq<World>, moves: seq<LifeMove>, i: nat, j: nat)
    requires SetupRun(ws, moves) && i < j < |moves|
    ensures !(moves[i].Imported? && moves[j].Imported?)
    ensures !(moves[i].Applied? && Enters(moves[j]))
  {
    assert WorldSteps(ws[i], moves[i], ws[i + 1]);
    assert WorldSteps(ws[j], moves[j], ws[j + 1]);
    LifeStaysPlain(ws, moves, i);
    if Enters(moves[i]) {
      AskedIsForever(ws, moves, i + 1, j);
      LifeStaysPlain(ws, moves, j);
    }
  }

  /** A pending request got there by one import, and at that moment the selected, uncancelled
      workspace durably stored the session that had confirmed exactly its transcript. */
  lemma {:induction false} PendingWasConfirmed(ws: seq<World>, moves: seq<LifeMove>, j: nat) returns (k: nat)
    requires SetupRun(ws, moves) && j < |ws| && ws[j].life.state.Some? && ws[j].life.state.value.pending.Some?
    ensures k < j && moves[k].Imported? && L.PendingFor(moves[k].material) == ws[j].life.state.value.pending.value
    ensures ConfirmedFor(ws[k].setup, moves[k].material.request)
  {
    assert WorldSteps(ws[j - 1], moves[j - 1], ws[j]);
    if moves[j - 1].Imported? {
      return j - 1;
    }
    k := PendingWasConfirmed(ws, moves, j - 1);
  }

  /** What the lifecycle runs got there by one apply, of a response that was durably verified
      for a request that had been imported, and confirmed, before. */
  lemma {:induction false} ActiveWasVerified(ws: seq<World>, moves: seq<LifeMove>, j: nat) returns (i: nat, k: nat)
    requires SetupRun(ws, moves) && j < |ws| && ws[j].life.state.Some? && ws[j].life.state.value.activeRecord.Some?
    ensures i < k < j && moves[i].Imported? && moves[k].Applied? && moves[k].material.request == moves[i].material.request
    ensures ConfirmedFor(ws[i].setup, moves[i].material.request)
    ensures VerifiedFor(ws[k].setup, moves[k].material.request, moves[k].envelope)
    ensures ws[k].life.state.Some? && L.ApplyAllowed(ws[k].life.state.value, moves[k].material, moves[k].envelope)
    ensures ws[j].life.state == Some(L.ApplyNext(ws[k].life.state.value, moves[k].material, moves[k].envelope))
  {
    assert WorldSteps(ws[j - 1], moves[j - 1], ws[j]);
    if moves[j - 1].Applied? {
      k := j - 1;
      i := PendingWasConfirmed(ws, moves, k);
    } else {
      LifeStaysPlain(ws, moves, j - 1);
      i, k := ActiveWasVerified(ws, moves, j - 1);
    }
  }

  lemma {:induction false} RetiredIsForever(ws: seq<World>, moves: seq<LifeMove>, i: nat, j: nat, d: Digest)
    requires WorldRun(ws, moves) && i <= j < |ws| && ws[i].setup.receipt.Whole? && !SessionIn(ws[i].setup, d).Whole?
    ensures !SessionIn(ws[j].setup, d).Whole?
    decreases j
  {
    if i < j {
      RetiredIsForever(ws, moves, i, j - 1, d);
      ReceiptIsForever(ws, moves, i, j - 1);
      assert WorldSteps(ws[j - 1], moves[j - 1], ws[j]);
      assert SessionIn(ws[j].setup, d) == SessionIn(ws[j].setup, d);
    }
  }

  /** A workspace stores one session: the same exchange throughout, moving along legal edges,
      its generation never going back, and nothing after it is retired. */
  lemma {:induction false} SessionOnlyAdvances(ws: seq<World>, moves: seq<LifeMove>, i: nat, j: nat, d: Digest)
    requires WorldRun(ws, moves) && i <= j < |ws|
    requires SessionIn(ws[i].setup, d).Whole? && SessionIn(ws[j].setup, d).Whole?
    ensures var s, t := SessionIn(ws[i].setup, d).value, SessionIn(ws[j].setup, d).value;
      X.SameExchange(s, t) && s.generation <= t.generation && (s.generation == t.generation ==> s == t)
    decreases j
  {
    if i < j {
      assert WorldSteps(ws[j - 1], moves[j - 1], ws[j]);
      var before := SessionIn(ws[j - 1].setup, d);
      assert SessionIn(ws[j].setup, d).Whole?;
      if before.Whole? {
        SessionOnlyAdvances(ws, moves, i, j - 1, d);
      } else {
        var k := LastStored(ws, moves, i, j - 1, d);
        ReceiptIsForever(ws, moves, k, j - 1);
      }
    }
  }

  /** The moment at which a stored session was retired. */
  lemma {:induction false} LastStored(ws: seq<World>, moves: seq<LifeMove>, i: nat, j: nat, d: Digest) returns (k: nat)
    requires WorldRun(ws, moves) && i <= j < |ws| && SessionIn(ws[i].setup, d).Whole? && !SessionIn(ws[j].setup, d).Whole?
    ensures i <= k < j && ws[k].setup.receipt.Whole?
    decreases j
  {
    assert WorldSteps(ws[j - 1], moves[j - 1], ws[j]);
    assert !SessionIn(ws[j].setup, d).Whole?;
    if SessionIn(ws[j - 1].setup, d).Whole? {
      k := j - 1;
    } else {
      k := LastStored(ws, moves, i, j - 1, d);
    }
  }

  /** After confirmation the invitation must not be staged again: the request that staging then
      leaves behind keeps the verified response from ever being applied. */
  lemma StrandedCannotResume(w: World, c: Current, m: L.Material, runtime: Id, now: int)
    requires Consistent(w) && OpenCurrent(w.setup, runtime, now, false) == Some(c) && C.Confirmed(c.session)
    requires C.Asked(w.life, c.session)
    requires w.setup.workspaces[c.workspace].pending == Whole(m) && m.request != c.session.request.sha
    ensures !C.ResumePossible(w.life, w.setup, runtime, now)
    ensures !C.PendingUsable(w.life, c.session, w.setup.workspaces[c.workspace], now)
  {
    assert WorkspaceAgrees(w, c.workspace);
  }

  /** Without that, resuming works from any verified session whose response the lifecycle gate
      accepts, or has accepted already, unless a crash tore a file of the record. */
  lemma VerifiedResumes(w: World, c: Current, runtime: Id, now: int)
    requires Consistent(w) && OpenCurrent(w.setup, runtime, now, false) == Some(c) && c.session.phase.ResponseVerified?
    ensures C.ResumePossible(w.life, w.setup, runtime, now) <==>
      && !w.life.Ruined()
      && (C.Admitted(w.life, c.session, now) || RunsResponse(w.life, c.session))
      && (w.setup.workspaces[c.workspace].pending.Whole? ==>
            C.CanImport(w.life.(settled := true), c.session, w.setup.workspaces[c.workspace].pending.value, now) &&
            w.setup.workspaces[c.workspace].pending.value.request == c.session.request.sha)
      && !w.setup.workspaces[c.workspace].pending.Torn?
  {
    assert WorkspaceAgrees(w, c.workspace);
  }

  // --------------------------------------------------------------- torn record files

  /** A request was taken, nothing runs, and no response can ever be applied. */
  predicate Hopeless(life: Life) {
    life.Taken() && life.state.value.activeRecord.None? && (life.state.value.pending.None? || life.Ruined())
  }

  /** Once a file of the pending record is torn, no response is ever applied again: what is left
      is cancelling. */
  lemma {:induction false} TornRecordEndsSetup(ws: seq<World>, moves: seq<LifeMove>, i: nat, j: nat)
    requires SetupRun(ws, moves) && i <= j < |ws| && ws[i].life.Ruined()
    ensures Hopeless(ws[j].life) && (j < |moves| ==> !Enters(moves[j]))
    decreases j
  {
    LifeStaysPlain(ws, moves, j);
    if i < j {
      TornRecordEndsSetup(ws, moves, i, j - 1);
      assert WorldSteps(ws[j - 1], moves[j - 1], ws[j]);
      if ws[j - 1].life.Ruined() && !moves[j - 1].Withdrawn? {
        assert RecordStays(ws[j - 1].life, ws[j].life, ws[j - 1].life.state.value.pending.value.nonce);
      }
    }
    if j < |moves| {
      assert WorldSteps(ws[j], moves[j], ws[j + 1]);
    }
  }

  /** The files of a pending request were all imported. */
  lemma {:induction false} PendingIsHeld(ws: seq<World>, moves: seq<LifeMove>, j: nat)
    requires SetupRun(ws, moves) && j < |ws| && ws[j].life.state.Some? && ws[j].life.state.value.pending.Some?
    ensures var id := ws[j].life.state.value.pending.value.nonce;
      id in ws[j].life.records && ws[j].life.records[id].material.AllFiles?
  {
    assert WorldSteps(ws[j - 1], moves[j - 1], ws[j]);
    if !moves[j - 1].Imported? {
      PendingIsHeld(ws, moves, j - 1);
      LifeStaysPlain(ws, moves, j - 1);
      assert RecordStays(ws[j - 1].life, ws[j].life, ws[j].life.state.value.pending.value.nonce);
    }
  }

  /** Material of which a cut import tore a file can never be imported: neither confirming nor
      resuming gets past it. */
  lemma {:induction false} TornImportIsForever(ws: seq<World>, moves: seq<LifeMove>, i: nat, j: nat, m: L.Material, s: X.TargetState, now: int)
    requires SetupRun(ws, moves) && i <= j < |ws|
    requires m.nonce in ws[i].life.records && ws[i].life.records[m.nonce].material.TornFile?
    ensures m.nonce in ws[j].life.records && ws[j].life.records[m.nonce].material.TornFile?
    ensures !C.CanImport(ws[j].life, s, m, now)
    decreases j
  {
    if i < j {
      TornImportIsForever(ws, moves, i, j - 1, m, s, now);
      assert WorldSteps(ws[j - 1], moves[j - 1], ws[j]);
      if ws[j - 1].life.PendingRecord(m.nonce) {
        PendingIsHeld(ws, moves, j - 1);
      }
      assert RecordStays(ws[j - 1].life, ws[j].life, m.nonce);
    }
  }

  // ------------------------------------------------------------- single cuts that do it

  /** Whoever holds a ruined lifecycle cannot resume, at any time, and has applied nothing. */
  lemma RuinedNeverResumes(w: World, runtime: Id)
    requires Consistent(w) && w.life.Ruined()
    ensures forall t :: !C.ResumePossible(w.life, w.setup, runtime, t) && !C.AppliedAt(w.setup, runtime, t)
  {
    forall t
      ensures !C.ResumePossible(w.life, w.setup, runtime, t) && !C.AppliedAt(w.setup, runtime, t)
    {
      if w.setup.Selected().Some? {
        assert WorkspaceAgrees(w, w.setup.selector.value);
      }
      C.RuinedCannotApply(w.life, w.setup, t);
    }
  }

  /** A lifecycle that was ruined is ruined still where its state has not moved. */
  lemma RuinedStays(ws: seq<World>, moves: seq<LifeMove>, k: nat)
    requires SetupRun(ws, moves) && k < |ws| && ws[k].life.Ruined() && ws[|ws| - 1].life.state == ws[k].life.state
    ensures ws[|ws| - 1].life.Ruined()
  {
    TornRecordEndsSetup(ws, moves, k, |ws| - 1);
  }

  /** Resuming, undisturbed, when an earlier cut may have ruined the record. */
  method ResumeAgain(client: C.Client, t: int) returns (reply: Option<X.Phase>)
    requires client.Valid() && client.life.Readable()
    modifies client, client.target, client.target.root
    ensures client.Valid()
    ensures reply.Some? <==> old(C.ResumePossible(client.life, client.setup, client.runtime, t)) || old(C.AppliedAt(client.setup, client.runtime, t))
    ensures reply.Some? ==> C.AppliedAt(client.setup, client.runtime, t) && !client.life.Ruined()
    ensures reply.Some? ==> old(client.setup).Selected().Some? && RunsResponse(client.life, old(client.setup).Selected().value)
    ensures old(client.life).Ruined() ==> reply.None? && client.life.Ruined()
  {
    ghost var k, before, setup := |client.history| - 1, client.life, client.setup;
    if before.Ruined() {
      RuinedNeverResumes(World(setup, before), client.runtime);
      C.RuinedCannotApply(before, setup, t);
    }
    reply := client.ResumeApply(t, true);
    if before.Ruined() {
      RuinedStays(client.history, client.moves, k);
    }
  }

  /** A verified response that could be applied; resuming is cut inside one file of the record,
      and resuming again, undisturbed, is refused from then on. */
  method LoseRecordByOneCut(client: C.Client, now: int) returns (again: Option<X.Phase>)
    requires client.Valid() && client.life.Readable() && C.ResumePossible(client.life, client.setup, client.runtime, now)
    requires !RunsResponse(client.life, client.setup.Selected().value)
    requires !C.Rendered(client.life)
    modifies client, client.target, client.target.root
    ensures client.Valid() && again.None? && client.life.Ruined()
    ensures forall t :: !C.ResumePossible(client.life, client.setup, client.runtime, t)
  {
    var cut := client.ResumeApply(now, true, true);
    again := ResumeAgain(client, now);
    RuinedNeverResumes(World(client.setup, client.life), client.runtime);
  }

  /** A confirmed request whose import begins; it is cut inside one file of the record. */
  method LoseImportByOneCut(client: C.Client, cur: Current, m: L.Material, now: int)
    requires client.Valid() && client.Open(now) == Some(cur) && C.Confirmed(cur.session)
    requires client.setup.workspaces[cur.workspace].pending == Whole(m) && client.life.boot.Absent?
    requires C.CanImport(client.life, cur.session, m, now) && !L.RecordAt(client.life.records, m.nonce).Imported()
    modifies client, client.target, client.target.root
    ensures client.Valid() && client.setup == old(client.setup)
    ensures forall t :: !C.PendingUsable(client.life, cur.session, client.setup.workspaces[cur.workspace], t)
  {
    var ok := client.ImportMaterial(cur, m, now, true, true);
  }

  /** An applied setup whose carrier proof succeeds; writing the receipt is cut, and the proof
      is refused ever after, although it would succeed again. */
  method LoseReadyByOneCut(client: C.Client, cur: Current, now: int) returns (again: Option<C.Reply>)
    requires client.Valid() && client.setup.receipt.Missing? && client.life.settled
    requires C.Reopened(client.setup, client.runtime, now) == Some(cur) && cur.session.phase.Applied?
    requires C.ReadyProven(client.life, cur, true, now)
    modifies client, client.target
    ensures client.Valid() && again.None? && client.setup == old(client.setup).(receipt := Torn)
  {
    var cut := client.CompleteReady(true, now, true, C.InReceipt);
    again := client.CompleteReady(true, now, true);
  }

  /** Cleaning up beside a temporary file is refused, and leaves the file. */
  method CleanBesideStray(client: C.Client, t: int) returns (reply: Option<C.Reply>)
    requires client.Valid() && client.setup.receipt.Whole? && client.setup.receipt.value.cleaned.None?
    requires client.setup.Littered(client.setup.receipt.value.workspace)
    modifies client
    ensures client.Valid() && reply.None? && client.setup.receipt == old(client.setup.receipt) && client.life == old(client.life)
    ensures client.setup.Littered(client.setup.receipt.value.workspace)
  {
    ghost var k := |client.history| - 1;
    reply := client.CleanupReady(t, true);
    StrayBlocksCleanupForever(client.history, client.moves, k, |client.history| - 1, client.runtime);
  }

  /** READY is proved, but the last replacement of the session is cut: cleaning up is refused
      from then on, although everything else about it is in order. */
  method LoseCleanupByOneCut(client: C.Client, cur: Current, now: int, later: int) returns (reply: Option<C.Reply>)
    requires client.Valid() && client.setup.receipt.Missing? && client.life.settled
    requires C.Reopened(client.setup, client.runtime, now) == Some(cur) && cur.session.phase.Applied?
    requires C.ReadyProven(client.life, cur, true, now) && now <= later
    modifies client, client.target
    ensures client.Valid() && reply.None? && C.Answer(client.setup, client.life, client.runtime).IsReady?
    ensures client.setup.receipt.value.cleaned.None? && client.setup.Littered(client.setup.receipt.value.workspace)
  {
    var cut := client.CompleteReady(true, now, true, C.InSession);
    reply := CleanBesideStray(client, later);
  }

  /** An applied session, reopenable at every time; its invitation is staged again after its
      request has expired, and it cannot be opened any more: the carrier proof is refused. */
  method LoseTailByStaging(client: C.Client, d: Digest, seed: C.Seed, now: int, later: int) returns (reply: Option<C.Reply>)
    requires client.Valid() && client.setup.receipt.Missing? && AwaitsReady(client.setup, d) && |seed.phrase| == 2 * X.WORDS_PER_DIRECTION
    requires var ws := client.setup.workspaces[d];
      && ws.pending.Missing? && !ws.Overdue() && ws.Session().value.request.expires <= now <= later
      && ws.plan.Whole? && ws.plan.value.verified <= now
      && ws.plan.value.invitation.runtime == client.runtime && ws.plan.value.invitation.CurrentAt(now)
    modifies client, client.target
    ensures client.Valid() && reply.None? && AwaitsReady(client.setup, d) && client.setup.workspaces[d].Overdue()
    ensures old(C.Reopened(client.setup, client.runtime, later)).Some? && C.Reopened(client.setup, client.runtime, later).None?
  {
    var invitation := client.setup.workspaces[d].plan.value.invitation;
    ghost var ws := client.setup.workspaces[d];
    assert WorkspaceAgrees(World(client.setup, client.life), d);
    AppliedReopensIff(World(client.setup, client.life), d, client.runtime, later);
    var staged := client.Stage(invitation, seed, now, true);
    C.RestagingIsOverdueIff(ws, invitation, seed, now, client.setup.workspaces[d]);
    AppliedReopensIff(World(client.setup, client.life), d, client.runtime, later);
    reply := client.CompleteReady(true, later, true);
  }

  // ----------------------------------------------------- cut, recovered, resumed, applied

  ghost predicate AppliedOnce(moves: seq<LifeMove>) {
    exists k :: 0 <= k < |moves| && moves[k].Applied? && forall j | 0 <= j < |moves| && moves[j].Applied? :: j == k
  }

  lemma ActiveWasAppliedOnce(ws: seq<World>, moves: seq<LifeMove>)
    requires SetupRun(ws, moves) && ws[|ws| - 1].life.state.Some? && ws[|ws| - 1].life.state.value.activeRecord.Some?
    ensures AppliedOnce(moves)
  {
    var i, k := ActiveWasVerified(ws, moves, |ws| - 1);
    forall j | 0 <= j < |moves| && moves[j].Applied?
      ensures j == k
    {
      if j < k {
        EachHappensOnce(ws, moves, j, k);
      } else if k < j {
        EachHappensOnce(ws, moves, k, j);
      }
    }
  }

  /** What is open at one time inside the validity window is open at any other. */
  lemma OpenAtOtherTime(s: Setup, s': Setup, runtime: Id, now: int, later: int, cur: Current, n: X.TargetState)
    requires OpenCurrent(s, runtime, later, false) == Some(cur) && s'.selector == s.selector
    requires OpenCurrent(s', runtime, now, false) == Some(cur.(session := n)) && X.SameExchange(cur.session, n)
    ensures OpenCurrent(s', runtime, later, false) == Some(cur.(session := n))
  {
  }

  /** Where a cut acceptance can leave setup and lifecycle: nothing has happened yet, or the
      response is verified, or it is applied. */
  predicate Midway(life: Life, s: Setup, runtime: Id, cur: Current, bound: X.BoundResponse, t: int) {
    var c, verified := OpenCurrent(s, runtime, t, false), C.AsVerified(cur.session, bound);
    && c.Some? && c.value.workspace == cur.workspace
    && if c.value.session.phase.TranscriptConfirmed? then
         c.value == cur && HoldsRequest(life, cur.session) && C.AcceptPossible(life.(settled := true), s, cur, bound, t)
       else if c.value.session.phase.ResponseVerified? then
         c.value.session == verified && (C.ResumePossible(life, s, runtime, t) <==> !life.Ruined())
       else
         c.value.session == C.AsApplied(verified) && RunsResponse(life, verified)
  }

  lemma CutLeavesMidway(life: Life, s: Setup, life': Life, s': Setup, runtime: Id, cur: Current, n: X.TargetState, bound: X.BoundResponse, now: int, later: int)
    requires OpenCurrent(s, runtime, later, false) == Some(cur) && cur.session.phase.TranscriptConfirmed? && HoldsRequest(life, cur.session)
    requires C.AcceptPossible(life, s, cur, bound, later) && life.Readable()
    requires s'.selector == s.selector && OpenCurrent(s', runtime, now, false) == Some(cur.(session := n))
    requires exists reply :: C.AcceptOutcome(life, life, cur.session, bound, life', n, reply)
    requires cur.workspace in s'.workspaces
    requires var p := s'.workspaces[cur.workspace].pending; p.Missing? || (n == cur.session && p == s.workspaces[cur.workspace].pending)
    ensures Midway(life', s', runtime, cur, bound, later)
  {
    OpenAtOtherTime(s, s', runtime, now, later, cur, n);
    var verified := C.AsVerified(cur.session, bound);
    if n == verified {
      assert C.Appliable(life, verified, later);
    }
  }

  /** The first half, cut anywhere. */
  method AcceptCutAnywhere(client: C.Client, cur: Current, bound: X.BoundResponse, now: int, ghost later: int)
    requires client.Valid() && client.Open(now) == Some(cur) && client.Open(later) == Some(cur)
    requires cur.session.phase.TranscriptConfirmed? && client.life.Readable() && HoldsRequest(client.life, cur.session)
    requires C.AcceptPossible(client.life, client.setup, cur, bound, later)
    modifies client, client.target, client.target.root
    ensures client.Valid() && Midway(client.life, client.setup, client.runtime, cur, bound, later)
  {
    ghost var setup, life := client.setup, client.life;
    var reply := client.AcceptAndApply(bound, now, false);
    CutLeavesMidway(life, setup, client.life, client.setup, client.runtime, cur, client.Open(now).value.session, bound, now, later);
  }

  /** The undisturbed second half. */
  method FinishMidway(client: C.Client, cur: Current, bound: X.BoundResponse, t: int) returns (reply: Option<X.Phase>)
    requires client.Valid() && client.life.Readable() && Midway(client.life, client.setup, client.runtime, cur, bound, t)
    requires cur.session.phase.TranscriptConfirmed?
    modifies client, client.target, client.target.root
    ensures client.Valid() && (reply.Some? ==> C.AppliedAt(client.setup, client.runtime, t))
    ensures reply.Some? ==> RunsResponse(client.life, C.AsVerified(cur.session, bound))
    ensures reply.Some? <==> !client.life.Ruined()
  {
    var session := client.Open(t).value.session;
    if session.phase == X.TranscriptConfirmed {
      reply := client.AcceptAndApply(bound, t, true);
    } else {
      reply := ResumeAgain(client, t);
    }
    if client.life.Ruined() {
      RuinedNeverResumes(World(client.setup, client.life), client.runtime);
    }
  }

  /** Accepting a response, cut anywhere; then recovery and resuming, undisturbed, at any later
      time inside the window: the response ends up applied, by exactly one apply, unless the cut
      tore a file of the record. */
  method FinishAfterCut(client: C.Client, cur: Current, bound: X.BoundResponse, now: int, later: int) returns (reply: Option<X.Phase>)
    requires client.Valid() && client.Open(now) == Some(cur) && client.Open(later) == Some(cur)
    requires cur.session.phase.TranscriptConfirmed? && client.life.Readable() && HoldsRequest(client.life, cur.session)
    requires C.AcceptPossible(client.life, client.setup, cur, bound, later)
    modifies client, client.target, client.target.root
    ensures client.Valid() && (reply.Some? <==> !client.life.Ruined())
    ensures reply.Some? ==>
      && C.AppliedAt(client.setup, client.runtime, later) && AppliedOnce(client.moves)
      && RunsResponse(client.life, C.AsVerified(cur.session, bound))
  {
    AcceptCutAnywhere(client, cur, bound, now, later);
    var recovered := client.Recover(true);
    reply := FinishMidway(client, cur, bound, later);
    if reply.Some? {
      ActiveWasAppliedOnce(client.history, client.moves);
    }
  }
}
