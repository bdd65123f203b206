/**
  Package operations under a service supervisor: a write-ahead record restores the service's
  original activity across failed and crashed attempts.
  Source: cmd/owntransitctl/package_supervisor_linux.go.
*/
module Supervisor {

  /** A record file. An exclusive creation that is cut short leaves it Torn. */
  datatype Slot = Absent | Torn | Record(restartActive: bool)

  /** The one unit of a role and its two record files. */
  datatype Host = Host(active: bool, intent: Slot, restart: Slot)
  {
    /** The records never coexist, and the restart record only ever preserves an active service. */
    predicate Sound() {
      (restart.Absent? || (restart == Record(true) && intent.Absent?))
    }

    predicate Unrecorded() {
      intent.Absent? && restart.Absent?
    }

    /** The activity that a run must restore: what the record says, or what is sampled now. */
    function Goal(): bool {
      if restart.Record? then restart.restartActive
      else if intent.Record? then intent.restartActive
      else active
    }
  }

  /** Where a run is cut, by an error or by a crash, and what the interrupted step leaves. A
      run is a straight line, so the first trouble is its last step. */
  datatype Trouble =
    | Calm
    | Preflight
    | ReadRecords
    | RestartToIntent(applied: bool)
    | Sample
    | WriteIntent(left: Slot)
    | InspectRunning
    | Stop(activeAfter: bool)
    | StopIneffective
    | InspectStopped
    | Operation
    | Activate
    | IntentToRestart(applied: bool)
    | Start(activeAfter: bool)
    | InspectStarted
    | StartIneffective
    | Remove(applied: bool)

  /** The intent file after a failed creation: gone, torn, or complete. */
  predicate Leavable(left: Slot, active: bool) {
    left.Absent? || left.Torn? || left == Record(active)
  }

  /** The trouble lies on the path that a run from `h` takes. */
  predicate Bites(h: Host, t: Trouble) {
    match t
    case Calm => false
    case RestartToIntent(_) => h.restart.Record?
    case Sample => h.Unrecorded()
    case WriteIntent(_) => h.Unrecorded()
    case Stop(_) => h.active
    case StopIneffective => h.active
    case IntentToRestart(_) => h.Goal()
    case Start(_) => h.Goal()
    case InspectStarted => h.Goal()
    case StartIneffective => h.Goal()
    case _ => true
  }

  /** The trouble strikes before any record is durable. */
  predicate BeforeRecord(t: Trouble) {
    t.Preflight? || t.ReadRecords? || t.Sample? || (t.WriteIntent? && t.left.Absent?)
  }

  /** What one run guarantees about the host before and after it. */
  predicate RunKeeps(h: Host, t: Trouble, ok: bool, h': Host) {
    && h'.Sound()
    && (h.intent.Torn? ==> !ok && h' == h)
    && (!h.intent.Torn? ==> (ok <==> !Bites(h, t)))
    && (ok ==> h'.Unrecorded())
    && (h'.Unrecorded() ==> h'.active == h.Goal())
    && (h'.intent.Record? || h'.restart.Record? ==> h'.Goal() == h.Goal())
    && (h'.intent.Torn? ==> h'.active == h.active && (h.intent.Torn? || h.Unrecorded()))
    && (!ok ==> (h'.Unrecorded() <==> (h.Unrecorded() && BeforeRecord(t)) || (!h.intent.Torn? && t == Remove(true))))
  }

  class PackageSupervisor {
    var active: bool
    var intent: Slot
    var restart: Slot
    /** The service's activity at every operation that ran. */
    ghost var operations: seq<bool>

    constructor (active: bool)
      ensures Snapshot() == Host(active, Absent, Absent) && operations == []
    {
      this.active := active;
      intent, restart := Absent, Absent;
      operations := [];
    }

    function Snapshot(): Host
      reads this
    {
      Host(active, intent, restart)
    }

    /** Others may start or stop the service, but only between runs. */
    method Toggle(on: bool)
      modifies this
      ensures Snapshot() == old(Snapshot()).(active := on) && operations == old(operations)
    {
      active := on;
    }

    /** One supervised operation. It runs only while the service is inactive, and whatever cuts
        it, the activity first sampled is restored, or still on record, or was never touched. */
    method Run(t: Trouble) returns (ok: bool)
      requires Snapshot().Sound()
      requires t.WriteIntent? ==> Leavable(t.left, active)
      modifies this
      ensures RunKeeps(old(Snapshot()), t, ok, Snapshot())
      ensures operations == old(operations) || operations == old(operations) + [false]
      ensures ok ==> operations == old(operations) + [false]
    {
      if t.Preflight? || t.ReadRecords? || intent.Torn? {
        return false;
      }
      var recorded := intent;
      if restart.Record? {
        if t.RestartToIntent? {
          if t.applied {
            intent, restart := restart, Absent;
          }
          return false;
        }
        recorded := restart;
        intent, restart := restart, Absent;
      }
      if recorded.Absent? {
        if t.Sample? {
          return false;
        }
        recorded := Record(active);
        if t.WriteIntent? {
          intent := t.left;
          return false;
        }
        intent := recorded;
      }
      ok := Execute(recorded.restartActive, t);
    }

    /** Everything behind the durable intent. */
    method Execute(restartActive: bool, t: Trouble) returns (ok: bool)
      requires intent == Record(restartActive) && restart.Absent?
      requires !t.Preflight? && !t.ReadRecords?
      modifies this
      ensures ok <==> !Bites(old(Snapshot()), t)
      ensures Snapshot().Sound() && !intent.Torn?
      ensures Snapshot().Unrecorded() <==> ok || t == Remove(true)
      ensures if Snapshot().Unrecorded() then active == restartActive else Snapshot().Goal() == restartActive
      ensures operations == old(operations) || operations == old(operations) + [false]
      ensures ok ==> operations == old(operations) + [false]
    {
      ok := Quiesce(t);
      if !ok || t.Operation? {
        return false;
      }
      operations := operations + [active];
      if t.Activate? {
        return false;
      }
      if restartActive {
        ok := Restore(t);
        return;
      }
      if t.Remove? {
        if t.applied {
          intent := Absent;
        }
        return false;
      }
      intent := Absent;
      return true;
    }

    /** Stops the service where it runs, and checks that it did stop. */
    method Quiesce(t: Trouble) returns (ok: bool)
      modifies this`active
      ensures ok ==> !active
      ensures ok <==> !(t.InspectRunning? || t.InspectStopped? || (old(active) && (t.Stop? || t.StopIneffective?)))
    {
      if t.InspectRunning? {
        return false;
      }
      if active {
        if t.Stop? {
          active := t.activeAfter;
          return false;
        }
        active := t.StopIneffective?;
      }
      return !t.InspectStopped? && !active;
    }

    /** The record moves to `restart` before the service is started again, and goes last. */
    method Restore(t: Trouble) returns (ok: bool)
      requires intent == Record(true) && restart.Absent? && !active
      modifies this`active, this`intent, this`restart
      ensures intent.Absent? || intent == Record(true)
      ensures ok <==> !(t.IntentToRestart? || t.Start? || t.InspectStarted? || t.StartIneffective? || t.Remove?)
      ensures intent.Absent? && restart.Absent? <==> ok || t == Remove(true)
      ensures Snapshot().Sound() && (Snapshot().Unrecorded() ==> active)
    {
      if t.IntentToRestart? {
        if t.applied {
          intent, restart := Absent, intent;
        }
        return false;
      }
      intent, restart := Absent, intent;
      if t.Start? {
        active := t.activeAfter;
        return false;
      }
      active := !t.StartIneffective?;
      if t.InspectStarted? || !active {
        return false;
      }
      if t.Remove? {
        if t.applied {
          restart := Absent;
        }
        return false;
      }
      restart := Absent;
      return true;
    }
  }

  // ----------------------------------------------------------------- many attempts

  datatype Event = Ran(trouble: Trouble, ok: bool) | Toggled

  predicate Happens(h: Host, e: Event, h': Host) {
    match e
    case Ran(t, ok) => RunKeeps(h, t, ok, h')
    case Toggled => h' == h.(active := h'.active)
  }

  predicate Attempts(hs: seq<Host>, es: seq<Event>) {
    && |hs| == |es| + 1 && hs[0].Sound() && hs[0].Unrecorded()
    && forall k {:trigger es[k]} :: 0 <= k < |es| ==> Happens(hs[k], es[k], hs[k + 1])
  }

  /** From the sampling run on: as long as a record remains after every run, the first sample
      is what every later run works towards, whoever toggles the service in between. */
  lemma {:induction false} SampleSurvives(hs: seq<Host>, es: seq<Event>, i: nat, j: nat)
    requires Attempts(hs, es) && i < j < |hs| && hs[i].Unrecorded() && es[i].Ran?
    requires forall k :: i < k <= j ==> hs[k].intent.Record? || hs[k].restart.Record?
    ensures hs[j].Goal() == hs[i].active
    decreases j
  {
    assert Happens(hs[j - 1], es[j - 1], hs[j]);
    if i + 1 < j {
      SampleSurvives(hs, es, i, j - 1);
    }
  }

  /** The run that ends the attempts, whether it reports success or not, leaves the service as
      it was first sampled. */
  lemma FirstActivityRestored(hs: seq<Host>, es: seq<Event>, i: nat, j: nat)
    requires Attempts(hs, es) && i <= j < |es| && hs[i].Unrecorded() && es[i].Ran? && es[j].Ran?
    requires forall k :: i < k <= j ==> hs[k].intent.Record? || hs[k].restart.Record?
    requires hs[j + 1].Unrecorded()
    ensures hs[j + 1].active == hs[i].active
    ensures es[j].ok || BeforeRecord(es[j].trouble) || es[j].trouble == Remove(true)
  {
    assert Happens(hs[j], es[j], hs[j + 1]);
    if i < j {
      SampleSurvives(hs, es, i, j);
    }
  }

  /** The records never coexist, and a torn intent stops every later run before it stops the
      service. */
  lemma {:induction false} TornStaysTorn(hs: seq<Host>, es: seq<Event>, i: nat, j: nat)
    requires Attempts(hs, es) && i <= j < |hs|
    ensures hs[j].Sound()
    ensures hs[i].intent.Torn? ==> hs[j].intent.Torn?
    ensures hs[i].intent.Torn? && i < j && es[j - 1].Ran? ==> !es[j - 1].ok && hs[j] == hs[j - 1]
    decreases j
  {
    if i < j {
      TornStaysTorn(hs, es, i, j - 1);
    } else if j > 0 {
      TornStaysTorn(hs, es, j - 1, j - 1);
    }
    if j > 0 {
      assert Happens(hs[j - 1], es[j - 1], hs[j]);
    }
  }

  /** A failed run can finish the attempts too: its record is gone although its removal was
      reported as failed. What others do to the service then counts as the first sample, so
      the sample is kept until a run succeeds only where no removal ends like this. */
  lemma FailedRunCanForget() returns (hs: seq<Host>, es: seq<Event>)
    ensures Attempts(hs, es) && |es| == 3 && hs[0].active
    ensures es[0] == Ran(Remove(true), false) && es[1] == Toggled && es[2] == Ran(Calm, true)
    ensures !hs[3].active
  {
    var on, off := Host(true, Absent, Absent), Host(false, Absent, Absent);
    hs := [on, on, off, off];
    es := [Ran(Remove(true), false), Toggled, Ran(Calm, true)];
  }

  /** The sample is forgotten by a failed run exactly then. */
  lemma SampleForgottenIff(h: Host, t: Trouble, h': Host)
    requires RunKeeps(h, t, false, h') && (h.intent.Record? || h.restart.Record?)
    ensures h'.Unrecorded() <==> t == Remove(true)
    ensures !h'.Unrecorded() ==> h'.Goal() == h.Goal() && !h'.intent.Torn?
  {
  }
}
