/**
  Admission in the connector: pending and active slots, per-client accounts and live session
  keys, shared by interleaved workers.
  Source: internal/connector/service.go, internal/connector/session.go, internal/config/config.go.

  Each method is one atomic section of one worker, or a sequence of them. Each section does one
  `Event`, and the theorems about interleavings are about every sequence of such events.
*/
module Connector {
  import opened Common

  const DEFAULT_ACTIVE_PER_CLIENT := 2

  datatype Limits = Limits(pending: int, active: int, activePerClient: int)
  {
    /** Zero stands for the default, which leaves one slot for another client. */
    function ActivePerClient(): int {
      if activePerClient != 0 then activePerClient
      else if active <= 1 then 1
      else if DEFAULT_ACTIVE_PER_CLIENT < active - 1 then DEFAULT_ACTIVE_PER_CLIENT else active - 1
    }

    predicate Valid(capability: bool) {
      && 0 < pending <= 64 && 0 < active <= 64
      && 0 < ActivePerClient() <= active
      && (capability && active > 1 ==> ActivePerClient() < active)
    }
  }

  /** The default account always passes validation. */
  lemma DefaultAccountIsValid(pending: int, active: int, capability: bool)
    requires 0 < pending <= 64 && 0 < active <= 64
    ensures Limits(pending, active, 0).Valid(capability)
  {
  }

  type Worker = nat

  datatype SessionKey = SessionKey(epoch: Id, session: Id)

  /** What one worker holds. `leaving` is set by any failure and by the end of the session, and
      from then on the deferred releases run in their order. */
  datatype Holding = Holding(key: SessionKey, registered: bool, pending: bool, active: bool, client: Option<Id>, leaving: bool)
  {
    predicate Bare() {
      !registered && !pending && !active && client.None?
    }
  }

  type Workers = map<Worker, Holding>

  ghost function PendingHolders(ws: Workers): set<Worker> {
    set w | w in ws && ws[w].pending
  }

  ghost function ActiveHolders(ws: Workers): set<Worker> {
    set w | w in ws && ws[w].active
  }

  ghost function ClientHolders(ws: Workers, c: Id): set<Worker> {
    set w | w in ws && ws[w].client == Some(c)
  }

  ghost function LiveKeys(ws: Workers): set<SessionKey> {
    set w | w in ws && ws[w].registered :: ws[w].key
  }

  predicate Owns(ws: Workers, w: Worker, key: SessionKey) {
    w in ws && ws[w].registered && ws[w].key == key
  }

  /** What the service keeps: two semaphores, the clients' accounts and the live keys. */
  datatype Books = Books(pending: int, active: int, clientActive: map<Id, int>, sessions: set<SessionKey>)
  {
    function Account(c: Id): int {
      if c in clientActive then clientActive[c] else 0
    }
  }

  predicate Sound(ws: Workers, w: Worker, capability: bool) {
    w in ws ==> !ws[w].Bare() && (ws[w].active && capability ==> ws[w].client.Some?)
  }

  ghost predicate ClientAccounts(ws: Workers, b: Books) {
    && (forall c {:trigger b.Account(c)} {:trigger ClientHolders(ws, c)} :: b.Account(c) == |ClientHolders(ws, c)|)
    && (forall c <- b.clientActive :: b.clientActive[c] > 0)
  }

  /** The counters are the numbers of holders, within their limits, and every live key has one
      worker. */
  ghost predicate Balanced(limits: Limits, capability: bool, ws: Workers, b: Books) {
    && b.pending == |PendingHolders(ws)| <= limits.pending
    && b.active == |ActiveHolders(ws)| <= limits.active
    && ClientAccounts(ws, b) && (forall c {:trigger b.Account(c)} :: b.Account(c) <= limits.ActivePerClient())
    && b.sessions == LiveKeys(ws)
    && (forall v, w, k {:trigger Owns(ws, v, k), Owns(ws, w, k)} :: Owns(ws, v, k) && Owns(ws, w, k) ==> v == w)
    && (forall w {:trigger Sound(ws, w, capability)} :: Sound(ws, w, capability))
  }

  // ------------------------------------------------------- one worker changes its holding

  function One(b: bool): int {
    if b then 1 else 0
  }

  lemma CountAfter(s: set<Worker>, t: set<Worker>, w: Worker)
    requires s - {w} == t - {w}
    ensures |t| == |s| - One(w in s) + One(w in t)
  {
    assert w in s ==> s == (s - {w}) + {w};
    assert w in t ==> t == (t - {w}) + {w};
    assert w !in s ==> s == s - {w};
    assert w !in t ==> t == t - {w};
  }

  /** Holding nothing is not being there at all. */
  function Held(ws: Workers, w: Worker): Holding {
    if w in ws then ws[w] else Holding(SessionKey("", ""), false, false, false, None, false)
  }

  function Holds(ws: Workers, w: Worker, h: Holding): Workers {
    if h.Bare() then ws - {w} else ws[w := h]
  }

  lemma OthersSame(ws: Workers, w: Worker, h: Holding, v: Worker)
    requires v != w
    ensures (v in ws <==> v in Holds(ws, w, h)) && (v in ws ==> Holds(ws, w, h)[v] == ws[v])
  {
  }

  function Gained(b: Books, c: Id): Books {
    b.(clientActive := b.clientActive[c := b.Account(c) + 1])
  }

  function Dropped(b: Books, c: Id): Books {
    b.(clientActive := if b.Account(c) <= 1 then b.clientActive - {c} else b.clientActive[c := b.Account(c) - 1])
  }

  lemma ClientCountAfter(ws: Workers, w: Worker, h: Holding, c: Id)
    ensures |ClientHolders(Holds(ws, w, h), c)| ==
            |ClientHolders(ws, c)| - One(Held(ws, w).client == Some(c)) + One(h.client == Some(c))
  {
    var t := ClientHolders(Holds(ws, w, h), c);
    forall v | v != w
      ensures v in t <==> v in ClientHolders(ws, c)
    {
      OthersSame(ws, w, h, v);
    }
    CountAfter(ClientHolders(ws, c), t, w);
  }

  lemma ClientAccountsAfter(ws: Workers, w: Worker, h: Holding, b: Books)
    requires ClientAccounts(ws, b)
    ensures h.client == Held(ws, w).client ==> ClientAccounts(Holds(ws, w, h), b)
    ensures h.client.Some? && Held(ws, w).client.None? ==> ClientAccounts(Holds(ws, w, h), Gained(b, h.client.value))
    ensures h.client.None? && Held(ws, w).client.Some? ==> ClientAccounts(Holds(ws, w, h), Dropped(b, Held(ws, w).client.value))
  {
    forall c
      ensures |ClientHolders(Holds(ws, w, h), c)| ==
              |ClientHolders(ws, c)| - One(Held(ws, w).client == Some(c)) + One(h.client == Some(c))
    {
      ClientCountAfter(ws, w, h, c);
    }
  }

  lemma SlotsAfter(ws: Workers, w: Worker, h: Holding)
    ensures |PendingHolders(Holds(ws, w, h))| == |PendingHolders(ws)| - One(Held(ws, w).pending) + One(h.pending)
    ensures |ActiveHolders(Holds(ws, w, h))| == |ActiveHolders(ws)| - One(Held(ws, w).active) + One(h.active)
  {
    var p, a := PendingHolders(Holds(ws, w, h)), ActiveHolders(Holds(ws, w, h));
    forall v | v != w
      ensures (v in p <==> v in PendingHolders(ws)) && (v in a <==> v in ActiveHolders(ws))
    {
      OthersSame(ws, w, h, v);
    }
    CountAfter(PendingHolders(ws), p, w);
    CountAfter(ActiveHolders(ws), a, w);
  }

  function Rekeyed(sessions: set<SessionKey>, before: Holding, h: Holding): set<SessionKey> {
    if before.registered && !h.registered then sessions - {before.key}
    else if h.registered && !before.registered then sessions + {h.key}
    else sessions
  }

  lemma KeysAfter(ws: Workers, w: Worker, h: Holding)
    requires forall v, u, k {:trigger Owns(ws, v, k), Owns(ws, u, k)} :: Owns(ws, v, k) && Owns(ws, u, k) ==> v == u
    requires h.registered && Held(ws, w).registered ==> h.key == Held(ws, w).key
    requires h.registered && !Held(ws, w).registered ==> h.key !in LiveKeys(ws)
    ensures LiveKeys(Holds(ws, w, h)) == Rekeyed(LiveKeys(ws), Held(ws, w), h)
    ensures forall v, u, k {:trigger Owns(Holds(ws, w, h), v, k), Owns(Holds(ws, w, h), u, k)} ::
      Owns(Holds(ws, w, h), v, k) && Owns(Holds(ws, w, h), u, k) ==> v == u
  {
    var ws' := Holds(ws, w, h);
    forall v, k
      ensures v != w ==> (Owns(ws', v, k) <==> Owns(ws, v, k))
      ensures Owns(ws', w, k) <==> h.registered && h.key == k
      ensures Owns(ws, v, k) ==> k in LiveKeys(ws)
    {
      if v != w {
        OthersSame(ws, w, h, v);
      }
    }
    forall k
      ensures k in LiveKeys(ws') <==> k in Rekeyed(LiveKeys(ws), Held(ws, w), h)
    {
      if k in LiveKeys(ws') {
        var v :| v in ws' && ws'[v].registered && ws'[v].key == k;
        assert Owns(ws', v, k);
      }
      if k in LiveKeys(ws) {
        var v :| v in ws && ws[v].registered && ws[v].key == k;
        assert Owns(ws, v, k);
        if v != w {
          assert Owns(ws', v, k) && ws'[v].key in LiveKeys(ws');
        }
      }
      if h.registered && h.key == k {
        assert Owns(ws', w, k) && ws'[w].key in LiveKeys(ws');
      }
      assert Owns(ws, w, Held(ws, w).key) || !Held(ws, w).registered;
    }
  }

  /** The bookkeeping that goes with a change of one worker's holding. */
  function Rebooked(b: Books, before: Holding, h: Holding): Books {
    var c := if h.client == before.client then b
             else if before.client.None? then Gained(b, h.client.value)
             else Dropped(b, before.client.value);
    Books(b.pending - One(before.pending) + One(h.pending), b.active - One(before.active) + One(h.active),
          c.clientActive, Rekeyed(b.sessions, before, h))
  }

  /** One worker changes what it holds and books it: everybody's accounts stay balanced. */
  lemma Rebalance(limits: Limits, capability: bool, ws: Workers, b: Books, w: Worker, h: Holding)
    requires Balanced(limits, capability, ws, b) && limits.ActivePerClient() > 0
    requires h.client.None? || Held(ws, w).client.None? || h.client == Held(ws, w).client
    requires h.registered && Held(ws, w).registered ==> h.key == Held(ws, w).key
    requires h.registered && !Held(ws, w).registered ==> h.key !in b.sessions
    requires h.active && capability ==> h.client.Some?
    requires Rebooked(b, Held(ws, w), h).pending <= limits.pending && Rebooked(b, Held(ws, w), h).active <= limits.active
    requires h.client.Some? && Held(ws, w).client.None? ==> Rebooked(b, Held(ws, w), h).Account(h.client.value) <= limits.ActivePerClient()
    ensures Balanced(limits, capability, Holds(ws, w, h), Rebooked(b, Held(ws, w), h))
  {
    var ws', b' := Holds(ws, w, h), Rebooked(b, Held(ws, w), h);
    SlotsAfter(ws, w, h);
    KeysAfter(ws, w, h);
    ClientAccountsAfter(ws, w, h, b);
    AccountsWithin(limits, ws, b, Held(ws, w), h);
    assert ClientAccounts(ws', b');
    forall v
      ensures Sound(ws', v, capability)
    {
      assert Sound(ws, v, capability);
      if v != w {
        OthersSame(ws, w, h, v);
      }
    }
  }

  lemma AccountsWithin(limits: Limits, ws: Workers, b: Books, before: Holding, h: Holding)
    requires limits.ActivePerClient() > 0 && forall c {:trigger b.Account(c)} :: b.Account(c) <= limits.ActivePerClient()
    requires h.client.Some? && before.client.None? ==> Rebooked(b, before, h).Account(h.client.value) <= limits.ActivePerClient()
    requires h.client.None? || before.client.None? || h.client == before.client
    ensures forall c {:trigger Rebooked(b, before, h).Account(c)} :: Rebooked(b, before, h).Account(c) <= limits.ActivePerClient()
  {
    forall c
      ensures Rebooked(b, before, h).Account(c) <= limits.ActivePerClient()
    {
      assert b.Account(c) <= limits.ActivePerClient();
    }
  }

  // -------------------------------------------------------- interleavings of workers

  /** The atomic sections, each one event of one worker. A release gives back what the deferred
      calls have next. */
  datatype Event =
    | Reserve(worker: Worker, key: SessionKey)
    | Enlist(worker: Worker)
    | OpenAccount(worker: Worker, client: Id)
    | Activate(worker: Worker)
    | Enter(worker: Worker)
    | Fail(worker: Worker)
    | Release(worker: Worker)

  datatype State = State(workers: Workers, books: Books)

  const QUIET := State(map[], Books(0, 0, map[], {}))

  function Reserved(key: SessionKey): Holding {
    Holding(key, false, true, false, None, false)
  }

  predicate Waits(h: Holding) {
    h.registered && h.pending && !h.active && !h.leaving
  }

  /** The order that each worker keeps; what the others do meanwhile is open. */
  predicate Enabled(capability: bool, s: State, e: Event) {
    if e.Reserve? then e.worker !in s.workers
    else
      && e.worker in s.workers
      && var h := s.workers[e.worker];
      match e
      case Reserve(_, _) => false
      case Enlist(_) => h == Reserved(h.key)
      case OpenAccount(_, _) => capability && Waits(h) && h.client.None?
      case Activate(_) => Waits(h) && (capability ==> h.client.Some?)
      case Enter(_) => h.active && h.pending && !h.leaving
      case Fail(_) => true
      case Release(_) => h.leaving
  }

  /** What the worker holds after the event, given what the books say at that moment. */
  function Outcome(limits: Limits, capability: bool, s: State, e: Event): Holding
    requires Enabled(capability, s, e)
  {
    var h := Held(s.workers, e.worker);
    match e
    case Reserve(_, key) => if s.books.pending < limits.pending then Reserved(key) else h
    case Enlist(_) => if h.key !in s.books.sessions then h.(registered := true) else h.(leaving := true)
    case OpenAccount(_, c) => if s.books.Account(c) < limits.ActivePerClient() then h.(client := Some(c)) else h.(leaving := true)
    case Activate(_) => if s.books.active < limits.active then h.(active := true) else h.(leaving := true)
    case Enter(_) => h.(pending := false)
    case Fail(_) => h.(leaving := true)
    case Release(_) =>
      if h.active then h.(active := false)
      else if h.client.Some? then h.(client := None)
      else if h.pending then h.(pending := false)
      else h.(registered := false)
  }

  function Step(limits: Limits, capability: bool, s: State, e: Event): State
    requires Enabled(capability, s, e)
  {
    var h := Outcome(limits, capability, s, e);
    State(Holds(s.workers, e.worker, h), Rebooked(s.books, Held(s.workers, e.worker), h))
  }

  predicate Steps(limits: Limits, capability: bool, s: State, e: Event, s': State) {
    Enabled(capability, s, e) && s' == Step(limits, capability, s, e)
  }

  predicate StepsAt(limits: Limits, capability: bool, states: seq<State>, events: seq<Event>, k: nat)
    requires k < |events| < |states|
  {
    Steps(limits, capability, states[k], events[k], states[k + 1])
  }

  /** `states[k + 1]` is where event `k` of the interleaving leads from `states[k]`. */
  ghost predicate Interleaving(limits: Limits, capability: bool, states: seq<State>, events: seq<Event>) {
    && |states| == |events| + 1 && states[0] == QUIET
    && forall k: nat {:trigger StepsAt(limits, capability, states, events, k)} :: k < |events| ==> StepsAt(limits, capability, states, events, k)
  }

  lemma EventKeepsBalance(limits: Limits, capability: bool, s: State, e: Event)
    requires limits.Valid(capability) && Balanced(limits, capability, s.workers, s.books) && Enabled(capability, s, e)
    ensures Balanced(limits, capability, Step(limits, capability, s, e).workers, Step(limits, capability, s, e).books)
  {
    var h := Outcome(limits, capability, s, e);
    assert Sound(s.workers, e.worker, capability);
    Rebalance(limits, capability, s.workers, s.books, e.worker, h);
  }

  lemma QuietIsBalanced(limits: Limits, capability: bool)
    requires limits.Valid(capability)
    ensures Balanced(limits, capability, QUIET.workers, QUIET.books)
  {
    assert PendingHolders(map[]) == {} && ActiveHolders(map[]) == {} && LiveKeys(map[]) == {};
    assert forall c :: ClientHolders(map[], c) == {};
  }

  /** However the atomic sections of however many workers interleave, every counter is the number
      of its holders at every moment, and within its limit. */
  lemma {:induction false} InterleavingIsBalanced(limits: Limits, capability: bool, states: seq<State>, events: seq<Event>, k: nat)
    requires limits.Valid(capability) && Interleaving(limits, capability, states, events) && k < |states|
    ensures Balanced(limits, capability, states[k].workers, states[k].books)
  {
    if k == 0 {
      QuietIsBalanced(limits, capability);
    } else {
      InterleavingIsBalanced(limits, capability, states, events, k - 1);
      assert StepsAt(limits, capability, states, events, k - 1);
      EventKeepsBalance(limits, capability, states[k - 1], events[k - 1]);
    }
  }

  /** How much a worker has still to give back. */
  function Weight(h: Holding): nat {
    One(h.active) + One(h.client.Some?) + One(h.pending) + One(h.registered)
  }

  function Releases(events: seq<Event>, w: Worker): nat {
    if events == [] then 0
    else Releases(events[..|events| - 1], w) + (if events[|events| - 1] == Release(w) then 1 else 0)
  }

  predicate Starts(events: seq<Event>, w: Worker) {
    exists k :: 0 <= k < |events| && events[k].Reserve? && events[k].worker == w
  }

  lemma NoLateStart(events: seq<Event>, w: Worker)
    requires events != [] && !Starts(events, w)
    ensures !Starts(events[..|events| - 1], w)
  {
    var early := events[..|events| - 1];
    assert forall k | 0 <= k < |early| :: early[k] == events[k];
  }

  predicate Leaves(s: State, w: Worker) {
    w in s.workers ==> s.workers[w].leaving
  }

  lemma WorkerIsSound(limits: Limits, capability: bool, states: seq<State>, events: seq<Event>, k: nat, w: Worker)
    requires limits.Valid(capability) && Interleaving(limits, capability, states, events) && k < |states|
    ensures Sound(states[k].workers, w, capability)
  {
    InterleavingIsBalanced(limits, capability, states, events, k);
  }

  lemma EventGivesBack(limits: Limits, capability: bool, s: State, e: Event, s': State, w: Worker)
    requires Steps(limits, capability, s, e, s') && Sound(s.workers, w, capability)
    requires Leaves(s, w) && !(e.Reserve? && e.worker == w)
    ensures Leaves(s', w)
    ensures Weight(Held(s'.workers, w)) + (if e == Release(w) then 1 else 0) == Weight(Held(s.workers, w))
  {
    if e.worker != w {
      OthersSame(s.workers, e.worker, Outcome(limits, capability, s, e), w);
    }
  }

  /** A worker that leaves gives back one thing with each release of its own, whatever the others
      do in between: with as many releases as it held things it is gone. */
  lemma {:induction false} LeavingGivesBack(limits: Limits, capability: bool, states: seq<State>, events: seq<Event>, i: nat, j: nat, w: Worker)
    requires limits.Valid(capability) && Interleaving(limits, capability, states, events) && i <= j < |states|
    requires Leaves(states[i], w) && !Starts(events[i..j], w)
    ensures Leaves(states[j], w)
    ensures Weight(Held(states[j].workers, w)) + Releases(events[i..j], w) == Weight(Held(states[i].workers, w))
    ensures w !in states[j].workers <==> Releases(events[i..j], w) == Weight(Held(states[i].workers, w))
    decreases j
  {
    WorkerIsSound(limits, capability, states, events, j, w);
    if i < j {
      var es, e := events[i..j], events[j - 1];
      assert es[..|es| - 1] == events[i..j - 1] && es[|es| - 1] == e;
      NoLateStart(es, w);
      LeavingGivesBack(limits, capability, states, events, i, j - 1, w);
      WorkerIsSound(limits, capability, states, events, j - 1, w);
      assert StepsAt(limits, capability, states, events, j - 1);
      EventGivesBack(limits, capability, states[j - 1], e, states[j], w);
    }
  }

  // ------------------------------------------------------------------- the service

  /** Where a session ends: before it asks for its slots (carrier, either handshake, the peer's
      identity), or behind them (local dial, READY, copying, its lifetime). */
  datatype Failure = BeforeSlots | BehindSlots

  class Admission {
    const limits: Limits
    const capability: bool
    var pending: int
    var active: int
    var clientActive: map<Id, int>
    var sessions: set<SessionKey>
    ghost var workers: Workers

    ghost function Kept(): Books
      reads this
    {
      Books(pending, active, clientActive, sessions)
    }

    ghost function Now(): State
      reads this
    {
      State(workers, Kept())
    }

    ghost predicate Valid()
      reads this
    {
      limits.Valid(capability) && Balanced(limits, capability, workers, Kept())
    }

    constructor (limits: Limits, capability: bool)
      requires limits.Valid(capability)
      ensures Valid() && workers == map[]
    {
      this.limits, this.capability := limits, capability;
      pending, active, clientActive, sessions := 0, 0, map[], {};
      workers := map[];
      new;
      QuietIsBalanced(limits, capability);
    }

    /** The event has happened: nothing else has changed. */
    twostate predicate Did(e: Event)
      reads this
    {
      Steps(limits, capability, old(Now()), e, Now())
    }

    /** `acceptOpen`: a pending token, or the open is cancelled. */
    method TryReserve(ghost w: Worker, key: SessionKey) returns (ok: bool)
      requires Valid() && w !in workers
      modifies this
      ensures ok ==> Did(Reserve(w, key))
      ensures Valid()
      ensures ok <==> |PendingHolders(old(workers))| < limits.pending
      ensures sessions == old(sessions)
      ensures workers == if ok then old(workers)[w := Holding(key, false, true, false, None, false)] else old(workers)
    {
      ghost var before := Now();
      ok := pending < limits.pending;
      if ok {
        workers := Holds(workers, w, Reserved(key));
        pending := pending + 1;
        EventKeepsBalance(limits, capability, before, Reserve(w, key));
      }
    }

    /** `acceptOpen`: a key that is live already is refused; its token goes back next. */
    method Register(ghost w: Worker, key: SessionKey) returns (ok: bool)
      requires Valid() && w in workers && workers[w] == Holding(key, false, true, false, None, false)
      modifies this
      ensures Did(Enlist(w))
      ensures Valid()
      ensures ok <==> key !in LiveKeys(old(workers))
      ensures workers == old(workers)[w := Holding(key, ok, true, false, None, !ok)]
    {
      ghost var before := Now();
      ok := key !in sessions;
      workers := Holds(workers, w, Holding(key, ok, true, false, None, !ok));
      if ok {
        sessions := sessions + {key};
      }
      EventKeepsBalance(limits, capability, before, Enlist(w));
    }

    /** `acceptOpen`: the worker that starts holds its pending token and its key; every other
        open leaves nothing behind. `allowed` is the rate limiter's answer. */
    method AcceptOpen(ghost w: Worker, key: SessionKey, allowed: bool) returns (started: bool)
      requires Valid() && w !in workers
      modifies this
      ensures Valid()
      ensures started <==> allowed && |PendingHolders(old(workers))| < limits.pending && key !in LiveKeys(old(workers))
      ensures workers == if started then old(workers)[w := Holding(key, true, true, false, None, false)] else old(workers)
    {
      if !allowed {
        return false;
      }
      started := TryReserve(w, key);
      if !started {
        return;
      }
      started := Register(w, key);
      if !started {
        ReleasePending(w);
        assert workers == old(workers);
      }
    }

    /** The account of an authenticated client. */
    method TryAcquireClientActive(ghost w: Worker, c: Id) returns (ok: bool)
      requires Valid() && capability && w in workers && !workers[w].leaving
      requires workers[w].registered && workers[w].pending && workers[w].client.None? && !workers[w].active
      modifies this
      ensures Did(OpenAccount(w, c))
      ensures Valid()
      ensures ok <==> |ClientHolders(old(workers), c)| < limits.ActivePerClient()
      ensures workers == old(workers)[w := if ok then old(workers[w]).(client := Some(c)) else old(workers[w]).(leaving := true)]
    {
      ghost var before := Now();
      assert Kept().Account(c) == |ClientHolders(workers, c)|;
      var current := if c in clientActive then clientActive[c] else 0;
      ok := current < limits.ActivePerClient();
      workers := Holds(workers, w, if ok then workers[w].(client := Some(c)) else workers[w].(leaving := true));
      if ok {
        clientActive := clientActive[c := current + 1];
      }
      EventKeepsBalance(limits, capability, before, OpenAccount(w, c));
    }

    /** The only slots behind which the local service is dialled. */
    method TryAcquireActive(ghost w: Worker) returns (ok: bool)
      requires Valid() && w in workers && !workers[w].leaving
      requires workers[w].registered && workers[w].pending && !workers[w].active && (capability ==> workers[w].client.Some?)
      modifies this
      ensures Did(Activate(w))
      ensures Valid()
      ensures ok <==> |ActiveHolders(old(workers))| < limits.active
      ensures workers == old(workers)[w := if ok then old(workers[w]).(active := true) else old(workers[w]).(leaving := true)]
    {
      ghost var before := Now();
      ok := active < limits.active;
      workers := Holds(workers, w, if ok then workers[w].(active := true) else workers[w].(leaving := true));
      if ok {
        active := active + 1;
      }
      EventKeepsBalance(limits, capability, before, Activate(w));
    }

    /** `enteredActive`: the pending token goes back as soon as the active one is held. */
    method EnterActive(ghost w: Worker)
      requires Valid() && w in workers && !workers[w].leaving && workers[w].active && workers[w].pending
      modifies this
      ensures Did(Enter(w))
      ensures Valid() && workers == old(workers)[w := old(workers[w]).(pending := false)]
    {
      ghost var before := Now();
      workers := Holds(workers, w, workers[w].(pending := false));
      pending := pending - 1;
      EventKeepsBalance(limits, capability, before, Enter(w));
    }

    /** Any error, and the end of the session: the deferred releases start. */
    ghost method Leave(w: Worker)
      requires Valid() && w in workers
      modifies this`workers
      ensures Did(Fail(w))
      ensures Valid() && workers == old(workers)[w := old(workers[w]).(leaving := true)]
    {
      var before := Now();
      assert Sound(workers, w, capability);
      workers := Holds(workers, w, workers[w].(leaving := true));
      EventKeepsBalance(limits, capability, before, Fail(w));
    }

    method ReleaseActive(ghost w: Worker)
      requires Valid() && w in workers && workers[w].leaving && workers[w].active
      modifies this
      ensures Did(Release(w))
      ensures Valid() && workers == Holds(old(workers), w, old(workers[w]).(active := false))
    {
      ghost var before := Now();
      workers := Holds(workers, w, workers[w].(active := false));
      active := active - 1;
      EventKeepsBalance(limits, capability, before, Release(w));
    }

    method ReleaseClientActive(ghost w: Worker, c: Id)
      requires Valid() && w in workers && workers[w].leaving && !workers[w].active && workers[w].client == Some(c)
      modifies this
      ensures Did(Release(w))
      ensures Valid() && workers == Holds(old(workers), w, old(workers[w]).(client := None))
    {
      ghost var before := Now();
      workers := Holds(workers, w, workers[w].(client := None));
      var current := if c in clientActive then clientActive[c] else 0;
      if current <= 1 {
        clientActive := clientActive - {c};
      } else {
        clientActive := clientActive[c := current - 1];
      }
      EventKeepsBalance(limits, capability, before, Release(w));
    }

    /** Only where `enteredActive` has not given it back already. */
    method ReleasePending(ghost w: Worker)
      requires Valid() && w in workers && workers[w].leaving && !workers[w].active && workers[w].client.None? && workers[w].pending
      modifies this
      ensures Did(Release(w))
      ensures Valid() && workers == Holds(old(workers), w, old(workers[w]).(pending := false))
    {
      ghost var before := Now();
      workers := Holds(workers, w, workers[w].(pending := false));
      pending := pending - 1;
      EventKeepsBalance(limits, capability, before, Release(w));
    }

    /** Last of all, the session key. */
    method Unregister(ghost w: Worker, key: SessionKey)
      requires Valid() && w in workers && workers[w].leaving && workers[w].registered && workers[w].key == key
      requires !workers[w].active && workers[w].client.None? && !workers[w].pending
      modifies this
      ensures Did(Release(w))
      ensures Valid() && workers == old(workers) - {w}
    {
      ghost var before := Now();
      workers := Holds(workers, w, workers[w].(registered := false));
      sessions := sessions - {key};
      EventKeepsBalance(limits, capability, before, Release(w));
    }

    // ------------------------------------------------------------- one whole session

    method AcquireAccount(ghost w: Worker, key: SessionKey, client: Id) returns (held: Holding, ok: bool)
      requires Valid() && w in workers && workers[w] == Holding(key, true, true, false, None, false)
      modifies this
      ensures Valid() && workers == old(workers)[w := held]
      ensures held == Holding(key, true, true, false, if ok && capability then Some(client) else None, !ok)
    {
      ok := true;
      if capability {
        ok := TryAcquireClientActive(w, client);
      }
      held := Holding(key, true, true, false, if ok && capability then Some(client) else None, !ok);
    }

    /** The slots of an authenticated session, in `serveInner`. */
    method AcquireInner(ghost w: Worker, key: SessionKey, client: Id) returns (held: Holding, ok: bool)
      requires Valid() && w in workers && workers[w] == Holding(key, true, true, false, None, false)
      modifies this
      ensures Valid() && workers == old(workers)[w := held] && held.registered && held.key == key
      ensures if ok then held.active && !held.pending else !held.active && held.pending
    {
      held, ok := AcquireAccount(w, key, client);
      if !ok {
        return;
      }
      ok := TryAcquireActive(w);
      if !ok {
        return held.(leaving := true), false;
      }
      EnterActive(w);
      held := held.(active := true, pending := false);
    }

    /** The deferred releases of `serveInner`: the active slot, then the client's account. */
    method LeaveInner(ghost w: Worker, held: Holding)
      requires Valid() && w in workers && workers[w] == held && held.registered && held.leaving
      modifies this
      ensures Valid() && workers == old(workers)[w := held.(active := false, client := None)]
    {
      if held.active {
        ReleaseActive(w);
      }
      if held.client.Some? {
        ReleaseClientActive(w, held.client.value);
      }
    }

    /** The deferred releases of a session, in their order. */
    method EndSession(ghost w: Worker, key: SessionKey, held: Holding)
      requires Valid() && w in workers && workers[w] == held && held.registered && held.key == key
      modifies this
      ensures Valid() && workers == old(workers) - {w}
    {
      Leave(w);
      LeaveInner(w, held.(leaving := true));
      if held.pending {
        ReleasePending(w);
      }
      Unregister(w, key);
    }

    /** One worker from its registration to its end: wherever it fails, and whether or not it
        gets its slots, it returns everything that it took. */
    method RunSession(ghost w: Worker, key: SessionKey, client: Id, failure: Failure)
      requires Valid() && w in workers && workers[w] == Holding(key, true, true, false, None, false)
      modifies this
      ensures Valid() && workers == old(workers) - {w}
    {
      var held := Holding(key, true, true, false, None, false);
      if !failure.BeforeSlots? {
        var ok;
        held, ok := AcquireInner(w, key, client);
      }
      EndSession(w, key, held);
    }
  }

  /** A quiescent connector has given everything back. */
  lemma QuiescentIsEmpty(limits: Limits, capability: bool, b: Books)
    requires Balanced(limits, capability, map[], b)
    ensures b == Books(0, 0, map[], {})
  {
    assert PendingHolders(map[]) == {} && ActiveHolders(map[]) == {} && LiveKeys(map[]) == {};
    forall c
      ensures c !in b.clientActive
    {
      assert ClientHolders(map[], c) == {};
      assert b.Account(c) == 0;
    }
  }

  /** With the capability profile and more than one slot, no client ever holds every slot. */
  lemma NoClientHoldsEverySlot(limits: Limits, ws: Workers, b: Books, c: Id)
    requires limits.Valid(true) && limits.active > 1 && Balanced(limits, true, ws, b)
    ensures |ActiveHolders(ws) * ClientHolders(ws, c)| < limits.active
    ensures |ActiveHolders(ws)| == limits.active ==> exists w <- ActiveHolders(ws) :: ws[w].client.Some? && ws[w].client != Some(c)
  {
    var own := ActiveHolders(ws) * ClientHolders(ws, c);
    SubsetIsSmaller(own, ClientHolders(ws, c));
    assert b.Account(c) <= limits.ActivePerClient();
    if |ActiveHolders(ws)| == limits.active {
      assert own != ActiveHolders(ws);
      var w :| w in ActiveHolders(ws) && w !in own;
      assert Sound(ws, w, true);
    }
  }

  /** No session key is live in two workers. */
  lemma OneWorkerPerKey(limits: Limits, capability: bool, ws: Workers, b: Books, v: Worker, w: Worker)
    requires Balanced(limits, capability, ws, b) && v in ws && w in ws
    requires ws[v].registered && ws[w].registered && ws[v].key == ws[w].key
    ensures v == w && ws[w].key in b.sessions
  {
    assert Owns(ws, v, ws[w].key) && Owns(ws, w, ws[w].key);
  }

  lemma SubsetIsSmaller<T>(s: set<T>, t: set<T>)
    requires s <= t
    ensures |s| <= |t|
  {
    assert t == s + (t - s);
  }
}
