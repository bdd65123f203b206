/**
  The opaque two-slot mailbox arena: bounded, write-once, expiring and byte-accounted.
  Source: internal/enrollmentexchange/mailbox_store.go.

  Every operation is atomic under the mutex, but it reads the clock before it takes the lock:
  here each operation is given an arbitrary reading, so readings may go back.
*/
module Mailbox {
  import opened Common
  import Capability

  const MAX_SLOTS := 1024
  const MAX_STORED := 32 * 1024 * 1024
  const MAX_LIFETIME := 24 * 60 * 60 * 1_000_000_000

  datatype Action = RequestWrite | RequestRead | ResponseWrite | ResponseRead

  function ActionName(a: Action): string {
    match a
    case RequestWrite => "request-write"
    case RequestRead => "request-read"
    case ResponseWrite => "response-write"
    case ResponseRead => "response-read"
  }

  /** SHA-256, taken to be injective: the digest of some text names that text. */
  datatype ActionDigest = Sha256(preimage: string)

  const LABEL := "OwnTransit mailbox action capability v1"

  function ActionHash(id: Id, a: Action, capability: string): ActionDigest {
    Sha256(Join(LABEL, Join(ActionName(a), Join(id, capability))))
  }

  /** Canonical lowercase base32 of 32 bytes that are not all zero; only its shape matters. */
  predicate CanonicalId(id: Id) {
    && |id| == 52 && (forall k | 0 <= k < 52 :: 'a' <= id[k] <= 'z' || '2' <= id[k] <= '7')
    && (id[51] == 'a' || id[51] == 'q') && (exists k | 0 <= k < 52 :: id[k] != 'a')
  }

  lemma ActionNamesDiffer(a: Action, b: Action)
    ensures NoNul(ActionName(a))
    ensures ActionName(a) == ActionName(b) ==> a == b
  {
    assert |"request-write"| == 13 && |"request-read"| == 12 && |"response-write"| == 14 && |"response-read"| == 13;
    assert "request-write"[2] == 'q' && "response-read"[2] == 's';
  }

  /** One digest stands for one mailbox, one action and one capability. */
  lemma ActionHashIsExact(id: Id, a: Action, c: string, id': Id, a': Action, c': string)
    requires NoNul(id) && NoNul(id') && ActionHash(id, a, c) == ActionHash(id', a', c')
    ensures id == id' && a == a' && c == c'
  {
    JoinCancels(LABEL, Join(ActionName(a), Join(id, c)), Join(ActionName(a'), Join(id', c')));
    ActionNamesDiffer(a, a');
    ActionNamesDiffer(a', a);
    JoinSplits(ActionName(a), Join(id, c), ActionName(a'), Join(id', c'));
    JoinSplits(id, c, id', c');
  }

  // ------------------------------------------------------------------------- slots

  datatype Keys = Keys(requestWrite: ActionDigest, requestRead: ActionDigest, responseWrite: ActionDigest, responseRead: ActionDigest)
  {
    function For(a: Action): ActionDigest {
      match a
      case RequestWrite => requestWrite
      case RequestRead => requestRead
      case ResponseWrite => responseWrite
      case ResponseRead => responseRead
    }
  }

  /** The empty byte string means that nothing has been put. */
  datatype Slot = Slot(expires: int, keys: Keys, request: Bytes, response: Bytes, consumed: bool)
  {
    predicate Authorized(id: Id, a: Action, capability: string) {
      ActionHash(id, a, capability) == keys.For(a)
    }

    function Size(): nat {
      |request| + |response|
    }

    predicate Valid() {
      |request| <= MAX_ENCRYPTED_REQUEST && |response| <= MAX_BOUND_RESPONSE && (consumed ==> request == [] && response == [])
    }
  }

  type Arena = map<Id, Slot>

  /** The four capabilities of one invitation. */
  datatype Grant = Grant(requestWrite: string, requestRead: string, responseWrite: string, responseRead: string)
  {
    function For(a: Action): string {
      match a
      case RequestWrite => requestWrite
      case RequestRead => requestRead
      case ResponseWrite => responseWrite
      case ResponseRead => responseRead
    }

    function Texts(): seq<string> {
      [requestWrite, requestRead, responseWrite, responseRead]
    }
  }

  function KeysOf(id: Id, g: Grant): Keys {
    Keys(ActionHash(id, RequestWrite, g.requestWrite), ActionHash(id, RequestRead, g.requestRead),
         ActionHash(id, ResponseWrite, g.responseWrite), ActionHash(id, ResponseRead, g.responseRead))
  }

  /** Four canonical capabilities, no two of them the same 256 bits. */
  predicate Acceptable(g: Grant) {
    && (forall k | 0 <= k < 4 :: Capability.Parse(g.Texts()[k]).Some?)
    && (forall k, l | 0 <= l < k < 4 :: Capability.Parse(g.Texts()[k]) != Capability.Parse(g.Texts()[l]))
  }

  /** Each of the four capabilities authorizes exactly the one action it was made for. */
  lemma OneActionEach(id: Id, g: Grant, expires: int, a: Action, b: Action, c: string)
    requires CanonicalId(id) && Acceptable(g)
    ensures var s := Slot(expires, KeysOf(id, g), [], [], false);
      (s.Authorized(id, a, c) <==> c == g.For(a)) && (s.Authorized(id, b, g.For(a)) <==> b == a)
  {
    if ActionHash(id, a, c) == ActionHash(id, a, g.For(a)) {
      ActionHashIsExact(id, a, c, id, a, g.For(a));
    }
    if ActionHash(id, b, g.For(a)) == ActionHash(id, b, g.For(b)) {
      ActionHashIsExact(id, b, g.For(a), id, b, g.For(b));
    }
    assert g.Texts()[0] == g.requestWrite && g.Texts()[1] == g.requestRead;
    assert g.Texts()[2] == g.responseWrite && g.Texts()[3] == g.responseRead;
  }

  // ------------------------------------------------- the arena as a plain expiring map

  datatype Side = Request | Response

  function WriteAction(side: Side): Action {
    if side.Request? then RequestWrite else ResponseWrite
  }

  function ReadAction(side: Side): Action {
    if side.Request? then RequestRead else ResponseRead
  }

  function Limit(side: Side): nat {
    if side.Request? then MAX_ENCRYPTED_REQUEST else MAX_BOUND_RESPONSE
  }

  function Stored(s: Slot, side: Side): Bytes {
    if side.Request? then s.request else s.response
  }

  function Storing(s: Slot, side: Side, bytes: Bytes): Slot {
    if side.Request? then s.(request := bytes) else s.(response := bytes)
  }

  datatype Op =
    | Create(id: Id, grant: Grant, expires: int)
    | Put(id: Id, side: Side, capability: string, bytes: Bytes)
    | Read(id: Id, side: Side, capability: string)
    | Consume(id: Id, capability: string)

  datatype Reply = Unavailable | Done | Content(bytes: Bytes)

  ghost function Total(m: Arena): nat
    decreases |m|
  {
    if m == map[] then 0
    else
      var k :| k in m;
      m[k].Size() + Total(m - {k})
  }

  lemma {:induction false} TotalSplit(m: Arena, k: Id)
    requires k in m
    ensures Total(m) == m[k].Size() + Total(m - {k})
    decreases |m|
  {
    var j :| j in m && Total(m) == m[j].Size() + Total(m - {j});
    if j != k {
      TotalSplit(m - {j}, k);
      TotalSplit(m - {k}, j);
      assert m - {j} - {k} == m - {k} - {j};
    }
  }

  lemma TotalOfUpdate(m: Arena, k: Id, s: Slot)
    ensures Total(m[k := s]) == s.Size() + Total(m - {k})
  {
    TotalSplit(m[k := s], k);
    assert m[k := s] - {k} == m - {k};
  }

  function Live(m: Arena, now: int): Arena {
    map id | id in m && now < m[id].expires :: m[id]
  }

  /** What an operation refuses before it takes the lock. */
  predicate Refused(now: int, op: Op) {
    match op
    case Create(id, g, expires) => !CanonicalId(id) || !Acceptable(g) || !(now < expires <= now + MAX_LIFETIME)
    case Put(_, side, capability, bytes) => bytes == [] || |bytes| > Limit(side) || !Capability.Canonical(capability)
    case Read(_, _, capability) => !Capability.Canonical(capability)
    case Consume(_, _) => false
  }

  /** The reference: an expiring map, and the room that is left in it. */
  ghost function Step(m: Arena, now: int, op: Op): (Arena, Reply) {
    if Refused(now, op) then (m, Unavailable)
    else
      var live := Live(m, now);
      match op
      case Create(id, g, expires) =>
        if id in live then (live, if live[id].expires == expires && live[id].keys == KeysOf(id, g) then Done else Unavailable)
        else if |live| >= MAX_SLOTS then (live, Unavailable)
        else (live[id := Slot(expires, KeysOf(id, g), [], [], false)], Done)
      case Put(id, side, capability, bytes) =>
        if id !in live || live[id].consumed || !live[id].Authorized(id, WriteAction(side), capability) then (live, Unavailable)
        else if Stored(live[id], side) != [] then (live, if Stored(live[id], side) == bytes then Done else Unavailable)
        else if Total(live) > MAX_STORED - |bytes| then (live, Unavailable)
        else (live[id := Storing(live[id], side, bytes)], Done)
      case Read(id, side, capability) =>
        if id !in live || live[id].consumed || !live[id].Authorized(id, ReadAction(side), capability) || Stored(live[id], side) == [] then
          (live, Unavailable)
        else (live, Content(Stored(live[id], side)))
      case Consume(id, capability) =>
        if id !in live || !live[id].Authorized(id, ResponseRead, capability) then (live, Unavailable)
        else (live[id := live[id].(request := [], response := [], consumed := true)], Done)
  }

  ghost predicate Bounded(m: Arena) {
    && |m| <= MAX_SLOTS && Total(m) <= MAX_STORED
    && (forall id <- m :: m[id].Valid())
  }

  // --------------------------------------------------------------------- the store

  class MailboxStore {
    var slots: map<Id, Slot>
    var storedBytes: int

    ghost predicate Valid()
      reads this
    {
      Bounded(slots) && storedBytes == Total(slots)
    }

    constructor ()
      ensures Valid() && slots == map[]
    {
      slots, storedBytes := map[], 0;
    }

    /** Drops every expired slot. The count never goes below zero. */
    method Expire(now: int)
      requires Valid()
      modifies this
      ensures Valid() && slots == Live(old(slots), now)
    {
      var rest := slots.Keys;
      while rest != {}
        invariant rest <= slots.Keys
        invariant forall id <- slots :: id in old(slots) && slots[id] == old(slots)[id]
        invariant forall id <- old(slots) :: id in slots <==> id in rest || now < old(slots)[id].expires
        invariant Valid()
        decreases |rest|
      {
        var id :| id in rest;
        if !(now < slots[id].expires) {
          TotalSplit(slots, id);
          storedBytes := storedBytes - slots[id].Size();
          slots := slots - {id};
        }
        rest := rest - {id};
      }
      assert slots == Live(old(slots), now);
      assert storedBytes >= 0;
      storedBytes := if storedBytes < 0 then 0 else storedBytes;
    }

    method Create(id: Id, g: Grant, expires: int, now: int) returns (reply: Reply)
      requires Valid()
      modifies this
      ensures Valid() && (slots, reply) == Step(old(slots), now, Op.Create(id, g, expires))
    {
      if Refused(now, Op.Create(id, g, expires)) {
        return Unavailable;
      }
      Expire(now);
      if id in slots {
        return if slots[id].expires == expires && slots[id].keys == KeysOf(id, g) then Done else Unavailable;
      }
      if |slots| >= MAX_SLOTS {
        return Unavailable;
      }
      var s := Slot(expires, KeysOf(id, g), [], [], false);
      TotalOfUpdate(slots, id, s);
      assert slots - {id} == slots;
      slots := slots[id := s];
      return Done;
    }

    method Put(id: Id, side: Side, capability: string, bytes: Bytes, now: int) returns (reply: Reply)
      requires Valid()
      modifies this
      ensures Valid() && (slots, reply) == Step(old(slots), now, Op.Put(id, side, capability, bytes))
    {
      Capability.AcceptedTexts(capability);
      if bytes == [] || |bytes| > Limit(side) || Capability.Parse(capability).None? {
        return Unavailable;
      }
      Expire(now);
      if id !in slots || slots[id].consumed || !(now < slots[id].expires) || !slots[id].Authorized(id, WriteAction(side), capability) {
        return Unavailable;
      }
      var stored := Stored(slots[id], side);
      if stored != [] {
        return if stored == bytes then Done else Unavailable;
      }
      if storedBytes > MAX_STORED - |bytes| {
        return Unavailable;
      }
      TotalSplit(slots, id);
      TotalOfUpdate(slots, id, Storing(slots[id], side, bytes));
      slots := slots[id := Storing(slots[id], side, bytes)];
      storedBytes := storedBytes + |bytes|;
      return Done;
    }

    method Read(id: Id, side: Side, capability: string, now: int) returns (reply: Reply)
      requires Valid()
      modifies this
      ensures Valid() && (slots, reply) == Step(old(slots), now, Op.Read(id, side, capability))
    {
      Capability.AcceptedTexts(capability);
      if Capability.Parse(capability).None? {
        return Unavailable;
      }
      Expire(now);
      if id !in slots || slots[id].consumed || !(now < slots[id].expires) || !slots[id].Authorized(id, ReadAction(side), capability) {
        return Unavailable;
      }
      var stored := Stored(slots[id], side);
      return if stored == [] then Unavailable else Content(stored);
    }

    method Consume(id: Id, capability: string, now: int) returns (reply: Reply)
      requires Valid()
      modifies this
      ensures Valid() && (slots, reply) == Step(old(slots), now, Op.Consume(id, capability))
    {
      Expire(now);
      if id !in slots || !(now < slots[id].expires) || !slots[id].Authorized(id, ResponseRead, capability) {
        return Unavailable;
      }
      if slots[id].consumed {
        assert slots == slots[id := slots[id].(request := [], response := [], consumed := true)];
        return Done;
      }
      var emptied := slots[id].(request := [], response := [], consumed := true);
      TotalSplit(slots, id);
      TotalOfUpdate(slots, id, emptied);
      storedBytes := storedBytes - slots[id].Size();
      slots := slots[id := emptied];
      return Done;
    }
  }

  // --------------------------------------------------------------------- histories

  ghost predicate StepAt(ms: seq<Arena>, times: seq<int>, ops: seq<Op>, k: nat)
    requires k < |ops| == |times| && |ms| == |ops| + 1
  {
    ms[k + 1] == Step(ms[k], times[k], ops[k]).0
  }

  ghost predicate History(ms: seq<Arena>, times: seq<int>, ops: seq<Op>) {
    && |ms| == |ops| + 1 && |times| == |ops| && ms[0] == map[]
    && forall k: nat {:trigger StepAt(ms, times, ops, k)} :: k < |ops| ==> StepAt(ms, times, ops, k)
  }

  ghost function ReplyAt(ms: seq<Arena>, times: seq<int>, ops: seq<Op>, k: nat): Reply
    requires k < |ops| && |times| == |ops| && k < |ms|
  {
    Step(ms[k], times[k], ops[k]).1
  }

  /** The same slot from `i` to `j`: it has not expired at any reading in between. */
  predicate OneLife(ms: seq<Arena>, times: seq<int>, id: Id, i: nat, j: nat)
    requires i <= j <= |times| && |ms| == |times| + 1
  {
    && id in ms[i]
    && forall k: nat {:trigger LiveAt(ms, times, id, k)} :: i <= k < j ==> LiveAt(ms, times, id, k)
  }

  predicate LiveAt(ms: seq<Arena>, times: seq<int>, id: Id, k: nat)
    requires k < |times| && k < |ms|
  {
    id in ms[k] && times[k] < ms[k][id].expires
  }

  /** A later state of a slot: fixed keys and expiry, contents that only appear once, and a
      consumption that is final. */
  predicate Continues(s: Slot, t: Slot) {
    && t.expires == s.expires && t.keys == s.keys && (s.consumed ==> t.consumed)
    && (t.consumed || ((s.request != [] ==> t.request == s.request) && (s.response != [] ==> t.response == s.response)))
  }

  lemma StepContinues(m: Arena, now: int, op: Op, id: Id)
    requires id in m && (now < m[id].expires || Refused(now, op))
    ensures id in Step(m, now, op).0 && Continues(m[id], Step(m, now, op).0[id])
  {
  }

  /** Within one life nothing is overwritten and nothing comes back, whatever the clock does. */
  lemma {:induction false} SlotContinues(ms: seq<Arena>, times: seq<int>, ops: seq<Op>, id: Id, i: nat, j: nat)
    requires History(ms, times, ops) && i <= j < |ms| && OneLife(ms, times, id, i, j)
    ensures id in ms[j] && Continues(ms[i][id], ms[j][id])
    decreases j
  {
    if i < j {
      SlotContinues(ms, times, ops, id, i, j - 1);
      assert StepAt(ms, times, ops, j - 1);
      assert LiveAt(ms, times, id, j - 1);
      StepContinues(ms[j - 1], times[j - 1], ops[j - 1], id);
    }
  }

  lemma PutStores(m: Arena, now: int, op: Op)
    requires op.Put? && Step(m, now, op).1.Done?
    ensures var m' := Step(m, now, op).0;
      op.bytes != [] && op.id in m' && !m'[op.id].consumed && Stored(m'[op.id], op.side) == op.bytes
  {
  }

  lemma StoredDecides(m: Arena, now: int, op: Op, bytes: Bytes)
    requires op.Put? || op.Read?
    requires bytes != [] && op.id in m && (m[op.id].consumed || Stored(m[op.id], op.side) == bytes)
    requires now < m[op.id].expires || Refused(now, op)
    ensures op.Read? ==> Step(m, now, op).1.Unavailable? || Step(m, now, op).1 == Content(bytes)
    ensures op.Put? && Step(m, now, op).1.Done? ==> op.bytes == bytes
  {
  }

  lemma PutStaysStored(ms: seq<Arena>, times: seq<int>, ops: seq<Op>, i: nat, j: nat)
    requires History(ms, times, ops) && i < j < |ms| && ops[i].Put? && ReplyAt(ms, times, ops, i).Done?
    requires OneLife(ms, times, ops[i].id, i + 1, j)
    ensures ops[i].bytes != [] && ops[i].id in ms[j]
    ensures ms[j][ops[i].id].consumed || Stored(ms[j][ops[i].id], ops[i].side) == ops[i].bytes
  {
    PutStores(ms[i], times[i], ops[i]);
    assert StepAt(ms, times, ops, i);
    SlotContinues(ms, times, ops, ops[i].id, i + 1, j);
  }

  /** A successful put fixes the bytes: every later read returns them, and every later put that
      succeeds puts the same. */
  lemma PutIsForever(ms: seq<Arena>, times: seq<int>, ops: seq<Op>, i: nat, j: nat, later: Reply)
    requires History(ms, times, ops) && i < j < |ops| && ops[i].Put? && ReplyAt(ms, times, ops, i).Done?
    requires OneLife(ms, times, ops[i].id, i + 1, j) && LiveAt(ms, times, ops[i].id, j) && ops[j].id == ops[i].id
    requires (ops[j].Read? || ops[j].Put?) && ops[j].side == ops[i].side && later == ReplyAt(ms, times, ops, j)
    ensures if ops[j].Read? then later.Unavailable? || later == Content(ops[i].bytes)
            else later.Done? ==> ops[j].bytes == ops[i].bytes
  {
    PutStaysStored(ms, times, ops, i, j);
    StoredDecides(ms[j], times[j], ops[j], ops[i].bytes);
  }

  lemma ConsumedDecides(m: Arena, now: int, op: Op)
    requires op.id in m && m[op.id].consumed && (now < m[op.id].expires || Refused(now, op))
    ensures op.Put? || op.Read? ==> Step(m, now, op).1.Unavailable?
    ensures op.id in Step(m, now, op).0 && Step(m, now, op).0[op.id].consumed
  {
  }

  /** After consumption nothing can be put or read for as long as the slot lives, and creating
      it again does not revive it. */
  lemma ConsumedIsForever(ms: seq<Arena>, times: seq<int>, ops: seq<Op>, i: nat, j: nat, later: Reply)
    requires History(ms, times, ops) && i < j < |ops| && ops[i].Consume? && ReplyAt(ms, times, ops, i).Done?
    requires OneLife(ms, times, ops[i].id, i + 1, j) && LiveAt(ms, times, ops[i].id, j) && ops[j].id == ops[i].id
    requires later == ReplyAt(ms, times, ops, j)
    ensures ops[j].Put? || ops[j].Read? ==> later.Unavailable?
    ensures ops[i].id in ms[j + 1] && ms[j + 1][ops[i].id].consumed
  {
    ConsumeConsumes(ms[i], times[i], ops[i]);
    assert StepAt(ms, times, ops, i);
    SlotContinues(ms, times, ops, ops[i].id, i + 1, j);
    ConsumedDecides(ms[j], times[j], ops[j]);
    assert StepAt(ms, times, ops, j);
  }

  lemma ConsumeConsumes(m: Arena, now: int, op: Op)
    requires op.Consume? && Step(m, now, op).1.Done?
    ensures op.id in Step(m, now, op).0 && Step(m, now, op).0[op.id].consumed
  {
  }

  /** Nothing is read that was not put: a read that returns bytes follows a put of them. */
  lemma {:induction false} ReadWasPut(ms: seq<Arena>, times: seq<int>, ops: seq<Op>, j: nat, id: Id, side: Side) returns (i: nat)
    requires History(ms, times, ops) && j < |ms| && id in ms[j] && Stored(ms[j][id], side) != []
    ensures i < j && ops[i].Put? && ops[i].id == id && ops[i].side == side && ReplyAt(ms, times, ops, i).Done?
    ensures ops[i].bytes == Stored(ms[j][id], side)
    decreases j
  {
    var k := j - 1;
    assert StepAt(ms, times, ops, k);
    if id in ms[k] && Stored(ms[k][id], side) == Stored(ms[j][id], side) {
      i := ReadWasPut(ms, times, ops, k, id, side);
    } else {
      i := k;
    }
  }

  lemma {:induction false} HistoryIsBounded(ms: seq<Arena>, times: seq<int>, ops: seq<Op>, j: nat)
    requires History(ms, times, ops) && j < |ms|
    ensures Bounded(ms[j])
  {
    if j > 0 {
      HistoryIsBounded(ms, times, ops, j - 1);
      assert StepAt(ms, times, ops, j - 1);
      StepIsBounded(ms[j - 1], times[j - 1], ops[j - 1]);
    }
  }

  lemma {:induction false} LiveIsSmaller(m: Arena, now: int)
    ensures Total(Live(m, now)) <= Total(m) && |Live(m, now)| <= |m|
    decreases |m|
  {
    if k :| k in m {
      LiveIsSmaller(m - {k}, now);
      TotalSplit(m, k);
      if now < m[k].expires {
        TotalSplit(Live(m, now), k);
        assert Live(m, now) - {k} == Live(m - {k}, now);
        assert |Live(m, now) - {k}| == |Live(m, now)| - 1;
      } else {
        assert Live(m, now) == Live(m - {k}, now);
      }
    } else {
      assert Live(m, now) == m;
    }
  }

  lemma StepIsBounded(m: Arena, now: int, op: Op)
    requires Bounded(m)
    ensures Bounded(Step(m, now, op).0)
  {
    LiveIsSmaller(m, now);
    var live := Live(m, now);
    assert op.id !in live ==> live - {op.id} == live;
    if op.id in live {
      TotalSplit(live, op.id);
    }
    if op.id in Step(m, now, op).0 {
      TotalOfUpdate(live, op.id, Step(m, now, op).0[op.id]);
    }
  }
}
