/**
  The transitions of a lifecycle root: importing a confirmed request, applying a response,
  reconciling an applied one, cancelling, and authorized rollback.
  Source: internal/enrollmenttarget/apply.go, rollback.go and target.go, with the activation
  gate of internal/enrollment/apply.go.
*/
module Lifecycle {
  import opened Common
  import opened LocalState
  import opened Anchor

  /** One retained request with its endpoint keys and response identity; `secrets` stands for
      the key bytes. */
  datatype Material = Material(
    request: Digest, nonce: Id, sequence: U64, created: int, expires: int, installation: Id, release: U64, secrets: nat)
  {
    /** What parsing the signed request demands of its validity window at time `now`. */
    predicate CurrentAt(now: int) {
      && 0 < created < expires <= created + MAX_PENDING_VALIDITY
      && created - CLOCK_SKEW <= now < expires
    }
  }

  datatype Deployment = Deployment(
    request: Digest, sequence: U64, credentialEpoch: U64, release: U64, leaves: set<Pin>)

  /** A response envelope: its digest, and what opening it with this target's verifier and
      response identity yields. */
  datatype Envelope = Envelope(digest: Digest, deployment: Option<Deployment>)

  /** Files that are ensured one after another, with contents that `of` determines: none yet,
      some of them, all of them, or one of them torn by a cut creation. */
  datatype Files<+T> = NoFiles | SomeFiles(of: T) | TornFile(of: T) | AllFiles(of: T)

  /** A record directory: the imported files, whether the one-time response identity is still
      among them, and the rendered files with the manifest that lists them. */
  datatype Record = Record(material: Files<Material>, identity: bool, applied: Files<Manifest>)
  {
    predicate Imported() {
      material.AllFiles? && identity
    }
  }

  const EMPTY_RECORD := Record(NoFiles, false, NoFiles)

  /** A torn or different file is refused ever after. */
  predicate Ensurable<T(==)>(f: Files<T>, v: T) {
    f.NoFiles? || (!f.TornFile? && f.of == v)
  }

  /** One `EnsureFile` after another. With `cut`, an otherwise undisturbed call is cut inside
      the creation of a file. */
  method EnsureFiles<T(==)>(f: Files<T>, v: T, calm: bool, cut: bool) returns (ok: bool, g: Files<T>)
    ensures ok ==> g == AllFiles(v)
    ensures g == f || (Ensurable(f, v) && !f.AllFiles? && (g == SomeFiles(v) || g == TornFile(v) || g == AllFiles(v)))
    ensures !Ensurable(f, v) ==> !ok
    ensures calm && !cut ==> (ok <==> Ensurable(f, v))
    ensures calm && cut && Ensurable(f, v) && !f.AllFiles? ==> !ok && g == TornFile(v)
  {
    if !Ensurable(f, v) {
      return false, f;
    }
    if f.AllFiles? {
      ok := true;
      if !calm {
        ok := *;
      }
      return ok, f;
    }
    if calm {
      return !cut, if cut then TornFile(v) else AllFiles(v);
    }
    if * {
      return true, AllFiles(v);
    }
    if * {
      return false, f;
    } else if * {
      return false, SomeFiles(v);
    } else if * {
      return false, TornFile(v);
    }
    return false, AllFiles(v);
  }

  datatype RollbackAuthorization = RollbackAuthorization(
    role: Role, installation: Id, sequence: nat, expectedGeneration: nat, expectedState: StateDigest,
    record: Id, recordDigest: ManifestDigest, deployment: U64, credential: U64, release: U64)

  // ------------------------------------------------------------------ apply, as a step

  /** The activation gate (`VerifyForApply`) together with the bindings that `applyResponse`
      checks against the pending request. */
  predicate ApplyAllowed(s: State, m: Material, e: Envelope) {
    && s.pending.Some? && s.generation != MAX_U64
    && m.request == s.pending.value.request && m.nonce == s.pending.value.nonce
    && m.installation == s.installation && m.sequence == s.pending.value.sequence && m.release == s.releaseHigh
    && m.request !in s.consumed
    && e.deployment.Some?
    && var d := e.deployment.value;
    && d.request == m.request && d.credentialEpoch == m.sequence && d.release == m.release
    && d.sequence > s.deploymentHigh && d.credentialEpoch > s.credentialHigh
    && d.leaves !! s.tombstones
    && |s.consumed| < MAX_CONSUMED_REQUESTS
  }

  function AppliedManifest(s: State, m: Material, e: Envelope): Manifest
    requires ApplyAllowed(s, m, e)
  {
    var d := e.deployment.value;
    Manifest(m.nonce, s.role, s.installation, m.request, e.digest, d.sequence, d.credentialEpoch, d.release,
             s.policySequence, s.tombstoneSequence, d.leaves)
  }

  function ApplyNext(s: State, m: Material, e: Envelope): State
    requires ApplyAllowed(s, m, e)
  {
    var d := e.deployment.value;
    s.(generation := s.generation + 1,
       activeRecord := Some(RecordRef(m.nonce, DigestOf(AppliedManifest(s, m, e)))),
       activeDeployment := d.sequence, activeCredential := d.credentialEpoch, activeRelease := d.release,
       activePolicy := s.policySequence, activeTombstone := s.tombstoneSequence,
       deploymentHigh := d.sequence, credentialHigh := d.credentialEpoch,
       consumed := s.consumed + {m.request}, pending := None)
  }

  /** An allowed apply is also a committable transition, unless its record would reuse the
      identifier of the record that is active now. */
  lemma ApplyCommitsIffRecordIsNew(s: State, m: Material, e: Envelope)
    requires s.Valid() && ApplyAllowed(s, m, e)
    ensures ValidTransition(s, ApplyNext(s, m, e)) <==> !(s.activeRecord.Some? && s.activeRecord.value.id == m.nonce)
  {
    var n := ApplyNext(s, m, e);
    assert n.Valid();
    assert s.ActiveTuple() != n.ActiveTuple();
  }

  // --------------------------------------------------------------- rollback, as a step

  predicate RollbackAllowed(s: State, bytes: Blob, source: Manifest, a: RollbackAuthorization) {
    && s.activeRecord.Some? && s.generation != MAX_U64 && s.recoverySequence != MAX_U64
    && a.role == s.role && a.installation == s.installation && a.sequence == s.recoverySequence + 1
    && a.expectedGeneration == s.generation && a.expectedState == Sha256(bytes)
    && s.floors.deployment <= a.deployment <= s.deploymentHigh
    && s.floors.credential <= a.credential <= s.credentialHigh
    && s.floors.release <= a.release <= s.releaseHigh
    && a.recordDigest == DigestOf(source)
    && source.role == s.role && source.installation == s.installation && source.record == a.record
    && source.deployment == a.deployment && source.credential == a.credential && source.release == a.release
    && source.deployment != 0 && source.credential != 0 && source.release != 0
    && source.leaves !! s.tombstones
  }

  /** The derived record: the same credentials under the current policy and tombstones. */
  function DerivedManifest(s: State, source: Manifest, activated: Id): Manifest {
    source.(record := activated, policy := s.policySequence, tombstone := s.tombstoneSequence)
  }

  function RollbackNext(s: State, source: Manifest, a: RollbackAuthorization, activated: Id): State
    requires s.generation != MAX_U64 && a.sequence <= MAX_U64
  {
    s.(generation := s.generation + 1,
       recoverySequence := a.sequence,
       activeRecord := Some(RecordRef(activated, DigestOf(DerivedManifest(s, source, activated)))),
       activeDeployment := a.deployment, activeCredential := a.credential, activeRelease := a.release,
       activePolicy := s.policySequence, activeTombstone := s.tombstoneSequence)
  }

  /** An allowed rollback to a newly named record is always a committable transition. */
  lemma RollbackCommits(s: State, bytes: Blob, source: Manifest, a: RollbackAuthorization, activated: Id)
    requires s.Valid() && RollbackAllowed(s, bytes, source, a) && activated != s.activeRecord.value.id
    ensures ValidTransition(s, RollbackNext(s, source, a, activated))
  {
    assert RollbackNext(s, source, a, activated).Valid();
  }

  // ----------------------------------------------------------------------- whole runs

  datatype Move =
    | Applied(material: Material, envelope: Envelope)
    | RolledBack(source: Manifest, authorization: RollbackAuthorization, activated: Id)
    | Other

  /** One committed transition. Imports, cancellations and policies are `Other`: any valid step. */
  predicate Moved(s: State, m: Move, s': State) {
    && ValidTransition(s, s')
    && match m
       case Applied(material, envelope) => ApplyAllowed(s, material, envelope) && s' == ApplyNext(s, material, envelope)
       case RolledBack(source, a, activated) => RollbackAllowed(s, Encode(s), source, a) && s' == RollbackNext(s, source, a, activated)
       case Other => true
  }

  predicate LifecycleRun(states: seq<State>, moves: seq<Move>) {
    && |states| == |moves| + 1
    && forall i {:trigger moves[i]} :: 0 <= i < |moves| ==> Moved(states[i], moves[i], states[i + 1])
  }

  lemma {:induction false} RunIsMonotone(states: seq<State>, moves: seq<Move>, i: nat, j: nat)
    requires LifecycleRun(states, moves) && i <= j < |states|
    ensures states[j].generation == states[i].generation + (j - i)
    ensures states[i].deploymentHigh <= states[j].deploymentHigh && states[i].credentialHigh <= states[j].credentialHigh
    ensures states[i].consumed <= states[j].consumed && states[i].tombstones <= states[j].tombstones
    ensures states[i].recoverySequence <= states[j].recoverySequence
    decreases j - i
  {
    if i < j {
      RunIsMonotone(states, moves, i, j - 1);
      assert Moved(states[j - 1], moves[j - 1], states[j]);
    }
  }

  /** Every apply raises both high-waters above all that came before it, every rollback leaves
      them where they were, and the active tuple always lies between floors and high-waters. */
  lemma HighWatersOverRun(states: seq<State>, moves: seq<Move>, i: nat, j: nat)
    requires LifecycleRun(states, moves) && i <= j < |moves|
    ensures moves[j].Applied? ==>
      states[i].deploymentHigh < states[j + 1].deploymentHigh && states[i].credentialHigh < states[j + 1].credentialHigh
    ensures moves[j].RolledBack? ==>
      states[j + 1].deploymentHigh == states[j].deploymentHigh && states[j + 1].credentialHigh == states[j].credentialHigh
    ensures states[j + 1].activeRecord.Some? ==>
      && states[j + 1].floors.deployment <= states[j + 1].activeDeployment <= states[j + 1].deploymentHigh
      && states[j + 1].floors.credential <= states[j + 1].activeCredential <= states[j + 1].credentialHigh
      && states[j + 1].floors.release <= states[j + 1].activeRelease <= states[j + 1].releaseHigh
  {
    RunIsMonotone(states, moves, i, j);
    assert Moved(states[j], moves[j], states[j + 1]);
  }

  /** No request is applied twice, whatever was committed in between. */
  lemma NoRequestAppliedTwice(states: seq<State>, moves: seq<Move>, i: nat, j: nat)
    requires LifecycleRun(states, moves) && i < j < |moves| && moves[i].Applied? && moves[j].Applied?
    ensures moves[i].material.request != moves[j].material.request
  {
    assert Moved(states[i], moves[i], states[i + 1]);
    RunIsMonotone(states, moves, i + 1, j);
    assert Moved(states[j], moves[j], states[j + 1]);
  }

  /** A rollback authorization is accepted in one state only, the exact one it names: never
      a second time, and never once anything else has been committed over that state. */
  lemma RollbackAuthorizationIsOneShot(states: seq<State>, moves: seq<Move>, i: nat, j: nat)
    requires LifecycleRun(states, moves) && i < |moves| && j < |moves| && i != j
    requires moves[i].RolledBack?
    ensures moves[i].authorization.expectedState == Sha256(Encode(states[i]))
    ensures states[j] != states[i]
    ensures !(exists source :: RollbackAllowed(states[j], Encode(states[j]), source, moves[i].authorization))
  {
    assert Moved(states[i], moves[i], states[i + 1]);
    if i < j {
      RunIsMonotone(states, moves, i, j);
    } else {
      RunIsMonotone(states, moves, j, i);
    }
  }

  /** The record that a move selects. */
  function Activated(s: State, m: Move): Option<Manifest>
    requires m.Applied? ==> ApplyAllowed(s, m.material, m.envelope)
  {
    match m
    case Applied(material, envelope) => Some(AppliedManifest(s, material, envelope))
    case RolledBack(source, a, activated) => Some(DerivedManifest(s, source, activated))
    case Other => None
  }

  /** A credential that was tombstoned once is never activated again, by apply or by rollback. */
  lemma TombstonedNeverActivated(states: seq<State>, moves: seq<Move>, i: nat, j: nat, pin: Pin)
    requires LifecycleRun(states, moves) && i <= j < |moves| && pin in states[i].tombstones
    requires moves[j].Applied? || moves[j].RolledBack?
    ensures Moved(states[j], moves[j], states[j + 1])
    ensures states[j + 1].activeRecord.Some? && states[j + 1].activeRecord.value.digest == DigestOf(Activated(states[j], moves[j]).value)
    ensures pin !in Activated(states[j], moves[j]).value.leaves
  {
    assert Moved(states[j], moves[j], states[j + 1]);
    RunIsMonotone(states, moves, i, j);
  }

  /** A leaf certificate of a deployment as it parses: a role may have none. */
  datatype Leaf = NoLeaf | Unparsable | Certified(pin: Pin)

  /** `rejectTombstonedLeaves`; a recorded pin that does not parse is None. */
  method RejectTombstonedLeaves(leaves: seq<Leaf>, tombstones: seq<Option<Pin>>) returns (ok: bool)
    ensures ok <==>
      && (forall t <- tombstones :: t.Some?)
      && (forall l <- leaves :: !l.Unparsable? && (l.Certified? ==> Some(l.pin) !in tombstones))
  {
    var denied: set<Pin> := {};
    for i := 0 to |tombstones|
      invariant forall t <- tombstones[..i] :: t.Some?
      invariant forall p :: p in denied <==> Some(p) in tombstones[..i]
    {
      if tombstones[i].None? {
        assert tombstones[i] in tombstones;
        return false;
      }
      denied := denied + {tombstones[i].value};
      assert tombstones[..i + 1] == tombstones[..i] + [tombstones[i]];
    }
    assert tombstones[..|tombstones|] == tombstones;
    for i := 0 to |leaves|
      invariant forall k | 0 <= k < i :: !leaves[k].Unparsable? && (leaves[k].Certified? ==> Some(leaves[k].pin) !in tombstones)
    {
      if leaves[i].NoLeaf? {
        continue;
      }
      if leaves[i].Unparsable? || leaves[i].pin in denied {
        return false;
      }
    }
    return true;
  }

  // --------------------------------------------------------------- import and cancel

  /** Authenticated install inputs of one target root. */
  datatype Options = Options(role: Role, installation: Id, release: U64, trust: Id)

  datatype Boot = Absent | Partial | Complete(options: Options)

  function InitialState(o: Options): State {
    State(o.role, o.installation, 1, 0, 0, o.release, 0, Floors(0, o.release, 0, 0, 0),
          None, 0, 0, o.release, 0, 0, None, {}, {}, {}, 0, None, 0, 0)
  }

  function InitialDisk(o: Options): Disk {
    var s := InitialState(o);
    Disk(Encode(s), AnchorFor(s, Encode(s)), None, None, Encode(s), None, {}, {}, {})
  }

  function PendingFor(m: Material): Pending {
    Pending(m.sequence, m.request, m.nonce, m.created, m.expires)
  }

  /** The one state that accepts an import: bootstrapped, never asked, never enrolled. */
  predicate FreshFor(s: State, m: Material) {
    s.pending.None? && s.activeRecord.None? && s.requestHigh == 0 && s.generation != MAX_U64 && m.request !in s.consumed
  }

  function ImportNext(s: State, m: Material): State
    requires FreshFor(s, m)
  {
    s.(generation := s.generation + 1, requestHigh := 1, pending := Some(PendingFor(m)))
  }

  function CancelNext(s: State): State
    requires s.pending.Some? && s.generation != MAX_U64
  {
    s.(generation := s.generation + 1, consumed := s.consumed + {s.pending.value.request}, pending := None)
  }

  lemma ImportCommits(s: State, m: Material, now: int)
    requires s.Valid() && FreshFor(s, m) && m.CurrentAt(now) && m.sequence == 1
    ensures ValidTransition(s, ImportNext(s, m))
  {
    assert ImportNext(s, m).Valid();
  }

  predicate CancelPossible(s: State) {
    s.pending.Some? && s.generation != MAX_U64 && |s.consumed| < MAX_CONSUMED_REQUESTS
  }

  lemma CancelCommits(s: State)
    requires s.Valid() && CancelPossible(s)
    ensures ValidTransition(s, CancelNext(s))
  {
    assert CancelNext(s).Valid();
  }

  predicate BootstrappedAs(d: Disk, o: Options) {
    && Settled(d)
    && var s := Decode(d.state).value;
    && s.role == o.role && s.installation == o.installation && s.releaseHigh == o.release
  }

  /** The exact request, with its keys and response identity, is already the pending one. */
  predicate ImportedAlready(s: State, records: map<Id, Record>, m: Material) {
    && s.pending.Some? && s.pending.value.sequence == 1
    && s.pending.value.nonce == m.nonce && s.pending.value.request == m.request
    && m.nonce in records && records[m.nonce].material == AllFiles(m) && records[m.nonce].identity
  }

  /** The retained request of the pending record is the one that the state names. */
  predicate PendingHeld(s: State, records: map<Id, Record>) {
    && s.pending.Some? && s.pending.value.nonce in records && records[s.pending.value.nonce].material.AllFiles?
    && records[s.pending.value.nonce].material.of.request == s.pending.value.request
  }

  predicate MaterialFits(o: Options, m: Material, now: int) {
    && o.role == Client && m.CurrentAt(now)
    && m.installation == o.installation && m.sequence == 1 && m.release == o.release
  }

  predicate ImportPossible(boot: Boot, d: Disk, records: map<Id, Record>, o: Options, m: Material, now: int) {
    && MaterialFits(o, m, now)
    && match boot
       case Partial => false
       case Absent => MaterialEnsurable(records, m)
       case Complete(options) =>
         && options == o && BootstrappedAs(d, o)
         && var s := Decode(d.state).value;
         && (|| ImportedAlready(s, records, m)
             || (FreshFor(s, m) && MaterialEnsurable(records, m)))
  }

  /** Nothing is left for an import to write into the record directory. */
  predicate ImportNeedless(boot: Boot, d: Disk, records: map<Id, Record>, m: Material) {
    RecordAt(records, m.nonce).Imported() || (boot.Complete? && Settled(d) && Decode(d.state).value.pending.Some?)
  }

  /** No file of the record is torn, or belongs to other material. */
  predicate MaterialEnsurable(records: map<Id, Record>, m: Material) {
    m.nonce in records ==> Ensurable(records[m.nonce].material, m)
  }

  function RecordAt(records: map<Id, Record>, id: Id): Record {
    if id in records then records[id] else EMPTY_RECORD
  }

  function PutMaterial(records: map<Id, Record>, m: Material, f: Files<Material>): map<Id, Record> {
    records[m.nonce := Record(f, f.AllFiles?, RecordAt(records, m.nonce).applied)]
  }

  /** The record directory after its material has been ensured. */
  function WithMaterial(records: map<Id, Record>, m: Material): map<Id, Record> {
    PutMaterial(records, m, AllFiles(m))
  }

  /** What ensuring the material may leave, finished or cut. */
  predicate MaterialStep(before: map<Id, Record>, m: Material, after: map<Id, Record>) {
    || after == before
    || (MaterialEnsurable(before, m) &&
        (|| after == PutMaterial(before, m, SomeFiles(m))
         || after == PutMaterial(before, m, TornFile(m))
         || after == WithMaterial(before, m)))
  }

  // ------------------------------------------------------------------------ the target

  /** Everything `applyResponse` checks before it writes, given the anchored state `s`. */
  predicate ApplyReady(s: State, records: map<Id, Record>, e: Envelope, now: int) {
    && s.pending.Some? && s.pending.value.nonce in records
    && var r := records[s.pending.value.nonce];
    && r.identity && r.material.AllFiles? && r.material.of.CurrentAt(now) && ApplyAllowed(s, r.material.of, e)
    && Ensurable(r.applied, AppliedManifest(s, r.material.of, e))
    && ValidTransition(s, ApplyNext(s, r.material.of, e))
  }

  function AppliedState(s: State, records: map<Id, Record>, e: Envelope, now: int): State
    requires ApplyReady(s, records, e, now)
  {
    ApplyNext(s, records[s.pending.value.nonce].material.of, e)
  }

  function ManifestFor(s: State, records: map<Id, Record>, e: Envelope, now: int): Manifest
    requires ApplyReady(s, records, e, now)
  {
    AppliedManifest(s, records[s.pending.value.nonce].material.of, e)
  }

  function PutApplied(records: map<Id, Record>, id: Id, f: Files<Manifest>): map<Id, Record>
    requires id in records
  {
    records[id := records[id].(applied := f)]
  }

  /** The record directory once its manifest is written, with or without the response identity. */
  function AppliedRecords(s: State, records: map<Id, Record>, e: Envelope, now: int, identity: bool): map<Id, Record>
    requires ApplyReady(s, records, e, now)
  {
    var id := s.pending.value.nonce;
    records[id := Record(records[id].material, identity, AllFiles(ManifestFor(s, records, e, now)))]
  }

  /** What rendering the record may leave, finished or cut. */
  predicate RenderStep(s: State, before: map<Id, Record>, e: Envelope, now: int, after: map<Id, Record>)
    requires ApplyReady(s, before, e, now)
  {
    var id, manifest := s.pending.value.nonce, ManifestFor(s, before, e, now);
    || after == before
    || after == PutApplied(before, id, SomeFiles(manifest))
    || after == PutApplied(before, id, TornFile(manifest))
    || after == PutApplied(before, id, AllFiles(manifest))
  }

  /** A file of the pending record is torn: no response can be applied to it any more. */
  predicate Spoiled(s: State, records: map<Id, Record>) {
    s.pending.Some? && s.pending.value.nonce in records && records[s.pending.value.nonce].applied.TornFile?
  }

  /** The record directory that the state selects, verified against the state's digest of it. */
  predicate ActiveManifest(s: State, records: map<Id, Record>, m: Manifest) {
    && s.activeRecord.Some? && s.activeRecord.value.id in records
    && records[s.activeRecord.value.id].applied == AllFiles(m)
    && s.activeRecord.value.digest == DigestOf(m)
    && m.role == s.role && m.record == s.activeRecord.value.id && m.installation == s.installation
    && m.deployment == s.activeDeployment && m.credential == s.activeCredential && m.release == s.activeRelease
    && m.policy == s.activePolicy && m.tombstone == s.activeTombstone
  }

  /** Exactly this response to exactly this request is what state `s` runs. */
  predicate AppliedExactly(s: State, records: map<Id, Record>, response: Digest, request: Digest) {
    && s.pending.None? && s.activeRecord.Some? && s.activeRecord.value.id in records
    && var r := records[s.activeRecord.value.id];
    && r.applied.AllFiles? && ActiveManifest(s, records, r.applied.of)
    && r.applied.of.request == request && r.applied.of.response == response
  }

  datatype Status = Missing | Unanchored | Present(state: State)

  class Target {
    const root: LifecycleRoot
    var boot: Boot
    var records: map<Id, Record>

    ghost predicate Valid()
      reads this, root
    {
      root.Valid() && root.packaged && (boot.Complete? ==> Recoverable(root.disk))
    }

    /** The atomic lifecycle state. */
    ghost function Now(): State
      reads this, root
      requires Valid() && boot.Complete?
    {
      Selected(root.disk)
    }

    constructor ()
      ensures Valid() && fresh(root) && boot.Absent? && records == map[]
    {
      var s := InitialState(Options(Client, "", 1, ""));
      root := new LifecycleRoot(true, InitialDisk(Options(Client, "", 1, "")));
      boot := Absent;
      records := map[];
    }

    method ReadStatus() returns (status: Status)
      requires Valid()
      ensures status == if !boot.Complete? then Missing
                        else if Settled(root.disk) then Present(Decode(root.disk.state).value) else Unanchored
    {
      if !boot.Complete? {
        return Missing;
      }
      var s := root.ReadAnchoredState();
      status := if s.Some? then Present(s.value) else Unanchored;
    }

    /** `PendingRequest`: the retained request of the anchored state. */
    method ReadPendingRequest() returns (request: Option<Digest>)
      requires Valid()
      ensures request == if boot.Complete? && Settled(root.disk) && PendingHeld(Now(), records) then Some(Now().pending.value.request) else None
    {
      if !boot.Complete? {
        return None;
      }
      var s := root.ReadAnchoredState();
      if s.None? || !PendingHeld(s.value, records) {
        return None;
      }
      return Some(s.value.pending.value.request);
    }

    method RecoverTransaction(calm: bool) returns (ok: bool)
      requires Valid()
      modifies root
      ensures Valid()
      ensures boot.Complete? ==> Now() == old(Now())
      ensures calm && boot.Complete? ==>
        Settled(root.disk) && (ok <==> old(Publishable(true, root.disk, AnchoredBytes(root.disk))))
      ensures ok ==> boot.Complete? && Settled(root.disk)
    {
      if !boot.Complete? {
        return false;
      }
      var r := root.RecoverTransaction(calm);
      ok := r.Finished?;
    }

    /** Creates the root with state.json last, or verifies that an existing one is the same. */
    method BootstrapOrVerify(o: Options, calm: bool) returns (ok: bool)
      requires Valid() && o.release != 0
      modifies this`boot, root
      ensures Valid()
      ensures !old(boot).Absent? ==> boot == old(boot) && root.disk == old(root.disk)
      ensures boot != old(boot) ==> boot.Partial? || (boot == Complete(o) && root.disk == InitialDisk(o))
      ensures ok ==> boot == Complete(o) && Settled(root.disk)
      ensures old(boot).Complete? ==> (ok <==> boot == Complete(o) && BootstrappedAs(root.disk, o))
      ensures calm && old(boot).Absent? ==> ok && root.disk == InitialDisk(o)
    {
      if boot.Absent? {
        var created, reported := true, true;
        if !calm {
          created, reported := *, *;
        }
        if created {
          assert InitialState(o).Valid();
          root.Format(InitialDisk(o));
          boot := Complete(o);
        } else if !reported {
          boot := Partial;
        }
        if !created {
          return false;
        }
      }
      if boot.Partial? {
        return false;
      }
      var s := root.ReadAnchoredState();
      ok := && s.Some? && boot.options == o
            && s.value.role == o.role && s.value.installation == o.installation && s.value.releaseHigh == o.release;
    }

    /** Imports exactly the confirmed material, or nothing. */
    method ImportPendingClient(o: Options, m: Material, now: int, calm: bool, cut: bool := false) returns (ok: bool)
      requires Valid() && o.release != 0
      modifies this, root
      ensures Valid()
      ensures boot != old(boot) ==> old(boot).Absent? && (boot.Partial? || boot == Complete(o))
      ensures MaterialStep(old(records), m, records)
      ensures old(boot).Complete? ==>
        Now() == old(Now()) || (FreshFor(old(Now()), m) && Now() == ImportNext(old(Now()), m))
      ensures old(boot).Absent? && boot.Complete? ==>
        FreshFor(InitialState(o), m) && (Now() == InitialState(o) || Now() == ImportNext(InitialState(o), m))
      ensures boot.Complete? && (if old(boot).Complete? then Now() != old(Now()) else Now() != InitialState(o)) ==>
        m.nonce in records && records[m.nonce].material == AllFiles(m) && records[m.nonce].identity
      ensures old(boot).Complete? && !FreshFor(old(Now()), m) ==> root.disk == old(root.disk)
      ensures !ImportPossible(old(boot), old(root.disk), old(records), o, m, now) ==> !ok
      ensures old(boot).Complete? && !ImportPossible(old(boot), old(root.disk), old(records), o, m, now) ==>
        records == old(records) && root.disk == old(root.disk)
      ensures calm && !cut && ImportPossible(old(boot), old(root.disk), old(records), o, m, now) ==> ok
      ensures calm && cut && ImportPossible(old(boot), old(root.disk), old(records), o, m, now) ==>
        ImportNeedless(old(boot), old(root.disk), old(records), m) || (!ok && records == PutMaterial(old(records), m, TornFile(m)))
      ensures old(boot).Complete? && !FreshFor(old(Now()), m) ==> records == old(records)
      ensures ok ==> boot == Complete(o) && Settled(root.disk) && ImportedAlready(Now(), records, m)
    {
      if !MaterialFits(o, m, now) {
        return false;
      }
      ok := BootstrapOrVerify(o, calm);
      if !ok {
        return;
      }
      var state := Decode(root.disk.state).value;
      if state.pending.Some? {
        ok := ImportedAlready(state, records, m);
        return;
      }
      if !FreshFor(state, m) {
        return false;
      }
      ok := EnsureMaterial(m, calm, cut);
      if !ok {
        return;
      }
      ImportCommits(state, m, now);
      var r := root.CommitAnchoredState(state, ImportNext(state, m), calm);
      ok := r.Committed?;
    }

    method EnsureMaterial(m: Material, calm: bool, cut: bool) returns (ok: bool)
      modifies this`records
      ensures MaterialStep(old(records), m, records)
      ensures ok ==> records == WithMaterial(old(records), m) && MaterialEnsurable(old(records), m)
      ensures calm && !cut ==> (ok <==> MaterialEnsurable(old(records), m))
      ensures calm && cut && MaterialEnsurable(old(records), m) && !RecordAt(old(records), m.nonce).Imported() ==>
        !ok && records == PutMaterial(old(records), m, TornFile(m))
    {
      var r := RecordAt(records, m.nonce);
      var present := if r.material.AllFiles? && !r.identity then SomeFiles(r.material.of) else r.material;
      var f;
      ok, f := EnsureFiles(present, m, calm, cut);
      if f != present {
        records := PutMaterial(records, m, f);
      }
      assert ok && f == present ==> records == WithMaterial(records, m);
    }

    /** Applies one response to the pending request, or changes no lifecycle state. The result
        says whether the one-time response identity was removed as well. */
    method ApplyResponse(e: Envelope, now: int, calm: bool, cut: bool := false) returns (r: Option<bool>)
      requires Valid()
      modifies this`records, root
      ensures Valid()
      ensures r.Some? ==> boot.Complete? && Settled(root.disk) && Now() != old(Now())
      ensures boot.Complete? && (records != old(records) || root.disk != old(root.disk)) ==>
        old(Settled(root.disk)) && ApplyReady(old(Now()), old(records), e, now)
      ensures boot.Complete? && old(Settled(root.disk)) && ApplyReady(old(Now()), old(records), e, now) ==>
        (if Now() == old(Now()) then
           Settled(root.disk) && RenderStep(old(Now()), old(records), e, now, records)
         else
           Now() == AppliedState(old(Now()), old(records), e, now) &&
           (records == AppliedRecords(old(Now()), old(records), e, now, true) ||
            (r.Some? && records == AppliedRecords(old(Now()), old(records), e, now, false))))
      ensures calm && !cut && boot.Complete? && old(Settled(root.disk)) && ApplyReady(old(Now()), old(records), e, now) ==>
        && Settled(root.disk) && Now() == AppliedState(old(Now()), old(records), e, now)
        && (r.Some? <==> Publishable(true, old(root.disk), Encode(Now()))) && r != Some(false)
      ensures calm && cut && boot.Complete? && old(Settled(root.disk)) && ApplyReady(old(Now()), old(records), e, now) ==>
        old(records)[old(Now()).pending.value.nonce].applied.AllFiles? || (r.None? && Now() == old(Now()) && Spoiled(Now(), records))
      ensures r == Some(true) ==> records == AppliedRecords(old(Now()), old(records), e, now, false)
    {
      if !boot.Complete? {
        return None;
      }
      var s := root.ReadAnchoredState();
      if s.None? || !ApplyReady(s.value, records, e, now) {
        return None;
      }
      var id := s.value.pending.value.nonce;
      var next := AppliedState(s.value, records, e, now);
      var ok := StoreManifest(id, ManifestFor(s.value, records, e, now), calm, cut);
      if !ok {
        return None;
      }
      var c := root.CommitAnchoredState(s.value, next, calm);
      if !c.Committed? {
        return None;
      }
      var removed := RemoveIdentity(id, calm);
      return Some(removed);
    }

    /** The rendered files, one after another, and last the manifest: all of them are there
        before the state can select the record. */
    method StoreManifest(id: Id, m: Manifest, calm: bool, cut: bool) returns (ok: bool)
      requires id in records && Ensurable(records[id].applied, m)
      modifies this`records
      ensures || records == old(records)
              || records == PutApplied(old(records), id, SomeFiles(m))
              || records == PutApplied(old(records), id, TornFile(m))
              || records == PutApplied(old(records), id, AllFiles(m))
      ensures ok ==> records == PutApplied(old(records), id, AllFiles(m))
      ensures calm && !cut ==> ok
      ensures calm && cut && !old(records)[id].applied.AllFiles? ==> !ok && records == PutApplied(old(records), id, TornFile(m))
    {
      var f;
      ok, f := EnsureFiles(records[id].applied, m, calm, cut);
      assert records == PutApplied(records, id, records[id].applied);
      records := PutApplied(records, id, f);
    }

    method RemoveIdentity(id: Id, calm: bool) returns (removed: bool)
      requires id in records
      modifies this`records
      ensures records == old(records) || records == old(records)[id := old(records)[id].(identity := false)]
      ensures removed ==> !records[id].identity
      ensures calm ==> removed
    {
      removed := true;
      var applied := true;
      if !calm {
        removed, applied := *, *;
      }
      if removed || applied {
        records := records[id := records[id].(identity := false)];
      }
    }

    /** Proves that exactly this response was committed, and retires its one-time identity. The
        lifecycle state is only read. */
    method ReconcileAppliedResponse(response: Digest, request: Digest, calm: bool) returns (r: Option<Id>)
      requires Valid()
      modifies this`records
      ensures Valid()
      ensures records != old(records) ==> boot.Complete? && AppliedExactly(Now(), old(records), response, request)
      ensures records.Keys == old(records).Keys
      ensures forall id <- records :: records[id] == old(records)[id] || records[id] == old(records)[id].(identity := false)
      ensures r.Some? ==> boot.Complete? && Settled(root.disk) && AppliedExactly(Now(), old(records), response, request)
      ensures calm && boot.Complete? && Settled(root.disk) && AppliedExactly(Now(), old(records), response, request) ==> r.Some?
      ensures r.Some? ==> Now().activeRecord.Some? && r.value == Now().activeRecord.value.id && !records[r.value].identity
    {
      if !boot.Complete? {
        return None;
      }
      var s := root.ReadAnchoredState();
      if s.None? || s.value.pending.Some? || s.value.activeRecord.None? || s.value.activeRecord.value.id !in records {
        return None;
      }
      var id := s.value.activeRecord.value.id;
      var applied := records[id].applied;
      if !applied.AllFiles? || !ActiveManifest(s.value, records, applied.of) || applied.of.request != request || applied.of.response != response {
        return None;
      }
      var removed := RemoveIdentity(id, calm);
      return if removed then Some(id) else None;
    }

    /** Consumes the pending request; its record directory is then dropped as far as possible. */
    method CancelPending(calm: bool) returns (ok: bool)
      requires Valid()
      modifies this`records, root
      ensures Valid()
      ensures boot.Complete? ==>
        Now() == old(Now()) || (CancelPossible(old(Now())) && Now() == CancelNext(old(Now())))
      ensures ok ==> boot.Complete? && Settled(root.disk) && Now() != old(Now())
      ensures calm && boot.Complete? && old(Settled(root.disk)) && CancelPossible(old(Now())) ==>
        Settled(root.disk) && Now() != old(Now()) && (ok <==> Publishable(true, old(root.disk), Encode(CancelNext(old(Now())))))
      ensures records != old(records) ==>
        boot.Complete? && Now() != old(Now()) && old(Now()).pending.Some? && records == old(records) - {old(Now()).pending.value.nonce}
    {
      if !boot.Complete? {
        return false;
      }
      var s := root.ReadAnchoredState();
      if s.None? || !CancelPossible(s.value) {
        return false;
      }
      CancelCommits(s.value);
      var c := root.CommitAnchoredState(s.value, CancelNext(s.value), calm);
      if !c.Committed? {
        return false;
      }
      if * {
        records := records - {s.value.pending.value.nonce};
      }
      return true;
    }

    /** Selects an earlier exact record again, re-rendered as the new record `activated`; `current`
        says that the signed authorization and the record's deployment are valid now. */
    method Rollback(a: RollbackAuthorization, activated: Id, current: bool, calm: bool) returns (ok: bool)
      requires Valid() && activated !in records
      modifies this`records, root
      ensures Valid()
      ensures boot.Complete? && Now() != old(Now()) ==>
        && a.record in old(records) && old(records)[a.record].applied.AllFiles?
        && var source := old(records)[a.record].applied.of;
        && RollbackAllowed(old(Now()), old(root.disk.state), source, a) && old(Settled(root.disk))
        && Now() == RollbackNext(old(Now()), source, a, activated)
      ensures ok ==> current && boot.Complete? && Settled(root.disk) && Now() != old(Now())
      ensures calm && current && boot.Complete? && old(Settled(root.disk)) ==>
        (a.record in old(records) && old(records)[a.record].applied.AllFiles? ==>
           (RollbackAllowed(old(Now()), old(root.disk.state), old(records)[a.record].applied.of, a) && old(Now()).activeRecord.value.id != activated ==>
              Settled(root.disk) && Now() != old(Now()) &&
              (ok <==> Publishable(true, old(root.disk), Encode(RollbackNext(old(Now()), old(records)[a.record].applied.of, a, activated))))))
      ensures forall id <- old(records) :: id in records && records[id] == old(records)[id]
    {
      if !current || !boot.Complete? || a.record !in records || !records[a.record].applied.AllFiles? {
        return false;
      }
      var s := root.ReadAnchoredState();
      var source := records[a.record].applied.of;
      if s.None? || !RollbackAllowed(s.value, root.disk.state, source, a) {
        return false;
      }
      var written, f := EnsureFiles(NoFiles, DerivedManifest(s.value, source, activated), calm, false);
      records := records[activated := Record(records[a.record].material, false, f)];
      if !written {
        return false;
      }
      if s.value.activeRecord.value.id != activated {
        RollbackCommits(s.value, root.disk.state, source, a, activated);
      }
      var c := root.CommitAnchoredState(s.value, RollbackNext(s.value, source, a, activated), calm);
      ok := c.Committed?;
    }
  }
}
