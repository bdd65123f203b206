/**
  The target-local lifecycle state: one durable snapshot, its own consistency
  rules, and the rules for one atomic forward step.
  Source: internal/localstate/localstate.go.
*/
module LocalState {
  import opened Common

  const MAX_CONSUMED_REQUESTS := 4096
  const MAX_CREDENTIAL_TOMBSTONES := 1024
  const MAX_REVOKED_CLIENTS := 1024
  const MAX_PENDING_VALIDITY := 24 * 60 * 60

  datatype Role = Client | Connector | Relay

  datatype Floors = Floors(deployment: U64, release: U64, credential: U64, policy: U64, tombstone: U64)

  datatype Pending = Pending(sequence: U64, request: Digest, nonce: Id, created: int, expires: int)

  /** The immutable manifest of one record directory (internal/enrollmenttarget/record.go).
      `leaves` are the key pins of the certificates whose digests it lists. */
  datatype Manifest = Manifest(
    record: Id, role: Role, installation: Id, request: Digest, response: Digest,
    deployment: U64, credential: U64, release: U64, policy: U64, tombstone: U64, leaves: set<Pin>)

  /** SHA-256 of manifest bytes, taken to be injective. */
  datatype ManifestDigest = DigestOf(manifest: Manifest)

  datatype RecordRef = RecordRef(id: Id, digest: ManifestDigest)

  /** `activeRecord` is None exactly when both of the source's text fields are empty. The
      sorted duplicate-free arrays of the source are sets here. */
  datatype State = State(
    role: Role,
    installation: Id,
    generation: U64,
    requestHigh: U64,
    deploymentHigh: U64,
    releaseHigh: U64,
    credentialHigh: U64,
    floors: Floors,
    activeRecord: Option<RecordRef>,
    activeDeployment: U64,
    activeCredential: U64,
    activeRelease: U64,
    activePolicy: U64,
    activeTombstone: U64,
    pending: Option<Pending>,
    consumed: set<Digest>,
    revokedClients: set<Id>,
    tombstones: set<Pin>,
    policySequence: U64,
    policyDigest: Option<Digest>,
    tombstoneSequence: U64,
    recoverySequence: U64)
  {
    predicate Valid() {
      && generation != 0
      && releaseHigh != 0
      && (deploymentHigh == 0 <==> credentialHigh == 0)
      && requestHigh >= credentialHigh
      && FloorsValid()
      && ActiveValid()
      && |consumed| <= MAX_CONSUMED_REQUESTS
      && |revokedClients| <= MAX_REVOKED_CLIENTS
      && |revokedClients| + |tombstones| <= MAX_CREDENTIAL_TOMBSTONES
      && (revokedClients != {} || tombstones != {} ==> tombstoneSequence != 0)
      && (policySequence == 0 <==> policyDigest.None?)
      && PendingValid()
    }

    predicate FloorsValid() {
      && floors.deployment <= deploymentHigh
      && floors.release <= releaseHigh
      && floors.credential <= credentialHigh
      && floors.policy <= policySequence
      && floors.tombstone <= tombstoneSequence
    }

    predicate ActiveValid() {
      && activeRelease != 0
      && floors.release <= activeRelease <= releaseHigh
      && if deploymentHigh == 0 then
           && activeRecord.None?
           && activeDeployment == activeCredential == activePolicy == activeTombstone == 0
           && activeRelease == releaseHigh
         else
           && activeRecord.Some?
           && activeDeployment != 0 && activeCredential != 0
           && floors.deployment <= activeDeployment <= deploymentHigh
           && floors.credential <= activeCredential <= credentialHigh
           && activePolicy == policySequence
           && activeTombstone == tombstoneSequence
    }

    predicate PendingValid() {
      pending.Some? ==>
        var p := pending.value;
        && p.sequence != 0
        && 0 < p.created < p.expires <= p.created + MAX_PENDING_VALIDITY
        && p.sequence == requestHigh
        && p.sequence > credentialHigh
        && p.request !in consumed
    }

    function ActiveTuple(): (Option<RecordRef>, (U64, U64, U64, U64, U64)) {
      (activeRecord, (activeDeployment, activeCredential, activeRelease, activePolicy, activeTombstone))
    }
  }

  predicate CountersAdvance(previous: State, next: State) {
    && previous.requestHigh <= next.requestHigh
    && previous.deploymentHigh <= next.deploymentHigh
    && previous.releaseHigh <= next.releaseHigh
    && previous.credentialHigh <= next.credentialHigh
    && previous.policySequence <= next.policySequence
    && previous.tombstoneSequence <= next.tombstoneSequence
    && previous.recoverySequence <= next.recoverySequence
    && previous.floors.deployment <= next.floors.deployment
    && previous.floors.release <= next.floors.release
    && previous.floors.credential <= next.floors.credential
    && previous.floors.policy <= next.floors.policy
    && previous.floors.tombstone <= next.floors.tombstone
  }

  predicate HistoryKept(previous: State, next: State) {
    && previous.consumed <= next.consumed
    && previous.tombstones <= next.tombstones
    && previous.revokedClients <= next.revokedClients
  }

  predicate OverlaysExplained(previous: State, next: State) {
    && (next.floors != previous.floors ==> next.policySequence != previous.policySequence)
    && (next.policySequence == previous.policySequence ==> next.policyDigest == previous.policyDigest)
    && (next.policySequence > previous.policySequence ==> next.policyDigest != previous.policyDigest)
    && (next.tombstones != previous.tombstones || next.revokedClients != previous.revokedClients ==>
          next.tombstoneSequence != previous.tombstoneSequence)
    && (previous.activeRecord.Some? && next.activeRecord.Some? && next.activeRecord.value.id == previous.activeRecord.value.id ==>
          next.ActiveTuple() == previous.ActiveTuple())
  }

  predicate PendingExplained(previous: State, next: State) {
    if previous.pending.None? then
      next.pending.Some? ==> next.pending.value.sequence > previous.requestHigh
    else
      || next.pending == previous.pending
      || (&& previous.pending.value.request in next.consumed
          && (next.pending.Some? ==> next.pending.value.sequence > previous.requestHigh))
  }

  /** One atomic forward state generation (`ValidateTransition`). */
  predicate ValidTransition(previous: State, next: State) {
    && previous.Valid() && next.Valid()
    && previous.role == next.role && previous.installation == next.installation
    && next.generation == previous.generation + 1
    && CountersAdvance(previous, next)
    && HistoryKept(previous, next)
    && OverlaysExplained(previous, next)
    && PendingExplained(previous, next)
  }
}
