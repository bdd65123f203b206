# OwnTransit: verified models of its durable state machines

OwnTransit enrols clients, activates credentials and supervises packages through state that
must survive a crash between any two file writes. This project models those state machines in
Dafny, together with the protocol and the formats they rest on, and proves what they promise.

## What is modelled

- `LocalState`, `Anchor`, `Lifecycle`: the target's lifecycle root. A commit writes a journal, an
  anchor in another root, the state file and read-only views, one file at a time; recovery
  finishes or refuses. On top of it: import, apply, reconciliation, cancellation, rollback.
  `Publication` is one view file, with its owner and mode.
- `ExchangeSession`, `SessionText`: the six-phase exchange session, its comparison of words, its
  generation compare-and-swap, and the canonical text in which it is stored.
- `SetupState`, `Coordinator`, `SetupHistory`, `SetupDriver`: the client setup coordinator, which
  keeps session and lifecycle in step, writes the READY receipt and retires the setup files, and
  the loop that drives it.
- `Supervisor`: the intent and restart records around a package operation.
- `Capability`, `Mailbox`: mailbox capabilities and the opaque mailbox arena.
- `Connector`, `Limiter`: admission slots under interleaved workers, the open limiter and the
  reconnect backoff.
- `Padding`, `Phrase`, `Ceremony`: padded requests, transcript and comparison words, and the
  two-party ceremony.
- `Framing`, `SetupWire`, `StateWire`, `ExchangeWire`: the binary formats.
- `RelayOCI`: the strict archive parser.

`Common` holds what several modules share. `dafny verify dfyconfig.toml` checks everything.

## How faults are modelled

An atomic replace, unlink or exclusive creation is one step. Unless a call is `calm`, each of its
steps may fail, before or after it took effect, and may leave what a cut step leaves: a torn new
file, or the temporary name of a replacement where somebody looks for it (workspaces, exchange
directories, the private stage of a generation). The files of a record directory are one group,
none of them there yet, some, all, or one torn. A crash is a call whose remaining steps all fail.
Methods of classes therefore say what holds after any interruption, and, for `calm` calls, exactly
when they succeed. `Anchor.LifecycleRoot` and `Coordinator.Client` also keep a ghost history of
every durable change, and the lemmas about runs speak about all such histories. Some methods take
a `cut`, the one place at which an otherwise undisturbed call is cut; with it the runs named below
are exhibited. In `Supervisor` the place where a run is cut is always a parameter; in `Mailbox` and
`Limiter` every operation is given an arbitrary clock reading; in `Connector` each atomic section
is one event of one worker, and a ghost map says what every worker holds.

SHA-256 is injective where a digest stands for a file or a capability, an arbitrary function where
the ceremony hashes bytes (conclusions then name the colliding inputs). Signatures and encryption
appear as what verifying or opening yields.

## What the proofs show about the code

- A commit asks that the anchor selects the state file, not that the transition marker is gone.
  Committing without recovering an interrupted publication first leaves the older credential
  generation readable for good: `Anchor.OldGenerationsRetiredIff`, `Anchor.LeakByTwoCommits`.
- The stage of a generation is filled by replacements, each through a temporary file that nothing
  removes after a crash, while exposing the stage demands its exact file set. So recovery can stick:
  it always installs the anchored state, but it finishes exactly when that state's generation needs
  no exposure or its stage holds no residue (`Anchor.LifecycleRoot.RecoverTransaction`). A residue is
  permanent, and runtimes stay shut out until another commit moves the anchor:
  `Anchor.ResidueIsForever`, `Anchor.StuckUntilNextCommit`, `Anchor.StandstillByOneCut`. All of this
  takes the three view files (marker, anchor view, runtime view) to be replaceable. They are not
  where an earlier replacement was cut between changing a file's owner and its mode: the inspection
  before each replacement then refuses that file for good, and with it every publication that
  needs it, commits and recoveries alike: `Publication.Replace`, `Publication.HalfwayIsForever`.
- Record files are created first and written afterwards, and a short file is refused ever after. A
  crash inside one of them ends the setup: no response is applied in any later run, and material
  torn during its import is never imported (`SetupHistory.TornRecordEndsSetup`,
  `SetupHistory.TornImportIsForever`, with runs in `SetupHistory.LoseRecordByOneCut` and
  `SetupHistory.LoseImportByOneCut`). What is left is cancelling.
- Staging an invitation again after its words were confirmed writes a new request into the
  workspace before it fails. From then on neither resuming nor accepting works:
  `Coordinator.Client.Stage`, `SetupHistory.StrandedCannotResume`. Where neither has
  happened, every crash after verification can be resumed: `SetupHistory.VerifiedResumes`,
  `Coordinator.Client.ResumeApply`, `SetupHistory.FinishAfterCut`.
- The import runs before the imported digest is compared with the session
  (`internal/enrollmentsetup/coordinator_unix.go:773-779`). It is still always the confirmed one,
  by the invariant that relates session and lifecycle: `Coordinator.ImportKeepsConsistency`.
- The time at which a plan was last validated is what reopens an applied session once its request
  has expired. Staging the invitation again after that expiry, which the longer life of an
  invitation permits, moves that time past the request, while the comment above
  `bindPlanValidationToRequest` says that it advances once. Then the session never opens again
  from that expiry on and never becomes READY, although its response runs; no other call does this:
  `SetupHistory.AppliedReopensIff`, `SetupHistory.CallsKeepInTime`, `SetupHistory.OverdueIsForever`,
  `SetupHistory.LoseTailByStaging`.
- Cleanup after READY can be cut anywhere and run again, unless a cut replacement left its temporary
  file in the workspace or its exchange directory, or the clock is before READY. Such a file is
  there for good: `Coordinator.Client.CleanupReady`, `SetupHistory.StrayBlocksCleanupForever`,
  `SetupHistory.LoseCleanupByOneCut`. The comment above `CompleteReady` says that a crash can never
  erase a successful proof; that holds for a receipt that was completely written, while a torn one
  is refused ever after: `SetupHistory.TornReceiptIsForever`, `SetupHistory.LoseReadyByOneCut`.
- A supervised run whose record removal took effect but was reported as failed has forgotten the
  first sample, although the service is as sampled: `Supervisor.SampleForgottenIff`,
  `Supervisor.FailedRunCanForget`.
- The clamp that keeps the mailbox byte count from going negative is never needed:
  `Mailbox.MailboxStore.Expire`. The driver's limit of six turns is never reached:
  `SetupDriver.ContinueClientSetup`.

## Model

| member | source | states |
|---|---|---|
| Anchor.WriteRefinesAtomicVariable | internal/enrollmenttarget/anchor.go:93-165 | every durable write of a commit or a recovery keeps the crash invariant, and leaves the anchored state alone unless it is the anchor write, which moves it along one valid transition |
| Anchor.RunsKeepInvariant | internal/enrollmenttarget/anchor.go:167-255 | in every run of such writes, cut anywhere, the anchor selects the state file or the journal holds the one valid step to it; the anchored generation never goes back and consumed requests are never forgotten |
| Anchor.AnchoredStatesFormChain | internal/enrollmenttarget/anchor.go:144-152 | the anchored states of any run form a chain of valid transitions |
| Anchor.CommitsAreConsistent | internal/enrollmenttarget/anchor.go:93-165 | the last commit of a run is what recovery of its last disk would select |
| Anchor.RestoredStateFile | internal/enrollmenttarget/anchor.go:299-305 | any other state file put back under the same anchor is refused by readers, and recovery refuses it or installs exactly the anchored state |
| Anchor.OldGenerationsRetiredIff | internal/enrollmenttarget/runtimeview.go:395-432 | readable credential generations that no selector names remain at the end of a run exactly when some commit moved the anchor while an earlier publication was unfinished |
| Anchor.UnfinishedPublicationLeaks | internal/enrollmenttarget/anchor.go:93-165 | such a run of writes exists: a publication cut between exposing and naming its generation, then a complete commit, leaves the old generation readable |
| Anchor.LeakByTwoCommits | internal/enrollmenttarget/anchor.go:93-165 | the same by two calls of the commit: the first is cut behind exposing its generation, the second goes undisturbed, and the generation of the first stays readable |
| Anchor.MarkerGoneMeansTidy | internal/enrollmenttarget/runtimeview.go:395-432 | with the transition marker gone exactly the anchored generation is readable |
| Anchor.ResidueIsForever | internal/securefs/viewwriter.go:382-393 | a temporary file left in a stage stays there in every run, and its generation is never exposed |
| Anchor.StuckUntilNextCommit | internal/enrollmenttarget/runtimeview.go:341-358 | an anchored generation with such a residue shuts runtimes out in every run until another commit moves the anchor |
| Anchor.StandstillByOneCut | internal/enrollmenttarget/anchor.go:93-255 | such a run exists: one commit is cut inside its stage, the same commit then moves the state, and undisturbed recovery cannot finish it |
| Anchor.LifecycleRoot.FillStage | internal/enrollmenttarget/runtimeview.go:341-358 | completes the stage of the journalled generation or leaves a residue in it |
| Anchor.LifecycleRoot.Expose | internal/securefs/viewwriter.go:382-393 | makes a stage readable exactly when nothing but its own files is in it |
| Anchor.LifecycleRoot.InstallAnchored | internal/enrollmenttarget/anchor.go:153-165 | behind the anchor the state file is always installed; publication ends exactly when the stage can be exposed |
| Anchor.LifecycleRoot.CommitAnchoredState | internal/enrollmenttarget/anchor.go:93-165 | refused exactly when the compare-and-swap or the transition fails; otherwise whether an interrupted commit took place is decided by the anchor alone; without faults it always takes place, and it completes exactly when the new generation needs no exposure or its stage holds no residue |
| Anchor.LifecycleRoot.RecoverTransaction | internal/enrollmenttarget/anchor.go:173-255 | never moves the anchor, can install nothing but the anchored state, and leaves every unresumable disk untouched; without faults it always installs that state, and finishes exactly when its generation needs no exposure or its stage holds no residue |
| Anchor.LifecycleRoot.ReadAnchoredState | internal/enrollmenttarget/anchor.go:69-91 | yields the state file exactly when the external anchor selects it |
| Anchor.LifecycleRoot.PrepareViewCommit | internal/enrollmenttarget/runtimeview.go:268-393 | journal, stage and marker, in that order and nothing else; a cut inside the stage leaves its residue there |
| Anchor.LifecycleRoot.PublishPreparedViews | internal/enrollmenttarget/runtimeview.go:395-432 | exposes the new generation, retires the previous one, names the new one and drops the marker last; it ends exactly when the stage can be exposed |
| Publication.Replace | internal/securefs/viewwriter.go:609-680 | a view file is replaced exactly when no earlier replacement of it was cut between owner and mode; a cut there leaves it so |
| Publication.HalfwayIsForever | internal/securefs/viewwriter.go:743-758 | such a file is as it is in every later run |
| Lifecycle.ApplyCommitsIffRecordIsNew | internal/enrollmenttarget/apply.go:125-204 | a response that passes the activation gate is a committable transition unless it reuses the identifier of the active record |
| Lifecycle.RollbackCommits | internal/enrollmenttarget/rollback.go:68-122 | an authorized rollback to a newly named record is always a committable transition |
| Lifecycle.RunIsMonotone | internal/localstate/localstate.go:240-318 | over any run of transitions generations advance by one, and high-waters, consumed requests and tombstones only grow |
| Lifecycle.HighWatersOverRun | internal/enrollment/apply.go:91-93 | every apply raises both high-waters above all earlier ones, every rollback leaves them, and the active tuple lies between floors and high-waters |
| Lifecycle.NoRequestAppliedTwice | internal/enrollment/apply.go:74-81 | no request is applied twice, whatever was committed in between |
| Lifecycle.RollbackAuthorizationIsOneShot | internal/enrollmenttarget/rollback.go:68-71 | a used rollback authorization is never accepted in any other state of the run, before or after |
| Lifecycle.TombstonedNeverActivated | internal/enrollment/apply.go:97-99 | a credential tombstoned once is never activated again, neither by apply nor by rollback |
| Lifecycle.RejectTombstonedLeaves | internal/enrollment/apply.go:140-166 | the loops accept exactly where every recorded pin and every present leaf parses and no leaf is tombstoned |
| Lifecycle.ImportCommits | internal/enrollmenttarget/target.go:310-321 | importing current first-sequence material into a fresh lifecycle is a valid transition |
| Lifecycle.CancelCommits | internal/enrollmenttarget/target.go:533-586 | cancelling consumes the pending request by a valid transition |
| Lifecycle.Target.ReadStatus | internal/enrollmenttarget/target.go:590-601 | missing before bootstrap has completed, refused while the anchor is ahead, the anchored state otherwise |
| Lifecycle.EnsureFiles | internal/securefs/securefs.go:258-338 | completes the files exactly when none of them is torn or different; a cut creation leaves one torn |
| Lifecycle.Target.ReadPendingRequest | internal/enrollmenttarget/target.go:502-528 | reports the retained request of the anchored state, and refuses while the anchor is ahead |
| Lifecycle.Target.BootstrapOrVerify | internal/enrollmenttarget/target.go:218-259 | creates the root with its state last or verifies an equal one; partial residue is never repaired |
| Lifecycle.Target.ImportPendingClient | internal/enrollmenttarget/target.go:265-365 | imports exactly the given material into a fresh lifecycle or recognises it as imported; a cut can leave a record file torn; succeeds without faults exactly when that is possible, which a torn file excludes |
| Lifecycle.Target.ApplyResponse | internal/enrollmenttarget/apply.go:46-216 | changes the lifecycle to exactly the applied state or not at all, and writes nothing unless every check passed; what a cut can leave of the record is named, a torn file among it; without faults the response is always applied |
| Lifecycle.Target.ReconcileAppliedResponse | internal/enrollmenttarget/apply.go:235-284 | succeeds only when exactly this response to this request is what runs, only retires the one-time identity, and changes no record otherwise |
| Lifecycle.Target.CancelPending | internal/enrollmenttarget/target.go:533-586 | consumes the pending request or leaves the lifecycle alone; only the record of that request can go |
| Lifecycle.Target.Rollback | internal/enrollmenttarget/rollback.go:29-128 | selects the authorized record again as a newly derived one, or leaves the lifecycle alone |
| ExchangeSession.EdgeKeepsSession | internal/enrollmentexchange/session.go:383-413 | every legal edge keeps the session shape, the generation that belongs to its phase, and the binding of its response |
| ExchangeSession.StoredHistory | internal/enrollmentexchange/store.go:84-114 | everything ever stored is one exchange, well shaped, numbered by its place and its phase, at most five long, and ends at cancellation or READY |
| ExchangeSession.StoredParsesWhileCurrent | internal/enrollmentexchange/session.go:188-275 | a stored session loads again exactly while its invitation and request are current |
| ExchangeSession.GroupMatchesExactly | internal/enrollmentexchange/session.go:329-353 | comparing joined canonical words is comparing them word by word |
| ExchangeSession.TargetSession.ConfirmProvisionerWords | internal/enrollmentexchange/session.go:329-353 | blank input is deferred, exact words confirm, anything else cancels; each change is one legal edge |
| ExchangeSession.TargetSession.Cancel | internal/enrollmentexchange/session.go:355-372 | possible exactly before the response is applied |
| ExchangeSession.TargetSession.AcceptBoundResponse | internal/enrollmentexchange/response_binding.go:142-156 | accepted exactly in a confirmed session that the response binds |
| ExchangeSession.TargetSession.RecordApplied | internal/enrollmentexchange/response_binding.go:242-254 | one edge from the verified phase only |
| ExchangeSession.TargetSession.CompleteReadyProbe | internal/enrollmentexchange/response_binding.go:258-271 | one edge from the applied phase after a successful proof only |
| ExchangeSession.TargetStore.Replace | internal/enrollmentexchange/store.go:84-114 | a writer wins exactly when what it loaded is still stored, and however the write itself fails the stored sessions stay one linear history |
| ExchangeSession.OneWinnerPerGeneration | internal/enrollmentexchange/store.go:110-112 | no generation is ever stored twice |
| SessionText.TextIsExact | internal/enrollmentexchange/session.go:154-184 | no two sessions are stored as the same text |
| SessionText.TextFits | internal/enrollmentexchange/session.go:180-182 | no session outgrows the 8 MiB limit of its file |
| SessionText.SavedIsReadBack | internal/enrollmentexchange/session.go:154-203 | encoding never fails, its text is read back as what was written, and whatever is accepted re-encodes to the same text |
| SetupState.ChangeKeepsConsistency | internal/enrollmentsetup/coordinator_unix.go:431-461 | a change of one workspace that respects its own conditions keeps exchange, lifecycle and receipt in step everywhere |
| SetupState.LifeMoveKeepsConsistency | internal/enrollmentsetup/coordinator_unix.go:750-784 | a lifecycle move concerns the selected session only |
| SetupState.EdgeFits | internal/enrollmentsetup/coordinator_unix.go:811-815 | a stored session may take a legal edge once the lifecycle agrees with the new phase |
| SetupState.RetirementFits | internal/enrollmentsetup/coordinator_unix.go:388-406 | once the receipt is written the files of its workspace may go |
| SetupState.SelectionKeepsConsistency | internal/enrollmentsetup/coordinator_unix.go:672-698 | another invitation may be selected only with nothing under way |
| Coordinator.ImportKeepsConsistency | internal/enrollmentsetup/coordinator_unix.go:769-779 | an import that moves the lifecycle imports the confirmed request, although the digests are compared only afterwards |
| Coordinator.GateKeepsConsistency | internal/enrollmentsetup/coordinator_unix.go:790-810 | whatever the apply gate leaves behind, torn files included, the verified session still explains it |
| Coordinator.StageFollows | internal/enrollmentsetup/coordinator_unix.go:185-232 | what an undisturbed staging does to a new, a retained and a stranded invitation |
| Coordinator.StagedOpens | internal/enrollmentsetup/coordinator_unix.go:590-646 | a staged session opens |
| Coordinator.ReopenedParses | internal/enrollmentsetup/coordinator_unix.go:576-646 | what is open again also parses at the validation time of its plan, from that time on |
| Coordinator.RestagingIsOverdueIff | internal/enrollmentsetup/coordinator_unix.go:927-956 | staging again, with the retained request gone, moves the plan past the request of the stored session exactly when that request has expired |
| Coordinator.Client.Stage | internal/enrollmentsetup/coordinator_unix.go:185-232 | never touches the lifecycle or another workspace; success leaves an open session for the retained request, and without faults comes exactly when the stated condition on plan, request and session holds; of the plan, staging again moves the validation time only, to the birth of the request it works with; a new invitation is staged, a retained one resumed, a stranded one refused with a new request left behind |
| Coordinator.Client.SelectInvitation | internal/enrollmentsetup/coordinator_unix.go:648-748 | selects the same invitation again, or another one exactly where nothing is under way |
| Coordinator.Client.EnsurePending | internal/enrollmentsetup/coordinator_unix.go:880-919 | the retained request exactly when it is current and fits the plan, a new one where there is none |
| Coordinator.Client.BindPlan | internal/enrollmentsetup/coordinator_unix.go:927-956 | moves the validation time forward to the birth of the request, or refuses |
| Coordinator.Client.OpenOrCreateSession | internal/enrollmentsetup/coordinator_unix.go:833-857 | the stored session exactly when it is current and of this request, a first one where there is none |
| Coordinator.Client.Status | internal/enrollmentsetup/coordinator_unix.go:236-272 | reports the receipt first and what the selected session says next, and finishes an import that a crash cut |
| Coordinator.Client.Confirm | internal/enrollmentsetup/coordinator_unix.go:431-461 | the lifecycle moves only behind a durably stored confirmation of the exact words, and then to exactly the import of the retained material; a mismatch ends in the tombstone; the reply is decided by words, lifecycle and retained files |
| Coordinator.Client.CommitPending | internal/enrollmentsetup/coordinator_unix.go:750-784 | succeeds exactly when the retained material is gone or importable, torn record files excluded, and then the lifecycle holds the request or runs its response |
| Coordinator.Client.ImportMaterial | internal/enrollmentsetup/coordinator_unix.go:769-779 | the imported request is always the confirmed one |
| Coordinator.Client.RequestRetained | internal/enrollmentsetup/coordinator_unix.go:759-767 | without retained material the lifecycle holds the request or has applied it, so that the answer is yes exactly while it can be read |
| Coordinator.Client.AcceptAndApply | internal/enrollmentsetup/coordinator_unix.go:466-489 | stores the verified response before the lifecycle sees it; from then on the retained material is gone and only a torn record file keeps an applicable response from being applied; without faults it succeeds exactly when the retained request can be imported and the response is bound and applicable |
| Coordinator.Client.ApplyVerified | internal/enrollmentsetup/coordinator_unix.go:790-816 | applies at most once, to exactly the applied state; succeeds without faults exactly when the response can be applied or already runs, which a torn record file excludes |
| Coordinator.Client.ResumeApply | internal/enrollmentsetup/coordinator_unix.go:493-512 | after recovery it succeeds exactly when resuming is possible; an interruption of it makes that false exactly when it tears a record file |
| Coordinator.Client.Reconcile | internal/enrollmenttarget/apply.go:235-284 | proof that the lifecycle already runs the response |
| Coordinator.Client.Recover | internal/enrollmenttarget/anchor.go:173-255 | recovery changes nothing but whether the lifecycle can be read; undisturbed it can be read afterwards, and the call reports success exactly when the anchored generation can be exposed |
| Coordinator.Client.CompleteReady | internal/enrollmentsetup/coordinator_unix.go:279-355 | the receipt is written only after a proof for the running response and before the last phase; once it is whole it is readable whatever else failed; without faults it succeeds exactly when the lifecycle can be read, the proof was made and the clock is not before the plan; what a cut inside either write leaves is named |
| Coordinator.Client.RecordReady | internal/enrollmentsetup/coordinator_unix.go:331-349 | writes receipt and last phase in that order; the session always parses at the validation time, so that without faults both are written |
| Coordinator.Client.CleanupReady | internal/enrollmentsetup/coordinator_unix.go:360-427 | ends with session, workspace and selector gone and the receipt redacted, exactly when no temporary file of a cut replacement is left in the workspace and the clock is not before READY; interruptions keep it possible; other workspaces are untouched |
| Coordinator.Client.RetireExchange | internal/enrollmentexchange/store.go:122-171 | destroys exactly the paired session, then its directory; undisturbed exactly when no temporary file is in it |
| Coordinator.Client.Cancel | internal/enrollmentsetup/coordinator_unix.go:516-575 | the tombstone comes first; success leaves nothing to import or apply; possible exactly before anything was applied |
| Coordinator.Client.ReplaceSession | internal/enrollmentexchange/store.go:84-114 | the stored session becomes its successor or stays, with the temporary name of a cut replacement |
| SetupHistory.TombstoneIsForever | internal/enrollmentsetup/coordinator_unix.go:553-574 | a cancelled workspace stays cancelled, and nothing is imported or applied for it again |
| SetupHistory.ReceiptIsForever | internal/enrollmentsetup/coordinator_unix.go:316-349 | once whole, the receipt stays and only its redaction is ever added |
| SetupHistory.TornReceiptIsForever | internal/securefs/securefs.go:274-279 | a torn receipt stays torn in every run, and READY is refused from then on |
| SetupHistory.LoseReadyByOneCut | internal/enrollmentsetup/coordinator_unix.go:341-346 | such a run exists: the carrier proof succeeds, writing its receipt is cut, and a later proof, undisturbed, is refused |
| SetupHistory.EachHappensOnce | internal/enrollmentsetup/coordinator_unix.go:790-816 | over any run at most one import and at most one apply happen |
| SetupHistory.PendingWasConfirmed | internal/enrollmentsetup/coordinator_unix.go:431-461 | a pending request got into the lifecycle by one import, at a moment when the selected workspace durably stored the session that confirmed exactly its transcript |
| SetupHistory.ActiveWasVerified | internal/enrollmentsetup/coordinator_unix.go:466-489 | what runs got there by one apply of a durably verified response to a request imported and confirmed before |
| SetupHistory.SessionOnlyAdvances | internal/enrollmentexchange/store.go:84-114 | a workspace stores one exchange whose generation never goes back |
| SetupHistory.AppliedReopensIff | internal/enrollmentsetup/coordinator_unix.go:580-646 | an applied session can be reopened at every time from the validation time of its plan on exactly when that time has not passed its request |
| SetupHistory.StaysInTime | internal/enrollmentsetup/coordinator_unix.go:921-956 | over any run in which no plan is bound to another request it stays in time, until its receipt is written |
| SetupHistory.CallsKeepInTime | internal/enrollmentsetup/coordinator_unix.go:921-956 | no call but staging binds a plan, so no other call keeps an applied session from being reopened |
| SetupHistory.OverdueIsForever | internal/enrollmentsetup/coordinator_unix.go:580-646 | once overdue it is so in every later run: it never becomes READY, and from the expiry of its request on nothing opens it |
| SetupHistory.LoseTailByStaging | internal/enrollmentsetup/coordinator_unix.go:185-232 | such a run exists: one undisturbed staging of an applied session after its request has expired, and the carrier proof is refused |
| SetupHistory.RetiredIsForever | internal/enrollmentexchange/store.go:122-171 | after READY a retired session never returns |
| SetupHistory.StrayBlocksCleanupForever | internal/securefs/securefs.go:719-735 | a whole receipt with a temporary file in its workspace is never cleaned up in any later run |
| SetupHistory.LoseCleanupByOneCut | internal/enrollmentsetup/coordinator_unix.go:346-349 | such a run exists: READY is proved, the last replacement of the session is cut, and cleaning up, undisturbed, is refused |
| SetupHistory.StrandedCannotResume | internal/enrollmentsetup/coordinator_unix.go:880-956 | a request left behind by staging again after confirmation keeps the verified response from being applied |
| SetupHistory.VerifiedResumes | internal/enrollmentsetup/coordinator_unix.go:493-512 | resuming a verified session works exactly when no record file of the request is torn, the gate admits the response or it already runs, and nothing else is retained |
| SetupHistory.TornRecordEndsSetup | internal/enrollmenttarget/apply.go:158-172 | once a record file of the pending request is torn, no run ever applies a response again |
| SetupHistory.LoseRecordByOneCut | internal/enrollmenttarget/apply.go:158-172 | such a run exists: resuming is cut inside one record file, and resuming again, undisturbed, is refused at every time |
| SetupHistory.TornImportIsForever | internal/enrollmenttarget/target.go:333-347 | material of which a cut import tore a file can never be imported in any later run |
| SetupHistory.LoseImportByOneCut | internal/enrollmenttarget/target.go:333-347 | such a run exists: one import is cut, and the retained material is unusable at every time |
| SetupHistory.ActiveWasAppliedOnce | internal/enrollmentsetup/coordinator_unix.go:790-816 | whenever something runs, exactly one apply has happened |
| SetupHistory.FinishAfterCut | internal/enrollmentsetup/coordinator_unix.go:466-512 | accepting cut anywhere, then recovery and resuming undisturbed inside the window: the response is applied, by exactly one apply, exactly when no record file was torn |
| SetupDriver.TakeTurn | cmd/owntransit/setup_client_unix.go:130-232 | every turn that continues has moved the phase on; an undisturbed one keeps the enrolment on its track |
| SetupDriver.ContinueClientSetup | cmd/owntransit/setup_client_unix.go:122-236 | four turns always suffice, the limit of six is never hit, a clean finish is backed by the redacted receipt, and undisturbed turns with the right words, response and proof end READY and cleaned up |
| SetupDriver.AnswerIsAccepted | internal/enrollmenttarget/apply.go:125-145 | a response that deploys the first credential for the imported request passes the gate |
| SetupDriver.Enrol | cmd/owntransit/setup_client_unix.go:76-119 | a whole enrolment in which nothing goes wrong, from a new invitation on, ends READY and cleaned up, with exactly its response running |
| Supervisor.PackageSupervisor.Run | cmd/owntransitctl/package_supervisor_linux.go:71-160 | the operation runs only while the service is inactive; success exactly when nothing went wrong; whenever no record remains the service is as first sampled, and any record still says so; a torn intent changes nothing |
| Supervisor.PackageSupervisor.Execute | cmd/owntransitctl/package_supervisor_linux.go:115-160 | everything behind the durable intent |
| Supervisor.SampleSurvives | cmd/owntransitctl/package_supervisor_linux.go:87-114 | as long as records remain, every later run works towards the first sample, whoever toggles the service in between |
| Supervisor.FirstActivityRestored | cmd/owntransitctl/package_supervisor_linux.go:137-159 | the run that ends the attempts leaves the service as first sampled |
| Supervisor.TornStaysTorn | cmd/owntransitctl/package_supervisor_linux.go:264-296 | intent and restart never coexist, and a torn intent stops every later run before it touches the service |
| Supervisor.FailedRunCanForget | cmd/owntransitctl/package_supervisor_linux.go:378-392 | a run whose record removal took effect but was reported as failed has forgotten the sample |
| Supervisor.SampleForgottenIff | cmd/owntransitctl/package_supervisor_linux.go:151-158 | a failed run forgets a recorded sample exactly then |
| Mailbox.ActionHashIsExact | internal/enrollmentexchange/mailbox_store.go:248-260 | one digest stands for one mailbox, one action and one capability |
| Mailbox.OneActionEach | internal/enrollmentexchange/mailbox_store.go:216-232 | each of the four capabilities authorizes exactly one action |
| Mailbox.MailboxStore.Expire | internal/enrollmentexchange/mailbox_store.go:234-246 | leaves exactly the live slots, keeps the byte count exact, and never needs its negative clamp |
| Mailbox.MailboxStore.Create | internal/enrollmentexchange/mailbox_store.go:55-108 | equals the expiring-map reference |
| Mailbox.MailboxStore.Put | internal/enrollmentexchange/mailbox_store.go:148-184 | equals the expiring-map reference |
| Mailbox.MailboxStore.Read | internal/enrollmentexchange/mailbox_store.go:186-214 | equals the expiring-map reference |
| Mailbox.MailboxStore.Consume | internal/enrollmentexchange/mailbox_store.go:126-146 | equals the expiring-map reference |
| Mailbox.SlotContinues | internal/enrollmentexchange/mailbox_store.go:148-184 | within one life of a slot, at any clock readings, keys and expiry are fixed, contents appear once and consumption is final |
| Mailbox.PutIsForever | internal/enrollmentexchange/mailbox_store.go:172-183 | a successful put fixes the bytes: every later read returns them and every later successful put repeats them |
| Mailbox.ConsumedIsForever | internal/enrollmentexchange/mailbox_store.go:126-146 | after consumption no put or read succeeds and creating the slot again does not revive it |
| Mailbox.ReadWasPut | internal/enrollmentexchange/mailbox_store.go:186-214 | whatever is stored was put, by a successful put of exactly those bytes |
| Mailbox.HistoryIsBounded | internal/enrollmentexchange/mailbox_store.go:97-99 | every arena of any history holds at most 1024 slots and 32 MiB, and consumed slots hold nothing |
| Capability.AcceptedTexts | internal/enrollmentexchange/invitation.go:355-361 | exactly the canonical 43-digit texts are accepted |
| Capability.ParseIsBijective | internal/enrollmentexchange/invitation.go:355-361 | text and bytes of a capability determine each other |
| Connector.Rebalance | internal/connector/service.go:476-527 | one worker changing what it holds, and booking it, keeps every counter equal to the number of its holders |
| Connector.InterleavingIsBalanced | internal/connector/service.go:476-514 | over every sequence of atomic sections of any number of workers each counter equals the number of its holders and keeps its limit |
| Connector.LeavingGivesBack | internal/connector/session.go:46-120 | whatever the others do in between, a leaving worker gives back one thing with each release of its own, and is gone exactly when it has released all it held |
| Connector.Admission.AcceptOpen | internal/connector/service.go:476-514 | a worker starts exactly with an allowed open, a free pending token and a key that is not live; every other open leaves nothing behind |
| Connector.Admission.TryAcquireClientActive | internal/connector/session.go:159-168 | granted exactly below the account limit of that client |
| Connector.Admission.TryAcquireActive | internal/connector/session.go:112-114 | granted exactly below the active limit |
| Connector.Admission.ReleaseClientActive | internal/connector/session.go:170-179 | gives back one slot of that client and forgets an empty account |
| Connector.Admission.RunSession | internal/connector/session.go:46-142 | every path through a session, taken alone, returns everything that it took |
| Connector.QuiescentIsEmpty | internal/connector/service.go:503-512 | without workers all counters, accounts and keys are gone |
| Connector.OneWorkerPerKey | internal/connector/service.go:492-501 | no session key is live in two workers |
| Connector.NoClientHoldsEverySlot | internal/config/config.go:199-210 | with the capability profile and more than one slot no client holds every active slot |
| Connector.DefaultAccountIsValid | internal/config/config.go:526-528 | the default account always leaves a slot for another client |
| Limiter.OpenLimiter.Allow | internal/connector/limits.go:29-45 | the bucket step, with its grant |
| Limiter.GrantsAreBounded | internal/connector/limits.go:29-45 | over any run of calls at any readings, grants never exceed the tokens at hand plus the seconds by which the latest reading advanced |
| Limiter.BurstPlusElapsed | internal/connector/limits.go:11-14 | hence never more than four plus those seconds |
| Limiter.OneSecondSuffices | internal/connector/limits.go:33-44 | a caller who waits one second is served |
| Limiter.LatestIsMaximum | internal/connector/limits.go:33-39 | the stored reading is the maximum of all readings |
| Limiter.NextBackoff | internal/connector/limits.go:47-52 | doubles or saturates without exceeding the maximum, hence without overflow |
| Limiter.BackoffSaturates | internal/connector/limits.go:47-52 | k doublings yield the smaller of the maximum and the minimum times 2^k |
| Limiter.Jitter | internal/connector/limits.go:54-69 | adds at most half and never overflows |
| Limiter.Run | internal/connector/service.go:327-352 | every delay lies between the saturated backoff of its streak of short attempts and the maximum |
| Padding.PadRequest | internal/enrollmentexchange/request_envelope.go:106-131 | smallest class that fits, header and request in place, the rest random |
| Padding.UnpadUndoesPad | internal/enrollmentexchange/request_envelope.go:133-162 | unpadding gives back the exact request whatever the padding |
| Padding.AcceptedPlaintext | internal/enrollmentexchange/request_envelope.go:133-162 | an accepted plaintext starts with exactly the header of the request it yields |
| Phrase.WordIndex | internal/enrollmentexchange/phrase.go:121-128 | eleven bits of the digest in network order, below 2048 |
| Phrase.SliceOfNumber | internal/enrollmentexchange/phrase.go:119-128 | a run of bits is that slice of the digest read as one number |
| Phrase.ThreeWordsAre33Bits | internal/enrollmentexchange/phrase.go:102-105 | three indices determine and are determined by the first 33 bits |
| Phrase.PreimageIsExact | internal/enrollmentexchange/phrase.go:60-91 | one transcript preimage for each invitation, request and ciphertext |
| Phrase.TranscriptNamesExchange | internal/enrollmentexchange/phrase.go:60-91 | equal transcript digests mean the same exchange, or an explicit SHA-256 collision |
| Phrase.LoadVocabulary | internal/enrollmentexchange/phrase.go:130-163 | accepts exactly the pinned text, which is 2048 lowercase words in strictly increasing order, one on each line |
| Phrase.WordsAreDistinct | internal/enrollmentexchange/phrase.go:146-159 | so words and indices determine each other |
| Phrase.PhraseFromTranscript | internal/enrollmentexchange/phrase.go:93-107 | fills the six words, three for each direction |
| Phrase.GroupCarries33Bits | internal/enrollmentexchange/phrase.go:49-51 | a group of words carries exactly 33 bits of its directional digest |
| Ceremony.BothDeriveTheSame | internal/enrollmentexchange/transcript.go:27-67 | both sides with the same invitation and ciphertext derive the same transcript and words |
| Ceremony.OperatorSession.ConfirmTargetWords | internal/enrollmentexchange/operator_session.go:221-244 | exact target words confirm, anything else but blanks cancels |
| Ceremony.OperatorSession.ProvisionerWords | internal/enrollmentexchange/operator_session.go:248-255 | the reverse words are revealed exactly after confirmation |
| Ceremony.OperatorSession.BindResponse | internal/enrollmentexchange/operator_session.go:257-276 | binds exactly in a confirmed session and under the invitation's signer |
| Ceremony.ExactWordsMatch | internal/enrollmentexchange/session.go:415-430 | words read out exactly are accepted and never taken for blanks |
| Ceremony.Exchange | internal/enrollmentexchange/operator_session.go:221-276 | exact word exchange confirms both sides and the target accepts the bound response |
| Ceremony.AcceptedOutputIsOfThisExchange | internal/enrollmentexchange/response_binding.go:158-211 | an operator output that the target accepts came from a session of the same invitation, request and ciphertext, or SHA-256 collides |
| Ceremony.MatchingWordsShare33Bits | internal/enrollmentexchange/phrase.go:93-117 | two transcripts share the words of a direction exactly when those digests share 33 bits |
| Framing.CopyInto | internal/enrollmentsetup/wire.go:270-283 | copying into a buffer changes exactly the target range |
| Framing.FieldSplits | internal/enrollmentexchange/phrase.go:86-91 | a length-prefixed field can be told from what follows it |
| Framing.BigEndianOfNumber | internal/enrollmentsetup/wire.go:292-309 | big-endian numbers and their bytes determine each other |
| SetupWire.EncodeFrame | internal/enrollmentsetup/wire.go:64-74 | fills exactly the frame bytes, or refuses an oversized payload |
| SetupWire.FramesRoundTrip | internal/enrollmentsetup/wire.go:77-103 | frames are exact inverses both ways |
| SetupWire.EncodeReverseWords | internal/enrollmentsetup/wire.go:105-115 | frames three valid words, and refuses others |
| SetupWire.DecodeReverseWords | internal/enrollmentsetup/wire.go:117-139 | the offset loop reads exactly three words and nothing behind them |
| SetupWire.ReverseWordsRoundTrip | internal/enrollmentsetup/wire.go:105-139 | reverse words are exact inverses both ways |
| SetupWire.DecodeWords | internal/enrollmentsetup/wire.go:191-207 | the loop over three length-prefixed words equals its specification |
| SetupWire.EncodeMailboxAction | internal/enrollmentsetup/wire.go:254-285 | fills exactly the action bytes, or refuses an invalid action |
| SetupWire.ActionIsReadBack | internal/enrollmentsetup/wire.go:287-320 | a written action is read back |
| SetupWire.ReadActionWasWritten | internal/enrollmentsetup/wire.go:287-320 | a read action re-encodes to the same bytes |
| SetupWire.EncodeMailboxTombstone | internal/enrollmentsetup/wire.go:322-343 | fills exactly the tombstone bytes, or refuses an invalid one |
| SetupWire.TombstoneIsReadBack | internal/enrollmentsetup/wire.go:345-368 | a written tombstone is read back |
| SetupWire.ReadTombstoneWasWritten | internal/enrollmentsetup/wire.go:345-368 | a read tombstone re-encodes to the same bytes |
| StateWire.EncodeState | internal/enrollmentsetup/wire.go:141-179 | every valid state has an encoding that fits its frame, and no other state has one |
| StateWire.StateIsReadBack | internal/enrollmentsetup/wire.go:181-231 | a valid state is decoded to itself |
| StateWire.ReadStateWasWritten | internal/enrollmentsetup/wire.go:181-231 | an accepted payload re-encodes to the same bytes |
| ExchangeWire.EncodeRequest | internal/enrollmentexchange/exchange_wire.go:39-59 | fills exactly the message bytes, or refuses an invalid request |
| ExchangeWire.RequestIsReadBack | internal/enrollmentexchange/exchange_wire.go:61-87 | a valid request is parsed to itself |
| ExchangeWire.ReadRequestWasWritten | internal/enrollmentexchange/exchange_wire.go:61-87 | an accepted message re-encodes to the same bytes |
| ExchangeWire.EncodeResponse | internal/enrollmentexchange/exchange_wire.go:104-117 | fills exactly the response bytes, or refuses a refusal with a payload |
| ExchangeWire.ResponsesRoundTrip | internal/enrollmentexchange/exchange_wire.go:119-132 | successful responses are exact inverses both ways, and a refusal is never taken for one |
| RelayOCI.ParseArchive | cmd/owntransitctl/relay_oci_linux.go:128-235 | accepts exactly the archives that meet the declarative meaning, and returns it |
| RelayOCI.Gather | cmd/owntransitctl/relay_oci_linux.go:138-190 | the loop stops only at entries that no acceptable archive can hold |
| RelayOCI.OrderIsIrrelevant | cmd/owntransitctl/relay_oci_linux.go:128-235 | verdict and result do not depend on the order of the entries |
| RelayOCI.AcceptedGraph | cmd/owntransitctl/relay_oci_linux.go:199-234 | an accepted archive is one manifest, its configuration and its layer: exactly its three blobs, each under the digest of its data and of the described size |

## Left out

- Status: the two separate lock sections of one call, between which another process may finish READY, are one section here.
- Exchange: the ceremony is run for words that are read out exactly and typed unchanged; other inputs are covered by the contracts of the two sessions.
- BothDeriveTheSame: parsing the invitation and comparing the request's fields with it are part of what is given.
- SavedIsReadBack: the strict JSON decoder is a given function; that its result must re-encode to the same text is what is used of it.
- RunSession: a session taken alone; `InterleavingIsBalanced` and `LeavingGivesBack` speak about sessions that interleave.
- EncodeMailboxAction: identity and capabilities are raw bytes, their texts are parsed before; for capabilities `Capability` models that.
- EncodeMailboxTombstone: the same.
- EncodeRequest: the same.
- ParseArchive: tar decoding with its header checks, JSON decoders and hash are given; fixed label, command and user checks are one flag, and the release and architecture arguments are assumed to be well formed.
- Rollback: the signed authorization and the deployment's own validity window are one given fact, and derived records are created under an unused identifier.
- Applied deployments: certificates, key matching and issuer pins are part of what opening a response envelope yields.
- `bindRequestToInvitation`: only its validity window is modelled; the remaining field comparisons are one conjunction.
- The journal of views (`transaction-view.json`) is only ever written and removed, and verifying the private record inside `prepareViewCommit` counts as a possible failure.
- The root of a lifecycle that is not packaged keeps no views; it is covered by the same theorems with `packaged` false.
- Lifecycle policies, rotation, release changes and re-enrolment appear only as valid transitions; the coordinator's runs have no other writer of the lifecycle.
- The installed runtime does not change while a client object exists; lock files, owners, modes, access lists and path checks are not modelled.
- Only the client role is modelled in the coordinator; operator session files and their store are not.
- Sorted duplicate-free arrays of the lifecycle state are sets; base32 identities and JSON records other than the stored session are their decoded values.
- RecoverTransaction: relative to view files that no earlier crash left between a change of owner and one of mode; `Publication` models such a file by itself.
- CommitAnchoredState: the same.
- A retirement that removed some files of a generation counts as not retired; owner and mode inside a stage are not modelled, since filling it again replaces its files.
- Trimming and lower-casing of typed words cover ASCII only.
- Wiping of secrets, aliasing of payload buffers and the copy that the mailbox makes are not modelled.
- Network transport, byte copying, deadlines and heartbeats of connector and courier are left out; a session is only what it holds.
- Limiter tokens are real numbers; rounding of the floating-point count is left out.
- Command line handling, menus, certificates, TLS, systemd and Podman are left out.
