/**
  Anchor-first commit and recovery of one lifecycle root.
  Source: internal/enrollmenttarget/anchor.go, and the publication half of
  internal/enrollmenttarget/runtimeview.go (prepareViewCommit, publishPreparedViews).

  Every file is a component of `Disk`. Each atomic replace or unlink is one call of
  `LifecycleRoot.Persist`, and any such call may be the last: it can fail before or after
  it took effect. `Micro` lists the writes that the protocol may make; the theorems below
  are about every run of such writes, hence about every crash point of every interleaving
  of commits and recoveries.
*/
module Anchor {
  import opened Common
  import opened LocalState

  /** Bytes of a state file: what they decode to, and which spelling of it they are.
      Two files are the same bytes exactly when both agree. */
  datatype Blob = Blob(decoded: Option<State>, spelling: nat)

  /** SHA-256, taken to be injective: the digest of some bytes names those bytes. */
  datatype StateDigest = Sha256(bytes: Blob)

  function Encode(s: State): Blob {
    Blob(Some(s), 0)
  }

  function Decode(b: Blob): Option<State> {
    if b.decoded.Some? && b.decoded.value.Valid() then b.decoded else None
  }

  datatype RollbackAnchor = RollbackAnchor(role: Role, installation: Id, generation: U64, digest: StateDigest)
  {
    predicate Selects(s: State, bytes: Blob) {
      role == s.role && installation == s.installation && generation == s.generation && digest == Sha256(bytes)
    }
  }

  function AnchorFor(s: State, bytes: Blob): RollbackAnchor {
    RollbackAnchor(s.role, s.installation, s.generation, Sha256(bytes))
  }

  /** All durable files of one root. A generation directory is named after the digest of the
      state it was rendered for, so it is identified by that state's bytes. It is filled as a
      private stage and exposed when complete; `stages` are the complete private ones. A
      replacement inside a stage that a crash cuts leaves its temporary file there: `residue`
      are the stages that hold one. */
  datatype Disk = Disk(
    state: Blob,
    anchor: RollbackAnchor,
    journal: Option<Blob>,
    marker: Option<Blob>,
    anchorView: Blob,
    runtimeView: Option<Blob>,
    exposed: set<Blob>,
    stages: set<Blob>,
    residue: set<Blob>)

  /** The anchor selects the state file: what every reader demands. */
  predicate Settled(d: Disk) {
    var s := Decode(d.state);
    s.Some? && d.anchor.Selects(s.value, d.state)
  }

  /** The anchor is one valid step ahead of the state file and the journal holds that step. */
  predicate Resumable(d: Disk) {
    && d.journal.Some?
    && var s, n := Decode(d.state), Decode(d.journal.value);
    && s.Some? && n.Some?
    && d.anchor.Selects(n.value, d.journal.value)
    && ValidTransition(s.value, n.value)
  }

  function RuntimeSelection(bytes: Blob): Option<Blob> {
    var s := Decode(bytes);
    if s.Some? && s.value.activeRecord.Some? then Some(bytes) else None
  }

  /** The read-only views show exactly the anchored state. */
  predicate ViewsCurrent(d: Disk) {
    d.anchorView == d.state && d.runtimeView == RuntimeSelection(d.state)
  }

  /** Publication has written every view of the anchored state. */
  predicate ViewsWritten(d: Disk) {
    d.anchorView == d.state && (RuntimeSelection(d.state).Some? ==> d.runtimeView == RuntimeSelection(d.state))
  }

  predicate Invariant(packaged: bool, d: Disk) {
    && (Settled(d) || Resumable(d))
    && (packaged && d.marker.None? ==> Settled(d) && ViewsCurrent(d))
    && (packaged && d.runtimeView.Some? ==> RuntimeSelection(d.state).Some?)
  }

  /** The one atomic variable that journal, anchor and state file implement. */
  function Selected(d: Disk): State
    requires Settled(d) || Resumable(d)
  {
    if Settled(d) then Decode(d.state).value else Decode(d.journal.value).value
  }

  // ---------------------------------------------------------------- durable writes

  predicate WritesJournal(d: Disk, d': Disk) {
    d'.journal.Some? && d' == d.(journal := d'.journal) && (Settled(d) || d'.journal == d.journal)
  }

  predicate WritesMarker(d: Disk, d': Disk) {
    d'.marker.Some? && d' == d.(marker := d'.marker)
  }

  predicate WritesAnchor(packaged: bool, d: Disk, d': Disk) {
    && Settled(d)
    && d.journal.Some?
    && var n := Decode(d.journal.value);
    && n.Some?
    && ValidTransition(Decode(d.state).value, n.value)
    && (packaged ==> d.marker == d.journal)
    && d' == d.(anchor := AnchorFor(n.value, d.journal.value))
  }

  predicate WritesState(packaged: bool, d: Disk, d': Disk) {
    && Resumable(d)
    && (packaged ==> d.marker.Some?)
    && d' == d.(state := d.journal.value)
  }

  predicate DropsJournal(d: Disk, d': Disk) {
    Settled(d) && d' == d.(journal := None)
  }

  /** The journalled state needs a generation that is not exposed yet. */
  predicate NeedsStage(d: Disk, bytes: Blob) {
    RuntimeSelection(bytes).Some? && bytes !in d.exposed
  }

  /** Its stage is filled file by file, again and again if need be; a cut replacement leaves
      its temporary file, and nothing ever removes that. */
  predicate WritesStage(d: Disk, d': Disk) {
    && d.journal.Some? && NeedsStage(d, d.journal.value)
    && (|| d' == d.(stages := d.stages + {d.journal.value})
        || d' == d.(residue := d.residue + {d.journal.value}))
  }

  function AsSet(o: Option<Blob>): set<Blob> {
    if o.Some? then {o.value} else {}
  }

  /** Publication writes, only behind the marker and only for the anchored state. A stage is
      exposed only when it holds exactly the files of its generation. */
  predicate Publishes(packaged: bool, d: Disk, d': Disk) {
    && packaged && Settled(d) && d.marker == Some(d.state)
    && (|| d' == d.(anchorView := d.state)
        || (RuntimeSelection(d.state).Some? && d.state in d.stages && d.state !in d.residue &&
            d' == d.(exposed := d.exposed + {d.state}, stages := d.stages - {d.state}))
        || (d.runtimeView.Some? && d.runtimeView != RuntimeSelection(d.state) && d' == d.(exposed := d.exposed - {d.runtimeView.value}))
        || (RuntimeSelection(d.state).Some? && d.state in d.exposed && AsSet(d.runtimeView) * d.exposed <= {d.state} &&
            d' == d.(runtimeView := Some(d.state)))
        || (ViewsWritten(d) && d' == d.(marker := None)))
  }

  predicate Micro(packaged: bool, d: Disk, d': Disk) {
    || d' == d
    || WritesJournal(d, d')
    || (packaged && WritesMarker(d, d'))
    || (packaged && WritesStage(d, d'))
    || WritesAnchor(packaged, d, d')
    || WritesState(packaged, d, d')
    || DropsJournal(d, d')
    || Publishes(packaged, d, d')
  }

  /** Refinement, one write: every durable write keeps the invariant, and either leaves the
      atomic variable alone or is the anchor write, which moves it along one valid transition. */
  lemma WriteRefinesAtomicVariable(packaged: bool, d: Disk, d': Disk)
    requires Invariant(packaged, d) && Micro(packaged, d, d')
    ensures Invariant(packaged, d')
    ensures if d'.anchor == d.anchor then Selected(d') == Selected(d)
            else ValidTransition(Selected(d), Selected(d'))
  {
    if WritesState(packaged, d, d') {
      assert Decode(d'.state) == Decode(d.journal.value);
    } else if WritesAnchor(packaged, d, d') {
      assert !Settled(d');
    }
  }

  predicate StepsAt(packaged: bool, ds: seq<Disk>, i: nat)
    requires 0 < i < |ds|
  {
    Micro(packaged, ds[i - 1], ds[i])
  }

  ghost predicate Run(packaged: bool, ds: seq<Disk>) {
    ds != [] && forall i: nat {:trigger StepsAt(packaged, ds, i)} :: 0 < i < |ds| ==> StepsAt(packaged, ds, i)
  }

  lemma RunShortens(packaged: bool, ds: seq<Disk>, n: nat)
    requires Run(packaged, ds) && 0 < n <= |ds|
    ensures Run(packaged, ds[..n])
  {
    forall i: nat | 0 < i < n
      ensures StepsAt(packaged, ds[..n], i)
    {
      assert StepsAt(packaged, ds, i);
    }
  }

  lemma RunExtends(packaged: bool, ds: seq<Disk>, d: Disk)
    requires Run(packaged, ds) && Micro(packaged, ds[|ds| - 1], d)
    ensures Run(packaged, ds + [d])
  {
    forall i: nat | 0 < i < |ds| + 1
      ensures StepsAt(packaged, ds + [d], i)
    {
      assert i < |ds| ==> StepsAt(packaged, ds, i);
    }
  }

  /** Refinement, whole runs: from a consistent root no run of writes, cut anywhere, leaves a
      root that recovery cannot finish, and the anchored generation never goes back. */
  lemma {:induction false} RunsKeepInvariant(packaged: bool, ds: seq<Disk>, i: nat, j: nat)
    requires Run(packaged, ds) && Invariant(packaged, ds[0]) && i <= j < |ds|
    ensures Invariant(packaged, ds[i]) && Invariant(packaged, ds[j])
    ensures Selected(ds[i]).generation <= Selected(ds[j]).generation
    ensures Selected(ds[i]).generation == Selected(ds[j]).generation ==> Selected(ds[i]) == Selected(ds[j])
    ensures Selected(ds[i]).consumed <= Selected(ds[j]).consumed
    decreases j
  {
    if j > 0 {
      RunsKeepInvariant(packaged, ds, if i < j then i else j - 1, j - 1);
      assert StepsAt(packaged, ds, j);
      WriteRefinesAtomicVariable(packaged, ds[j - 1], ds[j]);
    }
  }

  /** The disks of a run at which the atomic variable took a new value, first one included. */
  function Commits(ds: seq<Disk>): (cs: seq<Disk>)
    requires ds != []
    ensures cs != []
  {
    var n := |ds| - 1;
    if n == 0 then ds
    else if ds[n].anchor == ds[n - 1].anchor then Commits(ds[..n])
    else Commits(ds[..n]) + [ds[n]]
  }

  lemma {:induction false} CommitsAreConsistent(packaged: bool, ds: seq<Disk>)
    requires Run(packaged, ds) && Invariant(packaged, ds[0])
    ensures Invariant(packaged, ds[|ds| - 1]) && Invariant(packaged, Commits(ds)[|Commits(ds)| - 1])
    ensures Selected(Commits(ds)[|Commits(ds)| - 1]) == Selected(ds[|ds| - 1])
  {
    var n := |ds| - 1;
    if n > 0 {
      RunShortens(packaged, ds, n);
      CommitsAreConsistent(packaged, ds[..n]);
      assert StepsAt(packaged, ds, n);
      WriteRefinesAtomicVariable(packaged, ds[n - 1], ds[n]);
    }
  }

  /** Two neighbouring commits are one valid transition apart. */
  predicate Chained(packaged: bool, d: Disk, d': Disk) {
    Invariant(packaged, d) && Invariant(packaged, d') && ValidTransition(Selected(d), Selected(d'))
  }

  lemma LastCommitIsChained(packaged: bool, ds: seq<Disk>)
    requires Run(packaged, ds) && Invariant(packaged, ds[0])
    requires |ds| > 1 && ds[|ds| - 1].anchor != ds[|ds| - 2].anchor
    ensures var before := Commits(ds[..|ds| - 1]);
      Commits(ds) == before + [ds[|ds| - 1]] && Chained(packaged, before[|before| - 1], ds[|ds| - 1])
  {
    var n := |ds| - 1;
    RunShortens(packaged, ds, n);
    CommitsAreConsistent(packaged, ds[..n]);
    assert StepsAt(packaged, ds, n);
    WriteRefinesAtomicVariable(packaged, ds[n - 1], ds[n]);
  }

  /** The anchored states of any run form a chain of valid transitions. */
  lemma {:induction false} AnchoredStatesFormChain(packaged: bool, ds: seq<Disk>, k: nat)
    requires Run(packaged, ds) && Invariant(packaged, ds[0])
    requires 0 < k < |Commits(ds)|
    ensures Chained(packaged, Commits(ds)[k - 1], Commits(ds)[k])
  {
    var n := |ds| - 1;
    assert n > 0;
    var before := Commits(ds[..n]);
    if ds[n].anchor != ds[n - 1].anchor {
      LastCommitIsChained(packaged, ds);
    }
    if k < |before| {
      RunShortens(packaged, ds, n);
      AnchoredStatesFormChain(packaged, ds[..n], k);
    }
  }

  // ------------------------------------------------- readable credential generations

  /** No readable generation other than the selected one. */
  predicate Tidy(d: Disk) {
    d.exposed <= AsSet(d.runtimeView)
  }

  /** Readable generations are the selected one and, while publishing, the anchored one. */
  predicate NothingForgotten(d: Disk) {
    d.exposed <= AsSet(d.runtimeView) + (if Settled(d) then AsSet(RuntimeSelection(d.state)) else {})
  }

  predicate GenerationsKnown(d: Disk) {
    forall g <- d.exposed :: g.decoded.Some? && g.decoded.value.generation <= d.anchor.generation
  }

  /** A readable generation older than the anchor that no selector names. */
  predicate Forgotten(d: Disk, g: Blob) {
    g in d.exposed && d.runtimeView != Some(g) && g.decoded.Some? && g.decoded.value.generation < d.anchor.generation
  }

  predicate AnchorWritesTidy(ds: seq<Disk>) {
    forall i {:trigger ds[i]} :: 0 < i < |ds| && ds[i].anchor != ds[i - 1].anchor ==> Tidy(ds[i - 1])
  }

  lemma WriteKeepsForgotten(d: Disk, d': Disk, g: Blob)
    requires Micro(true, d, d') && Invariant(true, d) && Forgotten(d, g)
    ensures Forgotten(d', g)
  {
    WriteRefinesAtomicVariable(true, d, d');
  }

  lemma {:induction false} ForgottenForever(ds: seq<Disk>, i: nat, j: nat, g: Blob)
    requires Run(true, ds) && Invariant(true, ds[0]) && i <= j < |ds| && Forgotten(ds[i], g)
    ensures Forgotten(ds[j], g)
    decreases j - i
  {
    if i < j {
      ForgottenForever(ds, i, j - 1, g);
      RunsKeepInvariant(true, ds, i, j - 1);
      assert StepsAt(true, ds, j);
      WriteKeepsForgotten(ds[j - 1], ds[j], g);
    }
  }

  lemma WriteKeepsGenerationsKnown(d: Disk, d': Disk)
    requires Micro(true, d, d') && Invariant(true, d) && GenerationsKnown(d)
    ensures GenerationsKnown(d')
  {
    WriteRefinesAtomicVariable(true, d, d');
  }

  lemma {:induction false} GenerationsStayKnown(ds: seq<Disk>, j: nat)
    requires Run(true, ds) && Invariant(true, ds[0]) && GenerationsKnown(ds[0]) && j < |ds|
    ensures GenerationsKnown(ds[j])
  {
    if j > 0 {
      GenerationsStayKnown(ds, j - 1);
      RunsKeepInvariant(true, ds, j - 1, j - 1);
      assert StepsAt(true, ds, j);
      WriteKeepsGenerationsKnown(ds[j - 1], ds[j]);
    }
  }

  lemma PublicationForgetsNothing(d: Disk, d': Disk)
    requires Publishes(true, d, d') && NothingForgotten(d)
    ensures NothingForgotten(d')
  {
    assert d'.state == d.state && d'.anchor == d.anchor;
    assert Settled(d') && RuntimeSelection(d'.state) == RuntimeSelection(d.state);
    forall g <- d'.exposed
      ensures g in AsSet(d'.runtimeView) + AsSet(RuntimeSelection(d.state))
    {
      if RuntimeSelection(d.state).Some? {
        assert RuntimeSelection(d.state) == Some(d.state);
      }
    }
  }

  lemma TidyWriteForgetsNothing(d: Disk, d': Disk)
    requires Micro(true, d, d') && NothingForgotten(d)
    requires d'.anchor != d.anchor ==> Tidy(d)
    ensures NothingForgotten(d')
  {
    if Publishes(true, d, d') {
      PublicationForgetsNothing(d, d');
    } else {
      assert d'.exposed == d.exposed && d'.runtimeView == d.runtimeView;
      if WritesJournal(d, d') || WritesMarker(d, d') || DropsJournal(d, d') || d' == d {
        assert Settled(d') == Settled(d) && d'.state == d.state;
      } else if WritesState(true, d, d') {
        assert !Settled(d) || d'.state == d.state;
      }
    }
  }

  lemma UntidyAnchorWriteForgets(d: Disk, d': Disk) returns (g: Blob)
    requires Micro(true, d, d') && d'.anchor != d.anchor && !Tidy(d) && GenerationsKnown(d)
    ensures Forgotten(d', g)
  {
    assert WritesAnchor(true, d, d');
    g :| g in d.exposed && g !in AsSet(d.runtimeView);
  }

  lemma ForgottenIsLeftBehind(d: Disk, g: Blob)
    requires Forgotten(d, g)
    ensures !NothingForgotten(d) && !Tidy(d)
  {
    if Settled(d) {
      assert Decode(d.state).value.generation == d.anchor.generation;
    }
  }

  lemma {:induction false} TidyWritesForgetNothing(ds: seq<Disk>)
    requires Run(true, ds) && NothingForgotten(ds[0]) && AnchorWritesTidy(ds)
    ensures NothingForgotten(ds[|ds| - 1])
  {
    var n := |ds| - 1;
    if n > 0 {
      RunShortens(true, ds, n);
      TidyWritesForgetNothing(ds[..n]);
      assert StepsAt(true, ds, n);
      TidyWriteForgetsNothing(ds[n - 1], ds[n]);
    }
  }

  /** Old credential trees stay readable exactly when some commit moved the anchor while an
      earlier publication was still unfinished. The code does not refuse that: a commit asks
      only that the anchor selects the state file, not that the transition marker is gone. */
  lemma OldGenerationsRetiredIff(ds: seq<Disk>)
    requires Run(true, ds) && Invariant(true, ds[0]) && NothingForgotten(ds[0]) && GenerationsKnown(ds[0])
    ensures NothingForgotten(ds[|ds| - 1]) <==> AnchorWritesTidy(ds)
  {
    var n := |ds| - 1;
    if AnchorWritesTidy(ds) {
      TidyWritesForgetNothing(ds);
    } else {
      var i :| 0 < i < |ds| && ds[i].anchor != ds[i - 1].anchor && !Tidy(ds[i - 1]);
      GenerationsStayKnown(ds, i - 1);
      assert StepsAt(true, ds, i);
      var g := UntidyAnchorWriteForgets(ds[i - 1], ds[i]);
      ForgottenForever(ds, i, n, g);
      ForgottenIsLeftBehind(ds[n], g);
    }
  }

  ghost predicate Reaches(d: Disk, z: Disk) {
    exists ds {:trigger Run(true, ds)} :: Run(true, ds) && ds[0] == d && ds[|ds| - 1] == z
  }

  lemma ReachesItself(d: Disk)
    ensures Reaches(d, d)
  {
    var ds := [d];
    assert Run(true, ds) && ds[0] == d && ds[|ds| - 1] == d;
  }

  lemma OneMoreWrite(x: Disk, d: Disk, d': Disk)
    requires Reaches(x, d) && Micro(true, d, d')
    ensures Reaches(x, d')
  {
    var ds :| Run(true, ds) && ds[0] == x && ds[|ds| - 1] == d;
    RunExtends(true, ds, d');
    var es := ds + [d'];
    assert Run(true, es) && es[0] == x && es[|es| - 1] == d';
  }

  /** The disk once the generation of `s` is exposed and nothing else is published yet. */
  function CutAfterExposure(d: Disk, s: State): Disk {
    var bytes := Encode(s);
    Disk(bytes, AnchorFor(s, bytes), Some(bytes), Some(bytes), bytes, d.runtimeView, d.exposed + {bytes},
         d.stages + {bytes} - {bytes}, d.residue)
  }

  /** The writes of one commit of `s` up to the exposure of its generation. */
  lemma CommitUpToExposure(x: Disk, d: Disk, s: State) returns (z: Disk)
    requires Reaches(x, d)
    requires Settled(d) && ValidTransition(Decode(d.state).value, s) && NeedsStage(d, Encode(s)) && Encode(s) !in d.residue
    ensures Reaches(x, z) && z == CutAfterExposure(d, s)
  {
    var bytes := Encode(s);
    var journalled := d.(journal := Some(bytes));
    OneMoreWrite(x, d, journalled);
    var staged := journalled.(stages := journalled.stages + {bytes});
    assert WritesStage(journalled, staged);
    OneMoreWrite(x, journalled, staged);
    var marked := staged.(marker := Some(bytes));
    OneMoreWrite(x, staged, marked);
    var anchored := marked.(anchor := AnchorFor(s, bytes));
    assert WritesAnchor(true, marked, anchored);
    OneMoreWrite(x, marked, anchored);
    var stated := anchored.(state := bytes);
    assert WritesState(true, anchored, stated);
    OneMoreWrite(x, anchored, stated);
    var viewed := stated.(anchorView := bytes);
    assert Publishes(true, stated, viewed);
    OneMoreWrite(x, stated, viewed);
    z := viewed.(exposed := viewed.exposed + {bytes}, stages := viewed.stages - {bytes});
    assert Publishes(true, viewed, z);
    OneMoreWrite(x, viewed, z);
  }

  /** The remaining publication writes once the new generation is readable. */
  lemma PublicationFinishes(x: Disk, h: Disk, previous: Blob) returns (z: Disk)
    requires Reaches(x, h)
    requires Settled(h) && h.marker == Some(h.state) && h.anchorView == h.state
    requires RuntimeSelection(h.state).Some? && h.state in h.exposed && h.runtimeView == Some(previous) && previous != h.state
    ensures Reaches(x, z)
    ensures z == h.(exposed := h.exposed - {previous}, runtimeView := Some(h.state), marker := None)
  {
    var retired := h.(exposed := h.exposed - {previous});
    assert Publishes(true, h, retired);
    OneMoreWrite(x, h, retired);
    var named := retired.(runtimeView := Some(h.state));
    assert Publishes(true, retired, named);
    OneMoreWrite(x, retired, named);
    z := named.(marker := None);
    assert Publishes(true, named, z);
    OneMoreWrite(x, named, z);
  }

  /** The untidy run exists: a first commit is cut between exposing its generation and naming
      it, a second one runs to its end, and the first generation is readable ever after. */
  lemma UnfinishedPublicationLeaks(d: Disk, s1: State, s2: State) returns (z: Disk)
    requires Invariant(true, d) && d.marker.None? && d.exposed == {d.state} && RuntimeSelection(d.state).Some?
    requires ValidTransition(Selected(d), s1) && ValidTransition(s1, s2)
    requires s1.activeRecord.Some? && s2.activeRecord.Some? && Encode(s1) !in d.residue && Encode(s2) !in d.residue
    ensures Reaches(d, z) && z.marker.None? && z.state == Encode(s2) && z.exposed == {Encode(s1), Encode(s2)}
  {
    ReachesItself(d);
    var cut := CommitUpToExposure(d, d, s1);
    assert Decode(cut.state) == Some(s1);
    var exposed := CommitUpToExposure(d, cut, s2);
    z := PublicationFinishes(d, exposed, d.state);
  }

  /** Putting any other state file back under an unchanged anchor is noticed by every reader,
      and the only state recovery may then install is, byte for byte, the anchored one. */
  lemma RestoredStateFile(d: Disk, restored: Blob)
    requires Settled(d) && restored != d.state
    ensures var t := d.(state := restored);
      && !Settled(t)
      && (Resumable(t) <==> d.journal == Some(d.state) && Decode(restored).Some? && ValidTransition(Decode(restored).value, Selected(d)))
      && (Resumable(t) ==> Selected(t) == Selected(d))
  {
  }

  /** With the marker gone, and nothing forgotten, a runtime can read exactly the anchored
      generation; a commit that starts there is tidy. */
  lemma MarkerGoneMeansTidy(d: Disk)
    requires Invariant(true, d) && NothingForgotten(d) && d.marker.None?
    ensures d.exposed <= AsSet(RuntimeSelection(d.state)) && Tidy(d)
  {
  }

  // ------------------------------------------------------------ residue in a stage

  /** What recovery demands before its first write. */
  predicate Recoverable(d: Disk) {
    Settled(d) || Resumable(d)
  }

  /** The bytes that the anchor selects. */
  function AnchoredBytes(d: Disk): Blob
    requires Recoverable(d)
  {
    if Settled(d) then d.state else d.journal.value
  }

  /** The generation of `bytes` needs no exposure, or its stage can still be exposed. */
  predicate Publishable(packaged: bool, d: Disk, bytes: Blob) {
    packaged && NeedsStage(d, bytes) ==> bytes !in d.residue
  }

  /** A residue is permanent, and so is the refusal to expose its stage. */
  lemma {:induction false} ResidueIsForever(packaged: bool, ds: seq<Disk>, i: nat, j: nat, g: Blob)
    requires Run(packaged, ds) && i <= j < |ds| && g in ds[i].residue
    ensures g in ds[j].residue
    ensures NeedsStage(ds[i], g) ==> NeedsStage(ds[j], g) && (packaged ==> !Publishable(packaged, ds[j], g))
    decreases j
  {
    if i < j {
      ResidueIsForever(packaged, ds, i, j - 1, g);
      assert StepsAt(packaged, ds, j);
    }
  }

  /** The anchor selects a state whose generation cannot be exposed: runtimes are shut out. */
  predicate Stuck(d: Disk, g: Blob) {
    && Recoverable(d) && AnchoredBytes(d) == g && NeedsStage(d, g) && g in d.residue
    && d.runtimeView != Some(g) && d.marker.Some?
  }

  lemma WriteKeepsStuck(d: Disk, d': Disk, g: Blob)
    requires Micro(true, d, d') && Invariant(true, d) && Stuck(d, g) && d'.anchor == d.anchor
    ensures Stuck(d', g)
  {
    WriteRefinesAtomicVariable(true, d, d');
    if WritesState(true, d, d') {
      assert !Settled(d);
    }
  }

  lemma AnchorNamesGeneration(d: Disk)
    requires Recoverable(d)
    ensures d.anchor.generation == Selected(d).generation
  {
  }

  /** Runtimes stay shut out as long as no further commit moves the anchor, whatever recoveries
      and attempts are made in between. */
  lemma {:induction false} StuckUntilNextCommit(ds: seq<Disk>, i: nat, j: nat, g: Blob)
    requires Run(true, ds) && Invariant(true, ds[0]) && i <= j < |ds|
    requires Stuck(ds[i], g) && ds[j].anchor == ds[i].anchor
    ensures Stuck(ds[j], g)
    decreases j
  {
    if i < j {
      RunsKeepInvariant(true, ds, i, j - 1);
      RunsKeepInvariant(true, ds, j, j);
      assert StepsAt(true, ds, j);
      WriteRefinesAtomicVariable(true, ds[j - 1], ds[j]);
      AnchorNamesGeneration(ds[i]);
      AnchorNamesGeneration(ds[j]);
      assert ds[j - 1].anchor == ds[j].anchor;
      StuckUntilNextCommit(ds, i, j - 1, g);
      WriteKeepsStuck(ds[j - 1], ds[j], g);
    }
  }

  // ------------------------------------------------------------------ the operations

  datatype CommitResult = Committed | Refused | Interrupted

  datatype RecoveryResult =
    | Finished(recovered: bool, state: State)
    | NoJournal
    | JournalDoesNotDecode
    | JournalNotAnchored
    | NotOneTransition
    | StateUnreadable
    | Interrupted

  /** Places at which a call can be cut on purpose, where nothing else goes wrong: inside a
      replacement in the stage, or right behind the exposure of the new generation. */
  datatype Cut = Nowhere | InStage | BehindExposure

  /** The anchored generation has become readable. */
  function Exposing(d: Disk): Disk {
    d.(exposed := d.exposed + {d.state}, stages := d.stages - {d.state})
  }

  /** The anchor has moved to `next`, whose journal, stage and marker are in place. */
  predicate AnchorMoved(packaged: bool, before: Disk, after: Disk, next: State) {
    && Resumable(after) && Selected(after) == next && after.journal == Some(Encode(next)) && after.residue == before.residue
    && (packaged ==> after.marker == after.journal)
    && (packaged ==> after.stages == before.stages + (if NeedsStage(before, Encode(next)) then {Encode(next)} else {}))
  }

  /** What an undisturbed commit or recovery of `bytes` leaves where their generation cannot be
      exposed: the state is installed, the marker stays. */
  function HeldBack(d: Disk, bytes: Blob): Disk {
    d.(state := bytes, journal := Some(bytes), marker := Some(bytes), anchorView := bytes, stages := d.stages + {bytes})
  }

  /** What one commit demands before its first write. */
  predicate Committable(d: Disk, previous: State, next: State) {
    Settled(d) && Decode(d.state).value == previous && ValidTransition(previous, next)
  }

  /** Where a finished commit or recovery that installs `bytes` leaves the disk: only the
      best-effort unlink of the journal may be outstanding. */
  predicate Installed(packaged: bool, before: Disk, after: Disk, bytes: Blob) {
    && after.state == bytes && Settled(after)
    && (after.journal == None || after.journal == Some(bytes) || (!packaged && after.journal == before.journal))
    && if packaged then
         && after.marker.None? && ViewsWritten(after)
         && after.exposed == before.exposed - AsSet(before.runtimeView) + AsSet(RuntimeSelection(bytes))
       else
         && after == before.(state := after.state, anchor := after.anchor, journal := after.journal)
  }

  class LifecycleRoot {
    const packaged: bool
    var disk: Disk
    ghost var history: seq<Disk>

    ghost predicate Valid()
      reads this
    {
      Run(packaged, history) && history[|history| - 1] == disk
    }

    /** A root in any condition: fresh from bootstrap, or put back from a backup. */
    constructor (packaged: bool, disk: Disk)
      ensures Valid() && this.packaged == packaged && this.disk == disk && history == [disk]
    {
      this.packaged := packaged;
      this.disk := disk;
      this.history := [disk];
    }

    /** A newly bootstrapped root: a fresh consistent history. */
    method Format(disk: Disk)
      requires Settled(disk)
      modifies this
      ensures Valid() && this.disk == disk && history == [disk]
    {
      this.disk := disk;
      history := [disk];
    }

    /** One atomic durable write. Unless `calm`, it may fail, before or after taking effect. */
    method Persist(next: Disk, calm: bool) returns (ok: bool)
      requires Valid() && Micro(packaged, disk, next)
      modifies this
      ensures Valid() && old(history) <= history
      ensures disk == next || disk == old(disk)
      ensures ok ==> disk == next
      ensures calm ==> ok
    {
      ok := true;
      var applied := true;
      if !calm {
        ok := *;
        applied := *;
      }
      if ok || applied {
        RunExtends(packaged, history, next);
        disk := next;
        history := history + [next];
      }
    }

    method WriteJournal(bytes: Blob, calm: bool) returns (ok: bool)
      requires Valid() && (Settled(disk) || disk.journal == Some(bytes))
      modifies this
      ensures Valid() && old(history) <= history && (calm ==> ok)
      ensures disk == old(disk) || disk == old(disk).(journal := Some(bytes))
      ensures ok ==> disk.journal == Some(bytes)
      ensures old(Settled(disk)) ==> Settled(disk)
    {
      assert WritesJournal(disk, disk.(journal := Some(bytes)));
      ok := Persist(disk.(journal := Some(bytes)), calm);
    }

    /** Once the anchor has moved, the old state is refused and only the journal can follow. */
    method WriteAnchor(next: State, calm: bool) returns (ok: bool)
      requires Valid() && Settled(disk) && disk.journal == Some(Encode(next))
      requires ValidTransition(Decode(disk.state).value, next)
      requires packaged ==> disk.marker == disk.journal
      modifies this
      ensures Valid() && old(history) <= history && (calm ==> ok)
      ensures disk == old(disk) || disk == old(disk).(anchor := AnchorFor(next, Encode(next)))
      ensures ok ==> disk.anchor == AnchorFor(next, Encode(next))
      ensures disk.anchor != old(disk.anchor) ==> Resumable(disk) && !Settled(disk) && Selected(disk) == next
      ensures AnchorFor(next, Encode(next)) != old(disk.anchor)
    {
      var d' := disk.(anchor := AnchorFor(next, Encode(next)));
      assert WritesAnchor(packaged, disk, d');
      ok := Persist(d', calm);
    }

    method WriteState(calm: bool) returns (ok: bool)
      requires Valid() && Resumable(disk) && (packaged ==> disk.marker.Some?)
      modifies this
      ensures Valid() && old(history) <= history && (calm ==> ok)
      ensures disk == old(disk) || disk == old(disk).(state := old(disk.journal.value))
      ensures ok ==> disk.state == old(disk.journal.value) && Settled(disk)
      ensures Recoverable(disk) && Selected(disk) == old(Selected(disk))
    {
      assert WritesState(packaged, disk, disk.(state := disk.journal.value));
      ok := Persist(disk.(state := disk.journal.value), calm);
    }

    /** The unlink is best effort: its failure is ignored. */
    method DropJournal(calm: bool)
      requires Valid() && Settled(disk)
      modifies this
      ensures Valid() && old(history) <= history
      ensures disk == old(disk) || disk == old(disk).(journal := None)
      ensures calm ==> disk.journal == None
      ensures Settled(disk)
    {
      assert DropsJournal(disk, disk.(journal := None));
      var _ := Persist(disk.(journal := None), calm);
    }

    /** Every reader: the state, or a refusal unless the external anchor selects it. */
    method ReadAnchoredState() returns (r: Option<State>)
      ensures r == if Settled(disk) then Decode(disk.state) else None
    {
      var state := Decode(disk.state);
      if state.None? || !disk.anchor.Selects(state.value, disk.state) {
        return None;
      }
      return state;
    }

    /** Fills the private stage of the journalled generation, file by file. It never looks for
        what an earlier attempt may have left there. */
    method FillStage(bytes: Blob, calm: bool, cut: Cut) returns (ok: bool)
      requires Valid() && packaged && disk.journal == Some(bytes) && NeedsStage(disk, bytes)
      modifies this
      ensures Valid() && old(history) <= history
      ensures || disk == old(disk)
              || disk == old(disk).(stages := old(disk.stages) + {bytes})
              || disk == old(disk).(residue := old(disk.residue) + {bytes})
      ensures ok ==> disk == old(disk).(stages := old(disk.stages) + {bytes})
      ensures calm && !cut.InStage? ==> ok
      ensures calm && cut.InStage? ==> !ok && disk == old(disk).(residue := old(disk.residue) + {bytes})
    {
      var torn := cut.InStage?;
      if !calm {
        torn := *;
      }
      if torn {
        assert WritesStage(disk, disk.(residue := disk.residue + {bytes}));
        var _ := Persist(disk.(residue := disk.residue + {bytes}), calm);
        return false;
      }
      assert WritesStage(disk, disk.(stages := disk.stages + {bytes}));
      ok := Persist(disk.(stages := disk.stages + {bytes}), calm);
    }

    /** Journal, stage, transition marker: everything before the anchor may move. */
    method PrepareViewCommit(bytes: Blob, calm: bool, cut: Cut) returns (ok: bool)
      requires Valid() && packaged && (Settled(disk) || disk.journal == Some(bytes))
      modifies this
      ensures Valid() && old(history) <= history
      ensures disk == old(disk).(journal := disk.journal, marker := disk.marker, stages := disk.stages, residue := disk.residue)
      ensures disk.journal == old(disk.journal) || disk.journal == Some(bytes)
      ensures disk.marker == old(disk.marker) || disk.marker == Some(bytes)
      ensures disk.residue == old(disk.residue) || disk.residue == old(disk.residue) + {bytes}
      ensures old(disk.stages) <= disk.stages <= old(disk.stages) + {bytes}
      ensures ok ==> disk.journal == Some(bytes) && disk.marker == Some(bytes) && disk.residue == old(disk.residue)
      ensures ok ==> disk.stages == old(disk.stages) + (if NeedsStage(disk, bytes) then {bytes} else {})
      ensures calm && !(cut.InStage? && NeedsStage(old(disk), bytes)) ==> ok
      ensures calm && cut.InStage? && NeedsStage(old(disk), bytes) ==>
        !ok && disk == old(disk).(journal := Some(bytes), residue := old(disk.residue) + {bytes})
      ensures old(Settled(disk)) ==> Settled(disk)
    {
      ok := WriteJournal(bytes, calm);
      if ok && NeedsStage(disk, bytes) {
        ok := FillStage(bytes, calm, cut);
      }
      if ok {
        assert WritesMarker(disk, disk.(marker := Some(bytes)));
        ok := Persist(disk.(marker := Some(bytes)), calm);
      }
    }

    /** One publication write for the anchored state. */
    method Publish(next: Disk, calm: bool) returns (ok: bool)
      requires Valid() && Publishes(packaged, disk, next)
      modifies this
      ensures Valid() && old(history) <= history && (calm ==> ok)
      ensures disk == next || disk == old(disk)
      ensures ok ==> disk == next
    {
      ok := Persist(next, calm);
    }

    /** `ExposeDir`: the stage becomes readable, unless anything but its own files is in it. */
    method Expose(calm: bool) returns (ok: bool)
      requires Valid() && packaged && Settled(disk) && disk.marker == Some(disk.state)
      requires NeedsStage(disk, disk.state) && disk.state in disk.stages
      modifies this
      ensures Valid() && old(history) <= history
      ensures disk == old(disk) || (disk == Exposing(old(disk)) && disk.state !in disk.residue)
      ensures ok ==> disk == Exposing(old(disk)) && disk.state !in disk.residue
      ensures calm ==> (ok <==> disk.state !in old(disk.residue))
    {
      if disk.state in disk.residue {
        return false;
      }
      ok := Publish(Exposing(disk), calm);
    }

    /** The anchor view, then the new generation readable, then the previous one gone. */
    method ExposeAndRetire(previous: Option<Blob>, calm: bool, cut: Cut) returns (ok: bool)
      requires Valid() && packaged && Settled(disk) && disk.marker == Some(disk.state) && previous == disk.runtimeView
      requires NeedsStage(disk, disk.state) ==> disk.state in disk.stages
      modifies this
      ensures Valid() && old(history) <= history
      ensures Settled(disk) && disk == old(disk).(anchorView := disk.anchorView, exposed := disk.exposed, stages := disk.stages)
      ensures ok ==> disk.anchorView == disk.state && Publishable(packaged, old(disk), disk.state)
      ensures ok ==> disk.exposed == old(disk.exposed) - AsSet(previous) + AsSet(RuntimeSelection(disk.state))
      ensures calm && !(cut.BehindExposure? && NeedsStage(old(disk), disk.state)) ==>
        (ok <==> Publishable(packaged, old(disk), disk.state))
      ensures calm && cut.BehindExposure? && NeedsStage(old(disk), disk.state) && Publishable(packaged, old(disk), disk.state) ==>
        !ok && disk == Exposing(old(disk)).(anchorView := disk.state)
      ensures calm && !Publishable(packaged, old(disk), disk.state) ==> !ok && disk == old(disk).(anchorView := disk.state)
    {
      var selection := RuntimeSelection(disk.state);
      ok := Publish(disk.(anchorView := disk.state), calm);
      if ok && NeedsStage(disk, disk.state) {
        ok := Expose(calm);
        if cut.BehindExposure? {
          return false;
        }
      }
      if ok && previous.Some? && previous != selection {
        ok := Publish(disk.(exposed := disk.exposed - {previous.value}), calm);
      }
    }

    /** Publication: exposure and retirement, then the selector, and last of all the marker. */
    method PublishPreparedViews(previous: Option<Blob>, calm: bool, cut: Cut) returns (ok: bool)
      requires Valid() && packaged && Settled(disk) && disk.marker == Some(disk.state) && previous == disk.runtimeView
      requires NeedsStage(disk, disk.state) ==> disk.state in disk.stages
      modifies this
      ensures Valid() && old(history) <= history
      ensures disk == old(disk).(anchorView := disk.anchorView, exposed := disk.exposed, stages := disk.stages, runtimeView := disk.runtimeView, marker := disk.marker)
      ensures Settled(disk)
      ensures ok ==> disk.marker.None? && ViewsWritten(disk) && Publishable(packaged, old(disk), disk.state)
      ensures ok ==> disk.exposed == old(disk.exposed) - AsSet(previous) + AsSet(RuntimeSelection(disk.state))
      ensures calm && !(cut.BehindExposure? && NeedsStage(old(disk), disk.state)) ==>
        (ok <==> Publishable(packaged, old(disk), disk.state))
      ensures calm && cut.BehindExposure? && NeedsStage(old(disk), disk.state) && Publishable(packaged, old(disk), disk.state) ==>
        !ok && disk == Exposing(old(disk)).(anchorView := disk.state)
      ensures calm && !Publishable(packaged, old(disk), disk.state) ==> !ok && disk == old(disk).(anchorView := disk.state)
    {
      var selection := RuntimeSelection(disk.state);
      ok := ExposeAndRetire(previous, calm, cut);
      if ok && selection.Some? {
        ok := Publish(disk.(runtimeView := selection), calm);
      }
      if ok {
        ok := Publish(disk.(marker := None), calm);
      }
    }

    /** Everything a commit writes up to and including the anchor. */
    method AdvanceAnchor(next: State, calm: bool, cut: Cut) returns (ok: bool)
      requires Valid() && Settled(disk) && ValidTransition(Decode(disk.state).value, next)
      modifies this
      ensures Valid() && old(history) <= history
      ensures disk == old(disk).(journal := disk.journal, marker := disk.marker, stages := disk.stages, residue := disk.residue, anchor := disk.anchor)
      ensures packaged || disk == old(disk).(journal := disk.journal, anchor := disk.anchor)
      ensures disk.anchor == old(disk.anchor) || disk.anchor == AnchorFor(next, Encode(next))
      ensures disk.residue == old(disk.residue) || (disk.anchor == old(disk.anchor) && disk.residue == old(disk.residue) + {Encode(next)})
      ensures if disk.anchor == old(disk.anchor) then !ok && Settled(disk) else AnchorMoved(packaged, old(disk), disk, next)
      ensures calm && !(packaged && cut.InStage? && NeedsStage(old(disk), Encode(next))) ==> ok
      ensures calm && packaged && cut.InStage? && NeedsStage(old(disk), Encode(next)) ==>
        !ok && disk == old(disk).(journal := Some(Encode(next)), residue := old(disk.residue) + {Encode(next)})
    {
      var bytes := Encode(next);
      if packaged {
        ok := PrepareViewCommit(bytes, calm, cut);
      } else {
        ok := WriteJournal(bytes, calm);
      }
      if ok {
        ok := WriteAnchor(next, calm);
      }
    }

    /** Moves the atomic variable from `previous` to `next`. Whether an interrupted call took
        place is decided by the anchor alone. Undisturbed, it always takes place, but it can
        finish publishing only where the stage of the new generation holds no residue. */
    method CommitAnchoredState(previous: State, next: State, calm: bool, cut: Cut := Nowhere) returns (r: CommitResult)
      requires Valid()
      modifies this
      ensures Valid() && old(history) <= history
      ensures r.Refused? <==> !Committable(old(disk), previous, next)
      ensures r.Refused? ==> disk == old(disk)
      ensures r.Committed? ==> Installed(packaged, old(disk), disk, Encode(next)) && disk.anchor != old(disk.anchor)
      ensures r.Committed? ==> Publishable(packaged, old(disk), Encode(next))
      ensures old(disk.residue) <= disk.residue <= old(disk.residue) + {Encode(next)}
      ensures disk.anchor == old(disk.anchor) || disk.anchor == AnchorFor(next, Encode(next))
      ensures !r.Refused? && disk.anchor == old(disk.anchor) ==> Settled(disk) && disk.state == old(disk.state)
      ensures !r.Refused? && disk.anchor != old(disk.anchor) ==> Recoverable(disk) && Selected(disk) == next
      ensures calm && cut.Nowhere? && !r.Refused? ==>
        && Settled(disk) && disk.state == Encode(next) && disk.residue == old(disk.residue)
        && (r.Committed? <==> Publishable(packaged, old(disk), Encode(next)))
        && (!r.Committed? ==> disk == HeldBack(old(disk).(anchor := AnchorFor(next, Encode(next))), Encode(next)))
      ensures calm && cut.InStage? && !r.Refused? && packaged && NeedsStage(old(disk), Encode(next)) ==>
        r.Interrupted? && disk == old(disk).(journal := Some(Encode(next)), residue := old(disk.residue) + {Encode(next)})
      ensures calm && cut.BehindExposure? && !r.Refused? && packaged && NeedsStage(old(disk), Encode(next)) && Encode(next) !in old(disk.residue) ==>
        r.Interrupted? && disk == CutAfterExposure(old(disk), next)
    {
      var current := ReadAnchoredState();
      if current.None? || current.value != previous || !ValidTransition(previous, next) {
        return Refused;
      }
      var previousView := disk.runtimeView;
      var ok := AdvanceAnchor(next, calm, cut);
      if !ok {
        return CommitResult.Interrupted;
      }
      ok := InstallAnchored(previousView, calm, cut);
      return if ok then Committed else CommitResult.Interrupted;
    }

    /** State file, views, and the unlink of the journal, behind the anchor. */
    method InstallAnchored(previous: Option<Blob>, calm: bool, cut: Cut) returns (ok: bool)
      requires Valid() && Resumable(disk) && !Settled(disk) && (packaged ==> disk.marker == disk.journal && previous == disk.runtimeView)
      requires packaged && NeedsStage(disk, disk.journal.value) ==> disk.journal.value in disk.stages
      modifies this
      ensures Valid() && old(history) <= history
      ensures disk.anchor == old(disk.anchor) && disk.residue == old(disk.residue)
      ensures Recoverable(disk) && Selected(disk) == old(Selected(disk))
      ensures ok ==> Installed(packaged, old(disk), disk, old(disk.journal.value)) && Publishable(packaged, old(disk), old(disk.journal.value))
      ensures calm && !(cut.BehindExposure? && packaged && NeedsStage(old(disk), old(disk.journal.value))) ==>
        && Settled(disk) && disk.state == old(disk.journal.value)
        && (ok <==> Publishable(packaged, old(disk), disk.state))
        && (!ok ==> disk == old(disk).(state := disk.state, anchorView := disk.state))
      ensures calm && cut.BehindExposure? && packaged && NeedsStage(old(disk), old(disk.journal.value)) && Publishable(packaged, old(disk), old(disk.journal.value)) ==>
        !ok && disk == Exposing(old(disk).(state := old(disk.journal.value))).(anchorView := disk.state)
    {
      ok := WriteState(calm);
      if !ok {
        return;
      }
      if packaged {
        ok := PublishPreparedViews(previous, calm, cut);
        if !ok {
          return;
        }
      }
      DropJournal(calm);
    }

    /** Finishes an interrupted commit, or refuses; it can install nothing but the anchored state.
        Undisturbed, it always installs the anchored state, and it finishes exactly where the
        anchored generation needs no exposure or its stage holds no residue. */
    method RecoverTransaction(calm: bool) returns (r: RecoveryResult)
      requires Valid()
      modifies this
      ensures Valid() && old(history) <= history
      ensures disk.anchor == old(disk.anchor)
      ensures r.Finished? ==> Recoverable(old(disk)) && r.recovered == !Settled(old(disk))
      ensures r.Finished? ==> r.state == Selected(old(disk)) && Decode(disk.state) == Some(r.state)
      ensures r.Finished? ==> Settled(disk) && (packaged ==> disk.marker.None? && ViewsWritten(disk))
      ensures r.Finished? && packaged ==>
        disk.exposed == old(disk.exposed) - AsSet(old(disk.runtimeView)) + AsSet(RuntimeSelection(disk.state))
      ensures Recoverable(old(disk)) ==> Recoverable(disk) && Selected(disk) == Selected(old(disk))
      ensures Recoverable(old(disk)) ==> r.Finished? || r.Interrupted?
      ensures r.Finished? ==> Publishable(packaged, old(disk), AnchoredBytes(old(disk)))
      ensures Recoverable(old(disk)) && calm ==>
        && Settled(disk) && (r.Finished? <==> Publishable(packaged, old(disk), AnchoredBytes(old(disk))))
        && (!r.Finished? ==> disk == HeldBack(old(disk), AnchoredBytes(old(disk))))
      ensures !Recoverable(old(disk)) ==> !r.Finished? && !r.Interrupted? && disk == old(disk)
      ensures Recoverable(old(disk)) ==>
        old(disk.residue) <= disk.residue && (calm ==> disk.residue == old(disk.residue))
    {
      var current := Decode(disk.state);
      if current.None? {
        return StateUnreadable;
      }
      var bytes, target := disk.state, current.value;
      var recovered := false;
      if !disk.anchor.Selects(target, bytes) {
        if disk.journal.None? {
          return NoJournal;
        }
        var next := Decode(disk.journal.value);
        if next.None? {
          return JournalDoesNotDecode;
        }
        if !disk.anchor.Selects(next.value, disk.journal.value) {
          return JournalNotAnchored;
        }
        if !ValidTransition(target, next.value) {
          return NotOneTransition;
        }
        bytes, target, recovered := disk.journal.value, next.value, true;
      }
      var previousView := disk.runtimeView;
      var ok := true;
      if packaged {
        ok := PrepareViewCommit(bytes, calm, Nowhere);
        if !ok {
          return RecoveryResult.Interrupted;
        }
      }
      if recovered {
        ok := WriteState(calm);
        if !ok {
          return RecoveryResult.Interrupted;
        }
      }
      if packaged {
        ok := PublishPreparedViews(previousView, calm, Nowhere);
        if !ok {
          return RecoveryResult.Interrupted;
        }
      }
      DropJournal(calm);
      return Finished(recovered, target);
    }
  }

  /** The leak, by two commits: the first is cut right behind exposing its generation, the
      second goes undisturbed, and the generation of the first stays readable. */
  method LeakByTwoCommits(root: LifecycleRoot, s0: State, s1: State, s2: State)
    requires root.Valid() && root.packaged && Committable(root.disk, s0, s1) && ValidTransition(s1, s2)
    requires NeedsStage(root.disk, Encode(s1)) && NeedsStage(root.disk, Encode(s2)) && root.disk.runtimeView != Some(Encode(s1))
    requires Encode(s1) !in root.disk.residue && Encode(s2) !in root.disk.residue
    modifies root
    ensures root.Valid() && Settled(root.disk) && root.disk.state == Encode(s2) && root.disk.marker.None?
    ensures root.disk.runtimeView == Some(Encode(s2)) && Encode(s1) in root.disk.exposed && Encode(s1) != Encode(s2)
  {
    var first := root.CommitAnchoredState(s0, s1, true, BehindExposure);
    var second := root.CommitAnchoredState(s1, s2, true);
  }

  /** The standstill, by one cut: a commit is cut inside a replacement in the stage, the same
      commit goes undisturbed and moves the state, and no recovery ever finishes it. */
  method StandstillByOneCut(root: LifecycleRoot, s0: State, s1: State) returns (again: CommitResult, recovery: RecoveryResult)
    requires root.Valid() && root.packaged && Committable(root.disk, s0, s1)
    requires NeedsStage(root.disk, Encode(s1)) && root.disk.runtimeView != Some(Encode(s1))
    modifies root
    ensures root.Valid() && Settled(root.disk) && root.disk.state == Encode(s1)
    ensures again.Interrupted? && recovery.Interrupted? && Stuck(root.disk, Encode(s1))
  {
    var cut := root.CommitAnchoredState(s0, s1, true, InStage);
    again := root.CommitAnchoredState(s0, s1, true);
    recovery := root.RecoverTransaction(true);
  }
}
