/**
 Why a pass writes, along runs with crashes, users and upgrades in between: no user value is overwritten by
 the first patch of a component, a patch is stripped only for a reason, and only AutoRevert sets the marker.
 */
module Guards {
  import opened Text
  import opened Values
  import opened Comparison
  import opened Components
  import opened Patcher
  import opened Tags
  import opened Policy
  import opened Cluster
  import opened Protocol
  import opened Safety
  import opened Convergence
  import opened History
  import opened Images
  import Layout
  import Preservation
  import Records
  import Upgrades

  // ---------- user values are not overwritten ----------

  /** What a pass is about to write into an unmanaged component's values conflicts with none of them. */
  ghost predicate NoClash(worker: Worker) {
    worker.Busy? && worker.pc.Applying? && ManagedOn(worker.pc.seen, worker.c) == "" ==>
      !HasConflict(ValuesOf(worker.pc.seen), worker.pc.generated)
  }

  lemma StepHasNoClash(m: Machine)
    requires m.worker.Busy?
    ensures NoClash(Step(m).worker)
  {
    if Step(m).worker.Busy? && Step(m).worker.pc.Applying? {
      Records.AppliesAfterCheck(m);
    }
  }

  lemma {:induction false} NeverClashes(run: seq<Machine>, moves: seq<Move>, k: nat)
    requires IsRun(run, moves) && k < |run|
    ensures NoClash(run[k].worker)
    decreases k
  {
    if k > 0 {
      NeverClashes(run, moves, k - 1);
      assert Follows(run, moves, k - 1);
      if moves[k - 1].WorkerStep? { StepHasNoClash(run[k - 1]); }
    }
  }

  /** Without a conflict, merging changes the text of no value. */
  lemma NothingClashes(e: Tree, g: Tree, p: Path)
    requires !HasConflict(e, g)
    ensures !Conflict(e, Merge(e, g), p)
  {
    AtMerge(e, g, p);
    assert !Conflict(e, g, p);
  }

  /** The values of the component's HelmChartConfig, as they are in the k-th state. */
  function ValuesAt(run: seq<Machine>, k: nat, c: Component): Tree
    requires k < |run|
  {
    ValuesOf(ConfigOf(run[k].world, c))
  }

  /**
   A write for a component that is not managed changes the text of no value that stands in its HelmChartConfig
   then, and, if the image is not named like a printed map, no value goes either.
   */
  lemma FirstApplyOverwritesNothing(run: seq<Machine>, moves: seq<Move>, k: nat, c: Component) returns (j: nat)
    requires IsRun(run, moves) && k < |moves| && Applies(run[k], moves[k], c) && Managed(run[k].world, c) == ""
    ensures !HasConflict(ValuesAt(run, k, c), ValuesAt(run, k + 1, c))
    ensures LooksAt(run, moves, j, k, c, run[k].worker.copy)
    ensures !(MAP_TEXT <= WithoutRegistry(ImageName(run[j].world.out, c))) ==>
              Keeps(ValuesAt(run, k, c), ValuesAt(run, k + 1, c))
  {
    var e, g := ValuesOf(run[k].worker.pc.seen), run[k].worker.pc.generated;
    j := HeldSince(run, moves, k);
    AppliedOver(run, moves, k, c);
    forall p ensures !Conflict(e, Merge(e, g), p) {
      NothingClashes(e, g, p);
    }
    Records.AppliesAreCleared(run, moves, k, c);
    KeptAll(e, g, run[j].world.out, c, run[k].worker.copy.tag);
  }

  /** The write replaces the HelmChartConfig the pass has read. */
  lemma AppliedOver(run: seq<Machine>, moves: seq<Move>, k: nat, c: Component)
    requires IsRun(run, moves) && k < |moves| && Applies(run[k], moves[k], c)
    ensures ConfigOf(run[k].world, c) == run[k].worker.pc.seen
    ensures ValuesAt(run, k + 1, c) == Merge(ValuesOf(run[k].worker.pc.seen), run[k].worker.pc.generated)
    ensures ManagedOn(run[k].worker.pc.seen, c) == "" ==>
              !HasConflict(ValuesOf(run[k].worker.pc.seen), run[k].worker.pc.generated)
  {
    assert Follows(run, moves, k);
    RunsAreSafe(run, moves, k);
    WriteSeesCurrent(run[k], run[k].worker.pc.seen);
    Layout.ApplyWrites(run[k]);
    NeverClashes(run, moves, k);
  }

  lemma KeptAll(e: Tree, g: Tree, out: Outside, c: Component, tag: string)
    requires g == out.generated(c, tag) && Parses(tag) && !HasConflict(e, g)
    ensures !(MAP_TEXT <= WithoutRegistry(ImageName(out, c))) ==> Keeps(e, Merge(e, g))
  {
    assert g == Generated(out.running(c), c, tag);
    GeneratedArePlain(c, WithoutRegistry(ImageName(out, c)), tag);
    if MAP_TEXT <= tag { NoTagIsAMap(tag); }
    if !(MAP_TEXT <= WithoutRegistry(ImageName(out, c))) {
      assert forall p :: !Conflict(e, g, p);
      NoConflictMeansKept(e, g);
    }
  }

  lemma NoTagIsAMap(tag: string)
    requires MAP_TEXT <= tag
    ensures !Parses(tag)
  {
    assert tag[0] == 'm' && TrimLeft(tag) == tag;
    TrimRightIs(tag);
    assert TrimSpace(tag) == "" || TrimSpace(tag)[0] == 'm';
    assert ParseTag(tag).None?;
  }

  // ---------- a patch is stripped only for a reason ----------

  /** The spec asks for the bundled tag, or for one that is not above it on its line. */
  ghost predicate NotAbove(tag: string, baseline: string) { tag == baseline || !AboveBaseline(baseline, tag) }

  /** A marker for the spec, or a target that the pass has found to be no better than the bundled tag it has read. */
  ghost predicate ReasonAt(run: seq<Machine>, moves: seq<Move>, j: nat, k: nat) {
    k < |run| && run[k].worker.Busy? &&
    (HasMarker(run[k].worker.copy) ||
     (LooksAt(run, moves, j, k, run[k].worker.c, run[k].worker.copy) &&
      NotAbove(run[k].worker.copy.tag, run[j].worker.pc.baseline)))
  }

  /** A pass turns to stripping only with the marker in hand, or from where it looks for the running images. */
  ghost predicate TurnsFor(m: Machine, n: Machine)
    requires m.worker.Busy? && n.worker.Busy?
  {
    HasMarker(n.worker.copy) ||
    (m.worker.pc.ReadingImages? && n.worker.c == m.worker.c && n.worker.copy == m.worker.copy &&
     NotAbove(m.worker.copy.tag, m.worker.pc.baseline))
  }

  lemma StepTurns(m: Machine)
    requires m.worker.Busy? && Step(m).worker.Busy? && Step(m).worker.pc.Reverting?
    ensures TurnsFor(m, Step(m))
  {
    var c, copy := m.worker.c, m.worker.copy;
    match m.worker.pc
    case AddingFinalizer => Upgrades.UpdateCopies(m, copy.(finalizer := true), CheckingPrime);
    case ClearingMarker(version, baseline, seen) =>
      Upgrades.UpdateCopies(m, copy.(marker := None), AfterMarker(copy, c, version, baseline, seen));
    case RecordingMarker(_, _, seen) =>
      Upgrades.UpdateCopies(m, copy.(marker := Some(copy.generation)), Pc.Reverting(RevertedAfterUpgrade, seen));
    case ReadingImages(_, baseline, _) =>
      RecheckedTarget(m.world.out, baseline, copy.tag);
    case _ => OthersTurn(m);
  }

  lemma OthersTurn(m: Machine)
    requires m.worker.Busy? && Step(m).worker.Busy? && Step(m).worker.pc.Reverting?
    requires !m.worker.pc.AddingFinalizer? && !m.worker.pc.ClearingMarker? && !m.worker.pc.RecordingMarker?
    requires !m.worker.pc.ReadingImages?
    ensures HasMarker(Step(m).worker.copy)
  {
  }

  lemma OthersKeepReverting(m: Machine, move: Move)
    requires CanMove(m, move) && !move.WorkerStep?
    requires After(m, move).worker.Busy? && After(m, move).worker.pc.Reverting?
    ensures After(m, move).worker == m.worker
  {
  }

  /**
   Whatever happens in between: a pass about to strip its component has the marker of its spec in hand, or has
   found its tag to be the bundled one, or not above it on its line.
   */
  lemma {:induction false} StripsHaveAReason(run: seq<Machine>, moves: seq<Move>, k: nat) returns (j: nat)
    requires IsRun(run, moves) && k < |run| && run[k].worker.Busy? && run[k].worker.pc.Reverting?
    ensures ReasonAt(run, moves, j, k)
    decreases k
  {
    assert k > 0;
    assert Follows(run, moves, k - 1);
    if moves[k - 1].WorkerStep? {
      StepTurns(run[k - 1]);
      j := k - 1;
    } else {
      OthersKeepReverting(run[k - 1], moves[k - 1]);
      j := StripsHaveAReason(run, moves, k - 1);
      if !HasMarker(run[k].worker.copy) { LooksOn(run, moves, j, k - 1, run[k].worker.c, run[k].worker.copy); }
    }
  }

  // ---------- the marker is set only under AutoRevert ----------

  /** A pass about to set the marker works for AutoRevert, on a component managed on a version it has not found. */
  predicate MayMark(worker: Worker) {
    worker.Busy? && worker.pc.RecordingMarker? ==>
      worker.copy.policy == AutoRevert && worker.copy.marker.None? &&
      ManagedOn(worker.pc.seen, worker.c) != "" && ManagedOn(worker.pc.seen, worker.c) != worker.pc.version
  }

  lemma UpdateMayMark(m: Machine, p: ImagePatch, next: Pc)
    requires m.worker.Busy? && p.policy == m.worker.copy.policy
    requires next.RecordingMarker? ==>
               p.policy == AutoRevert && p.marker.None? && ManagedOn(next.seen, m.worker.c) != "" &&
               ManagedOn(next.seen, m.worker.c) != next.version
    ensures MayMark(UpdatePatch(m, p, next).worker)
  {
  }

  lemma StepMayMark(m: Machine)
    requires m.worker.Busy?
    ensures MayMark(Step(m).worker)
  {
    var c, copy := m.worker.c, m.worker.copy;
    match m.worker.pc
    case AddingFinalizer => UpdateMayMark(m, copy.(finalizer := true), CheckingPrime);
    case ClearingMarker(version, baseline, seen) =>
      UpdateMayMark(m, copy.(marker := None), AfterMarker(copy, c, version, baseline, seen));
    case RecordingMarker(_, _, seen) =>
      UpdateMayMark(m, copy.(marker := Some(copy.generation)), Pc.Reverting(RevertedAfterUpgrade, seen));
    case _ => OthersMayMark(m);
  }

  lemma OthersMayMark(m: Machine)
    requires m.worker.Busy? && !m.worker.pc.AddingFinalizer? && !m.worker.pc.ClearingMarker?
    requires !m.worker.pc.RecordingMarker?
    ensures MayMark(Step(m).worker)
  {
    if Reads(m.worker.pc) { ReadsMayMark(m); } else { WritesDoNotMark(m); }
  }

  lemma ReadsMayMark(m: Machine)
    requires m.worker.Busy? && Reads(m.worker.pc)
    ensures MayMark(Step(m).worker)
  {
    if !m.worker.pc.ReadingConfig? { OtherReadsDoNotMark(m); }
  }

  lemma OtherReadsDoNotMark(m: Machine)
    requires m.worker.Busy? && Reads(m.worker.pc) && !m.worker.pc.ReadingConfig?
    ensures Step(m).worker.Busy? ==> !Step(m).worker.pc.RecordingMarker?
  {
  }

  lemma WritesDoNotMark(m: Machine)
    requires m.worker.Busy?
    requires m.worker.pc.Applying? || m.worker.pc.Reverting? || m.worker.pc.WritingStatus? ||
             m.worker.pc.FinalizeReverting? || m.worker.pc.RemovingFinalizer?
    ensures Step(m).worker.Busy? ==> !Step(m).worker.pc.RecordingMarker?
  {
  }

  lemma {:induction false} AlwaysMayMark(run: seq<Machine>, moves: seq<Move>, k: nat)
    requires IsRun(run, moves) && k < |run|
    ensures MayMark(run[k].worker)
    decreases k
  {
    if k > 0 {
      AlwaysMayMark(run, moves, k - 1);
      assert Follows(run, moves, k - 1);
      if moves[k - 1].WorkerStep? { StepMayMark(run[k - 1]); }
    }
  }

  function MarkerOf(w: World, c: Component): Option<nat> { if c in w.patches then w.patches[c].marker else None }

  /** The pass sets the marker of its spec, for AutoRevert, on a component managed on a version it has not found. */
  predicate SetsMarker(m: Machine, c: Component) {
    m.worker.Busy? && m.worker.c == c && m.worker.pc.RecordingMarker? && m.worker.copy.policy == AutoRevert &&
    ManagedOn(m.worker.pc.seen, c) != "" && ManagedOn(m.worker.pc.seen, c) != m.worker.pc.version
  }

  predicate MarkerKept(w: World, v: World, c: Component) { MarkerOf(v, c) == MarkerOf(w, c) || MarkerOf(v, c).None? }

  lemma UpdateMarker(m: Machine, p: ImagePatch, next: Pc, c: Component)
    requires m.worker.Busy? && Fresh(m) && (p.marker == m.worker.copy.marker || p.marker.None?)
    ensures MarkerKept(m.world, UpdatePatch(m, p, next).world, c)
  {
  }

  lemma StepMarker(m: Machine, c: Component)
    requires m.worker.Busy? && Fresh(m) && !(m.worker.pc.RecordingMarker? && m.worker.c == c)
    ensures MarkerKept(m.world, Step(m).world, c)
  {
    var copy := m.worker.copy;
    match m.worker.pc
    case AddingFinalizer => UpdateMarker(m, copy.(finalizer := true), CheckingPrime, c);
    case ClearingMarker(version, baseline, seen) =>
      UpdateMarker(m, copy.(marker := None), AfterMarker(copy, m.worker.c, version, baseline, seen), c);
    case WritingStatus(_, tag) => UpdateMarker(m, copy.(appliedTag := tag), m.worker.pc, c);
    case RecordingMarker(_, _, seen) => OtherMarker(m, seen, c);
    case _ => OthersKeepMarkers(m, c);
  }

  lemma OtherMarker(m: Machine, seen: Option<Config>, c: Component)
    requires m.worker.Busy? && m.worker.c != c
    ensures var copy := m.worker.copy;
            MarkerKept(m.world, UpdatePatch(m, copy.(marker := Some(copy.generation)),
              Pc.Reverting(RevertedAfterUpgrade, seen)).world, c)
  {
  }

  lemma OthersKeepMarkers(m: Machine, c: Component)
    requires m.worker.Busy? && !m.worker.pc.AddingFinalizer? && !m.worker.pc.ClearingMarker?
    requires !m.worker.pc.RecordingMarker? && !m.worker.pc.WritingStatus?
    ensures MarkerKept(m.world, Step(m).world, c)
  {
    if Reads(m.worker.pc) { ReadsChangeNothing(m); } else { Records.OthersAddNone(m); }
  }

  lemma UserKeepsMarker(m: Machine, move: Move, c: Component)
    requires CanMove(m, move) && !move.WorkerStep?
    ensures MarkerKept(m.world, After(m, move).world, c)
  {
    if move.OnPatch? { UserMovesMarker(m.world, move.target, move.patchMove, c); }
  }

  lemma UserMovesMarker(w: World, target: Component, move: PatchMove, c: Component)
    ensures MarkerKept(w, MovePatch(w, target, move), c)
  {
  }

  /** A new marker comes from a pass for AutoRevert after an upgrade, and from nothing else that happens in a run. */
  lemma MarkersAreEarned(run: seq<Machine>, moves: seq<Move>, k: nat, c: Component)
    requires IsRun(run, moves) && k < |moves|
    requires MarkerOf(run[k + 1].world, c).Some? && MarkerOf(run[k + 1].world, c) != MarkerOf(run[k].world, c)
    ensures moves[k].WorkerStep? && SetsMarker(run[k], c)
    ensures MarkerOf(run[k + 1].world, c) == Some(run[k].worker.copy.generation)
  {
    assert Follows(run, moves, k);
    RunsAreSafe(run, moves, k);
    AlwaysMayMark(run, moves, k);
    if !moves[k].WorkerStep? {
      UserKeepsMarker(run[k], moves[k], c);
    } else if !(run[k].worker.pc.RecordingMarker? && run[k].worker.c == c) {
      StepMarker(run[k], c);
    } else {
      MarkerStored(run[k], c);
    }
  }

  lemma MarkerStored(m: Machine, c: Component)
    requires m.worker.Busy? && m.worker.c == c && m.worker.pc.RecordingMarker?
    ensures MarkerOf(Step(m).world, c) == MarkerOf(m.world, c) ||
            MarkerOf(Step(m).world, c) == Some(m.worker.copy.generation)
  {
  }
}
