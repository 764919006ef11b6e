/**
 The tags written for a component along a run, read and write by read and write: each has passed the rules
 against the bundled tag its own pass has read, and they do not go back while the component keeps a record.
 */
module Records {
  import opened Text
  import opened Values
  import opened Comparison
  import opened Components
  import opened Patcher
  import opened Tags
  import opened Policy
  import opened Cluster
  import opened Protocol
  import opened Safety
  import opened History
  import Layout
  import Preservation

  // ---------- what a pass carries has passed the checks ----------

  /** The target is acceptable on the bundled tag, and no older than the applied tag. */
  ghost predicate Cleared(copy: ImagePatch, baseline: string) { AboveBaseline(baseline, copy.tag) && NotBack(copy) }

  ghost predicate NotBack(copy: ImagePatch) {
    copy.appliedTag != "" && Parses(copy.appliedTag) ==> NotOlder(copy.tag, copy.appliedTag)
  }

  /** A pass is about to record the old tag, no tag, or its target. */
  ghost predicate StatusOk(copy: ImagePatch, outcome: Outcome, tag: string) {
    match outcome
    case Applied => tag == copy.tag && Parses(tag) && NotBack(copy)
    case Steady => tag == copy.tag && Parses(tag)
    case _ => tag == copy.appliedTag || tag == ""
  }

  ghost predicate PassOk(worker: Worker) {
    worker.Busy? ==>
      match worker.pc
      case Applying(_, baseline, _, _) => Cleared(worker.copy, baseline)
      case Reverting(outcome, _) => LeavesUnmanaged(outcome)
      case WritingStatus(outcome, tag) => StatusOk(worker.copy, outcome, tag)
      case _ => true
  }

  lemma UpdateOk(m: Machine, p: ImagePatch, next: Pc)
    requires m.worker.Busy? && !next.Applying? && (next.Reverting? ==> LeavesUnmanaged(next.outcome))
    requires next.WritingStatus? ==> next.appliedTag == p.appliedTag && next.outcome == Stale
    ensures PassOk(UpdatePatch(m, p, next).worker)
  {
  }

  lemma ImagesOk(copy: ImagePatch, c: Component, version: Version, baseline: string, seen: Option<Config>,
      generated: Tree, recheck: Verdict)
    requires recheck == Allowed ==> Parses(copy.tag)
    ensures PassOk(Busy(c, copy, AfterImages(copy, c, version, baseline, seen, generated, recheck)))
  {
  }

  lemma TargetOk(copy: ImagePatch, c: Component, out: Outside, version: Version, baseline: string, seen: Option<Config>,
      generated: Tree)
    ensures PassOk(Busy(c, copy,
            AfterTarget(copy, c, version, baseline, seen, generated,
              out.check(c, baseline, copy.appliedTag, copy.tag))))
  {
    if out.check(c, baseline, copy.appliedTag, copy.tag) == Allowed {
      CheckedTarget(out, c, baseline, copy.appliedTag, copy.tag);
    }
  }

  lemma StepOk(m: Machine)
    requires m.worker.Busy? && PassOk(m.worker)
    ensures PassOk(Step(m).worker)
  {
    var w, c, copy := m.world, m.worker.c, m.worker.copy;
    match m.worker.pc
    case AddingFinalizer => UpdateOk(m, copy.(finalizer := true), CheckingPrime);
    case ClearingMarker(version, baseline, seen) =>
      UpdateOk(m, copy.(marker := None), AfterMarker(copy, c, version, baseline, seen));
    case RecordingMarker(_, _, seen) =>
      UpdateOk(m, copy.(marker := Some(copy.generation)), Reverting(RevertedAfterUpgrade, seen));
    case ReadingImages(version, baseline, seen) =>
      if w.out.recheck(baseline, copy.tag) == Allowed { RecheckedTarget(w.out, baseline, copy.tag); }
      ImagesOk(copy, c, version, baseline, seen, w.out.generated(c, copy.tag), w.out.recheck(baseline, copy.tag));
    case CheckingTarget(version, baseline, seen, generated) =>
      TargetOk(copy, c, w.out, version, baseline, seen, generated);
    case _ => OtherStepsOk(m);
  }

  lemma OtherStepsOk(m: Machine)
    requires m.worker.Busy? && PassOk(m.worker) && !m.worker.pc.AddingFinalizer? && !m.worker.pc.ClearingMarker?
    requires !m.worker.pc.RecordingMarker? && !m.worker.pc.ReadingImages? && !m.worker.pc.CheckingTarget?
    ensures PassOk(Step(m).worker)
  {
    if Reads(m.worker.pc) { GatesOk(m); }
  }

  /** The other reads lead to no write of values and to no new record. */
  lemma GatesOk(m: Machine)
    requires m.worker.Busy? && Reads(m.worker.pc) && !m.worker.pc.ReadingImages? && !m.worker.pc.CheckingTarget?
    ensures PassOk(Step(m).worker)
  {
  }

  lemma {:induction false} PassesOk(run: seq<Machine>, moves: seq<Move>, k: nat)
    requires IsRun(run, moves) && k < |run|
    ensures PassOk(run[k].worker)
    decreases k
  {
    if k > 0 {
      PassesOk(run, moves, k - 1);
      assert Follows(run, moves, k - 1);
      if moves[k - 1].WorkerStep? { StepOk(run[k - 1]); }
    }
  }

  /** A write of a component's values has passed the rules against the bundled tag that its pass has read. */
  lemma AppliesAreCleared(run: seq<Machine>, moves: seq<Move>, k: nat, c: Component)
    requires IsRun(run, moves) && k < |moves| && Applies(run[k], moves[k], c)
    ensures AboveBaseline(run[k].worker.pc.baseline, run[k].worker.copy.tag) && NotBack(run[k].worker.copy)
  {
    PassesOk(run, moves, k);
  }

  /** In this state the pass for c checks its target, which is allowed. */
  ghost predicate ChecksAt(run: seq<Machine>, moves: seq<Move>, j: nat, c: Component, copy: ImagePatch,
      baseline: string) {
    j < |moves| && j < |run| && moves[j].WorkerStep? && run[j].worker.Busy? && run[j].worker.c == c &&
    run[j].worker.copy == copy && run[j].worker.pc.CheckingTarget? && run[j].worker.pc.baseline == baseline &&
    run[j].world.out.check(c, baseline, copy.appliedTag, copy.tag) == Allowed
  }

  /** A pass comes to an apply only from the check. */
  lemma AppliesAfterCheck(m: Machine)
    requires m.worker.Busy? && Step(m).worker.Busy? && Step(m).worker.pc.Applying?
    ensures m.worker.pc.CheckingTarget? && Step(m).worker.c == m.worker.c && Step(m).worker.copy == m.worker.copy
    ensures Step(m).worker.pc.baseline == m.worker.pc.baseline
    ensures m.world.out.check(m.worker.c, m.worker.pc.baseline, m.worker.copy.appliedTag, m.worker.copy.tag) == Allowed
  {
    if Reads(m.worker.pc) { ReadStepsRemember(m); }
  }

  lemma {:induction false} ApplyWasChecked(run: seq<Machine>, moves: seq<Move>, k: nat) returns (j: nat)
    requires IsRun(run, moves) && k < |run| && run[k].worker.Busy? && run[k].worker.pc.Applying?
    ensures j < k && ChecksAt(run, moves, j, run[k].worker.c, run[k].worker.copy, run[k].worker.pc.baseline)
    decreases k
  {
    assert k > 0;
    assert Follows(run, moves, k - 1);
    if moves[k - 1].WorkerStep? {
      AppliesAfterCheck(run[k - 1]);
      j := k - 1;
    } else {
      j := ApplyWasChecked(run, moves, k - 1);
    }
  }

  /**
   All rules hold of a write of a component's values: its pass has, at an earlier state, found the tag
   published and inside the patch window, newer than the bundled tag it has read on its minor line, and no
   older than the applied tag it has read.
   */
  lemma AppliesObeyTheRules(run: seq<Machine>, moves: seq<Move>, k: nat, c: Component) returns (j: nat)
    requires IsRun(run, moves) && k < |moves| && Applies(run[k], moves[k], c)
    ensures j < k && ChecksAt(run, moves, j, c, run[k].worker.copy, run[k].worker.pc.baseline)
    ensures Offered(run[j].world.out, c, run[k].worker.copy.tag)
    ensures AboveBaseline(run[k].worker.pc.baseline, run[k].worker.copy.tag) && NotBack(run[k].worker.copy)
  {
    var copy, baseline := run[k].worker.copy, run[k].worker.pc.baseline;
    j := ApplyWasChecked(run, moves, k);
    CheckedTarget(run[j].world.out, c, baseline, copy.appliedTag, copy.tag);
  }

  // ---------- what is written is the tag of the spec ----------

  ghost predicate GeneratedFor(c: Component, tag: string, generated: Tree) {
    exists repository :: generated == Generate(c, repository, tag)
  }

  ghost predicate CarriesTag(worker: Worker) {
    worker.Busy? && Preservation.InHand(worker.pc).Some? ==>
      GeneratedFor(worker.c, worker.copy.tag, Preservation.InHand(worker.pc).value)
  }

  lemma OutsideGenerates(out: Outside, c: Component, tag: string)
    ensures GeneratedFor(c, tag, out.generated(c, tag))
  {
    assert out.generated(c, tag) == Generated(out.running(c), c, tag);
  }

  lemma StepCarriesTag(m: Machine)
    requires m.worker.Busy? && CarriesTag(m.worker)
    ensures CarriesTag(Step(m).worker)
  {
    OutsideGenerates(m.world.out, m.worker.c, m.worker.copy.tag);
    Preservation.StepHandsOn(m);
    HandedOnWithCopy(m);
  }

  lemma HandedOnWithCopy(m: Machine)
    requires m.worker.Busy?
    ensures var n := Step(m); n.worker.Busy? && Preservation.InHand(n.worker.pc).Some? ==>
            n.worker.copy == m.worker.copy
  {
    if Reads(m.worker.pc) {
      ReadStepsRemember(m);
    } else if m.worker.pc.AddingFinalizer? || m.worker.pc.ClearingMarker? || m.worker.pc.RecordingMarker? {
      UpdatesEmptyHanded(m);
    } else {
      Preservation.LastStepsEmptyHanded(m);
    }
  }

  lemma UpdatesEmptyHanded(m: Machine)
    requires m.worker.Busy? &&
             (m.worker.pc.AddingFinalizer? || m.worker.pc.ClearingMarker? || m.worker.pc.RecordingMarker?)
    ensures Step(m).worker.Busy? ==> Preservation.InHand(Step(m).worker.pc).None?
  {
    var c, copy := m.worker.c, m.worker.copy;
    match m.worker.pc
    case AddingFinalizer => Preservation.UpdateLeads(m, copy.(finalizer := true), CheckingPrime);
    case ClearingMarker(version, baseline, seen) =>
      Preservation.UpdateLeads(m, copy.(marker := None), AfterMarker(copy, c, version, baseline, seen));
    case RecordingMarker(_, _, seen) =>
      Preservation.UpdateLeads(m, copy.(marker := Some(copy.generation)), Reverting(RevertedAfterUpgrade, seen));
  }

  lemma {:induction false} PassesCarryTag(run: seq<Machine>, moves: seq<Move>, k: nat)
    requires IsRun(run, moves) && k < |run|
    ensures CarriesTag(run[k].worker)
    decreases k
  {
    if k > 0 {
      PassesCarryTag(run, moves, k - 1);
      assert Follows(run, moves, k - 1);
      if moves[k - 1].WorkerStep? { StepCarriesTag(run[k - 1]); }
    }
  }

  /** After the write every tag path of the component reads the tag of the spec that the pass has read. */
  lemma AppliesWriteTheTag(run: seq<Machine>, moves: seq<Move>, k: nat, c: Component, p: Path)
    requires IsRun(run, moves) && k < |moves| && Applies(run[k], moves[k], c) && p in TagPaths(c)
    ensures Lookup(ValuesOf(ConfigOf(run[k + 1].world, c)), p) == Some(TrimSpace(run[k].worker.copy.tag))
  {
    var m := run[k];
    var Applying(version, _, seen, generated) := m.worker.pc;
    PassesCarryTag(run, moves, k);
    assert Follows(run, moves, k);
    Layout.ApplyWrites(m);
    var repository :| generated == Generate(c, repository, m.worker.copy.tag);
    PatchedTagReadsBack(c, ValuesOf(seen), repository, m.worker.copy.tag, p);
  }

  // ---------- who changes the record ----------

  /** The pass gets to store another tag as the record of its ImagePatch. */
  predicate Stores(m: Machine, move: Move, c: Component) {
    move.WorkerStep? && m.worker.Busy? && m.worker.c == c && m.worker.pc.WritingStatus? &&
    c in m.world.patches && m.world.patches[c].rv == m.worker.copy.rv &&
      m.worker.pc.appliedTag != m.worker.copy.appliedTag
  }

  predicate RecordKept(w: World, v: World, c: Component) { Record(v, c) == Record(w, c) || Record(v, c) == "" }

  lemma UpdateRecords(m: Machine, p: ImagePatch, next: Pc, c: Component)
    requires m.worker.Busy? && Fresh(m) && (Seen(next) == None || Seen(next) == Seen(m.worker.pc))
    requires p.appliedTag == m.worker.copy.appliedTag
    ensures RecordKept(m.world, UpdatePatch(m, p, next).world, c)
  {
    UpdateEffect(m, p, next);
  }

  lemma StatusRecords(m: Machine, c: Component)
    requires m.worker.Busy? && Fresh(m) && Stores(m, WorkerStep, c)
    ensures m.world.patches[c] == m.worker.copy && Record(Step(m).world, c) == m.worker.pc.appliedTag
  {
    UpdateEffect(m, m.worker.copy.(appliedTag := m.worker.pc.appliedTag), m.worker.pc);
  }

  lemma NoStatusRecords(m: Machine, c: Component)
    requires m.worker.Busy? && Fresh(m) && m.worker.pc.WritingStatus? && !Stores(m, WorkerStep, c)
    ensures RecordKept(m.world, Step(m).world, c)
  {
    if m.worker.copy.appliedTag != m.worker.pc.appliedTag {
      UpdateEffect(m, m.worker.copy.(appliedTag := m.worker.pc.appliedTag), m.worker.pc);
    }
  }

  lemma StepRecords(m: Machine, c: Component)
    requires m.worker.Busy? && Fresh(m) && !Stores(m, WorkerStep, c)
    ensures RecordKept(m.world, Step(m).world, c)
  {
    if m.worker.pc.AddingFinalizer? || m.worker.pc.ClearingMarker? || m.worker.pc.RecordingMarker? {
      BookkeepingRecords(m, c);
    } else if m.worker.pc.WritingStatus? {
      NoStatusRecords(m, c);
    } else {
      OthersKeepPatches(m);
      OthersAddNone(m);
    }
  }

  lemma BookkeepingRecords(m: Machine, c: Component)
    requires m.worker.Busy? && Fresh(m)
    requires m.worker.pc.AddingFinalizer? || m.worker.pc.ClearingMarker? || m.worker.pc.RecordingMarker?
    ensures RecordKept(m.world, Step(m).world, c)
  {
    var copy := m.worker.copy;
    match m.worker.pc
    case AddingFinalizer => UpdateRecords(m, copy.(finalizer := true), CheckingPrime, c);
    case ClearingMarker(version, baseline, seen) =>
      UpdateRecords(m, copy.(marker := None), AfterMarker(copy, m.worker.c, version, baseline, seen), c);
    case RecordingMarker(_, _, seen) =>
      UpdateRecords(m, copy.(marker := Some(copy.generation)), Reverting(RevertedAfterUpgrade, seen), c);
  }

  lemma OthersAddNone(m: Machine)
    requires m.worker.Busy?
    requires Reads(m.worker.pc) || m.worker.pc.Applying? || m.worker.pc.Reverting? || m.worker.pc.FinalizeReverting? ||
             m.worker.pc.RemovingFinalizer?
    ensures Step(m).world.patches.Keys <= m.world.patches.Keys
  {
    if Reads(m.worker.pc) { ReadsChangeNothing(m); }
  }

  /** Users change a record only by removing the object; a new one has none. */
  lemma UserKeepsRecord(m: Machine, move: Move, c: Component)
    requires CanMove(m, move) && !move.WorkerStep?
    ensures RecordKept(m.world, After(m, move).world, c)
  {
    if move.OnPatch? {
      MovePatchKeepsRecord(m.world, move.target, move.patchMove, c);
    }
  }

  lemma MovePatchKeepsRecord(w: World, target: Component, move: PatchMove, c: Component)
    ensures RecordKept(w, MovePatch(w, target, move), c)
  {
    if c == target {
      OwnMoveKeepsRecord(w, c, move);
    } else {
      MoveIsLocal(w, target, move);
      if c !in w.patches { OtherMoveAddsNone(w, target, move, c); }
    }
  }

  lemma OwnMoveKeepsRecord(w: World, c: Component, move: PatchMove)
    ensures RecordKept(w, MovePatch(w, c, move), c)
  {
  }

  lemma OtherMoveAddsNone(w: World, target: Component, move: PatchMove, c: Component)
    requires c != target && c !in w.patches
    ensures c !in MovePatch(w, target, move).patches
  {
  }

  // ---------- records are release tags ----------

  /** Every record, and the one a pass has read, is empty or a release tag. */
  ghost predicate AllParse(m: Machine) {
    (forall c :: RecordOk(m.world, c)) && (m.worker.Busy? ==> CopyParses(m.worker.copy))
  }

  ghost predicate CopyParses(copy: ImagePatch) { copy.appliedTag == "" || Parses(copy.appliedTag) }

  /** Passes store their object with its old applied tag until they are done. */
  lemma CopyKeepsTag(m: Machine)
    requires m.worker.Busy?
    ensures Step(m).worker.Busy? ==> Step(m).worker.copy.appliedTag == m.worker.copy.appliedTag
    ensures Step(m).worker.Busy? ==> Step(m).worker.c == m.worker.c
  {
    if Reads(m.worker.pc) {
      ReadStepsRemember(m);
    } else {
      WritesKeepTag(m);
    }
  }

  lemma WritesKeepTag(m: Machine)
    requires m.worker.Busy? && !Reads(m.worker.pc)
    ensures Step(m).worker.Busy? ==> Step(m).worker.copy.appliedTag == m.worker.copy.appliedTag
    ensures Step(m).worker.Busy? ==> Step(m).worker.c == m.worker.c
  {
  }

  lemma StepParses(m: Machine)
    requires m.worker.Busy? && Fresh(m) && PassOk(m.worker) && AllParse(m)
    ensures AllParse(Step(m))
  {
    CopyKeepsTag(m);
    forall c ensures RecordOk(Step(m).world, c) {
      if Stores(m, WorkerStep, c) { StatusRecords(m, c); } else { StepRecords(m, c); }
      assert RecordOk(m.world, c);
    }
  }

  lemma MoveParses(m: Machine, move: Move)
    requires CanMove(m, move) && !move.WorkerStep? && AllParse(m)
    ensures AllParse(After(m, move))
  {
    forall c ensures RecordOk(After(m, move).world, c) {
      UserKeepsRecord(m, move, c);
      assert RecordOk(m.world, c);
    }
    if move.StartPass? {
      assert RecordOk(m.world, move.c);
    }
  }

  lemma {:induction false} RecordsParse(run: seq<Machine>, moves: seq<Move>, k: nat)
    requires IsRun(run, moves) && k < |run|
    ensures AllParse(run[k])
    decreases k
  {
    if k > 0 {
      RecordsParse(run, moves, k - 1);
      RunsAreSafe(run, moves, k - 1);
      PassesOk(run, moves, k - 1);
      assert Follows(run, moves, k - 1);
      if moves[k - 1].WorkerStep? { StepParses(run[k - 1]); } else { MoveParses(run[k - 1], moves[k - 1]); }
    }
  }

  // ---------- when a record steps back ----------

  /** The pass has found its target in place, older than the record, and gets to store it. */
  ghost predicate StoresOlder(m: Machine, move: Move, c: Component) {
    Stores(m, move, c) && m.worker.pc.outcome == Steady && m.worker.copy.appliedTag != "" &&
    !NotOlder(m.worker.pc.appliedTag, m.worker.copy.appliedTag)
  }

  ghost predicate StepsBack(w: World, v: World, c: Component) {
    Record(w, c) != "" && Record(v, c) != "" && !NotOlder(Record(v, c), Record(w, c))
  }

  /** Along any run a record steps back exactly when a pass stores an older tag that it has found in place. */
  lemma RecordStepsBackIff(run: seq<Machine>, moves: seq<Move>, k: nat, c: Component)
    requires IsRun(run, moves) && k < |moves|
    ensures StepsBack(run[k].world, run[k + 1].world, c) <==> StoresOlder(run[k], moves[k], c)
  {
    RunsAreSafe(run, moves, k);
    PassesOk(run, moves, k);
    RecordsParse(run, moves, k);
    assert Follows(run, moves, k);
    MoveStepsBackIff(run[k], moves[k], c);
  }

  lemma MoveStepsBackIff(m: Machine, move: Move, c: Component)
    requires CanMove(m, move) && Fresh(m) && PassOk(m.worker) && AllParse(m)
    ensures StepsBack(m.world, After(m, move).world, c) <==> StoresOlder(m, move, c)
  {
    assert RecordOk(m.world, c);
    if Record(m.world, c) != "" { NotOlderReflexive(Record(m.world, c)); }
    if !move.WorkerStep? {
      UserKeepsRecord(m, move, c);
    } else if Stores(m, move, c) {
      StatusRecords(m, c);
      StoredIff(m.worker.copy, m.worker.pc.outcome, m.worker.pc.appliedTag);
    } else {
      StepRecords(m, c);
    }
  }

  lemma StoredIff(copy: ImagePatch, outcome: Outcome, tag: string)
    requires StatusOk(copy, outcome, tag) && tag != copy.appliedTag && CopyParses(copy)
    ensures copy.appliedTag != "" && tag != "" && !NotOlder(tag, copy.appliedTag) <==>
            outcome == Steady && copy.appliedTag != "" && !NotOlder(tag, copy.appliedTag)
  {
    EmptyDoesNotParse();
  }

  // ---------- the tags written along a run ----------

  /** The record is not older than a tag, and neither is what a pass for the component has read or is about to store. */
  ghost predicate Above(m: Machine, c: Component, tag: string) {
    NotOlder(Record(m.world, c), tag) && (m.worker.Busy? && m.worker.c == c ==> NotOlder(m.worker.copy.appliedTag, tag))
  }

  lemma StoresAbove(copy: ImagePatch, outcome: Outcome, stored: string, tag: string)
    requires StatusOk(copy, outcome, stored) && NotOlder(copy.appliedTag, tag) && stored != "" &&
             stored != copy.appliedTag
    requires outcome == Steady ==> copy.appliedTag == "" || NotOlder(stored, copy.appliedTag)
    ensures NotOlder(stored, tag)
  {
    EmptyDoesNotParse();
    NotOlderTransitive(stored, copy.appliedTag, tag);
  }

  lemma StepStaysAbove(m: Machine, c: Component, tag: string)
    requires m.worker.Busy? && Fresh(m) && PassOk(m.worker) && Above(m, c, tag)
    requires Record(Step(m).world, c) != "" && !StoresOlder(m, WorkerStep, c)
    ensures Above(Step(m), c, tag)
  {
    CopyKeepsTag(m);
    EmptyDoesNotParse();
    if Stores(m, WorkerStep, c) {
      StatusRecords(m, c);
      StoresAbove(m.worker.copy, m.worker.pc.outcome, m.worker.pc.appliedTag, tag);
    } else {
      StepRecords(m, c);
    }
  }

  lemma MoveStaysAbove(m: Machine, move: Move, c: Component, tag: string)
    requires CanMove(m, move) && !move.WorkerStep? && Above(m, c, tag) && Record(After(m, move).world, c) != ""
    ensures Above(After(m, move), c, tag)
  {
    UserKeepsRecord(m, move, c);
  }

  predicate HasRecord(m: Machine, c: Component) { Record(m.world, c) != "" }

  /** The component has a record, and no pass is about to store an older tag that it has found in place. */
  ghost predicate KeepsAt(run: seq<Machine>, moves: seq<Move>, c: Component, j: nat)
    requires j < |moves| < |run|
  {
    HasRecord(run[j], c) && !StoresOlder(run[j], moves[j], c)
  }

  ghost predicate KeepsItsRecord(run: seq<Machine>, moves: seq<Move>, c: Component, i: nat, k: nat)
    requires k < |moves| < |run|
  {
    forall j | i <= j <= k :: KeepsAt(run, moves, c, j)
  }

  lemma {:induction false} StaysAbove(run: seq<Machine>, moves: seq<Move>, c: Component, i: nat, k: nat, tag: string)
    requires IsRun(run, moves) && i <= k < |moves| && Above(run[i], c, tag) && KeepsItsRecord(run, moves, c, i, k)
    ensures Above(run[k], c, tag)
    decreases k
  {
    if i < k {
      StaysAbove(run, moves, c, i, k - 1, tag);
      assert KeepsAt(run, moves, c, k - 1) && KeepsAt(run, moves, c, k);
      OneStaysAbove(run, moves, c, k - 1, tag);
    }
  }

  lemma OneStaysAbove(run: seq<Machine>, moves: seq<Move>, c: Component, j: nat, tag: string)
    requires IsRun(run, moves) && j + 1 < |moves| && Above(run[j], c, tag)
    requires KeepsAt(run, moves, c, j) && HasRecord(run[j + 1], c)
    ensures Above(run[j + 1], c, tag)
  {
    RunsAreSafe(run, moves, j);
    PassesOk(run, moves, j);
    assert Follows(run, moves, j);
    if moves[j].WorkerStep? { StepStaysAbove(run[j], c, tag); } else { MoveStaysAbove(run[j], moves[j], c, tag); }
  }

  /** The status update of the apply at i lands at l: the same pass is still there, and the record becomes its tag. */
  predicate StatusLands(run: seq<Machine>, moves: seq<Move>, c: Component, i: nat, l: nat)
    requires |run| == |moves| + 1
  {
    i < l < |moves| && moves[l].WorkerStep? && run[i + 1].worker.Busy? && run[l].worker == run[i + 1].worker &&
    Record(run[l + 1].world, c) == run[i + 1].worker.copy.tag
  }

  lemma AppliedPc(m: Machine, c: Component)
    requires m.worker.Busy? && Applies(m, WorkerStep, c)
    ensures Step(m).worker == Busy(c, m.worker.copy, WritingStatus(Applied, m.worker.copy.tag))
  {
  }

  lemma StatusEnds(m: Machine)
    requires m.worker.Busy? && m.worker.pc.WritingStatus?
    ensures Step(m).worker.Idle?
  {
  }

  /**
   Of two writes of a component's values, the later one writes no older tag, if the status update of the
   first one lands, the component keeps a record from then on, and no pass in between stores an older tag that
   it has found in place. Crashes, users and upgrades may come anywhere, and other status updates may be lost.
   */
  lemma TagsDoNotGoBack(run: seq<Machine>, moves: seq<Move>, c: Component, i: nat, l: nat, k: nat)
    requires IsRun(run, moves) && i < l < k < |moves| && StatusLands(run, moves, c, i, l)
    requires Applies(run[i], moves[i], c) && Applies(run[k], moves[k], c) && KeepsItsRecord(run, moves, c, l + 1, k)
    ensures NotOlder(run[k].worker.copy.tag, run[i].worker.copy.tag)
  {
    LandedAbove(run, moves, c, i, l);
    StaysAbove(run, moves, c, l + 1, k, run[i].worker.copy.tag);
    LaterAbove(run, moves, c, k, run[i].worker.copy.tag);
  }

  lemma LaterAbove(run: seq<Machine>, moves: seq<Move>, c: Component, k: nat, tag: string)
    requires IsRun(run, moves) && k < |moves| && Applies(run[k], moves[k], c) && Above(run[k], c, tag)
    ensures NotOlder(run[k].worker.copy.tag, tag)
  {
    AppliesAreCleared(run, moves, k, c);
    ClearedAbove(run[k].worker.copy, tag);
  }

  lemma LandedAbove(run: seq<Machine>, moves: seq<Move>, c: Component, i: nat, l: nat)
    requires IsRun(run, moves) && i < l < |moves| && StatusLands(run, moves, c, i, l) && Applies(run[i], moves[i], c)
    ensures Above(run[l + 1], c, run[i].worker.copy.tag)
  {
    assert Follows(run, moves, i) && Follows(run, moves, l);
    AppliedPc(run[i], c);
    StatusEnds(run[l]);
    AppliesAreCleared(run, moves, i, c);
    NotOlderReflexive(run[i].worker.copy.tag);
  }

  lemma ClearedAbove(copy: ImagePatch, tag: string)
    requires NotBack(copy) && NotOlder(copy.appliedTag, tag)
    ensures NotOlder(copy.tag, tag)
  {
    EmptyDoesNotParse();
    NotOlderTransitive(copy.tag, copy.appliedTag, tag);
  }
}
