/**
 What users keep: whatever passes, crashes and upgrades do, the controller changes nothing in a HelmChartConfig
 but the keys that patches of its components write, and deleting an ImagePatch gives those back.
 */
module Preservation {
  import opened Text
  import opened Values
  import opened Comparison
  import opened Components
  import opened Patcher
  import opened Policy
  import opened Cluster
  import opened Protocol
  import opened Safety
  import opened Convergence
  import Layout

  // ---------- the keys of a component ----------

  /** Values with the leaves that patches of c write, whatever image they name. */
  ghost predicate KeysOf(c: Component, g: Tree) { NoEmptyMaps(g) && SameLeaves(g, RevertKeys(c)) }

  lemma GeneratedKeysOf(c: Component, repository: string, tag: string)
    ensures KeysOf(c, Generate(c, repository, tag))
  {
    GeneratedShape(c, repository, tag);
    forall p ensures LeafAt(Generate(c, repository, tag), p) <==> LeafAt(RevertKeys(c), p) {
      GeneratedLeaves(c, repository, tag, p);
      GeneratedLeaves(c, WithoutRegistry(Repository(c)), "revert", p);
    }
  }

  lemma OutsideKeysOf(out: Outside, c: Component, tag: string)
    ensures KeysOf(c, out.generated(c, tag)) && KeysOf(c, out.revertKeys(c))
  {
    assert out.generated(c, tag) == Generated(out.running(c), c, tag);
    assert out.revertKeys(c) == RevertKeys(c);
    GeneratedKeysOf(c, WithoutRegistry(match out.running(c) case Some(name) => name case None => Repository(c)), tag);
    GeneratedKeysOf(c, WithoutRegistry(Repository(c)), "revert");
  }

  /** The path is clear of everything that patches of c write. */
  ghost predicate Clear(c: Component, p: Path) { p != [] && !Touches(RevertKeys(c), p) }

  lemma MergeKeeps(e: Tree, c: Component, g: Tree, p: Path)
    requires KeysOf(c, g) && Clear(c, p)
    ensures EndAt(Merge(e, g), p) == EndAt(e, p)
  {
    SameTouch(g, RevertKeys(c), p);
    assert Related(p, p);
    MergeExact(e, g, p);
  }

  lemma SubtractKeeps(e: Tree, c: Component, g: Tree, p: Path)
    requires KeysOf(c, g) && Clear(c, p)
    ensures EndAt(Subtract(e, g), p) == EndAt(e, p)
  {
    SameTouch(g, RevertKeys(c), p);
    SubtractExact(e, g, p);
  }

  // ---------- one step ----------

  /** The generated values that a pass carries along. */
  function InHand(pc: Pc): Option<Tree> {
    match pc
    case CheckingStale(_, _, _, generated, _, _) => Some(generated)
    case CheckingTarget(_, _, _, generated) => Some(generated)
    case Applying(_, _, _, generated) => Some(generated)
    case _ => None
  }

  /** What a pass is about to write has the keys of its component. */
  ghost predicate WritesOwnKeys(worker: Worker) {
    worker.Busy? && InHand(worker.pc).Some? ==> KeysOf(worker.c, InHand(worker.pc).value)
  }

  /** Generated values come from the images read, and are handed on. */
  ghost predicate HandedOn(m: Machine, n: Machine)
    requires m.worker.Busy?
  {
    n.worker.Busy? && InHand(n.worker.pc).Some? ==>
      n.worker.c == m.worker.c &&
      (InHand(n.worker.pc) == InHand(m.worker.pc) ||
        InHand(n.worker.pc) == Some(m.world.out.generated(m.worker.c, m.worker.copy.tag)))
  }

  lemma StepHandsOn(m: Machine)
    requires m.worker.Busy?
    ensures HandedOn(m, Step(m))
  {
    var c, copy := m.worker.c, m.worker.copy;
    match m.worker.pc
    case AddingFinalizer => UpdateLeads(m, copy.(finalizer := true), CheckingPrime);
    case ClearingMarker(version, baseline, seen) =>
      UpdateLeads(m, copy.(marker := None), AfterMarker(copy, c, version, baseline, seen));
    case RecordingMarker(_, _, seen) =>
      UpdateLeads(m, copy.(marker := Some(copy.generation)), Reverting(RevertedAfterUpgrade, seen));
    case _ => if Reads(m.worker.pc) { ReadsHandOn(m); } else { LastStepsEmptyHanded(m); }
  }

  lemma ReadsHandOn(m: Machine)
    requires m.worker.Busy? && Reads(m.worker.pc)
    ensures HandedOn(m, Step(m))
  {
    if InHand(m.worker.pc).None? && !m.worker.pc.ReadingImages? { EarlyReadsEmptyHanded(m); }
  }

  lemma EarlyReadsEmptyHanded(m: Machine)
    requires m.worker.Busy? && Reads(m.worker.pc) && InHand(m.worker.pc).None? && !m.worker.pc.ReadingImages?
    ensures Step(m).worker.Busy? ==> InHand(Step(m).worker.pc).None?
  {
  }

  lemma LastStepsEmptyHanded(m: Machine)
    requires m.worker.Busy?
    requires m.worker.pc.Applying? || m.worker.pc.Reverting? || m.worker.pc.WritingStatus? ||
             m.worker.pc.FinalizeReverting? || m.worker.pc.RemovingFinalizer?
    ensures Step(m).worker.Busy? ==> InHand(Step(m).worker.pc).None?
  {
  }

  lemma StepWritesOwnKeys(m: Machine)
    requires m.worker.Busy? && WritesOwnKeys(m.worker)
    ensures WritesOwnKeys(Step(m).worker)
  {
    OutsideKeysOf(m.world.out, m.worker.c, m.worker.copy.tag);
    StepHandsOn(m);
  }

  lemma UpdateLeads(m: Machine, p: ImagePatch, next: Pc)
    requires m.worker.Busy?
    ensures var n := UpdatePatch(m, p, next); n.worker.Busy? ==> n.worker.c == m.worker.c && n.worker.pc == next
  {
  }

  /** The same object, but for values at paths that are not clear of c, and for marks. */
  ghost predicate Spared(before: Option<Config>, after: Option<Config>, c: Component) {
    (forall p | Clear(c, p) :: EndAt(ValuesOf(after), p) == EndAt(ValuesOf(before), p)) &&
    (before.Some? ==> after.Some? && after.value.rest == before.value.rest)
  }

  lemma PatchedSpares(seen: Option<Config>, c: Component, generated: Tree, version: Version)
    requires KeysOf(c, generated)
    ensures Spared(seen, Some(Patched(seen, c, generated, version)), c)
  {
    forall p | Clear(c, p) ensures EndAt(Merge(ValuesOf(seen), generated), p) == EndAt(ValuesOf(seen), p) {
      MergeKeeps(ValuesOf(seen), c, generated, p);
    }
  }

  lemma StrippedSpares(out: Outside, config: Config, c: Component)
    ensures Spared(Some(config), Some(Stripped(out, config, c)), c)
  {
    OutsideKeysOf(out, c, "");
    forall p | Clear(c, p) ensures EndAt(Subtract(config.values, out.revertKeys(c)), p) == EndAt(config.values, p) {
      SubtractKeeps(config.values, c, out.revertKeys(c), p);
    }
  }

  /** Only c's own HelmChartConfig may differ, and it is spared. */
  ghost predicate SparedIn(w: World, v: World, c: Component, d: Component) {
    if Chart(d) == Chart(c) then Spared(ConfigOf(w, d), ConfigOf(v, d), c) else ConfigOf(v, d) == ConfigOf(w, d)
  }

  lemma PutSpares(w: World, c: Component, config: Config, d: Component)
    requires Spared(ConfigOf(w, c), Some(config), c)
    ensures SparedIn(w, PutConfig(w, c, config), c, d)
  {
    var v := PutConfig(w, c, config);
    ConfigAfterPut(w, v, c, config, d);
    VersionSpares(ConfigOf(w, c), config, config.(rv := w.clock), c);
  }

  lemma ConfigAfterPut(w: World, v: World, c: Component, config: Config, d: Component)
    requires v == PutConfig(w, c, config)
    ensures ConfigOf(v, d) == if Chart(d) == Chart(c) then Some(config.(rv := w.clock)) else ConfigOf(w, d)
    ensures Chart(d) == Chart(c) ==> ConfigOf(w, d) == ConfigOf(w, c)
  {
  }

  /** What is spared does not include the resource version. */
  lemma VersionSpares(before: Option<Config>, config: Config, stored: Config, c: Component)
    requires Spared(before, Some(config), c) && stored == config.(rv := stored.rv)
    ensures Spared(before, Some(stored), c)
  {
    assert ValuesOf(Some(stored)) == ValuesOf(Some(config));
  }

  lemma NothingSpares(w: World, c: Component, d: Component)
    ensures SparedIn(w, w, c, d)
  {
  }

  /** A step of a pass for c leaves other HelmChartConfigs alone, and in c's own everything clear of c's keys. */
  lemma StepSpares(m: Machine, d: Component)
    requires m.worker.Busy? && Fresh(m) && WritesOwnKeys(m.worker)
    ensures SparedIn(m.world, Step(m).world, m.worker.c, d)
  {
    if m.worker.pc.Applying? {
      ApplySpares(m, d);
    } else if m.worker.pc.Reverting? || m.worker.pc.FinalizeReverting? {
      RevertSpares(m, d);
    } else {
      Layout.OtherStepsKeepConfigs(m);
    }
  }

  lemma ApplySpares(m: Machine, d: Component)
    requires m.worker.Busy? && Fresh(m) && m.worker.pc.Applying? && KeysOf(m.worker.c, m.worker.pc.generated)
    ensures SparedIn(m.world, Step(m).world, m.worker.c, d)
  {
    var Applying(version, _, seen, generated) := m.worker.pc;
    Layout.ApplyWrites(m);
    if CanWrite(m.world, m.worker.c, seen) {
      WriteSeesCurrent(m, seen);
      PatchedSpares(seen, m.worker.c, generated, version);
      PutSpares(m.world, m.worker.c, Patched(seen, m.worker.c, generated, version), d);
    } else {
      NothingSpares(m.world, m.worker.c, d);
    }
  }

  lemma RevertSpares(m: Machine, d: Component)
    requires m.worker.Busy? && Fresh(m) && (m.worker.pc.Reverting? || m.worker.pc.FinalizeReverting?)
    ensures SparedIn(m.world, Step(m).world, m.worker.c, d)
  {
    var seen := m.worker.pc.seen;
    if seen.Some? && CanWrite(m.world, m.worker.c, seen) {
      WriteSeesCurrent(m, seen);
      StrippedSpares(m.world.out, seen.value, m.worker.c);
      PutSpares(m.world, m.worker.c, Stripped(m.world.out, seen.value, m.worker.c), d);
    }
  }

  // ---------- whole runs ----------

  /** Nobody but the controller touches the HelmChartConfig of d's chart. */
  predicate HandsOff(move: Move, d: Component) {
    !(move.WriteConfig? && move.chart == Chart(d)) && !(move.DeleteConfig? && move.name == Chart(d))
  }

  /** The path is clear of everything that patches of the chart's components write. */
  ghost predicate UsersOwn(d: Component, p: Path) {
    forall c {:trigger Clear(c, p)} :: Chart(c) == Chart(d) ==> Clear(c, p)
  }

  lemma {:induction false} RunsWriteOwnKeys(run: seq<Machine>, moves: seq<Move>, k: nat)
    requires IsRun(run, moves) && k < |run|
    ensures WritesOwnKeys(run[k].worker)
    decreases k
  {
    if k > 0 {
      RunsWriteOwnKeys(run, moves, k - 1);
      assert Follows(run, moves, k - 1);
      if moves[k - 1].WorkerStep? { StepWritesOwnKeys(run[k - 1]); }
    }
  }

  lemma MoveSpares(m: Machine, move: Move, d: Component)
    requires CanMove(m, move) && !move.WorkerStep? && HandsOff(move, d)
    ensures ConfigOf(After(m, move).world, d) == ConfigOf(m.world, d)
  {
    if move.OnPatch? {
      MoveIsLocal(m.world, move.target, move.patchMove);
    }
  }

  lemma StepKeepsUsersOwn(m: Machine, move: Move, d: Component, p: Path)
    requires Inv(m) && WritesOwnKeys(m.worker) && CanMove(m, move) && HandsOff(move, d) && UsersOwn(d, p)
    ensures EndAt(ValuesOf(ConfigOf(After(m, move).world, d)), p) == EndAt(ValuesOf(ConfigOf(m.world, d)), p)
    ensures ConfigOf(m.world, d).Some? ==>
              ConfigOf(After(m, move).world, d).Some? &&
                ConfigOf(After(m, move).world, d).value.rest == ConfigOf(m.world, d).value.rest
  {
    if move.WorkerStep? {
      StepSpares(m, d);
      if Chart(d) == Chart(m.worker.c) { assert Clear(m.worker.c, p); }
    } else {
      MoveSpares(m, move, d);
    }
  }

  lemma MoveAt(run: seq<Machine>, moves: seq<Move>, j: nat, d: Component, p: Path)
    requires IsRun(run, moves) && j < |moves| && HandsOff(moves[j], d) && UsersOwn(d, p)
    ensures Survives(run, j, j + 1, d, p)
  {
    RunsAreSafe(run, moves, j);
    RunsWriteOwnKeys(run, moves, j);
    assert Follows(run, moves, j);
    StepKeepsUsersOwn(run[j], moves[j], d, p);
  }

  /** In two states of a run, d's HelmChartConfig holds the same at a path, and so does the rest of the object. */
  predicate Survives(run: seq<Machine>, i: nat, k: nat, d: Component, p: Path)
    requires i < |run| && k < |run|
  {
    var before, after := ConfigOf(run[i].world, d), ConfigOf(run[k].world, d);
    EndAt(ValuesOf(after), p) == EndAt(ValuesOf(before), p) &&
    (before.Some? ==> after.Some? && after.value.rest == before.value.rest)
  }

  /**
   User values are conserved: while nobody else writes a HelmChartConfig, every value on it that no patch of
   its chart's components writes stays what it is, over any run, and so does the rest of the object.
   */
  lemma {:induction false} UserValuesSurvive(run: seq<Machine>, moves: seq<Move>, i: nat, k: nat, d: Component, p: Path)
    requires IsRun(run, moves) && i <= k < |run| && UsersOwn(d, p)
    requires forall j | i <= j < k :: HandsOff(moves[j], d)
    ensures Survives(run, i, k, d, p)
    decreases k
  {
    if i < k {
      UserValuesSurvive(run, moves, i, k - 1, d, p);
      MoveAt(run, moves, k - 1, d, p);
    }
  }

  // ---------- giving back ----------

  /**
   Applying a patch, deleting its ImagePatch and finalizing it leaves the original values without the keys
   the patch wrote: exactly the original when the user had nothing on the way to those keys.
   */
  lemma DeletionGivesBack(w: World, v: World, u: World, x: World, c: Component)
    requires Live(w, c) && Decide(w, c, w.patches[c]).Apply? && v == AfterPass(w, c)
    requires u == MovePatch(v, c, Delete) && c in u.patches && u.patches[c].finalizer && x == AfterPass(u, c)
    ensures c !in x.patches && Managed(x, c) == "" && ConfigOf(x, c).Some?
    ensures ConfigOf(x, c).value.values == Subtract(ValuesOf(ConfigOf(w, c)), RevertKeys(c))
    ensures ConfigOf(x, c).value.values == ValuesOf(ConfigOf(w, c)) <==>
            forall p | p != [] && EndAt(ValuesOf(ConfigOf(w, c)), p).Some? :: !Touches(RevertKeys(c), p)
  {
    var e, g := ValuesOf(ConfigOf(w, c)), w.out.generated(c, w.patches[c].tag);
    AppliedValues(w, c, Decide(w, c, w.patches[c]));
    DeletedValues(v, u, x, c);
    OutsideKeysOf(w.out, c, w.patches[c].tag);
    RevertAfterPatch(e, g, w.out.revertKeys(c));
    assert w.out.revertKeys(c) == RevertKeys(c);
    GeneratedKeysOf(c, WithoutRegistry(Repository(c)), "revert");
    RevertRestores(e, RevertKeys(c));
  }

  /**
   Drift: when values that a patch has set are gone or changed, a pass puts them back exactly when no other
   component is stale and the target still passes the rules for a new one; otherwise they stay as they are.
   */
  lemma DriftIsCorrected(w: World, v: World, c: Component, baseline: string, generated: Tree)
    requires Live(w, c) && Gate(w, c) == Open(baseline) && !HasMarker(w.patches[c]) && Managed(w, c) == w.version
    requires w.patches[c].tag != baseline && generated == w.out.generated(c, w.patches[c].tag)
    requires !Present(ValuesOf(ConfigOf(w, c)), generated) && v == AfterPass(w, c)
    ensures Managed(v, c) == w.version
    ensures Present(ValuesOf(ConfigOf(v, c)), generated) <==>
            !StaleOther(w, c) && w.out.check(c, baseline, w.patches[c].appliedTag, w.patches[c].tag) == Allowed
    ensures !Present(ValuesOf(ConfigOf(v, c)), generated) ==> v.configs == w.configs
  {
    var p := w.patches[c];
    DriftDecision(w, c, p, baseline, generated, w.out.recheck(baseline, p.tag),
      w.out.check(c, baseline, p.appliedTag, p.tag));
    DriftOutcome(w, v, c, generated, Decide(w, c, p));
  }

  lemma DriftDecision(w: World, c: Component, p: ImagePatch, baseline: string, generated: Tree, recheck: Verdict,
      check: Verdict)
    requires Gate(w, c) == Open(baseline) && !HasMarker(p) && Managed(w, c) == w.version && p.tag != baseline
    requires generated == w.out.generated(c, p.tag) && recheck == w.out.recheck(baseline, p.tag)
    requires check == w.out.check(c, baseline, p.appliedTag, p.tag) && !Present(ValuesOf(ConfigOf(w, c)), generated)
    ensures var d := Decide(w, c, p);
            if !StaleOther(w, c) && check == Allowed then d == Apply(generated) else d.Leave?
  {
    assert Decide(w, c, p) ==
           DecidePatch(c, ConfigOf(w, c), StaleOther(w, c), p.tag, p.appliedTag, generated, recheck, check);
  }

  lemma DriftOutcome(w: World, v: World, c: Component, generated: Tree, d: Decision)
    requires Live(w, c) && d == Decide(w, c, w.patches[c]) && v == AfterPass(w, c) && Managed(w, c) == w.version
    requires d.Leave? || d == Apply(generated)
    ensures Managed(v, c) == w.version
    ensures d.Apply? ==> Present(ValuesOf(ConfigOf(v, c)), generated)
    ensures d.Leave? ==> v.configs == w.configs && ConfigOf(v, c) == ConfigOf(w, c)
  {
    LivePass(w, c, d);
    if d.Leave? {
      SameMarks(w, v);
    } else {
      MergeMakesPresent(ValuesOf(ConfigOf(w, c)), generated);
    }
  }

  lemma AppliedValues(w: World, c: Component, d: Decision)
    requires Live(w, c) && d == Decide(w, c, w.patches[c]) && d.Apply?
    ensures var v := AfterPass(w, c);
            v.out == w.out && Managed(v, c) == w.version &&
            Holds(v, c, Merge(ValuesOf(ConfigOf(w, c)), w.out.generated(c, w.patches[c].tag)))
  {
    LivePass(w, c, d);
    AppliesGenerated(w, c, w.patches[c], d);
  }

  lemma DeletedValues(v: World, u: World, x: World, c: Component)
    requires Managed(v, c) != "" && u == MovePatch(v, c, Delete) && c in u.patches && u.patches[c].finalizer &&
             x == AfterPass(u, c)
    ensures c !in x.patches && Managed(x, c) == "" && ConfigOf(x, c).Some?
    ensures ConfigOf(x, c).value.values == Subtract(ValuesOf(ConfigOf(v, c)), v.out.revertKeys(c))
  {
    DeleteMarks(v, u, c);
    SameMarks(v, u);
    FinalizedValues(u, x, c);
  }

  lemma DeleteMarks(v: World, u: World, c: Component)
    requires u == MovePatch(v, c, Delete) && c in u.patches && u.patches[c].finalizer
    ensures u.configs == v.configs && u.out == v.out && u.patches[c].deleting
  {
  }

  lemma FinalizedValues(u: World, x: World, c: Component)
    requires c in u.patches && u.patches[c].deleting && u.patches[c].finalizer && Managed(u, c) != "" &&
             x == AfterPass(u, c)
    ensures c !in x.patches && Managed(x, c) == "" && ConfigOf(x, c).Some?
    ensures ConfigOf(x, c).value.values == Subtract(ValuesOf(ConfigOf(u, c)), u.out.revertKeys(c))
  {
    var y := PutConfig(u, c, Stripped(u.out, ConfigOf(u, c).value, c));
    StrippedAndGone(u, c, y);
    assert x == DropPatch(y, c);
  }
}
