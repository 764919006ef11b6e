/**
 An upgrade between a pass's reading of the version and of the chart: the pass checks the new chart, and
 marks its values with the old version. So two components can come to own the same leaves.
 */
module Races {
  import opened Text
  import opened Values
  import opened Comparison
  import opened Components
  import opened Patcher
  import opened Policy
  import opened Cluster
  import opened Protocol
  import opened Safety
  import opened Layout
  import opened Pass
  import opened Convergence
  import opened Rewrites
  import opened History
  import opened Scenes

  // ---------- a pass from its chart on ----------

  /** The pass for c has read this version, and c is new to the controller. */
  ghost predicate Entering(m: Machine, c: Component, version: Version, pc: Pc) {
    m.worker.Busy? && m.worker.c == c && m.worker.pc == pc && c in m.world.patches &&
      m.world.patches[c] == m.worker.copy &&
    m.worker.copy.marker.None? && Managed(m.world, c) == "" && OthersOn(m.world, c, version)
  }

  /** What the pass finds from its chart on lets it apply. */
  ghost predicate WayIsFree(w: World, c: Component, p: ImagePatch, base: string, generated: Tree) {
    w.out.bundled(c) == Some(base) && p.tag != base && generated == w.out.generated(c, p.tag) &&
    w.out.check(c, base, p.appliedTag, p.tag) == Allowed && !HasConflict(ValuesOf(ConfigOf(w, c)), generated)
  }

  lemma ReadsOn(m: Machine, c: Component, version: Version, base: string, generated: Tree)
    requires Entering(m, c, version, ReadingChart(version)) && WayIsFree(m.world, c, m.worker.copy, base, generated)
    ensures RunPass(m) ==
            RunPass(Go(m, CheckingStale(version, base, ConfigOf(m.world, c), generated, Others(c), false)))
  {
    var next := Go(m, ReadingImages(version, base, ConfigOf(m.world, c)));
    ReadsConfig(m, c, version, base);
    ReadsImages(next, c, version, base, generated, m.world.out.recheck(base, m.worker.copy.tag));
  }

  lemma ReadsConfig(m: Machine, c: Component, version: Version, base: string)
    requires Entering(m, c, version, ReadingChart(version)) && m.world.out.bundled(c) == Some(base)
    ensures RunPass(m) == RunPass(Go(m, ReadingImages(version, base, ConfigOf(m.world, c))))
  {
    assert Step(m) == Go(m, ReadingConfig(version, base));
    assert Step(Step(m)) == Go(m, ReadingImages(version, base, ConfigOf(m.world, c)));
  }

  lemma ReadsImages(m: Machine, c: Component, version: Version, base: string, generated: Tree, recheck: Verdict)
    requires m.worker.Busy? && m.worker.c == c && m.worker.pc == ReadingImages(version, base, ConfigOf(m.world, c))
    requires Managed(m.world, c) == "" && m.worker.copy.tag != base
    requires generated == m.world.out.generated(c, m.worker.copy.tag) &&
             recheck == m.world.out.recheck(base, m.worker.copy.tag)
    ensures RunPass(m) ==
            RunPass(Go(m, CheckingStale(version, base, ConfigOf(m.world, c), generated, Others(c), false)))
  {
    var seen := ConfigOf(m.world, c);
    assert Step(m) == Go(m, AfterImages(m.worker.copy, c, version, base, seen, generated, recheck));
    NotYetPresent(m.worker.copy, c, version, base, seen, generated, recheck);
  }

  lemma NotYetPresent(copy: ImagePatch, c: Component, version: Version, base: string, seen: Option<Config>,
      generated: Tree, recheck: Verdict)
    requires ManagedOn(seen, c) == "" && copy.tag != base
    ensures AfterImages(copy, c, version, base, seen, generated, recheck) ==
            CheckingStale(version, base, seen, generated, Others(c), false)
  {
  }

  lemma {:induction false} FindsNoneStale(
      m: Machine, c: Component, version: Version, base: string, seen: Option<Config>, generated: Tree,
      todo: seq<Component>)
    requires m.worker.Busy? && forall d | d in todo :: Managed(m.world, d) == "" || Managed(m.world, d) == version
    ensures RunPass(Go(m, CheckingStale(version, base, seen, generated, todo, false))) ==
            RunPass(Go(m, CheckingTarget(version, base, seen, generated)))
    decreases |todo|
  {
    var a := Go(m, CheckingStale(version, base, seen, generated, todo, false));
    if todo == [] {
      assert Step(a) == Go(m, CheckingTarget(version, base, seen, generated));
    } else {
      assert todo[0] in todo;
      assert Step(a) == Go(m, CheckingStale(version, base, seen, generated, todo[1..], false));
      FindsNoneStale(m, c, version, base, seen, generated, todo[1..]);
    }
  }

  lemma AppliesNow(m: Machine, c: Component, version: Version, base: string, generated: Tree, n: Machine)
    requires Entering(m, c, version, ReadingChart(version)) && WayIsFree(m.world, c, m.worker.copy, base, generated)
    requires n == Go(m, CheckingTarget(version, base, ConfigOf(m.world, c), generated))
    ensures RunPass(n).world == Marked(m.world, c, generated, version)
  {
    var seen, copy := ConfigOf(m.world, c), m.worker.copy;
    var a := Step(n);
    assert a == Go(m, Applying(version, base, seen, generated));
    var v := PutConfig(m.world, c, Patched(seen, c, generated, version));
    var b := Step(a);
    assert b == Go(m.(world := v), WritingStatus(Applied, copy.tag));
    assert b == Machine(v, Busy(c, v.patches[c], WritingStatus(Applied, copy.tag)));
    FinishStatus(v, c, Applied, copy.tag);
  }

  /** The values generated for c are applied and marked with a version, and its tag is recorded. */
  function Marked(w: World, c: Component, generated: Tree, version: Version): World
    requires c in w.patches
  {
    RecordTag(PutConfig(w, c, Patched(ConfigOf(w, c), c, generated, version)), c, w.patches[c].tag)
  }

  lemma MarkedMarks(w: World, c: Component, generated: Tree, version: Version)
    requires c in w.patches
    ensures MarkSet(w, Marked(w, c, generated, version), c, version)
  {
    ApplyMarks(w, c, ConfigOf(w, c), generated, version);
    SameConfigsSameMarks(PutConfig(w, c, Patched(ConfigOf(w, c), c, generated, version)),
      Marked(w, c, generated, version));
  }

  /** Whatever the version of the cluster is by now, the pass marks its component with the one it has read. */
  lemma MarksWithOldVersion(m: Machine, c: Component, version: Version, base: string, generated: Tree)
    requires Entering(m, c, version, ReadingChart(version)) && WayIsFree(m.world, c, m.worker.copy, base, generated)
    ensures RunPass(m).world == Marked(m.world, c, generated, version) && MarkSet(m.world, RunPass(m).world, c, version)
  {
    MarkedMarks(m.world, c, generated, version);
    ReadsOn(m, c, version, base, generated);
    OthersIs(c);
    FindsNoneStale(m, c, version, base, ConfigOf(m.world, c), generated, Others(c));
    AppliesNow(m, c, version, base, generated, Go(m, CheckingTarget(version, base, ConfigOf(m.world, c), generated)));
  }

  // ---------- up to the chart ----------

  lemma ReachChart(ok: Machine -> bool, w: World, c: Component, m: Machine)
    requires Reached(ok, Machine(w, Idle)) && Surrounding(ok) && ok(Machine(w, Idle))
    requires c in w.patches && !w.patches[c].finalizer && !w.patches[c].deleting && w.out.prime(Chart(c)) &&
             w.cli == map[]
    requires var v := AddFinalizer(w, c); m == Machine(v, Busy(c, v.patches[c], ReadingChart(w.version)))
    ensures Reached(ok, m)
  {
    var v, p := AddFinalizer(w, c), w.patches[c];
    var m0 := Machine(w, Busy(c, p, Fetched));
    assert SameSurroundings(Machine(w, Idle), m0);
    ReachMove(ok, Machine(w, Idle), StartPass(c), m0);
    ReachStep(ok, m0, Go(m0, AddingFinalizer));
    var m1 := Machine(v, Busy(c, v.patches[c], CheckingPrime));
    ReachStep(ok, Go(m0, AddingFinalizer), m1);
    ReachStep(ok, m1, Go(m1, CheckingCli));
    ReachStep(ok, Go(m1, CheckingCli), Go(m1, ReadingVersion));
    ReachStep(ok, Go(m1, ReadingVersion), m);
  }

  // ---------- the two charts ----------

  const OLD: Version := "v1"
  const NEW: Version := "v2"

  /** The old version's charts are laid out for rke2-coredns, those of the new one for rke2-dns-node-cache. */
  function LayoutOf(base: string, version: string, chart: string): Tree {
    var c := if version == OLD then CoreDNS else DnsNodeCache;
    Generate(c, Repository(c), base)
  }

  function Layouts(base: string): (string, string) -> Tree { (version, chart) => LayoutOf(base, version, chart) }

  ghost function OutOf(base: string, version: string, tags: seq<string>): Outside {
    Surroundings(_ => true, chart => LayoutOf(base, version, chart), tags)
  }

  lemma FitsItsVersion(base: string, tags: seq<string>, version: string, c: Component, out: Outside)
    requires Proper(base) && out == OutOf(base, version, tags) && c == if version == OLD then CoreDNS else DnsNodeCache
    ensures Ready(out, c, base)
  {
    var chart := Generate(c, Repository(c), base);
    OwnChartFits(c, base, chart);
    ChartIs(base, tags, version, c, out, chart);
    BundledBy(out, c, chart, Some(base));
  }

  lemma ChartIs(base: string, tags: seq<string>, version: string, c: Component, out: Outside, chart: Tree)
    requires out == OutOf(base, version, tags) && c == if version == OLD then CoreDNS else DnsNodeCache
    requires chart == Generate(c, Repository(c), base)
    ensures out.charts(Chart(c)) == chart && out.prime(Chart(c))
  {
    assert out.charts(Chart(c)) == LayoutOf(base, version, Chart(c));
  }

  lemma IsChecked(base: string, tag: string, tags: seq<string>, version: string, c: Component, out: Outside)
    requires AboveBaseline(base, tag) && tag in tags && out == OutOf(base, version, tags)
    requires ValidatePatchWindow(c, tag, ZERO_DAY) == Allowed
    ensures out.check(c, base, "", tag) == Allowed
  {
    ChecksPass(c, tags, base, "", tag);
    assert out.tags(c) == tags && out.zeroDay == ZERO_DAY;
  }

  // ---------- the run ----------

  /** rke2-coredns is patched, a user clears its values, and an ImagePatch for rke2-dns-node-cache is created. */
  ghost predicate Before(out: Outside, tag: string, r1: World, r2: World, r3: World, r4: World) {
    r1 == MovePatch(Start(out), CoreDNS, Create(tag, Manual)) && r2 == AfterPass(r1, CoreDNS) &&
      ConfigOf(r2, CoreDNS).Some? &&
    r3 == Rewrite(r2, CoreDNS, Empty) &&
      r4 == MovePatch(r3, DnsNodeCache, Create(tag, Manual))
  }

  lemma BeforeUpgrade(out: Outside, base: string, tag: string, r1: World, r2: World, r3: World, r4: World)
    requires Ready(out, CoreDNS, base) && out.check(CoreDNS, base, "", tag) == Allowed && tag != base
    requires r1 == MovePatch(Start(out), CoreDNS, Create(tag, Manual)) && r2 == AfterPass(r1, CoreDNS)
    requires ConfigOf(r2, CoreDNS).Some? ==> r3 == Rewrite(r2, CoreDNS, Empty)
    requires r4 == MovePatch(r3, DnsNodeCache, Create(tag, Manual))
    ensures Before(out, tag, r1, r2, r3, r4) && DnsNodeCache !in r3.patches
    ensures Stands(r1, CoreDNS, out, tag, Manual, "", "", Empty)
    ensures Stands(r2, CoreDNS, out, tag, Manual, tag, OLD, ValuesOf(ConfigOf(r2, CoreDNS)))
    ensures CanMove(Machine(r2, Idle), UserValues(r2, CoreDNS, Empty))
    ensures After(Machine(r2, Idle), UserValues(r2, CoreDNS, Empty)).world == r3
    ensures Stands(r3, CoreDNS, out, tag, Manual, tag, OLD, Empty)
  {
    var generated := out.generated(CoreDNS, tag);
    StartStands(out, CoreDNS, tag, Manual);
    NothingConflicts(generated);
    PassWrites(r1, CoreDNS, out, base, tag, Manual, "", "", Empty);
    UserRewrites(r2, CoreDNS, out, tag, Manual, tag, Merge(Empty, generated), Empty);
    NotYetCreated(out, tag, r1, r2);
  }

  lemma NotYetCreated(out: Outside, tag: string, r1: World, r2: World)
    requires r1 == MovePatch(Start(out), CoreDNS, Create(tag, Manual)) && r2 == AfterPass(r1, CoreDNS)
    ensures DnsNodeCache !in r2.patches
  {
    PassEffect(r1, CoreDNS);
  }

  ghost function ChartsAre(base: string): Machine -> bool { (m: Machine) => ChartsFixed(Layouts(base), m.world) }

  lemma ChartsSurround(base: string)
    ensures Surrounding(ChartsAre(base))
  {
  }

  lemma ChartsOf(base: string, m: Machine, version: string, tags: seq<string>)
    requires m.world.out == OutOf(base, version, tags) && m.world.version == version
    ensures ChartsAre(base)(m)
  {
    forall chart ensures m.world.out.charts(chart) == Layouts(base)(version, chart) {
      assert m.world.out.charts(chart) == LayoutOf(base, version, chart);
    }
  }

  /** The pass for rke2-dns-node-cache has read the old version, and the upgrade comes. */
  ghost predicate Upgraded(r4: World, out: Outside, m: Machine) {
    DnsNodeCache in r4.patches &&
    var v := AddFinalizer(r4, DnsNodeCache);
    m == Machine(v.(version := NEW, out := out, cli := map[]),
      Busy(DnsNodeCache, v.patches[DnsNodeCache], ReadingChart(OLD)))
  }

  lemma ReachUpgraded(
      base: string, tag: string, tags: seq<string>, before: Outside, after: Outside, r1: World, r2: World, r3: World,
      r4: World, m: Machine)
    requires before == OutOf(base, OLD, tags) && after == OutOf(base, NEW, tags)
    requires Before(before, tag, r1, r2, r3, r4) && Stands(r3, CoreDNS, before, tag, Manual, tag, OLD, Empty)
    requires Stands(r1, CoreDNS, before, tag, Manual, "", "", Empty) &&
             Stands(r2, CoreDNS, before, tag, Manual, tag, OLD, ValuesOf(ConfigOf(r2, CoreDNS)))
    requires CanMove(Machine(r2, Idle), UserValues(r2, CoreDNS, Empty)) && DnsNodeCache !in r3.patches
    requires After(Machine(r2, Idle), UserValues(r2, CoreDNS, Empty)).world == r3
    requires Upgraded(r4, after, m) && before.prime(Chart(DnsNodeCache))
    ensures Reached(ChartsAre(base), RunPass(m))
  {
    var ok := ChartsAre(base);
    ChartsSurround(base);
    StartStands(before, CoreDNS, tag, Manual);
    ChartsOf(base, Machine(Start(before), Idle), OLD, tags);
    ReachInitial(ok, Machine(Start(before), Idle));
    ChartsOf(base, Machine(r1, Idle), OLD, tags);
    ReachUser(ok, Start(before), OnPatch(CoreDNS, Create(tag, Manual)), r1);
    ReachPass(ok, r1, CoreDNS);
    ChartsOf(base, Machine(r3, Idle), OLD, tags);
    ReachUser(ok, r2, UserValues(r2, CoreDNS, Empty), r3);
    ChartsOf(base, Machine(r4, Idle), OLD, tags);
    ReachUser(ok, r3, OnPatch(DnsNodeCache, Create(tag, Manual)), r4);
    ReachRest(ok, base, tags, r4, after, m);
  }

  lemma ReachRest(ok: Machine -> bool, base: string, tags: seq<string>, r4: World, out: Outside, m: Machine)
    requires ok == ChartsAre(base) && Surrounding(ok) && ok(Machine(r4, Idle)) && Reached(ok, Machine(r4, Idle))
    requires out == OutOf(base, NEW, tags) && Upgraded(r4, out, m) && r4.version == OLD && r4.cli == map[]
    requires !r4.patches[DnsNodeCache].finalizer && !r4.patches[DnsNodeCache].deleting &&
             r4.out.prime(Chart(DnsNodeCache))
    ensures Reached(ok, RunPass(m))
  {
    var v := AddFinalizer(r4, DnsNodeCache);
    var n := Machine(v, Busy(DnsNodeCache, v.patches[DnsNodeCache], ReadingChart(OLD)));
    ReachChart(ok, r4, DnsNodeCache, n);
    ChartsOf(base, m, NEW, tags);
    ReachMove(ok, n, Around(NEW, out, map[]), m);
    ReachEnd(ok, m);
  }

  lemma BothMarked(base: string, tag: string, before: Outside, after: Outside, r3: World, r4: World, m: Machine)
    requires Stands(r3, CoreDNS, before, tag, Manual, tag, OLD, Empty) && DnsNodeCache !in r3.patches
    requires r4 == MovePatch(r3, DnsNodeCache, Create(tag, Manual)) && Upgraded(r4, after, m)
    requires after.bundled(DnsNodeCache) == Some(base) && after.check(DnsNodeCache, base, "", tag) == Allowed &&
             tag != base
    ensures Overlapped(RunPass(m).world, tag, after.generated(DnsNodeCache, tag))
  {
    var generated := after.generated(DnsNodeCache, tag);
    SameConfigsSameMarks(r3, m.world);
    assert ConfigOf(m.world, DnsNodeCache) == ConfigOf(r3, CoreDNS);
    NothingConflicts(generated);
    MarksWithOldVersion(m, DnsNodeCache, OLD, base, generated);
    OverlapValues(m.world, generated);
  }

  lemma OverlapValues(w: World, generated: Tree)
    requires DnsNodeCache in w.patches && ConfigOf(w, CoreDNS).Some? && ConfigOf(w, CoreDNS).value.values == Empty
    ensures ValuesOf(ConfigOf(Marked(w, DnsNodeCache, generated, OLD), CoreDNS)) == Merge(Empty, generated)
  {
  }

  /** Both components are managed on the old version, and the values are those of rke2-dns-node-cache. */
  ghost predicate Overlapped(w: World, tag: string, generated: Tree) {
    Live(w, CoreDNS) && Spec(w.patches[CoreDNS], tag, Manual, tag) && Live(w, DnsNodeCache) &&
      w.patches[DnsNodeCache].finalizer &&
    Managed(w, CoreDNS) == OLD && Managed(w, DnsNodeCache) == OLD && w.cli == map[] &&
    (forall d | d !in {CoreDNS, DnsNodeCache} :: Managed(w, d) == "") &&
      ValuesOf(ConfigOf(w, CoreDNS)) == Merge(Empty, generated)
  }

  /** The two charts accept the tag of the two components. */
  ghost predicate Setting(base: string, tag: string, before: Outside, after: Outside) {
    tag != base && (exists tags :: before == OutOf(base, OLD, tags) && after == OutOf(base, NEW, tags)) &&
    Ready(before, CoreDNS, base) && before.check(CoreDNS, base, "", tag) == Allowed &&
    Ready(after, DnsNodeCache, base) && after.check(DnsNodeCache, base, "", tag) == Allowed
  }

  lemma TwoCharts() returns (base: string, tag: string, before: Outside, after: Outside)
    ensures Setting(base, tag, before, after)
  {
    base, tag := TagOf(20250101), TagOf(20250102);
    var tags := [base, tag];
    before, after := OutOf(base, OLD, tags), OutOf(base, NEW, tags);
    assert tag == tags[1];
    AcceptsItsOwn(base, tag, tags, OLD, CoreDNS, before);
    AcceptsItsOwn(base, tag, tags, NEW, DnsNodeCache, after);
    IsSetting(base, tag, tags, before, after);
  }

  lemma IsSetting(base: string, tag: string, tags: seq<string>, before: Outside, after: Outside)
    requires tag != base && before == OutOf(base, OLD, tags) && after == OutOf(base, NEW, tags)
    requires Ready(before, CoreDNS, base) && before.check(CoreDNS, base, "", tag) == Allowed
    requires Ready(after, DnsNodeCache, base) && after.check(DnsNodeCache, base, "", tag) == Allowed
    ensures Setting(base, tag, before, after)
  {
  }

  lemma AcceptsItsOwn(base: string, tag: string, tags: seq<string>, version: string, c: Component, out: Outside)
    requires base == TagOf(20250101) && tag == TagOf(20250102) && tag in tags && out == OutOf(base, version, tags)
    requires c == if version == OLD then CoreDNS else DnsNodeCache
    ensures tag != base && Ready(out, c, base) && out.check(c, base, "", tag) == Allowed
  {
    TagsOrdered(20250101, 20250102, base, tag);
    FitsItsVersion(base, tags, version, c, out);
    ZeroDayTag(c, tag);
    IsChecked(base, tag, tags, version, c, out);
  }

  /** Nothing happens on the way here but passes, one edit of values, and one upgrade. */
  lemma Overlap(base: string, tag: string, before: Outside, after: Outside) returns (end: Machine)
    requires Setting(base, tag, before, after)
    ensures Reached(ChartsAre(base), end) && end.worker.Idle? &&
            Overlapped(end.world, tag, after.generated(DnsNodeCache, tag))
  {
    var tags :| before == OutOf(base, OLD, tags) && after == OutOf(base, NEW, tags);
    var r1 := MovePatch(Start(before), CoreDNS, Create(tag, Manual));
    var r2 := AfterPass(r1, CoreDNS);
    var r3 := if ConfigOf(r2, CoreDNS).Some? then Rewrite(r2, CoreDNS, Empty) else r2;
    var r4 := MovePatch(r3, DnsNodeCache, Create(tag, Manual));
    BeforeUpgrade(before, base, tag, r1, r2, r3, r4);
    var v := AddFinalizer(r4, DnsNodeCache);
    var m := Machine(v.(version := NEW, out := after, cli := map[]),
                     Busy(DnsNodeCache, v.patches[DnsNodeCache], ReadingChart(OLD)));
    ReachUpgraded(base, tag, tags, before, after, r1, r2, r3, r4, m);
    BothMarked(base, tag, before, after, r3, r4, m);
    end := RunPass(m);
  }

  /**
   So disjoint ownership fails when an upgrade comes between a pass's reading of the version and of the chart,
   although every version keeps its charts: in this run two managed components own the same leaves.
   */
  lemma OwnershipCanOverlap() returns (bundle: (string, string) -> Tree, run: seq<Machine>, moves: seq<Move>)
    ensures IsRun(run, moves) && forall i | 0 <= i < |run| :: ChartsFixed(bundle, run[i].world)
    ensures var w := run[|moves|].world; Managed(w, CoreDNS) != "" && Managed(w, DnsNodeCache) != ""
    ensures forall r, s, t, u :: !Apart(Generate(CoreDNS, r, t), Generate(DnsNodeCache, s, u))
    ensures exists i :: 0 <= i < |moves| && Races(run[i], moves[i])
  {
    var base, tag, before, after := TwoCharts();
    var m := Overlap(base, tag, before, after);
    bundle := Layouts(base);
    run, moves :| RunTo(ChartsAre(base), run, moves, m);
    forall i | 0 <= i < |run| ensures ChartsFixed(bundle, run[i].world) {
      assert ChartsAre(base)(run[i]);
    }
    forall r, s, t, u ensures !Apart(Generate(CoreDNS, r, t), Generate(DnsNodeCache, s, u)) {
      OverlapAtImage(r, s, t, u);
    }
    if forall i | 0 <= i < |moves| :: !Races(run[i], moves[i]) {
      DisjointOwnership(bundle, run, moves, |moves|, CoreDNS, DnsNodeCache, "", "", "", "");
    }
  }

  // ---------- two writes for one ImagePatch ----------

  /** The old version is back, and a user deletes the ImagePatch of rke2-dns-node-cache. */
  ghost function Deleted(w: World, out: Outside): World {
    MovePatch(w.(version := OLD, out := out, cli := map[]), DnsNodeCache, Delete)
  }

  lemma ReachDeleted(base: string, tags: seq<string>, m: Machine, out: Outside)
    requires Reached(ChartsAre(base), m) && m.worker.Idle? && out == OutOf(base, OLD, tags)
    ensures Reached(ChartsAre(base), Machine(Deleted(m.world, out), Idle))
  {
    var ok, back, w := ChartsAre(base), m.world.(version := OLD, out := out, cli := map[]), Deleted(m.world, out);
    assert m == Machine(m.world, Idle);
    ChartsOf(base, Machine(back, Idle), OLD, tags);
    ReachUser(ok, m.world, Around(OLD, out, map[]), back);
    MoveKeepsSurroundings(back, DnsNodeCache, Delete);
    ChartsOf(base, Machine(w, Idle), OLD, tags);
    ReachUser(ok, back, OnPatch(DnsNodeCache, Delete), w);
  }

  lemma MoveKeepsSurroundings(w: World, c: Component, move: PatchMove)
    ensures MovePatch(w, c, move).out == w.out && MovePatch(w, c, move).version == w.version
  {
  }

  /** The values of rke2-dns-node-cache name another image than those of rke2-coredns. */
  lemma OtherImage(out: Outside, tag: string, generated: Tree, r: string)
    requires out.running(CoreDNS) == None && generated == Generate(DnsNodeCache, r, tag)
    requires r == WithoutRegistry(Repository(DnsNodeCache))
    ensures !Present(Merge(Empty, generated), out.generated(CoreDNS, tag))
  {
    var own, p := WithoutRegistry(Repository(CoreDNS)), ["image", "repository"];
    assert out.generated(CoreDNS, tag) == Generated(out.running(CoreDNS), CoreDNS, tag);
    assert p == ["image"] + ["repository"] && ["image"] in ImagePaths(CoreDNS) && ["image"] in ImagePaths(DnsNodeCache);
    LeavesOfImage(CoreDNS, own, tag, ["image"]);
    LeavesOfImage(DnsNodeCache, r, tag, ["image"]);
    DifferentRepositories(Repository(CoreDNS), Repository(DnsNodeCache));
    AtMerge(Empty, generated, p);
    assert Clash(At(Merge(Empty, generated), p).value, At(out.generated(CoreDNS, tag), p).value);
  }

  lemma DeletedState(w: World, z: World, tag: string, generated: Tree, out: Outside)
    requires Overlapped(w, tag, generated) && z == Deleted(w, out)
    ensures Live(z, CoreDNS) && Spec(z.patches[CoreDNS], tag, Manual, tag) && z.cli == map[] && z.out == out &&
            z.version == OLD
    ensures Managed(z, CoreDNS) == OLD && ValuesOf(ConfigOf(z, CoreDNS)) == Merge(Empty, generated)
    ensures Undermines(z, DnsNodeCache, CoreDNS) && !StaleOther(z, CoreDNS)
  {
    SameConfigsSameMarks(w, z);
  }

  lemma IsFought(z: World, base: string, tag: string, out: Outside, generated: Tree)
    requires Live(z, CoreDNS) && Spec(z.patches[CoreDNS], tag, Manual, tag) && z.cli == map[] && z.out == out &&
             z.version == OLD
    requires Managed(z, CoreDNS) == OLD && Undermines(z, DnsNodeCache, CoreDNS) && !StaleOther(z, CoreDNS) &&
             tag != base
    requires Ready(out, CoreDNS, base) && out.check(CoreDNS, base, "", tag) == Allowed
    requires generated == out.generated(CoreDNS, tag) && !Present(ValuesOf(ConfigOf(z, CoreDNS)), generated)
    ensures Decide(z, CoreDNS, z.patches[CoreDNS]) == Apply(generated) && Fought(z, CoreDNS)
  {
    CheckedAgain(out, CoreDNS, base, "", tag);
    AppliesAgain(z, CoreDNS, z.patches[CoreDNS], base, generated);
  }

  /**
   So one ImagePatch can cause two writes of a HelmChartConfig with no user, upgrade or crash in between: in a
   reachable state with fixed charts, the pass for rke2-coredns writes, the one that finalizes
   rke2-dns-node-cache strips what it wrote, and the next pass for rke2-coredns writes again.
   */
  lemma SecondWriteIsReached() returns (base: string, z: World)
    ensures Reached(ChartsAre(base), Machine(z, Idle)) && Writes(z, CoreDNS)
    ensures Writes(AfterPass(AfterPass(z, CoreDNS), DnsNodeCache), CoreDNS)
  {
    var tag, before, after;
    base, tag, before, after := TwoCharts();
    var m := Overlap(base, tag, before, after);
    var tags :| before == OutOf(base, OLD, tags) && after == OutOf(base, NEW, tags);
    var generated := after.generated(DnsNodeCache, tag);
    z := Deleted(m.world, before);
    ReachDeleted(base, tags, m, before);
    DeletedState(m.world, z, tag, generated, before);
    assert generated == Generated(after.running(DnsNodeCache), DnsNodeCache, tag);
    OtherImage(before, tag, generated, WithoutRegistry(Repository(DnsNodeCache)));
    IsFought(z, base, tag, before, before.generated(CoreDNS, tag));
    WritesTwice(z);
  }

  lemma WritesTwice(z: World)
    requires Fought(z, CoreDNS) && Undermines(z, DnsNodeCache, CoreDNS)
    ensures Writes(z, CoreDNS) && Writes(AfterPass(AfterPass(z, CoreDNS), DnsNodeCache), CoreDNS)
  {
    FoughtWritesAgain(z, CoreDNS, DnsNodeCache);
    var v := AfterPass(z, CoreDNS);
    assert [DnsNodeCache][..0] == [] && Passes(v, []) == v;
    assert Passes(v, [DnsNodeCache]) == AfterPass(v, DnsNodeCache);
  }
}
