/** Building concrete runs: release tags, charts and surroundings for them, and the states they go through. */
module Scenes {
  import opened Text
  import opened Values
  import opened Comparison
  import opened Components
  import opened Patcher
  import opened Tags
  import opened Policy
  import opened Cluster
  import opened Protocol
  import opened Safety
  import opened Pass
  import opened Convergence
  import opened History

  // ---------- runs that end in a given state ----------

  ghost predicate RunTo(ok: Machine -> bool, run: seq<Machine>, moves: seq<Move>, m: Machine) {
    IsRun(run, moves) && run[|moves|] == m && forall i | 0 <= i < |run| :: ok(run[i])
  }

  /** Some run whose states are all acceptable ends in m. */
  ghost predicate Reached(ok: Machine -> bool, m: Machine) { exists run, moves :: RunTo(ok, run, moves, m) }

  lemma ReachInitial(ok: Machine -> bool, m: Machine)
    requires Initial(m) && ok(m)
    ensures Reached(ok, m)
  {
    assert RunTo(ok, [m], [], m);
  }

  lemma ReachMove(ok: Machine -> bool, m: Machine, move: Move, n: Machine)
    requires Reached(ok, m) && CanMove(m, move) && n == After(m, move) && ok(n)
    ensures Reached(ok, n)
  {
    var run, moves :| RunTo(ok, run, moves, m);
    var run', moves' := run + [n], moves + [move];
    forall i | 0 <= i < |moves'| ensures Follows(run', moves', i) {
      if i < |moves| { assert Follows(run, moves, i); }
    }
    assert RunTo(ok, run', moves', n);
  }

  /** What is acceptable depends on the surroundings only. */
  ghost predicate Surrounding(ok: Machine -> bool) {
    forall m, n :: SameSurroundings(m, n) && ok(m) ==> ok(n)
  }

  ghost predicate SameSurroundings(m: Machine, n: Machine) {
    n.world.version == m.world.version && n.world.out == m.world.out && n.world.cli == m.world.cli
  }

  lemma StepInSurroundings(m: Machine)
    requires m.worker.Busy?
    ensures SameSurroundings(m, Step(m))
  {
    if Reads(m.worker.pc) { ReadsChangeNothing(m); } else { WritesInSurroundings(m); }
  }

  lemma WritesInSurroundings(m: Machine)
    requires m.worker.Busy? && !Reads(m.worker.pc)
    ensures SameSurroundings(m, Step(m))
  {
  }

  lemma ReachStep(ok: Machine -> bool, m: Machine, n: Machine)
    requires Reached(ok, m) && Surrounding(ok) && ok(m) && m.worker.Busy? && n == Step(m)
    ensures Reached(ok, n) && ok(n)
  {
    StepInSurroundings(m);
    ReachMove(ok, m, WorkerStep, n);
  }

  /** The rest of a pass. */
  lemma {:induction false} ReachEnd(ok: Machine -> bool, m: Machine)
    requires Reached(ok, m) && Surrounding(ok) && ok(m)
    ensures Reached(ok, RunPass(m)) && ok(RunPass(m))
    decreases m.worker.Busy?, if m.worker.Busy? then Rank(m.worker.pc) else 0,
              if m.worker.Busy? then Remaining(m.worker.pc) else 0
  {
    if m.worker.Busy? {
      StepDescends(m);
      ReachStep(ok, m, Step(m));
      ReachEnd(ok, Step(m));
    }
  }

  /** A whole pass. */
  lemma ReachPass(ok: Machine -> bool, w: World, c: Component)
    requires Reached(ok, Machine(w, Idle)) && Surrounding(ok) && ok(Machine(w, Idle)) && c in w.patches
    ensures Reached(ok, Machine(AfterPass(w, c), Idle)) && ok(Machine(AfterPass(w, c), Idle))
  {
    var m := After(Machine(w, Idle), StartPass(c));
    assert SameSurroundings(Machine(w, Idle), m);
    ReachMove(ok, Machine(w, Idle), StartPass(c), m);
    ReachEnd(ok, m);
    StepsMakeThePass(w, c);
  }

  /** A move of a user, between passes. */
  lemma ReachUser(ok: Machine -> bool, w: World, move: Move, v: World)
    requires Reached(ok, Machine(w, Idle)) && !move.StartPass? && !move.WorkerStep? && CanMove(Machine(w, Idle), move)
    requires v == After(Machine(w, Idle), move).world && ok(Machine(v, Idle))
    ensures Reached(ok, Machine(v, Idle))
  {
    ReachMove(ok, Machine(w, Idle), move, Machine(v, Idle));
  }

  // ---------- release tags of one minor line ----------

  function TagOf(build: nat): string { Render(1, 12, 0, "", Some(build)) }

  lemma TagsParse(build: nat, tag: string)
    requires build < INT64_LIMIT && tag == TagOf(build)
    ensures ParseTag(tag) == Some(Tag(tag, 1, 12, 0, build, "", SplitFlavor("").0, SplitFlavor("").1))
  {
    ParseRendered(1, 12, 0, "", build, tag);
  }

  lemma TagsOrdered(a: nat, b: nat, s: string, t: string)
    requires a < b < INT64_LIMIT && s == TagOf(a) && t == TagOf(b)
    ensures Later(s, t)
  {
    TagsParse(a, s);
    TagsParse(b, t);
    LaterBuild(s, t, ParseTag(s).value, ParseTag(t).value);
  }

  /** Two proper tags of one minor line, the second one newer. */
  ghost predicate Later(s: string, t: string) {
    AboveBaseline(s, t) && NotOlder(t, s) && !NotOlder(s, t) && s != t && Proper(s) && Proper(t)
  }

  predicate Proper(s: string) { s != "" && TrimSpace(s) == s }

  lemma LaterBuild(s: string, t: string, x: Tag, y: Tag)
    requires ParseTag(s) == Some(x) && ParseTag(t) == Some(y) && x.name == s && y.name == t
    requires x.major == y.major && x.minor == y.minor && x.build < y.build
    ensures Later(s, t)
  {
    NamedByTrim(s);
    NamedByTrim(t);
  }

  lemma NamedByTrim(s: string)
    requires ParseTag(s).Some? && ParseTag(s).value.name == s
    ensures TrimSpace(s) == s && s != ""
  {
  }

  const ZERO_DAY: ValidDate := Date(2025, 1, 2)

  /** A tag built on the zero day is inside the window of every component. */
  lemma ZeroDayTag(c: Component, tag: string)
    requires tag == TagOf(20250102)
    ensures ValidatePatchWindow(c, tag, ZERO_DAY) == Allowed
  {
    TagsParse(20250102, tag);
    DateOfBuildIs(20250102, ZERO_DAY);
    if !IsPatchWindowExempt(c) {
      BuiltOn(c, tag, ParseTag(tag).value);
    }
  }

  lemma BuiltOn(c: Component, tag: string, parsed: Tag)
    requires !IsPatchWindowExempt(c) && ParseTag(tag) == Some(parsed) && DateOfBuild(parsed.build) == Some(ZERO_DAY)
    ensures ValidatePatchWindow(c, tag, ZERO_DAY) == Allowed
  {
    WindowIs45Days(c, tag, ZERO_DAY);
  }

  // ---------- charts and surroundings ----------

  lemma ProperRepository(c: Component)
    ensures Trimmed(Repository(c))
  {
  }

  lemma ImageFound(chart: Tree, ip: Path, key: string, base: string, repository: string)
    requires At(chart, ip + [key]) == Some(Str(base)) && At(chart, ip + ["repository"]) == Some(Str(repository))
    requires TrimSpace(base) == base && TrimSpace(repository) == repository
    ensures ImageIs(chart, ip, key, repository, base)
  {
  }

  lemma OwnImage(c: Component, ip: Path, base: string, repository: string, chart: Tree)
    requires chart == Generate(c, repository, base) && ip in ImagePaths(c) && repository == Repository(c)
    requires TrimSpace(base) == base && TrimSpace(repository) == repository
    ensures ImageIs(chart, ip, TagKey(c), repository, base)
  {
    LeavesOfImage(c, repository, base, ip);
    ImageFound(chart, ip, TagKey(c), base, repository);
  }

  /** A chart that holds the values generated for a component bundles their tag. */
  lemma OwnChartFits(c: Component, base: string, chart: Tree)
    requires chart == Generate(c, Repository(c), base) && Proper(base)
    ensures BundledTag(c, chart) == Some(base)
  {
    ProperRepository(c);
    TrimSpaceIs(Repository(c));
    forall i | 0 <= i < |ImagePaths(c)| ensures ImageIs(chart, ImagePaths(c)[i], TagKey(c), Repository(c), base) {
      OwnImage(c, ImagePaths(c)[i], base, Repository(c), chart);
    }
    BundledTagIs(c, chart, base);
  }

  /** These charts and tags, while nothing runs. */
  function Surroundings(prime: string -> bool, charts: string -> Tree, tags: seq<string>): Outside {
    Outside(prime, charts, _ => tags, ZERO_DAY, _ => None)
  }

  lemma BundledBy(out: Outside, c: Component, chart: Tree, found: Option<string>)
    requires out.charts(Chart(c)) == chart && BundledTag(c, chart) == found
    ensures out.bundled(c) == found
  {
    assert out.bundled(c) == BundledTag(c, out.charts(Chart(c)));
  }

  lemma ChecksPass(c: Component, tags: seq<string>, base: string, applied: string, tag: string)
    requires AboveBaseline(base, tag) && tag in tags && (applied == "" || NotOlder(tag, applied))
    requires ValidatePatchWindow(c, tag, ZERO_DAY) == Allowed
    ensures CheckTarget(tags, ZERO_DAY, c, base, applied, tag) == Allowed
  {
  }

  lemma RecheckPasses(base: string, tag: string)
    requires AboveBaseline(base, tag)
    ensures ValidateAgainstBaseline(base, tag) == Allowed
  {
  }

  // ---------- states in which one component is patched ----------

  /** An ImagePatch of c stands without a marker, and no other component is managed. */
  ghost predicate Stands(
      w: World, c: Component, out: Outside, tag: string, policy: UpgradePolicy, applied: string, managed: string,
      values: Tree)
  {
    w.version == "v1" && w.out == out && w.cli == map[] && Live(w, c) && Spec(w.patches[c], tag, policy, applied) &&
    (forall d | d != c :: Managed(w, d) == "") && Managed(w, c) == managed && ValuesOf(ConfigOf(w, c)) == values &&
    (managed != "" ==> ConfigOf(w, c).Some?)
  }

  predicate Spec(p: ImagePatch, tag: string, policy: UpgradePolicy, applied: string) {
    p.tag == tag && p.policy == policy && p.appliedTag == applied && p.marker.None?
  }

  ghost predicate Ready(out: Outside, c: Component, base: string) { out.prime(Chart(c)) &&
      out.bundled(c) == Some(base) }

  /** The pass applies the spec's tag. */
  lemma PassWrites(
      w: World, c: Component, out: Outside, base: string, tag: string, policy: UpgradePolicy, applied: string,
      managed: string, values: Tree)
    requires Stands(w, c, out, tag, policy, applied, managed, values) && Ready(out, c, base) && tag != base
    requires managed == "" || managed == "v1"
    requires managed == "" || !Present(values, out.generated(c, tag))
    requires out.check(c, base, applied, tag) == Allowed
    requires managed != "" || !HasConflict(values, out.generated(c, tag))
    ensures WritesTag(w, c)
    ensures Stands(AfterPass(w, c), c, out, tag, policy, tag, "v1", Merge(values, out.generated(c, tag)))
  {
    var d := Decide(w, c, w.patches[c]);
    DecidesToApply(w, c, out, base, tag, policy, applied, managed, values, out.generated(c, tag), d);
    AfterDecision(w, c, out, d);
    SameMarks(w, w);
  }

  lemma DecidesToApply(
      w: World, c: Component, out: Outside, base: string, tag: string, policy: UpgradePolicy, applied: string,
      managed: string,
      values: Tree, generated: Tree, d: Decision)
    requires Stands(w, c, out, tag, policy, applied, managed, values) && Ready(out, c, base) && tag != base
    requires generated == out.generated(c, tag) && d == Decide(w, c, w.patches[c])
    requires if managed == "" then !HasConflict(values, generated) else managed == "v1" && !Present(values, generated)
    requires out.check(c, base, applied, tag) == Allowed
    ensures d == Apply(generated)
  {
    assert Gate(w, c) == Open(base);
    assert !StaleOther(w, c);
  }

  /** The pass leaves things as they are, and records a tag. */
  lemma PassLeaves(
      w: World, c: Component, out: Outside, tag: string, policy: UpgradePolicy, applied: string, values: Tree,
      d: Decision)
    requires Stands(w, c, out, tag, policy, applied, "v1", values) && d == Decide(w, c, w.patches[c]) && d.Leave?
    ensures Stands(AfterPass(w, c), c, out, tag, policy, d.appliedTag, "v1", values)
  {
    AfterDecision(w, c, out, d);
    SameMarks(w, AfterPass(w, c));
  }

  lemma AfterDecision(w: World, c: Component, out: Outside, d: Decision)
    requires Live(w, c) && w.out == out && w.patches[c].marker.None? && d == Decide(w, c, w.patches[c])
    requires Managed(w, c) == "" || Managed(w, c) == w.version
    ensures var v := AfterPass(w, c);
            v.version == w.version && v.out == out && v.cli == w.cli && Live(v, c) && OwnConfig(w, v, c) &&
              Carried(w, v, c, d) &&
            Spec(v.patches[c], w.patches[c].tag, w.patches[c].policy, RecordOf(d, w.patches[c].tag))
  {
    LivePass(w, c, d);
    RecordAfter(w, c, d);
    NoMarkerStays(w, c);
  }

  lemma NoMarkerStays(w: World, c: Component)
    requires Live(w, c) && w.patches[c].marker.None? && (Managed(w, c) == "" || Managed(w, c) == w.version)
    ensures Prepared(w, c).patches[c].marker.None?
  {
    var v := AddFinalizer(w, c);
    AddFinalizerKept(w, c);
    ForgetMarkerKept(v, c);
    RecordMarkerKept(ForgetMarker(v, c), c);
    SameMarks(w, ForgetMarker(v, c));
  }

  // ---------- the moves of users ----------

  lemma UserEdits(
      w: World, c: Component, out: Outside, tag: string, policy: UpgradePolicy, applied: string, managed: string,
      values: Tree, next: string)
    requires Stands(w, c, out, tag, policy, applied, managed, values)
    ensures Stands(MovePatch(w, c, EditSpec(next, policy)), c, out, next, policy, applied, managed, values)
  {
    SameMarks(w, MovePatch(w, c, EditSpec(next, policy)));
  }

  /** A user replaces the values of the component's HelmChartConfig, and nothing else of it. */
  function UserValues(w: World, c: Component, values: Tree): Move
    requires ConfigOf(w, c).Some?
  {
    WriteConfig(Chart(c), ConfigOf(w, c).value.(values := values))
  }

  /** What that leaves. */
  function Rewrite(w: World, c: Component, values: Tree): World
    requires ConfigOf(w, c).Some?
  {
    PutConfig(w, c, ConfigOf(w, c).value.(values := values))
  }

  lemma UserRewrites(
      w: World, c: Component, out: Outside, tag: string, policy: UpgradePolicy, applied: string, values: Tree,
      next: Tree)
    requires Stands(w, c, out, tag, policy, applied, "v1", values)
    ensures CanMove(Machine(w, Idle), UserValues(w, c, next))
    ensures After(Machine(w, Idle), UserValues(w, c, next)).world == Rewrite(w, c, next)
    ensures Stands(Rewrite(w, c, next), c, out, tag, policy, applied, "v1", next)
  {
    PutConfigEffect(w, c, ConfigOf(w, c).value.(values := next));
  }

  ghost function Start(out: Outside): World { World("v1", out, map[], map[], map[], 0) }

  lemma StartStands(out: Outside, c: Component, tag: string, policy: UpgradePolicy)
    ensures Initial(Machine(Start(out), Idle))
    ensures Stands(MovePatch(Start(out), c, Create(tag, policy)), c, out, tag, policy, "", "", Empty)
  {
  }

  lemma SelfPresent(g: Tree)
    ensures Present(g, g)
  {
  }

  lemma NothingConflicts(g: Tree)
    ensures !HasConflict(Empty, g)
  {
    forall p ensures !Conflict(Empty, g, p) {
    }
  }

  /** Nothing generated is present in an empty tree. */
  lemma NothingPresent(g: Tree)
    requires g != Empty
    ensures !Present(Empty, g)
  {
    var k :| k in g.m;
    OneStep(g, k);
    assert At(g, [k]).Some? && At(Empty, [k]).None?;
  }
}
