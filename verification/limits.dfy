/** Two runs in which the controller does less than it promises: drift that stays, a marker behind a shut gate. */
module Limits {
  import opened Text
  import opened Values
  import opened Comparison
  import opened Components
  import opened Patcher
  import opened Policy
  import opened Cluster
  import opened Protocol
  import opened Safety
  import opened Convergence
  import opened History
  import opened Scenes
  import Preservation

  const NGINX := IngressNginx

  /** All states of a run will do. */
  ghost function Any(): Machine -> bool { _ => true }

  lemma ReachedIsSafe(m: Machine)
    requires Reached(Any(), m)
    ensures Inv(m)
  {
    var run, moves :| RunTo(Any(), run, moves, m);
    RunsAreSafe(run, moves, |moves|);
  }

  // ---------- rke2-ingress-nginx is patched ----------

  ghost function OutOf(prime: bool, base: string, tags: seq<string>): Outside {
    Surroundings(_ => prime, _ => Generate(NGINX, Repository(NGINX), base), tags)
  }

  lemma OutIs(prime: bool, base: string, tags: seq<string>, out: Outside)
    requires Proper(base) && out == OutOf(prime, base, tags)
    ensures out.bundled(NGINX) == Some(base) && out.prime(Chart(NGINX)) == prime && out.tags(NGINX) == tags
  {
    var chart := Generate(NGINX, Repository(NGINX), base);
    OwnChartFits(NGINX, base, chart);
    assert out.charts(Chart(NGINX)) == chart;
    BundledBy(out, NGINX, chart, Some(base));
  }

  lemma Acceptable(base: string, tag: string, tags: seq<string>, out: Outside)
    requires AboveBaseline(base, tag) && tag in tags && out == OutOf(true, base, tags)
    ensures out.check(NGINX, base, "", tag) == Allowed
  {
    ChecksPass(NGINX, tags, base, "", tag);
  }

  /** A new ImagePatch is applied. */
  lemma Applied(out: Outside, base: string, tag: string, policy: UpgradePolicy, r1: World, r2: World)
    requires Ready(out, NGINX, base) && out.check(NGINX, base, "", tag) == Allowed && tag != base
    requires r1 == MovePatch(Start(out), NGINX, Create(tag, policy)) && r2 == AfterPass(r1, NGINX)
    ensures Reached(Any(), Machine(r2, Idle))
    ensures Stands(r2, NGINX, out, tag, policy, tag, "v1", Merge(Empty, out.generated(NGINX, tag)))
  {
    StartStands(out, NGINX, tag, policy);
    NothingConflicts(out.generated(NGINX, tag));
    PassWrites(r1, NGINX, out, base, tag, policy, "", "", Empty);
    ReachInitial(Any(), Machine(Start(out), Idle));
    ReachUser(Any(), Start(out), OnPatch(NGINX, Create(tag, policy)), r1);
    ReachPass(Any(), r1, NGINX);
  }

  /** rke2-ingress-nginx is patched on v1, in a cluster with prime enabled. */
  ghost predicate Setting(out: Outside, base: string, tag: string, policy: UpgradePolicy, w: World) {
    Proper(base) && tag != base && tag != "" && Ready(out, NGINX, base) && Reached(Any(), Machine(w, Idle)) &&
    Stands(w, NGINX, out, tag, policy, tag, "v1", Merge(Empty, out.generated(NGINX, tag)))
  }

  lemma PatchedSetting(policy: UpgradePolicy) returns (out: Outside, base: string, tag: string, w: World)
    ensures Setting(out, base, tag, policy, w)
  {
    base, tag := TagOf(1), TagOf(2);
    var tags := [base, tag];
    out := OutOf(true, base, tags);
    TagsOrdered(1, 2, base, tag);
    OutIs(true, base, tags, out);
    assert tag == tags[1];
    Acceptable(base, tag, tags, out);
    var created := MovePatch(Start(out), NGINX, Create(tag, policy));
    w := AfterPass(created, NGINX);
    Applied(out, base, tag, policy, created, w);
  }

  // ---------- drift that stays ----------

  lemma UnpublishedIsRefused(base: string, applied: string, tag: string, tags: seq<string>, out: Outside)
    requires tag !in tags && out.tags(NGINX) == tags
    ensures out.check(NGINX, base, applied, tag) != Allowed
  {
    assert CheckTarget(tags, out.zeroDay, NGINX, base, applied, tag) != Allowed;
    assert out.check(NGINX, base, applied, tag) == CheckTarget(out.tags(NGINX), out.zeroDay, NGINX, base, applied, tag);
  }

  /** A user clears the values, and the tag is no longer published. */
  lemma Drifted(r2: World, out: Outside, tag: string, values: Tree, later: Outside, r3: World, r4: World)
    requires Stands(r2, NGINX, out, tag, Manual, tag, "v1", values) && Reached(Any(), Machine(r2, Idle))
    requires r3 == Rewrite(r2, NGINX, Empty)
    requires r4 == r3.(out := later)
    ensures Reached(Any(), Machine(r4, Idle)) && Stands(r4, NGINX, later, tag, Manual, tag, "v1", Empty)
  {
    UserRewrites(r2, NGINX, out, tag, Manual, tag, values, Empty);
    ReachUser(Any(), r2, UserValues(r2, NGINX, Empty), r3);
    ReachUser(Any(), r3, Around("v1", later, map[]), r4);
    SameMarks(r3, r4);
  }

  lemma NotPutBack(w: World, out: Outside, base: string, tag: string)
    requires Stands(w, NGINX, out, tag, Manual, tag, "v1", Empty) && Ready(out, NGINX, base) && tag != base
    requires out.check(NGINX, base, tag, tag) != Allowed
    ensures var g := w.out.generated(NGINX, tag);
            !Present(ValuesOf(ConfigOf(w, NGINX)), g) && AfterPass(w, NGINX).configs == w.configs
  {
    var g := w.out.generated(NGINX, tag);
    GeneratedKeys(w.out, NGINX, tag);
    NothingPresent(g);
    Preservation.DriftIsCorrected(w, AfterPass(w, NGINX), NGINX, base, g);
  }

  /** So values that were removed by hand can stay away, although the tag is still applied on the current version. */
  lemma DriftMayStay() returns (w: World)
    ensures Reached(Any(), Machine(w, Idle)) && Live(w, NGINX) && Managed(w, NGINX) == w.version
    ensures w.patches[NGINX].appliedTag == w.patches[NGINX].tag != ""
    ensures !Present(ValuesOf(ConfigOf(w, NGINX)), w.out.generated(NGINX, w.patches[NGINX].tag))
    ensures AfterPass(w, NGINX).configs == w.configs
  {
    var out, base, tag, r2 := PatchedSetting(Manual);
    var later := OutOf(true, base, [base]);
    OutIs(true, base, [base], later);
    UnpublishedIsRefused(base, tag, tag, [base], later);
    w := DriftSetting(out, base, tag, r2, later);
    NotPutBack(w, later, base, tag);
  }

  lemma DriftSetting(out: Outside, base: string, tag: string, r2: World, later: Outside) returns (w: World)
    requires Setting(out, base, tag, Manual, r2)
    ensures Reached(Any(), Machine(w, Idle)) && Stands(w, NGINX, later, tag, Manual, tag, "v1", Empty)
  {
    var r3 := Rewrite(r2, NGINX, Empty);
    w := r3.(out := later);
    Drifted(r2, out, tag, Merge(Empty, out.generated(NGINX, tag)), later, r3, w);
  }

  // ---------- a marker behind a shut gate ----------

  /** After an upgrade, the pass stores the marker. */
  ghost predicate Upgraded(r2: World, r3: World, r4: World) {
    r3 == r2.(version := "v2") && NGINX in r3.patches &&
    r4 == PutPatch(r3, NGINX, r3.patches[NGINX].(marker := Some(r3.patches[NGINX].generation)))
  }

  lemma StoresMarker(r2: World, r3: World, r4: World, out: Outside, base: string, tag: string, values: Tree)
    requires Stands(r2, NGINX, out, tag, AutoRevert, tag, "v1", values) && Reached(Any(), Machine(r2, Idle))
    requires Ready(out, NGINX, base) && Upgraded(r2, r3, r4)
    ensures Reached(Any(), Machine(r4, Idle)) && Managed(r4, NGINX) == "v1"
  {
    var seen, p := ConfigOf(r3, NGINX), r3.patches[NGINX];
    ReachedIsSafe(Machine(r2, Idle));
    SameMarks(r2, r3);
    ReachUser(Any(), r2, Around("v2", out, map[]), r3);
    assert p.finalizer;
    var m := Machine(r3, Busy(NGINX, p, Fetched));
    ReachMove(Any(), Machine(r3, Idle), StartPass(NGINX), m);
    ReachRecording(m, base, seen);
    var n := Go(m, RecordingMarker("v2", base, seen));
    var end := Machine(r4, Busy(NGINX, r4.patches[NGINX], Reverting(RevertedAfterUpgrade, seen)));
    ReachStep(Any(), n, end);
    ReachMove(Any(), end, Crash, Machine(r4, Idle));
    SameMarks(r3, r4);
  }

  lemma ReachRecording(m: Machine, base: string, seen: Option<Config>)
    requires Reached(Any(), m) && m.worker.Busy? && m.worker.c == NGINX && m.worker.pc == Fetched
    requires m.worker.copy.finalizer && !m.worker.copy.deleting && m.worker.copy.marker.None? &&
             m.worker.copy.policy == AutoRevert
    requires m.world.cli == map[] && Ready(m.world.out, NGINX, base) && seen == ConfigOf(m.world, NGINX)
    requires m.world.version == "v2" && ManagedOn(seen, NGINX) == "v1"
    ensures Reached(Any(), Go(m, RecordingMarker("v2", base, seen)))
  {
    ReachVersion(m);
    ReachStep(Any(), Go(m, ReadingVersion), Go(m, ReadingChart("v2")));
    ReachStep(Any(), Go(m, ReadingChart("v2")), Go(m, ReadingConfig("v2", base)));
    ReachStep(Any(), Go(m, ReadingConfig("v2", base)), Go(m, RecordingMarker("v2", base, seen)));
  }

  lemma ReachVersion(m: Machine)
    requires Reached(Any(), m) && m.worker.Busy? && m.worker.c == NGINX && m.worker.pc == Fetched
    requires m.worker.copy.finalizer && !m.worker.copy.deleting && m.world.cli == map[] &&
             m.world.out.prime(Chart(NGINX))
    ensures Reached(Any(), Go(m, ReadingVersion))
  {
    ReachStep(Any(), m, Go(m, CheckingPrime));
    ReachStep(Any(), Go(m, CheckingPrime), Go(m, CheckingCli));
    ReachStep(Any(), Go(m, CheckingCli), Go(m, ReadingVersion));
  }

  /**
   So a pass that finds the marker of its spec can leave the component managed: the marker is stored after an
   upgrade, the process crashes before the revert, and prime mode is switched off.
   */
  lemma MarkerPassMayLeaveManaged() returns (w: World)
    ensures Reached(Any(), Machine(w, Idle)) && Live(w, NGINX) && HasMarker(w.patches[NGINX])
    ensures Managed(w, NGINX) == "v1" != w.version && Managed(AfterPass(w, NGINX), NGINX) == "v1"
  {
    var out, base, tag, r2 := PatchedSetting(AutoRevert);
    var later := OutOf(false, base, []);
    OutIs(false, base, [], later);
    var marked := MarkerStored(out, base, tag, r2);
    w := marked.(out := later);
    PrimeGoes(marked, w, later);
  }

  lemma MarkerStored(out: Outside, base: string, tag: string, r2: World) returns (r4: World)
    requires Setting(out, base, tag, AutoRevert, r2)
    ensures Reached(Any(), Machine(r4, Idle)) && r4.version == "v2" && r4.cli == map[]
    ensures Live(r4, NGINX) && HasMarker(r4.patches[NGINX]) && Managed(r4, NGINX) == "v1"
  {
    var r3 := r2.(version := "v2");
    r4 := PutPatch(r3, NGINX, r3.patches[NGINX].(marker := Some(r3.patches[NGINX].generation)));
    StoresMarker(r2, r3, r4, out, base, tag, Merge(Empty, out.generated(NGINX, tag)));
  }

  lemma PrimeGoes(r4: World, w: World, later: Outside)
    requires Reached(Any(), Machine(r4, Idle)) && w == r4.(out := later) && r4.version == "v2" && r4.cli == map[]
    requires Live(r4, NGINX) && HasMarker(r4.patches[NGINX]) && Managed(r4, NGINX) == "v1" && !later.prime(Chart(NGINX))
    ensures Reached(Any(), Machine(w, Idle)) && Live(w, NGINX) && HasMarker(w.patches[NGINX])
    ensures Managed(w, NGINX) == "v1" && Managed(AfterPass(w, NGINX), NGINX) == "v1"
  {
    ReachUser(Any(), r4, Around("v2", later, map[]), w);
    LeftManaged(r4, w, later);
  }

  lemma LeftManaged(r4: World, w: World, later: Outside)
    requires w == r4.(out := later) && Live(r4, NGINX) && HasMarker(r4.patches[NGINX]) && Managed(r4, NGINX) == "v1"
    requires !later.prime(Chart(NGINX))
    ensures Live(w, NGINX) && HasMarker(w.patches[NGINX])
    ensures Managed(w, NGINX) == "v1" && Managed(AfterPass(w, NGINX), NGINX) == "v1"
  {
    SameMarks(r4, w);
    var d := Decide(w, NGINX, w.patches[NGINX]);
    assert Gate(w, NGINX) == Shut(NotPrime);
    LivePass(w, NGINX, d);
    SameMarks(w, AfterPass(w, NGINX));
  }
}
