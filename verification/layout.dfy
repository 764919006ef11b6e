/** Two components that are managed at the same time never own a common leaf of a values tree. */
module Layout {
  import opened Text
  import opened Values
  import opened Components
  import opened Patcher
  import opened Cluster
  import opened Protocol
  import opened Safety

  // ---------- a check that every apply has passed ----------

  /** Whether a component's images fit the chart of a version. */
  type Fits = (string, Component) -> bool

  /** The version a pass has checked the chart layout for. */
  function CheckedVersion(pc: Pc): Option<Version> {
    match pc
    case ReadingConfig(version, _) => Some(version)
    case ClearingMarker(version, _, _) => Some(version)
    case RecordingMarker(version, _, _) => Some(version)
    case ReadingImages(version, _, _) => Some(version)
    case CheckingStale(version, _, _, _, _, _) => Some(version)
    case CheckingTarget(version, _, _, _) => Some(version)
    case Applying(version, _, _, _) => Some(version)
    case _ => None
  }

  predicate WorkerFits(fits: Fits, worker: Worker) {
    worker.Busy? && CheckedVersion(worker.pc).Some? ==> fits(CheckedVersion(worker.pc).value, worker.c)
  }

  /** Managed components fit the chart of the version they are managed on. */
  ghost predicate AllFit(fits: Fits, m: Machine) {
    (forall c :: Managed(m.world, c) == "" || fits(Managed(m.world, c), c)) && WorkerFits(fits, m.worker)
  }

  /** If the pass is about to read a chart, and gets on with it, its component fits the version it has read. */
  ghost predicate SeesFit(fits: Fits, m: Machine) {
    m.worker.Busy? && m.worker.pc.ReadingChart? && m.world.out.bundled(m.worker.c).Some? ==>
      fits(m.worker.pc.version, m.worker.c)
  }

  ghost predicate CheckedFrom(m: Machine, n: Machine)
    requires m.worker.Busy?
  {
    n.worker.Busy? && CheckedVersion(n.worker.pc).Some? ==>
      n.worker.c == m.worker.c &&
      (CheckedVersion(n.worker.pc) == CheckedVersion(m.worker.pc) ||
       (m.worker.pc.ReadingChart? && m.world.out.bundled(m.worker.c).Some? &&
        CheckedVersion(n.worker.pc) == Some(m.worker.pc.version)))
  }

  /** Where a checked version comes from. */
  lemma VersionIsChecked(m: Machine)
    requires m.worker.Busy?
    ensures CheckedFrom(m, Step(m))
  {
    if CheckedVersion(m.worker.pc).Some? {
      LateVersions(m);
    } else {
      EarlyVersions(m);
    }
  }

  lemma LateVersions(m: Machine)
    requires m.worker.Busy? && CheckedVersion(m.worker.pc).Some?
    ensures CheckedFrom(m, Step(m))
  {
    var c, copy := m.worker.c, m.worker.copy;
    match m.worker.pc
    case ClearingMarker(version, baseline, seen) =>
      UpdateGoes(m, copy.(marker := None), AfterMarker(copy, c, version, baseline, seen));
    case RecordingMarker(_, _, seen) =>
      UpdateGoes(m, copy.(marker := Some(copy.generation)), Reverting(RevertedAfterUpgrade, seen));
    case _ =>
  }

  lemma UpdateGoes(m: Machine, p: ImagePatch, next: Pc)
    requires m.worker.Busy?
    ensures var n := UpdatePatch(m, p, next); n.worker.Busy? ==> n.worker.c == m.worker.c && n.worker.pc == next
  {
  }

  lemma EarlyVersions(m: Machine)
    requires m.worker.Busy? && CheckedVersion(m.worker.pc).None?
    ensures CheckedFrom(m, Step(m))
  {
    var copy := m.worker.copy;
    if m.worker.pc.AddingFinalizer? {
      UpdateGoes(m, copy.(finalizer := true), CheckingPrime);
    } else if !Reads(m.worker.pc) {
      LastSteps(m);
    }
  }

  /** Late writes lead to nothing that was checked. */
  lemma LastSteps(m: Machine)
    requires m.worker.Busy?
    requires m.worker.pc.Reverting? || m.worker.pc.WritingStatus? || m.worker.pc.FinalizeReverting? ||
             m.worker.pc.RemovingFinalizer?
    ensures Step(m).worker.Busy? ==> CheckedVersion(Step(m).worker.pc).None?
  {
  }

  /** A step of the worker sets no mark but the one of the version it has checked. */
  predicate MarkFrom(w: World, v: World, worker: Worker, d: Component)
    requires worker.Busy?
  {
    Managed(v, d) == "" || Managed(v, d) == Managed(w, d) ||
    (d == worker.c && CheckedVersion(worker.pc).Some? && Managed(v, d) == CheckedVersion(worker.pc).value)
  }

  lemma SameConfigsMarkFrom(w: World, v: World, worker: Worker)
    requires worker.Busy? && v.configs == w.configs
    ensures forall d :: MarkFrom(w, v, worker, d)
  {
    SameConfigsSameMarks(w, v);
  }

  lemma StripMarkFrom(w: World, worker: Worker, seen: Config)
    requires worker.Busy? && ConfigOf(w, worker.c) == Some(seen)
    ensures forall d :: MarkFrom(w, PutConfig(w, worker.c, Stripped(w.out, seen, worker.c)), worker, d)
  {
    StripMarks(w, worker.c, seen);
  }

  lemma ApplyWrites(m: Machine)
    requires m.worker.Busy? && m.worker.pc.Applying?
    ensures var Applying(version, _, seen, generated) := m.worker.pc;
            Step(m).world == if CanWrite(m.world, m.worker.c, seen)
              then PutConfig(m.world, m.worker.c, Patched(seen, m.worker.c, generated, version))
                             else m.world
  {
  }

  lemma ApplyMarkFrom(m: Machine)
    requires m.worker.Busy? && Fresh(m) && m.worker.pc.Applying?
    ensures forall d :: MarkFrom(m.world, Step(m).world, m.worker, d)
  {
    var Applying(version, _, seen, generated) := m.worker.pc;
    ApplyWrites(m);
    if CanWrite(m.world, m.worker.c, seen) {
      WriteSeesCurrent(m, seen);
      ApplyMarks(m.world, m.worker.c, seen, generated, version);
    }
  }

  lemma StepMarkFrom(m: Machine)
    requires m.worker.Busy? && Fresh(m)
    ensures forall d :: MarkFrom(m.world, Step(m).world, m.worker, d)
  {
    var pc := m.worker.pc;
    if pc.Applying? {
      ApplyMarkFrom(m);
    } else if pc.Reverting? || pc.FinalizeReverting? {
      if pc.seen.Some? && CanWrite(m.world, m.worker.c, pc.seen) {
        WriteSeesCurrent(m, pc.seen);
        StripMarkFrom(m.world, m.worker, pc.seen.value);
      }
    } else {
      OtherStepsKeepConfigs(m);
      SameConfigsMarkFrom(m.world, Step(m).world, m.worker);
    }
  }

  lemma OtherStepsKeepConfigs(m: Machine)
    requires m.worker.Busy? && !(m.worker.pc.Applying? || m.worker.pc.Reverting? || m.worker.pc.FinalizeReverting?)
    ensures Step(m).world.configs == m.world.configs
  {
    if Reads(m.worker.pc) {
      ReadsChangeNothing(m);
    } else {
      PatchWritersKeepConfigs(m);
    }
  }

  lemma StepFits(fits: Fits, m: Machine)
    requires m.worker.Busy? && Fresh(m) && AllFit(fits, m) && SeesFit(fits, m)
    ensures AllFit(fits, Step(m))
  {
    StepMarkFrom(m);
    VersionIsChecked(m);
    CarryFit(fits, m, Step(m));
  }

  lemma CarryFit(fits: Fits, m: Machine, n: Machine)
    requires m.worker.Busy? && AllFit(fits, m) && SeesFit(fits, m) &&
             forall d :: MarkFrom(m.world, n.world, m.worker, d)
    requires CheckedFrom(m, n)
    ensures AllFit(fits, n)
  {
    forall c ensures Managed(n.world, c) == "" || fits(Managed(n.world, c), c) {
      assert MarkFrom(m.world, n.world, m.worker, c);
    }
  }

  lemma MoveFits(fits: Fits, m: Machine, move: Move)
    requires CanMove(m, move) && !move.WorkerStep? && AllFit(fits, m)
    ensures AllFit(fits, After(m, move))
  {
    OtherMoveShrinks(m, move);
  }

  ghost predicate FitStep(fits: Fits, m: Machine, move: Move) { move.WorkerStep? ==> SeesFit(fits, m) }

  lemma {:induction false} RunsFit(fits: Fits, run: seq<Machine>, moves: seq<Move>, k: nat)
    requires IsRun(run, moves) && k < |run|
    requires forall i | 0 <= i < k :: FitStep(fits, run[i], moves[i])
    ensures AllFit(fits, run[k])
    decreases k
  {
    if k == 0 {
      UnmanagedFits(fits, run[0]);
    } else {
      RunsFit(fits, run, moves, k - 1);
      RunsAreSafe(run, moves, k - 1);
      assert Follows(run, moves, k - 1) && FitStep(fits, run[k - 1], moves[k - 1]);
      if moves[k - 1].WorkerStep? { StepFits(fits, run[k - 1]); } else { MoveFits(fits, run[k - 1], moves[k - 1]); }
    }
  }

  lemma UnmanagedFits(fits: Fits, m: Machine)
    requires Initial(m)
    ensures AllFit(fits, m)
  {
    forall c ensures Managed(m.world, c) == "" {
    }
  }

  // ---------- what fits together is apart ----------

  lemma OwnTopKey(c: Component, repository: string, tag: string, p: Path)
    requires LeafAt(Generate(c, repository, tag), p)
    ensures p != [] && p[0] == TopKey(c)
  {
    GeneratedLeaves(c, repository, tag, p);
    var parent := p[..|p| - 1];
    assert parent in ImagePaths(c) && parent != [] && parent[0] == p[0];
  }

  lemma TopKeysApart(c: Component, d: Component, r: string, s: string, t: string, u: string)
    requires TopKey(c) != TopKey(d)
    ensures Apart(Generate(c, r, t), Generate(d, s, u))
  {
    forall p, q | LeafAt(Generate(c, r, t), p) && LeafAt(Generate(d, s, u), q) ensures !Related(p, q) {
      OwnTopKey(c, r, t, p);
      OwnTopKey(d, s, u, q);
    }
  }

  /** Of the components of one chart, only rke2-coredns and rke2-dns-node-cache write to the same place. */
  lemma SamePlace(c: Component, d: Component)
    requires c != d && Chart(c) == Chart(d) && TopKey(c) == TopKey(d)
    ensures {c, d} == {CoreDNS, DnsNodeCache}
  {
    ChartSharers(c);
    ChartSharers(d);
  }

  lemma ChartSharers(c: Component)
    ensures Chart(c) == "rke2-coredns" <==> c in {CoreDNS, DnsNodeCache, ClusterAutoscaler}
    ensures Chart(c) == "rke2-canal" <==> c in {CanalCalico, CanalFlannel}
    ensures c !in {CoreDNS, DnsNodeCache, ClusterAutoscaler, CanalCalico, CanalFlannel} ==> Chart(c) == Name(c)
  {
  }

  /** An image name whose first part is no host is kept as it is. */
  lemma PlainRepository(rest: string)
    ensures WithoutRegistry("rancher" + ['/'] + rest) == "rancher" + ['/'] + rest
  {
    IndexOfConcat("rancher", '/', rest);
    var lower := ToLower("rancher");
    assert lower[0] == 'r' && forall i | 0 <= i < |lower| :: lower[i] != '.' && lower[i] != ':';
    assert !IsHost("rancher");
  }

  lemma NamesDiffer(a: string, b: string, x: string, y: string)
    requires a == "rancher" + ['/'] + x && b == "rancher" + ['/'] + y && |x| != |y|
    ensures WithoutRegistry(a) != WithoutRegistry(b)
  {
    PlainRepository(x);
    PlainRepository(y);
  }

  lemma DifferentRepositories(a: string, b: string)
    requires a == Repository(CoreDNS) && b == Repository(DnsNodeCache)
    ensures WithoutRegistry(a) != WithoutRegistry(b)
  {
    NamesDiffer(a, b, "hardened-coredns", "hardened-dns-node-cache");
  }

  /** Two components of one chart that both fit it write to different places. */
  lemma FittingComponentsApart(c: Component, d: Component, chart: Tree, r: string, s: string, t: string, u: string)
    requires c != d && Chart(c) == Chart(d) && BundledTag(c, chart).Some? && BundledTag(d, chart).Some?
    ensures Apart(Generate(c, r, t), Generate(d, s, u))
  {
    if TopKey(c) != TopKey(d) {
      TopKeysApart(c, d, r, s, t, u);
    } else {
      SamePlace(c, d);
      BothAtImage(chart);
    }
  }

  lemma OverlapAtImage(r: string, s: string, t: string, u: string)
    ensures !Apart(Generate(CoreDNS, r, t), Generate(DnsNodeCache, s, u))
  {
    var p := ["image", "tag"];
    assert p[..|p| - 1] == ["image"] && ["image"] in ImagePaths(CoreDNS) && ["image"] in ImagePaths(DnsNodeCache);
    GeneratedLeaves(CoreDNS, r, t, p);
    GeneratedLeaves(DnsNodeCache, s, u, p);
    assert LeafAt(Generate(CoreDNS, r, t), p) && LeafAt(Generate(DnsNodeCache, s, u), p) && Related(p, p);
  }

  lemma ApartBothWays(g: Tree, h: Tree)
    ensures Apart(g, h) == Apart(h, g)
  {
    if Apart(g, h) || Apart(h, g) {
      forall p, q | LeafAt(g, p) && LeafAt(h, q) ensures !Related(p, q) {
        assert Related(p, q) == Related(q, p);
      }
      forall p, q | LeafAt(h, p) && LeafAt(g, q) ensures !Related(p, q) {
        assert Related(p, q) == Related(q, p);
      }
    }
  }

  /** Which components of one chart own a common place, whatever images they name. */
  lemma OverlapIs(c: Component, d: Component, r: string, s: string, t: string, u: string)
    requires c != d && Chart(c) == Chart(d)
    ensures !Apart(Generate(c, r, t), Generate(d, s, u)) <==> {c, d} == {CoreDNS, DnsNodeCache}
  {
    if TopKey(c) != TopKey(d) {
      TopKeysApart(c, d, r, s, t, u);
    } else {
      SamePlace(c, d);
    }
    if {c, d} == {CoreDNS, DnsNodeCache} {
      assert c in {CoreDNS, DnsNodeCache} && d in {CoreDNS, DnsNodeCache};
      OverlapAtImage(r, s, t, u);
      OverlapAtImage(s, r, u, t);
      ApartBothWays(Generate(c, r, t), Generate(d, s, u));
    }
  }

  lemma BothAtImage(chart: Tree)
    ensures BundledTag(CoreDNS, chart).None? || BundledTag(DnsNodeCache, chart).None?
  {
    if BundledTag(CoreDNS, chart).Some? && BundledTag(DnsNodeCache, chart).Some? {
      assert ["image"] in ImagePaths(CoreDNS) && ["image"] in ImagePaths(DnsNodeCache);
      SharedImageSharesRepository(CoreDNS, DnsNodeCache, chart);
      DifferentRepositories(Repository(CoreDNS), Repository(DnsNodeCache));
    }
  }

  // ---------- whole runs ----------

  /** Every RKE2 version has its charts, which is what the chart values are in a cluster of that version. */
  ghost predicate ChartsFixed(bundle: (string, string) -> Tree, w: World) {
    forall chart :: w.out.charts(chart) == bundle(w.version, chart)
  }

  /** An upgrade has come between a pass's reading of the version and of the chart. */
  predicate Races(m: Machine, move: Move) {
    move.WorkerStep? && m.worker.Busy? && m.worker.pc.ReadingChart? && m.worker.pc.version != m.world.version
  }

  ghost function FitsBundle(bundle: (string, string) -> Tree): Fits {
    (version, c) => BundledTag(c, bundle(version, Chart(c))).Some?
  }

  lemma BundledMeansFit(bundle: (string, string) -> Tree, m: Machine, move: Move)
    requires ChartsFixed(bundle, m.world) && !Races(m, move)
    ensures FitStep(FitsBundle(bundle), m, move)
  {
    if m.worker.Busy? && m.worker.pc.ReadingChart? {
      var out, c := m.world.out, m.worker.c;
      assert out.bundled(c) == BundledTag(c, out.charts(Chart(c)));
    }
  }

  /** A run of a cluster with fixed charts, in which no pass up to k has raced with an upgrade. */
  ghost predicate NoRace(bundle: (string, string) -> Tree, run: seq<Machine>, moves: seq<Move>, k: nat) {
    IsRun(run, moves) && k < |run| &&
    (forall i | 0 <= i < |run| :: ChartsFixed(bundle, run[i].world)) &&
      forall i | 0 <= i < k :: !Races(run[i], moves[i])
  }

  lemma ManagedFits(bundle: (string, string) -> Tree, run: seq<Machine>, moves: seq<Move>, k: nat)
    requires NoRace(bundle, run, moves, k)
    ensures AllFit(FitsBundle(bundle), run[k])
  {
    forall i | 0 <= i < k ensures FitStep(FitsBundle(bundle), run[i], moves[i]) {
      BundledMeansFit(bundle, run[i], moves[i]);
    }
    RunsFit(FitsBundle(bundle), run, moves, k);
  }

  /**
   Disjoint ownership: unless a pass has raced with an upgrade, no leaf that one managed component writes to
   a HelmChartConfig is above, at or below a leaf that another one writes to it.
   */
  lemma DisjointOwnership(
      bundle: (string, string) -> Tree, run: seq<Machine>, moves: seq<Move>, k: nat, c: Component, d: Component,
      r: string, s: string, t: string, u: string)
    requires NoRace(bundle, run, moves, k)
    requires c != d && Chart(c) == Chart(d) && Managed(run[k].world, c) != "" && Managed(run[k].world, d) != ""
    ensures Apart(Generate(c, r, t), Generate(d, s, u))
  {
    var fits := FitsBundle(bundle);
    ManagedFits(bundle, run, moves, k);
    RunsAreSafe(run, moves, k);
    var version := Managed(run[k].world, c);
    assert Managed(run[k].world, d) == version;
    assert fits(version, c) && fits(version, d);
    FittingComponentsApart(c, d, bundle(version, Chart(c)), r, s, t, u);
  }
}
