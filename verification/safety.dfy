/** Invariants of every run of the machine, whatever moves interleave with the steps of a pass. */
module Safety {
  import opened Text
  import opened Values
  import opened Components
  import opened Patcher
  import opened Policy
  import opened Cluster
  import opened Protocol

  // ---------- the invariant ----------

  /** All ownership marks carry the same RKE2 version. */
  ghost predicate OneVersion(w: World) {
    forall c, d | Managed(w, c) != "" && Managed(w, d) != "" :: Managed(w, c) == Managed(w, d)
  }

  predicate Held(w: World, c: Component) { c in w.patches && w.patches[c].finalizer }

  /** A mark never outlives its ImagePatch and the finalizer on it. */
  ghost predicate NoOrphan(w: World) { forall c | Managed(w, c) != "" :: Held(w, c) }

  function Seen(pc: Pc): Option<Config> {
    match pc
    case ClearingMarker(_, _, seen) => seen
    case RecordingMarker(_, _, seen) => seen
    case ReadingImages(_, _, seen) => seen
    case CheckingStale(_, _, seen, _, _, _) => seen
    case CheckingTarget(_, _, seen, _) => seen
    case Applying(_, _, seen, _) => seen
    case Reverting(_, seen) => seen
    case FinalizeReverting(seen) => seen
    case _ => None
  }

  /** Resource versions are never reused: a version that still matches means nothing changed. */
  ghost predicate Fresh(m: Machine) {
    var w := m.world;
    (forall chart | chart in w.configs :: w.configs[chart].rv < w.clock) &&
    (forall c | c in w.patches :: w.patches[c].rv < w.clock) &&
    (m.worker.Busy? ==> FreshCopies(w, m.worker))
  }

  predicate FreshCopies(w: World, worker: Worker)
    requires worker.Busy?
  {
    var c, copy, seen := worker.c, worker.copy, Seen(worker.pc);
    copy.rv < w.clock && (c in w.patches && w.patches[c].rv == copy.rv ==> w.patches[c] == copy) &&
    (seen.Some? ==> seen.value.rv < w.clock) &&
    (seen.Some? && Chart(c) in w.configs && w.configs[Chart(c)].rv == seen.value.rv ==>
      w.configs[Chart(c)] == seen.value)
  }

  predicate MarkerIn(w: World, c: Component, marker: Option<nat>) {
    Held(w, c) && (w.patches[c].marker.None? || w.patches[c].marker == marker)
  }

  predicate OnlyOn(w: World, c: Component, version: string) { Managed(w, c) == "" || Managed(w, c) == version }

  /** On the way to an apply: no marker, and the own mark is absent or of the version read. */
  predicate Towards(w: World, c: Component, version: Version, seen: Option<Config>) {
    MarkerIn(w, c, None) && OnlyOn(w, c, ManagedOn(seen, c)) &&
      (ManagedOn(seen, c) == "" || ManagedOn(seen, c) == version)
  }

  ghost predicate OthersOn(w: World, c: Component, version: Version) {
    forall d | d != c :: Managed(w, d) == "" || Managed(w, d) == version
  }

  predicate LeavesUnmanaged(outcome: Outcome) {
    outcome.RevertedAfterUpgrade? || outcome.AtBaseline? || outcome.Overtaken?
  }

  ghost predicate WorkerOk(w: World, worker: Worker)
    requires worker.Busy?
  {
    var c, copy := worker.c, worker.copy;
    match worker.pc
    case Fetched => copy.finalizer ==> MarkerIn(w, c, copy.marker)
    case AddingFinalizer => !copy.deleting
    case CheckingPrime => MarkerIn(w, c, copy.marker)
    case CheckingCli => MarkerIn(w, c, copy.marker)
    case ReadingVersion => MarkerIn(w, c, copy.marker)
    case ReadingChart(_) => MarkerIn(w, c, copy.marker)
    case ReadingConfig(_, _) => MarkerIn(w, c, copy.marker)
    case ClearingMarker(_, _, seen) =>
      MarkerIn(w, c, copy.marker) && OnlyOn(w, c, ManagedOn(seen, c)) && copy.marker.Some? &&
        copy.marker != Some(copy.generation)
    case RecordingMarker(_, _, seen) => MarkerIn(w, c, None)
    case ReadingImages(version, _, seen) => Towards(w, c, version, seen)
    case CheckingStale(version, _, seen, _, todo, found) =>
      Towards(w, c, version, seen) &&
        (found || forall d | d != c && d !in todo :: Managed(w, d) == "" || Managed(w, d) == version)
    case CheckingTarget(version, _, seen, _) => Towards(w, c, version, seen) && OthersOn(w, c, version)
    case Applying(version, _, seen, _) => Towards(w, c, version, seen) && OthersOn(w, c, version)
    case Reverting(outcome, seen) => Held(w, c)
    case WritingStatus(outcome, _) => Held(w, c) && (LeavesUnmanaged(outcome) ==> Managed(w, c) == "")
    case ReadingForFinalize => Held(w, c)
    case FinalizeReverting(_) => Held(w, c)
    case RemovingFinalizer => Managed(w, c) == ""
  }

  ghost predicate Inv(m: Machine) {
    OneVersion(m.world) && NoOrphan(m.world) && Fresh(m) && (m.worker.Busy? ==> WorkerOk(m.world, m.worker))
  }

  // ---------- everyone but the worker ----------

  /** Marks may go but not come or change, and held objects stay held, losing at most their marker. */
  ghost predicate Shrinks(w: World, v: World) {
    (forall c :: Managed(v, c) == "" || Managed(v, c) == Managed(w, c)) &&
    forall c | Held(w, c) :: MarkerIn(v, c, w.patches[c].marker)
  }

  lemma ShrinkKeepsWorker(w: World, v: World, worker: Worker)
    requires worker.Busy? && WorkerOk(w, worker) && Shrinks(w, v)
    ensures WorkerOk(v, worker)
  {
  }

  lemma ShrinkKeepsMarks(w: World, v: World)
    requires OneVersion(w) && NoOrphan(w) && Shrinks(w, v)
    ensures OneVersion(v) && NoOrphan(v)
  {
  }

  lemma PatchMoveShrinks(w: World, c: Component, move: PatchMove)
    ensures Shrinks(w, MovePatch(w, c, move))
  {
    var v := MovePatch(w, c, move);
    MoveIsLocal(w, c, move);
    forall d | Held(w, d) ensures MarkerIn(v, d, w.patches[d].marker) {
      if d == c { HeldStays(w, c, move); }
    }
  }

  /** Nothing but c's ImagePatch differs. */
  ghost predicate LocalTo(w: World, v: World, c: Component) {
    v.configs == w.configs && forall d | d != c && d in w.patches :: d in v.patches && v.patches[d] == w.patches[d]
  }

  lemma PutIsLocal(w: World, c: Component, p: ImagePatch)
    ensures LocalTo(w, PutPatch(w, c, p), c)
  {
  }

  lemma DropIsLocal(w: World, c: Component)
    ensures LocalTo(w, DropPatch(w, c), c)
  {
  }

  lemma MoveIsLocal(w: World, c: Component, move: PatchMove)
    ensures LocalTo(w, MovePatch(w, c, move), c)
  {
    DropIsLocal(w, c);
    if c in w.patches {
      var p := w.patches[c];
      match move
      case EditSpec(tag, policy) => PutIsLocal(w, c, p.(generation := p.generation + 1, tag := tag, policy := policy));
      case RemoveMarker => PutIsLocal(w, c, p.(marker := None));
      case Touch => PutIsLocal(w, c, p);
      case Delete => PutIsLocal(w, c, p.(deleting := true, generation := p.generation + 1));
      case Create(_, _) =>
    } else if move.Create? {
      PutIsLocal(w, c, ImagePatch(1, move.tag, move.policy, false, false, None, "", 0));
    }
  }

  lemma HeldStays(w: World, c: Component, move: PatchMove)
    requires Held(w, c)
    ensures MarkerIn(MovePatch(w, c, move), c, w.patches[c].marker)
  {
  }

  lemma OtherMoveShrinks(m: Machine, move: Move)
    requires CanMove(m, move) && !move.WorkerStep?
    ensures Shrinks(m.world, After(m, move).world)
  {
    match move
    case OnPatch(c, patchMove) => PatchMoveShrinks(m.world, c, patchMove);
    case WriteConfig(chart, config) =>
    case _ =>
  }

  lemma OtherMoveFresh(m: Machine, move: Move)
    requires CanMove(m, move) && !move.WorkerStep? && Fresh(m)
    ensures Fresh(After(m, move))
  {
    match move
    case OnPatch(c, patchMove) => PatchMoveFresh(m, c, patchMove);
    case WriteConfig(chart, config) =>
    case _ =>
  }

  lemma PatchMoveFresh(m: Machine, c: Component, move: PatchMove)
    requires Fresh(m)
    ensures Fresh(m.(world := MovePatch(m.world, c, move)))
  {
    if c in m.world.patches {
      var p := m.world.patches[c];
      match move
      case EditSpec(tag, policy) => PutFresh(m, c, p.(generation := p.generation + 1, tag := tag, policy := policy));
      case RemoveMarker => PutFresh(m, c, p.(marker := None));
      case Touch => PutFresh(m, c, p);
      case Delete => DeleteFresh(m, c);
      case Create(_, _) =>
    } else if move.Create? {
      PutFresh(m, c, ImagePatch(1, move.tag, move.policy, false, false, None, "", 0));
    }
  }

  lemma DeleteFresh(m: Machine, c: Component)
    requires Fresh(m) && c in m.world.patches
    ensures Fresh(m.(world := MovePatch(m.world, c, Delete)))
  {
    var p := m.world.patches[c];
    if p.finalizer {
      PutFresh(m, c, p.(deleting := true, generation := p.generation + 1));
    } else {
      DropFresh(m, c);
    }
  }

  lemma PutFresh(m: Machine, c: Component, p: ImagePatch)
    requires Fresh(m)
    ensures Fresh(m.(world := PutPatch(m.world, c, p)))
  {
  }

  lemma DropFresh(m: Machine, c: Component)
    requires Fresh(m)
    ensures Fresh(m.(world := DropPatch(m.world, c)))
  {
  }

  lemma OtherMoveKeeps(m: Machine, move: Move)
    requires CanMove(m, move) && !move.WorkerStep? && Inv(m)
    ensures Inv(After(m, move))
  {
    OtherMoveShrinks(m, move);
    OtherMoveFresh(m, move);
    ShrinkKeepsMarks(m.world, After(m, move).world);
    if m.worker.Busy? && After(m, move).worker.Busy? {
      ShrinkKeepsWorker(m.world, After(m, move).world, m.worker);
    }
  }

  // ---------- the worker ----------

  /** A successful update of the ImagePatch was made on an unchanged object. */
  lemma UpdateEffect(m: Machine, p: ImagePatch, next: Pc)
    requires m.worker.Busy? && Fresh(m)
    requires Seen(next) == None || Seen(next) == Seen(m.worker.pc)
    ensures var n := UpdatePatch(m, p, next);
            Fresh(n) && n.world.configs == m.world.configs &&
            (forall d | d != m.worker.c :: d in n.world.patches <==> d in m.world.patches) &&
            (forall d | d != m.worker.c && d in m.world.patches :: n.world.patches[d] == m.world.patches[d])
    ensures var n := UpdatePatch(m, p, next);
            n.worker.Busy? ==>
              m.worker.c in m.world.patches && m.world.patches[m.worker.c] == m.worker.copy &&
              m.worker.c in n.world.patches && n.world.patches[m.worker.c] == n.worker.copy &&
              n.worker.copy == p.(rv := m.world.clock) && n.worker.pc == next && n.worker.c == m.worker.c
    ensures var n := UpdatePatch(m, p, next);
            n.worker.Idle? ==> n.world == m.world
  {
  }

  lemma SameConfigsSameMarks(w: World, v: World)
    requires w.configs == v.configs
    ensures forall c :: Managed(v, c) == Managed(w, c)
  {
  }

  lemma UpdateKeepsMarks(m: Machine, p: ImagePatch, next: Pc)
    requires m.worker.Busy? && Inv(m)
    requires m.worker.c in m.world.patches && m.world.patches[m.worker.c].rv == m.worker.copy.rv ==> p.finalizer
    requires Seen(next) == None || Seen(next) == Seen(m.worker.pc)
    ensures var n := UpdatePatch(m, p, next); OneVersion(n.world) && NoOrphan(n.world) && Fresh(n)
  {
    UpdateEffect(m, p, next);
    SameConfigsSameMarks(m.world, UpdatePatch(m, p, next).world);
  }

  /** The component's mark becomes on, and no other mark changes. */
  ghost predicate MarkSet(w: World, v: World, c: Component, on: string) {
    forall d :: Managed(v, d) == if d == c then on else Managed(w, d)
  }

  /** A strip removes the component's mark and no other. */
  lemma StripMarks(w: World, c: Component, config: Config)
    requires Chart(c) in w.configs && w.configs[Chart(c)] == config
    ensures MarkSet(w, PutConfig(w, c, Stripped(w.out, config, c)), c, "")
  {
    var v := PutConfig(w, c, Stripped(w.out, config, c));
    forall d ensures Managed(v, d) == if d == c then "" else Managed(w, d) {
    }
  }

  /** An apply sets the component's mark and no other. */
  lemma ApplyMarks(w: World, c: Component, seen: Option<Config>, generated: Tree, version: Version)
    requires ConfigOf(w, c) == seen
    ensures MarkSet(w, PutConfig(w, c, Patched(seen, c, generated, version)), c, version)
  {
    var v := PutConfig(w, c, Patched(seen, c, generated, version));
    forall d ensures Managed(v, d) == if d == c then version else Managed(w, d) {
    }
  }

  lemma WriteSeesCurrent(m: Machine, seen: Option<Config>)
    requires m.worker.Busy? && Fresh(m) && seen == Seen(m.worker.pc) && CanWrite(m.world, m.worker.c, seen)
    ensures ConfigOf(m.world, m.worker.c) == seen
  {
  }

  lemma AddingKeeps(m: Machine)
    requires m.worker.Busy? && Inv(m) && m.worker.pc.AddingFinalizer?
    ensures Inv(Step(m))
  {
    UpdateKeepsMarks(m, m.worker.copy.(finalizer := true), CheckingPrime);
  }

  lemma ClearingKeeps(m: Machine)
    requires m.worker.Busy? && Inv(m) && m.worker.pc.ClearingMarker?
    ensures Inv(Step(m))
  {
    var copy := m.worker.copy;
    var ClearingMarker(version, baseline, seen) := m.worker.pc;
    var next := AfterMarker(copy, m.worker.c, version, baseline, seen);
    CopyHeld(m);
    UpdateKeepsMarks(m, copy.(marker := None), next);
    UpdateEffect(m, copy.(marker := None), next);
    SameConfigsSameMarks(m.world, Step(m).world);
  }

  lemma RecordingKeeps(m: Machine)
    requires m.worker.Busy? && Inv(m) && m.worker.pc.RecordingMarker?
    ensures Inv(Step(m))
  {
    var copy := m.worker.copy;
    CopyHeld(m);
    UpdateKeepsMarks(m, copy.(marker := Some(copy.generation)), Reverting(RevertedAfterUpgrade, m.worker.pc.seen));
  }

  lemma StatusKeeps(m: Machine)
    requires m.worker.Busy? && Inv(m) && m.worker.pc.WritingStatus?
    ensures Inv(Step(m))
  {
    var copy := m.worker.copy;
    CopyHeld(m);
    if copy.appliedTag != m.worker.pc.appliedTag {
      UpdateKeepsMarks(m, copy.(appliedTag := m.worker.pc.appliedTag), m.worker.pc);
    }
  }

  /** Steps that write the ImagePatch. */
  lemma PatchStepsKeep(m: Machine)
    requires m.worker.Busy? && Inv(m)
    requires m.worker.pc.AddingFinalizer? || m.worker.pc.ClearingMarker? || m.worker.pc.RecordingMarker? ||
             m.worker.pc.WritingStatus?
    ensures Inv(Step(m))
  {
    match m.worker.pc
    case AddingFinalizer => AddingKeeps(m);
    case ClearingMarker(_, _, _) => ClearingKeeps(m);
    case RecordingMarker(_, _, _) => RecordingKeeps(m);
    case WritingStatus(_, _) => StatusKeeps(m);
  }

  lemma CopyHeld(m: Machine)
    requires m.worker.Busy? && Fresh(m) && Held(m.world, m.worker.c)
    ensures m.world.patches[m.worker.c].rv == m.worker.copy.rv ==> m.worker.copy.finalizer
  {
  }

  /** Steps that only move the worker on. */
  predicate Reads(pc: Pc) {
    !(pc.AddingFinalizer? || pc.ClearingMarker? || pc.RecordingMarker? || pc.WritingStatus? ||
      pc.Applying? || pc.Reverting? || pc.FinalizeReverting? || pc.RemovingFinalizer?)
  }

  lemma ReadsChangeNothing(m: Machine)
    requires m.worker.Busy? && Reads(m.worker.pc)
    ensures Step(m).world == m.world
  {
  }

  lemma AfterMarkerOk(w: World, c: Component, copy: ImagePatch, version: Version, baseline: string,
      seen: Option<Config>)
    requires MarkerIn(w, c, None) && OnlyOn(w, c, ManagedOn(seen, c))
    ensures WorkerOk(w, Busy(c, copy, AfterMarker(copy, c, version, baseline, seen)))
  {
  }

  lemma AfterConfigOk(w: World, c: Component, copy: ImagePatch, version: Version, baseline: string)
    requires MarkerIn(w, c, copy.marker)
    ensures WorkerOk(w, Busy(c, copy, AfterConfig(copy, c, version, baseline, ConfigOf(w, c))))
  {
    if copy.marker.None? {
      AfterMarkerOk(w, c, copy, version, baseline, ConfigOf(w, c));
    }
  }

  lemma AllSupported(d: Component)
    ensures d in SUPPORTED
  {
    assert SUPPORTED[0] == CanalCalico && SUPPORTED[1] == CanalFlannel && SUPPORTED[2] == CoreDNS &&
           SUPPORTED[3] == ClusterAutoscaler && SUPPORTED[4] == DnsNodeCache && SUPPORTED[5] == Flannel &&
           SUPPORTED[6] == IngressNginx && SUPPORTED[7] == MetricsServer && SUPPORTED[8] == SnapshotController &&
           SUPPORTED[9] == Traefik;
  }

  lemma OthersIs(c: Component)
    ensures forall d :: d in Others(c) <==> d != c
  {
    forall d ensures d in Others(c) <==> d != c {
      AllSupported(d);
    }
  }

  lemma StaleCheckOk(w: World, c: Component, copy: ImagePatch, version: Version, baseline: string, seen: Option<Config>,
      generated: Tree, others: seq<Component>)
    requires Towards(w, c, version, seen) && forall d :: d in others <==> d != c
    ensures WorkerOk(w, Busy(c, copy, CheckingStale(version, baseline, seen, generated, others, false)))
  {
  }

  lemma AfterImagesOk(w: World, c: Component, copy: ImagePatch, version: Version, baseline: string,
      seen: Option<Config>, generated: Tree, recheck: Verdict)
    requires Towards(w, c, version, seen)
    ensures WorkerOk(w, Busy(c, copy, AfterImages(copy, c, version, baseline, seen, generated, recheck)))
  {
    OthersIs(c);
    StaleCheckOk(w, c, copy, version, baseline, seen, generated, Others(c));
  }

  lemma AfterTargetOk(w: World, c: Component, copy: ImagePatch, version: Version, baseline: string,
      seen: Option<Config>, generated: Tree, verdict: Verdict)
    requires Towards(w, c, version, seen) && OthersOn(w, c, version)
    ensures WorkerOk(w, Busy(c, copy, AfterTarget(copy, c, version, baseline, seen, generated, verdict)))
  {
  }

  lemma ReadStepsOk(m: Machine)
    requires m.worker.Busy? && Inv(m) && Reads(m.worker.pc)
    ensures Step(m).worker.Busy? ==> WorkerOk(m.world, Step(m).worker)
  {
    var w, c, copy := m.world, m.worker.c, m.worker.copy;
    match m.worker.pc
    case ReadingConfig(version, baseline) =>
      AfterConfigOk(w, c, copy, version, baseline);
    case ReadingImages(version, baseline, seen) =>
      AfterImagesOk(w, c, copy, version, baseline, seen, w.out.generated(c, copy.tag),
        w.out.recheck(baseline, copy.tag));
    case CheckingTarget(version, baseline, seen, generated) =>
      AfterTargetOk(w, c, copy, version, baseline, seen, generated,
        w.out.check(c, baseline, copy.appliedTag, copy.tag));
    case CheckingStale(_, _, _, _, _, _) => StaleStepOk(m);
    case _ => EarlyReadsOk(m);
  }

  lemma EarlyReadsOk(m: Machine)
    requires m.worker.Busy? && WorkerOk(m.world, m.worker) && Reads(m.worker.pc) && !m.worker.pc.ReadingConfig?
    requires !m.worker.pc.ReadingImages? && !m.worker.pc.CheckingTarget? && !m.worker.pc.CheckingStale?
    ensures Step(m).worker.Busy? ==> WorkerOk(m.world, Step(m).worker)
  {
  }

  lemma StaleStepOk(m: Machine)
    requires m.worker.Busy? && WorkerOk(m.world, m.worker) && m.worker.pc.CheckingStale?
    ensures Step(m).worker.Busy? ==> WorkerOk(m.world, Step(m).worker)
  {
    var todo := m.worker.pc.todo;
    assert forall d | todo != [] && d !in todo[1..] :: d == todo[0] || d !in todo;
  }

  /** What a pass remembers of the HelmChartConfig is what it had, or what is there now. */
  lemma ReadStepsRemember(m: Machine)
    requires m.worker.Busy? && Reads(m.worker.pc)
    ensures var n := Step(m);
            n.worker.Busy? ==>
              n.worker.c == m.worker.c && n.worker.copy == m.worker.copy &&
              (Seen(n.worker.pc) == None || Seen(n.worker.pc) == Seen(m.worker.pc) ||
               Seen(n.worker.pc) == ConfigOf(m.world, m.worker.c))
  {
  }

  lemma FreshCarries(m: Machine, n: Machine)
    requires m.worker.Busy? && Fresh(m) && n.world == m.world
    requires n.worker.Busy? ==>
               n.worker.c == m.worker.c && n.worker.copy == m.worker.copy &&
               (Seen(n.worker.pc) == None || Seen(n.worker.pc) == Seen(m.worker.pc) ||
                Seen(n.worker.pc) == ConfigOf(m.world, m.worker.c))
    ensures Fresh(n)
  {
  }

  lemma ReadStepsKeep(m: Machine)
    requires m.worker.Busy? && Inv(m) && Reads(m.worker.pc)
    ensures Inv(Step(m))
  {
    ReadsChangeNothing(m);
    ReadStepsOk(m);
    ReadStepsRemember(m);
    FreshCarries(m, Step(m));
  }

  lemma PutConfigFresh(m: Machine, config: Config, next: Pc)
    requires m.worker.Busy? && Fresh(m) && Seen(next).None?
    ensures Fresh(Go(m.(world := PutConfig(m.world, m.worker.c, config)), next))
  {
  }

  /** A strip of what the pass has read keeps the invariant and ends unmanaged. */
  lemma StripKeeps(m: Machine, seen: Option<Config>, next: Pc)
    requires m.worker.Busy? && OneVersion(m.world) && NoOrphan(m.world) && Fresh(m) && Held(m.world, m.worker.c)
    requires seen == Seen(m.worker.pc) && seen.Some? && CanWrite(m.world, m.worker.c, seen) &&
             (next.WritingStatus? || next.RemovingFinalizer?)
    ensures Inv(Go(m.(world := PutConfig(m.world, m.worker.c, Stripped(m.world.out, seen.value, m.worker.c))), next))
  {
    WriteSeesCurrent(m, seen);
    StripMarks(m.world, m.worker.c, seen.value);
    PutConfigFresh(m, Stripped(m.world.out, seen.value, m.worker.c), next);
    UnmarkKeeps(m, PutConfig(m.world, m.worker.c, Stripped(m.world.out, seen.value, m.worker.c)), next);
  }

  /** Taking away the mark of the component being worked on keeps the rest of the invariant. */
  lemma UnmarkKeeps(m: Machine, v: World, next: Pc)
    requires m.worker.Busy? && OneVersion(m.world) && NoOrphan(m.world) && Held(m.world, m.worker.c)
    requires MarkSet(m.world, v, m.worker.c, "")
    requires v.patches == m.world.patches && Fresh(Go(m.(world := v), next))
    requires next.WritingStatus? || next.RemovingFinalizer?
    ensures Inv(Go(m.(world := v), next))
  {
    assert WorkerOk(v, Busy(m.worker.c, m.worker.copy, next));
  }

  lemma ApplyKeeps(m: Machine)
    requires m.worker.Busy? && Inv(m) && m.worker.pc.Applying?
    ensures Inv(Step(m))
  {
    var w, c := m.world, m.worker.c;
    var Applying(version, _, seen, generated) := m.worker.pc;
    var next := if CanWrite(w, c, seen) then WritingStatus(Applied, m.worker.copy.tag)
                else WritingStatus(Retrying, m.worker.copy.appliedTag);
    if CanWrite(w, c, seen) {
      WriteSeesCurrent(m, seen);
      ApplyMarks(w, c, seen, generated, version);
      PutConfigFresh(m, Patched(seen, c, generated, version), next);
      MarkKeeps(m, PutConfig(w, c, Patched(seen, c, generated, version)), version, next);
    } else {
      InvFrom(Go(m, next));
    }
  }

  /** Setting the mark of the component being worked on, when every other mark is of that version. */
  lemma MarkKeeps(m: Machine, v: World, version: Version, next: Pc)
    requires m.worker.Busy? && NoOrphan(m.world) && Held(m.world, m.worker.c) && OthersOn(m.world, m.worker.c, version)
    requires MarkSet(m.world, v, m.worker.c, version)
    requires v.patches == m.world.patches && Fresh(Go(m.(world := v), next))
    requires next == WritingStatus(Applied, m.worker.copy.tag)
    ensures Inv(Go(m.(world := v), next))
  {
    assert WorkerOk(v, Busy(m.worker.c, m.worker.copy, next));
  }

  lemma InvFrom(m: Machine)
    requires OneVersion(m.world) && NoOrphan(m.world) && Fresh(m) && m.worker.Busy? && WorkerOk(m.world, m.worker)
    ensures Inv(m)
  {
  }

  lemma ReleaseKeeps(m: Machine)
    requires m.worker.Busy? && Inv(m) && m.worker.pc.RemovingFinalizer?
    ensures Inv(Step(m))
  {
    SameConfigsSameMarks(m.world, Step(m).world);
    DropFresh(m, m.worker.c);
  }

  /** Steps that write the HelmChartConfig, or release the ImagePatch. */
  lemma ConfigStepsKeep(m: Machine)
    requires m.worker.Busy? && Inv(m)
    requires m.worker.pc.Applying? || m.worker.pc.Reverting? || m.worker.pc.FinalizeReverting? ||
             m.worker.pc.RemovingFinalizer?
    ensures Inv(Step(m))
  {
    match m.worker.pc
    case Applying(_, _, _, _) => ApplyKeeps(m);
    case Reverting(outcome, seen) =>
      if seen.Some? && CanWrite(m.world, m.worker.c, seen) { StripKeeps(m, seen, WritingStatus(outcome, "")); }
    case FinalizeReverting(seen) =>
      if seen.Some? && CanWrite(m.world, m.worker.c, seen) { StripKeeps(m, seen, RemovingFinalizer); }
    case RemovingFinalizer => ReleaseKeeps(m);
  }

  lemma WorkerStepKeeps(m: Machine)
    requires m.worker.Busy? && Inv(m)
    ensures Inv(Step(m))
  {
    if Reads(m.worker.pc) {
      ReadStepsKeep(m);
    } else if m.worker.pc.Applying? || m.worker.pc.Reverting? || m.worker.pc.FinalizeReverting? ||
      m.worker.pc.RemovingFinalizer? {
      ConfigStepsKeep(m);
    } else {
      PatchStepsKeep(m);
    }
  }

  // ---------- whole runs ----------

  /** In every reachable state all marks agree on one version and every mark has its held ImagePatch. */
  lemma {:induction false} RunsAreSafe(run: seq<Machine>, moves: seq<Move>, k: nat)
    requires IsRun(run, moves) && k < |run|
    ensures Inv(run[k])
    ensures OneVersion(run[k].world) && NoOrphan(run[k].world)
    decreases k
  {
    if k > 0 {
      RunsAreSafe(run, moves, k - 1);
      assert Follows(run, moves, k - 1);
      var m, move := run[k - 1], moves[k - 1];
      if move.WorkerStep? { WorkerStepKeeps(m); } else { OtherMoveKeeps(m, move); }
    }
  }

  /** The step writes a component's values and mark. */
  ghost predicate Applies(m: Machine, move: Move, c: Component) {
    move.WorkerStep? && m.worker.Busy? && m.worker.c == c && m.worker.pc.Applying? &&
      CanWrite(m.world, c, m.worker.pc.seen)
  }

  /** The ImagePatch exists with this generation, and nobody asks for its marker to go. */
  predicate Undisturbed(m: Machine, move: Move, c: Component, generation: nat) {
    c in m.world.patches && m.world.patches[c].generation == generation && move != OnPatch(c, RemoveMarker)
  }

  predicate Marked(w: World, c: Component, generation: nat) {
    c in w.patches && w.patches[c].generation == generation && w.patches[c].marker == Some(generation)
  }

  /** What a worker step may do to the marker of the ImagePatch it works on. */
  ghost predicate MarkerChange(pc: Pc, copy: ImagePatch, marker: Option<nat>) {
    marker == copy.marker ||
    (pc.RecordingMarker? && marker == Some(copy.generation)) ||
    (pc.ClearingMarker? && copy.marker != Some(copy.generation) && marker == None)
  }

  lemma UpdateMarker(m: Machine, p: ImagePatch, next: Pc, c: Component)
    requires m.worker.Busy? && Fresh(m)
    requires Seen(next) == None || Seen(next) == Seen(m.worker.pc)
    requires c in m.world.patches && MarkerChange(m.worker.pc, m.worker.copy, p.marker)
    ensures var v := UpdatePatch(m, p, next).world;
            c in v.patches &&
            (v.patches[c] == m.world.patches[c] ||
             (m.world.patches[c] == m.worker.copy &&
               MarkerChange(m.worker.pc, m.world.patches[c], v.patches[c].marker)))
  {
    UpdateEffect(m, p, next);
  }

  ghost predicate MarkerOnly(m: Machine, v: World, c: Component)
    requires m.worker.Busy? && c in m.world.patches && c in v.patches
  {
    v.patches[c] == m.world.patches[c] || MarkerChange(m.worker.pc, m.world.patches[c], v.patches[c].marker)
  }

  lemma WorkerMarkers(m: Machine, c: Component)
    requires m.worker.Busy? && Fresh(m) && WorkerOk(m.world, m.worker) && c in m.world.patches &&
             c in Step(m).world.patches
    ensures MarkerOnly(m, Step(m).world, c)
  {
    match m.worker.pc
    case AddingFinalizer => MarkerKeepers(m, c);
    case WritingStatus(_, _) => MarkerKeepers(m, c);
    case ClearingMarker(_, _, _) => MarkerWriters(m, c);
    case RecordingMarker(_, _, _) => MarkerWriters(m, c);
    case _ => OthersKeepPatches(m);
  }

  lemma MarkerKeepers(m: Machine, c: Component)
    requires m.worker.Busy? && Fresh(m) && (m.worker.pc.AddingFinalizer? || m.worker.pc.WritingStatus?)
    requires c in m.world.patches && c in Step(m).world.patches
    ensures MarkerOnly(m, Step(m).world, c)
  {
    match m.worker.pc
    case AddingFinalizer => UpdateMarker(m, m.worker.copy.(finalizer := true), CheckingPrime, c);
    case WritingStatus(_, tag) => UpdateMarker(m, m.worker.copy.(appliedTag := tag), m.worker.pc, c);
  }

  lemma MarkerWriters(m: Machine, c: Component)
    requires m.worker.Busy? && Fresh(m) && WorkerOk(m.world, m.worker) &&
             (m.worker.pc.ClearingMarker? || m.worker.pc.RecordingMarker?)
    requires c in m.world.patches && c in Step(m).world.patches
    ensures MarkerOnly(m, Step(m).world, c)
  {
    var copy := m.worker.copy;
    match m.worker.pc
    case ClearingMarker(version, baseline, seen) =>
      UpdateMarker(m, copy.(marker := None), AfterMarker(copy, m.worker.c, version, baseline, seen), c);
    case RecordingMarker(_, _, seen) =>
      UpdateMarker(m, copy.(marker := Some(copy.generation)), Reverting(RevertedAfterUpgrade, seen), c);
  }

  lemma OthersKeepPatches(m: Machine)
    requires m.worker.Busy?
    requires Reads(m.worker.pc) || m.worker.pc.Applying? || m.worker.pc.Reverting? || m.worker.pc.FinalizeReverting? ||
             m.worker.pc.RemovingFinalizer?
    ensures forall c | c in m.world.patches &&
            c in Step(m).world.patches :: Step(m).world.patches[c] == m.world.patches[c]
  {
    if Reads(m.worker.pc) { ReadsChangeNothing(m); }
  }

  lemma WorkerKeepsMarker(m: Machine, c: Component, generation: nat)
    requires m.worker.Busy? && Fresh(m) && WorkerOk(m.world, m.worker)
    requires Marked(m.world, c, generation) && c in Step(m).world.patches
    ensures Step(m).world.patches[c].marker == Some(generation)
  {
    WorkerMarkers(m, c);
  }

  /** A marker for the current generation is only removed by users. */
  lemma MarkerStays(m: Machine, move: Move, n: Machine, c: Component, generation: nat)
    requires Inv(m) && CanMove(m, move) && n == After(m, move)
    requires Marked(m.world, c, generation) && Undisturbed(m, move, c, generation)
    requires c in n.world.patches && n.world.patches[c].generation == generation
    ensures Marked(n.world, c, generation)
  {
    if move.WorkerStep? {
      WorkerKeepsMarker(m, c, generation);
    } else {
      UserKeepsMarker(m, move, c, generation);
    }
  }

  lemma UserKeepsMarker(m: Machine, move: Move, c: Component, generation: nat)
    requires CanMove(m, move) && !move.WorkerStep? && Marked(m.world, c, generation) &&
             Undisturbed(m, move, c, generation)
    requires c in After(m, move).world.patches
    ensures After(m, move).world.patches[c].marker == Some(generation)
  {
    if move.OnPatch? {
      MovePatchKeepsMarker(m.world, c, move.target, move.patchMove);
    }
  }

  lemma MovePatchKeepsMarker(w: World, c: Component, target: Component, move: PatchMove)
    requires c in w.patches && c in MovePatch(w, target, move).patches && !(target == c && move.RemoveMarker?)
    ensures MovePatch(w, target, move).patches[c].marker == w.patches[c].marker
  {
  }

  lemma {:induction false} MarkerPersists(run: seq<Machine>, moves: seq<Move>, c: Component, generation: nat, i: nat,
      k: nat)
    requires IsRun(run, moves) && i <= k < |moves|
    requires Marked(run[i].world, c, generation)
    requires forall j | i <= j <= k :: Undisturbed(run[j], moves[j], c, generation)
    ensures Marked(run[k].world, c, generation)
    decreases k
  {
    if i < k {
      MarkerPersists(run, moves, c, generation, i, k - 1);
      assert Undisturbed(run[k - 1], moves[k - 1], c, generation) && Undisturbed(run[k], moves[k], c, generation);
      MarkerGoesOn(run, moves, c, generation, k - 1);
    }
  }

  lemma MarkerGoesOn(run: seq<Machine>, moves: seq<Move>, c: Component, generation: nat, k: nat)
    requires IsRun(run, moves) && k < |moves| && Marked(run[k].world, c, generation)
    requires Undisturbed(run[k], moves[k], c, generation)
    requires c in run[k + 1].world.patches && run[k + 1].world.patches[c].generation == generation
    ensures Marked(run[k + 1].world, c, generation)
  {
    RunsAreSafe(run, moves, k);
    assert Follows(run, moves, k);
    MarkerStays(run[k], moves[k], run[k + 1], c, generation);
  }

  /**
   No resurrection: from the moment the marker holds the current generation, nothing is applied for the
   ImagePatch until its generation changes, a user removes the marker, or the object is replaced.
   */
  lemma NoResurrection(run: seq<Machine>, moves: seq<Move>, c: Component, generation: nat, i: nat, k: nat)
    requires IsRun(run, moves) && i <= k < |moves|
    requires Marked(run[i].world, c, generation)
    requires forall j | i <= j <= k :: Undisturbed(run[j], moves[j], c, generation)
    ensures Marked(run[k].world, c, generation) && !Applies(run[k], moves[k], c)
  {
    MarkerPersists(run, moves, c, generation, i, k);
    RunsAreSafe(run, moves, k);
    MarkedIsNotApplied(run[k], moves[k], c, generation);
  }

  lemma MarkedIsNotApplied(m: Machine, move: Move, c: Component, generation: nat)
    requires Inv(m) && Marked(m.world, c, generation)
    ensures !Applies(m, move, c)
  {
  }

  /** A pass that reports a revert after an upgrade, the bundled tag, or an overtaken tag ends unmanaged. */
  lemma RevertedPassesEndUnmanaged(run: seq<Machine>, moves: seq<Move>, k: nat)
    requires IsRun(run, moves) && k < |moves| && moves[k].WorkerStep?
    requires run[k].worker.Busy? && run[k].worker.pc.WritingStatus? && LeavesUnmanaged(run[k].worker.pc.outcome)
    ensures Managed(run[k + 1].world, run[k].worker.c) == ""
  {
    RunsAreSafe(run, moves, k);
    assert Follows(run, moves, k);
    SameConfigsSameMarks(run[k].world, run[k + 1].world);
  }

  /** The finalizer goes only when the component is unmanaged, even if the user deletes in mid-pass. */
  lemma ReleasedOnlyUnmanaged(run: seq<Machine>, moves: seq<Move>, k: nat, c: Component)
    requires IsRun(run, moves) && k < |moves|
    requires Held(run[k].world, c) && !Held(run[k + 1].world, c)
    ensures Managed(run[k].world, c) == "" && Managed(run[k + 1].world, c) == ""
  {
    RunsAreSafe(run, moves, k);
    RunsAreSafe(run, moves, k + 1);
    assert Follows(run, moves, k);
    if moves[k].WorkerStep? {
      WritesOneObject(run[k]);
      ReleaseSeen(run[k].world, run[k + 1].world, c);
    } else {
      OtherMoveShrinks(run[k], moves[k]);
    }
  }

  lemma WritesOneObject(m: Machine)
    requires m.worker.Busy?
    ensures Step(m).world.configs == m.world.configs || Step(m).world.patches == m.world.patches
  {
    if Reads(m.worker.pc) {
      ReadsChangeNothing(m);
    } else if m.worker.pc.Applying? || m.worker.pc.Reverting? || m.worker.pc.FinalizeReverting? {
      ConfigWritersKeepPatches(m);
    } else {
      PatchWritersKeepConfigs(m);
    }
  }

  lemma ConfigWritersKeepPatches(m: Machine)
    requires m.worker.Busy? && (m.worker.pc.Applying? || m.worker.pc.Reverting? || m.worker.pc.FinalizeReverting?)
    ensures Step(m).world.patches == m.world.patches
  {
  }

  lemma PatchWritersKeepConfigs(m: Machine)
    requires m.worker.Busy? && !Reads(m.worker.pc)
    requires !(m.worker.pc.Applying? || m.worker.pc.Reverting? || m.worker.pc.FinalizeReverting?)
    ensures Step(m).world.configs == m.world.configs
  {
  }

  lemma ReleaseSeen(w: World, v: World, c: Component)
    requires v.configs == w.configs || v.patches == w.patches
    requires Held(w, c) && !Held(v, c) && NoOrphan(v)
    ensures Managed(w, c) == ""
  {
    assert Managed(v, c) == "";
  }
}
