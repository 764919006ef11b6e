/**
 The controller as a protocol: every read and every write of a reconcile pass is a step of its own, and
 users, RKE2 upgrades, the CLI and crashes move in between.
 */
module Protocol {
  import opened Text
  import opened Values
  import opened Comparison
  import opened Components
  import opened Patcher
  import opened Policy
  import CliState
  import opened Cluster

  /** Where a pass stands, with what it has read so far. */
  datatype Pc =
    | Fetched
    | AddingFinalizer
    | CheckingPrime
    | CheckingCli
    | ReadingVersion
    | ReadingChart(version: Version)
    | ReadingConfig(version: Version, baseline: string)
    | ClearingMarker(version: Version, baseline: string, seen: Option<Config>)
    | RecordingMarker(version: Version, baseline: string, seen: Option<Config>)
    | ReadingImages(version: Version, baseline: string, seen: Option<Config>)
    | CheckingStale(version: Version, baseline: string, seen: Option<Config>, generated: Tree, todo: seq<Component>,
      found: bool)
    | CheckingTarget(version: Version, baseline: string, seen: Option<Config>, generated: Tree)
    | Applying(version: Version, baseline: string, seen: Option<Config>, generated: Tree)
    | Reverting(outcome: Outcome, seen: Option<Config>)
    | WritingStatus(outcome: Outcome, appliedTag: string)
    | ReadingForFinalize
    | FinalizeReverting(seen: Option<Config>)
    | RemovingFinalizer

  /** The single reconcile worker: idle, or in a pass for c with its copy of the ImagePatch. */
  datatype Worker = Idle | Busy(c: Component, copy: ImagePatch, pc: Pc)

  datatype Machine = Machine(world: World, worker: Worker)

  // ---------- elementary moves of the worker ----------

  function Go(m: Machine, pc: Pc): Machine
    requires m.worker.Busy?
  {
    m.(worker := m.worker.(pc := pc))
  }

  function Stop(m: Machine): Machine { m.(worker := Idle) }

  /** An update of the ImagePatch succeeds only on the version the pass read. */
  function UpdatePatch(m: Machine, p: ImagePatch, next: Pc): Machine
    requires m.worker.Busy?
  {
    var c := m.worker.c;
    if c in m.world.patches && m.world.patches[c].rv == m.worker.copy.rv then
      var world := PutPatch(m.world, c, p);
      Machine(world, Busy(c, world.patches[c], next))
    else Stop(m)
  }

  /** A HelmChartConfig write creates what was not there, or replaces the version that was read. */
  predicate CanWrite(w: World, c: Component, seen: Option<Config>) {
    match seen
    case None => Chart(c) !in w.configs
    case Some(config) => Chart(c) in w.configs && w.configs[Chart(c)].rv == config.rv
  }

  // ---------- decisions taken between the reads ----------

  function AfterConfig(copy: ImagePatch, c: Component, version: Version, baseline: string, seen: Option<Config>): Pc {
    if copy.marker.None? then AfterMarker(copy, c, version, baseline, seen)
    else if copy.marker != Some(copy.generation) then ClearingMarker(version, baseline, seen)
    else if ManagedOn(seen, c) != "" then Reverting(RevertedAfterUpgrade, seen)
    else WritingStatus(RevertedAfterUpgrade, "")
  }

  function AfterMarker(copy: ImagePatch, c: Component, version: Version, baseline: string, seen: Option<Config>): Pc {
    if ManagedOn(seen, c) == "" || ManagedOn(seen, c) == version then ReadingImages(version, baseline, seen)
    else if copy.policy == Manual then WritingStatus(Stale, copy.appliedTag)
    else RecordingMarker(version, baseline, seen)
  }

  ghost function AfterImages(copy: ImagePatch, c: Component, version: Version, baseline: string, seen: Option<Config>,
      generated: Tree, recheck: Verdict): Pc {
    if copy.tag == baseline then
      if ManagedOn(seen, c) != "" then Reverting(AtBaseline, seen) else WritingStatus(AtBaseline, "")
    else AfterCompare(copy, c, version, baseline, seen, generated, recheck)
  }

  ghost function AfterCompare(copy: ImagePatch, c: Component, version: Version, baseline: string, seen: Option<Config>,
      generated: Tree, recheck: Verdict): Pc {
    if ManagedOn(seen, c) != "" && Present(ValuesOf(seen), generated) then
      match recheck
      case Allowed => WritingStatus(Steady, copy.tag)
      case Refused(reason) => Reverting(Overtaken(reason), seen)
    else CheckingStale(version, baseline, seen, generated, Others(c), false)
  }

  ghost function AfterTarget(copy: ImagePatch, c: Component, version: Version, baseline: string, seen: Option<Config>,
      generated: Tree, verdict: Verdict): Pc {
    match verdict
    case Refused(reason) => WritingStatus(Blocked(Rule(reason)), copy.appliedTag)
    case Allowed =>
      if ManagedOn(seen, c) == "" && HasConflict(ValuesOf(seen), generated)
      then WritingStatus(Blocked(ConflictingOverride), copy.appliedTag)
      else Applying(version, baseline, seen, generated)
  }

  const SUPPORTED: seq<Component> :=
    [CanalCalico, CanalFlannel, CoreDNS, ClusterAutoscaler, DnsNodeCache, Flannel, IngressNginx, MetricsServer,
     SnapshotController, Traefik]

  /** components.Supported without the component itself. */
  function Others(c: Component): (others: seq<Component>)
  {
    Without(SUPPORTED, c)
  }

  function Without(s: seq<Component>, c: Component): (r: seq<Component>)
    ensures forall d :: d in r <==> d in s && d != c
  {
    if s == [] then [] else if s[0] == c then Without(s[1..], c) else [s[0]] + Without(s[1..], c)
  }

  // ---------- one step of the worker ----------

  ghost function Step(m: Machine): Machine
    requires m.worker.Busy?
  {
    var w, c, copy := m.world, m.worker.c, m.worker.copy;
    match m.worker.pc
    case Fetched =>
      if copy.deleting then (if copy.finalizer then Go(m, ReadingForFinalize) else Stop(m))
      else if copy.finalizer then Go(m, CheckingPrime) else Go(m, AddingFinalizer)
    case AddingFinalizer => UpdatePatch(m, copy.(finalizer := true), CheckingPrime)
    case CheckingPrime =>
      if w.out.prime(Chart(c)) then Go(m, CheckingCli) else Go(m, WritingStatus(Blocked(NotPrime), copy.appliedTag))
    case CheckingCli =>
      if w.cli == map[] then Go(m, ReadingVersion) else Go(m, WritingStatus(Blocked(CLIPatchesExist), copy.appliedTag))
    case ReadingVersion => Go(m, ReadingChart(w.version))
    case ReadingChart(version) =>
      (match w.out.bundled(c)
       case None => Go(m, WritingStatus(Blocked(ChartLayoutMismatch), copy.appliedTag))
       case Some(baseline) => Go(m, ReadingConfig(version, baseline)))
    case ReadingConfig(version, baseline) => Go(m, AfterConfig(copy, c, version, baseline, ConfigOf(w, c)))
    case ClearingMarker(version, baseline, seen) =>
      UpdatePatch(m, copy.(marker := None), AfterMarker(copy, c, version, baseline, seen))
    case RecordingMarker(version, baseline, seen) =>
      UpdatePatch(m, copy.(marker := Some(copy.generation)), Reverting(RevertedAfterUpgrade, seen))
    case ReadingImages(version, baseline, seen) =>
      Go(m, AfterImages(copy, c, version, baseline, seen, w.out.generated(c, copy.tag),
        w.out.recheck(baseline, copy.tag)))
    case CheckingStale(version, baseline, seen, generated, todo, found) =>
      if todo == [] then
        if found then Go(m, WritingStatus(Blocked(StalePatchesExist), copy.appliedTag))
        else Go(m, CheckingTarget(version, baseline, seen, generated))
      else
        var on := Managed(w, todo[0]);
        Go(m, CheckingStale(version, baseline, seen, generated, todo[1..], found || (on != "" && on != version)))
    case CheckingTarget(version, baseline, seen, generated) =>
      Go(m, AfterTarget(copy, c, version, baseline, seen, generated,
        w.out.check(c, baseline, copy.appliedTag, copy.tag)))
    case Applying(version, baseline, seen, generated) =>
      if CanWrite(w, c, seen)
      then Go(m.(world := PutConfig(w, c, Patched(seen, c, generated, version))), WritingStatus(Applied, copy.tag))
      else Go(m, WritingStatus(Retrying, copy.appliedTag))
    case Reverting(outcome, seen) =>
      if seen.Some? && CanWrite(w, c, seen)
      then Go(m.(world := PutConfig(w, c, Stripped(w.out, seen.value, c))), WritingStatus(outcome, ""))
      else Stop(m)
    case WritingStatus(outcome, appliedTag) =>
      if copy.appliedTag == appliedTag
        then Stop(m) else Stop(UpdatePatch(m, copy.(appliedTag := appliedTag), m.worker.pc))
    case ReadingForFinalize =>
      if Managed(w, c) != "" then Go(m, FinalizeReverting(ConfigOf(w, c))) else Go(m, RemovingFinalizer)
    case FinalizeReverting(seen) =>
      if seen.Some? && CanWrite(w, c, seen)
      then Go(m.(world := PutConfig(w, c, Stripped(w.out, seen.value, c))), RemovingFinalizer)
      else Stop(m)
    case RemovingFinalizer =>
      if c in w.patches && w.patches[c].rv == copy.rv then Stop(m.(world := DropPatch(w, c))) else Stop(m)
  }

  // ---------- everyone else ----------

  /** What users may do to ImagePatch objects. */
  datatype PatchMove =
    | Create(tag: string, policy: UpgradePolicy)
    | EditSpec(newTag: string, newPolicy: UpgradePolicy)
    | RemoveMarker
    | Touch
    | Delete

  function MovePatch(w: World, c: Component, move: PatchMove): World {
    if move.Create? then
      if c in w.patches then w
      else PutPatch(w, c, ImagePatch(1, move.tag, move.policy, false, false, None, "", 0))
    else if c !in w.patches then w
    else
      var p := w.patches[c];
      match move
      case EditSpec(tag, policy) => PutPatch(w, c, p.(generation := p.generation + 1, tag := tag, policy := policy))
      case RemoveMarker => PutPatch(w, c, p.(marker := None))
      case Touch => PutPatch(w, c, p)
      case Delete =>
        if p.finalizer then PutPatch(w, c, p.(deleting := true, generation := p.generation + 1)) else DropPatch(w, c)
      case Create(_, _) => w
  }

  /** Users may write any values and drop ownership marks, but do not write marks of their own. */
  predicate UserConfig(before: Option<Config>, after: Config) {
    forall c | c in after.managed :: before.Some? && c in before.value.managed &&
      before.value.managed[c] == after.managed[c]
  }

  datatype Move =
    | WorkerStep
    | StartPass(c: Component)
    | Crash
    | OnPatch(target: Component, patchMove: PatchMove)
    | WriteConfig(chart: string, config: Config)
    | DeleteConfig(name: string)
    | Around(version: Version, out: Outside, cli: CliState.State)

  predicate CanMove(m: Machine, move: Move) {
    match move
    case WorkerStep => m.worker.Busy?
    case StartPass(c) => m.worker.Idle? && c in m.world.patches
    case WriteConfig(chart, config) =>
      UserConfig(if chart in m.world.configs then Some(m.world.configs[chart]) else None, config)
    case _ => true
  }

  ghost function After(m: Machine, move: Move): Machine
    requires CanMove(m, move)
  {
    match move
    case WorkerStep => Step(m)
    case StartPass(c) => m.(worker := Busy(c, m.world.patches[c], Fetched))
    case Crash => Stop(m)
    case OnPatch(c, patchMove) => m.(world := MovePatch(m.world, c, patchMove))
    case WriteConfig(chart, config) =>
      var w := m.world;
      m.(world := w.(configs := w.configs[chart := config.(rv := w.clock)], clock := w.clock + 1))
    case DeleteConfig(chart) => m.(world := m.world.(configs := m.world.configs - {chart}))
    case Around(version, out, cli) => m.(world := m.world.(version := version, out := out, cli := cli))
  }

  ghost predicate Initial(m: Machine) {
    m.worker.Idle? && m.world.patches == map[] &&
    forall chart | chart in m.world.configs ::
      m.world.configs[chart].managed == map[] && m.world.configs[chart].rv < m.world.clock
  }

  /** A run: the states of the machine under a sequence of moves. */
  ghost predicate IsRun(run: seq<Machine>, moves: seq<Move>) {
    |run| == |moves| + 1 && Initial(run[0]) && forall i | 0 <= i < |moves| :: Follows(run, moves, i)
  }

  ghost predicate Follows(run: seq<Machine>, moves: seq<Move>, i: nat)
    requires i < |moves| < |run|
  {
    CanMove(run[i], moves[i]) && run[i + 1] == After(run[i], moves[i])
  }
}
