/**
 The objects the ImagePatch controller works on, and what one undisturbed reconcile pass decides and does.
 Decide and AfterPass describe a whole pass at once; Protocol splits the same pass into its reads and writes.
 */
module Cluster {
  import opened Text
  import opened Values
  import opened Comparison
  import opened Components
  import opened Patcher
  import opened Policy
  import CliState

  type Version = v: string | v != "" witness "v1"

  type ValidDate = d: Date | Valid(d) witness Date(0, 1, 1)

  datatype UpgradePolicy = Manual | AutoRevert

  /** An ImagePatch: its spec, the controller's finalizer and marker, and the applied tag of its status. */
  datatype ImagePatch = ImagePatch(
    generation: nat, tag: string, policy: UpgradePolicy, deleting: bool,
    finalizer: bool, marker: Option<nat>, appliedTag: string, rv: nat)

  /**
   A HelmChartConfig. managed holds the annotations patcher.rke2.cattle.io/<component>, each the RKE2
   version the component's values were applied on; rest is everything else on the object.
   */
  datatype Config = Config(values: Tree, managed: map<Component, Version>, rest: int, rv: nat)

  const NEW_REST := 0

  /** The values generated for a spec: with the running image's name, or else the component's repository. */
  function Generated(running: Option<string>, c: Component, tag: string): Tree {
    Generate(c, WithoutRegistry(match running case Some(name) => name case None => Repository(c)), tag)
  }

  /** The keys a component's patches write, whatever they were set to. */
  function RevertKeys(c: Component): Tree { Generate(c, WithoutRegistry(Repository(c)), "revert") }

  /** The checks of a new target tag, in order. */
  function CheckTarget(tags: seq<string>, zeroDay: ValidDate, c: Component, baseline: string, appliedTag: string,
      tag: string): Verdict {
    var notOlder := if appliedTag != "" then ValidateNotOlderThanCurrent(appliedTag, tag) else Allowed;
    if notOlder != Allowed then notOlder
    else
      var target := ValidateExplicitTarget(baseline, tag, tags);
      if target != Allowed then target else ValidatePatchWindow(c, tag, zeroDay)
  }

  /**
   What the patcher and its policy compute for a pass: the bundled tag of a chart, the values generated for a
   running image and a tag, the values a revert strips, and the verdicts on a target and on one in place.
   */
  datatype Rules = Rules(
    bundled: (Component, Tree) -> Option<string>, generated: (Option<string>, Component, string) -> Tree,
    revertKeys: Component -> Tree,
    check: (seq<string>, ValidDate, Component, string, string, string) -> Verdict, recheck: (string, string) -> Verdict)

  ghost predicate AreRules(r: Rules) {
    (forall c, chart {:trigger BundledTag(c, chart)} :: r.bundled(c, chart) == BundledTag(c, chart)) &&
    (forall running, c, tag {:trigger Generated(running, c, tag)} ::
      r.generated(running, c, tag) == Generated(running, c, tag)) &&
    (forall c {:trigger RevertKeys(c)} :: r.revertKeys(c) == RevertKeys(c)) &&
    (forall tags, day, c, baseline, applied, tag {:trigger CheckTarget(tags, day, c, baseline, applied, tag)} ::
      r.check(tags, day, c, baseline, applied, tag) == CheckTarget(tags, day, c, baseline, applied, tag)) &&
    (forall baseline, tag {:trigger ValidateAgainstBaseline(baseline, tag)} ::
      r.recheck(baseline, tag) == ValidateAgainstBaseline(baseline, tag))
  }

  /** These functions as values: what follows from their results is proved without looking into them. */
  ghost function TheRules(): (r: Rules)
    ensures AreRules(r)
  {
    var same := Rules(
      (c: Component, chart: Tree) => BundledTag(c, chart),
      (running, c, tag) => Generated(running, c, tag), c => RevertKeys(c),
      (tags, day: ValidDate, c, baseline, applied, tag) => CheckTarget(tags, day, c, baseline, applied, tag),
      (baseline, tag) => ValidateAgainstBaseline(baseline, tag));
    assert AreRules(same);
    var r :| AreRules(r);
    r
  }

  /** What a pass reads besides the three kinds of objects, and what follows from it. */
  datatype Outside = Outside(
    prime: string -> bool, charts: string -> Tree, tags: Component -> seq<string>, zeroDay: ValidDate,
    running: Component -> Option<string>)
  {
    ghost function bundled(c: Component): Option<string> { TheRules().bundled(c, charts(Chart(c))) }

    ghost function generated(c: Component, tag: string): Tree { TheRules().generated(running(c), c, tag) }

    ghost function revertKeys(c: Component): Tree { TheRules().revertKeys(c) }

    ghost function check(c: Component, baseline: string, applied: string, tag: string): Verdict {
      TheRules().check(tags(c), zeroDay, c, baseline, applied, tag)
    }

    ghost function recheck(baseline: string, tag: string): Verdict { TheRules().recheck(baseline, tag) }
  }

  datatype World = World(
    version: Version, out: Outside, cli: CliState.State,
    patches: map<Component, ImagePatch>, configs: map<string, Config>, clock: nat)

  // ---------- reading ----------

  function ConfigOf(w: World, c: Component): Option<Config> {
    if Chart(c) in w.configs then Some(w.configs[Chart(c)]) else None
  }

  /** The version a component is managed on, according to a HelmChartConfig; empty if it is not managed. */
  function ManagedOn(seen: Option<Config>, c: Component): string {
    if seen.Some? && c in seen.value.managed then seen.value.managed[c] else ""
  }

  function Managed(w: World, c: Component): string { ManagedOn(ConfigOf(w, c), c) }

  function ValuesOf(seen: Option<Config>): Tree { if seen.Some? then seen.value.values else Empty }

  // ---------- writing ----------

  function PutPatch(w: World, c: Component, p: ImagePatch): World {
    w.(patches := w.patches[c := p.(rv := w.clock)], clock := w.clock + 1)
  }

  function DropPatch(w: World, c: Component): World {
    w.(patches := w.patches - {c}, clock := w.clock + 1)
  }

  function PutConfig(w: World, c: Component, config: Config): World {
    w.(configs := w.configs[Chart(c) := config.(rv := w.clock)], clock := w.clock + 1)
  }

  /** The HelmChartConfig with a component's values merged in and marked as applied on a version. */
  function Patched(seen: Option<Config>, c: Component, generated: Tree, version: Version): Config {
    match seen
    case Some(config) => config.(values := Merge(config.values, generated), managed := config.managed[c := version])
    case None => Config(Merge(Empty, generated), map[c := version], NEW_REST, 0)
  }

  /** The HelmChartConfig with a component's values and mark stripped. */
  ghost function Stripped(out: Outside, config: Config, c: Component): Config {
    config.(values := Subtract(config.values, out.revertKeys(c)), managed := config.managed - {c})
  }

  // ---------- deciding ----------

  datatype Refusal =
    | NotPrime | CLIPatchesExist | ChartLayoutMismatch | StalePatchesExist | ConflictingOverride | Rule(reason: Reason)

  datatype Outcome =
    | Blocked(why: Refusal) | Stale | RevertedAfterUpgrade | AtBaseline | Overtaken(reason: Reason)
    | Steady | Applied | Retrying

  /** What a pass does to the HelmChartConfig, and the applied tag it records. */
  datatype Decision =
    | Leave(outcome: Outcome, appliedTag: string)
    | Revert(outcome: Outcome)
    | Apply(generated: Tree)

  ghost predicate HasConflict(values: Tree, generated: Tree) { exists p :: Conflict(values, generated, p) }

  ghost predicate StaleOther(w: World, c: Component) {
    exists d :: d != c && Managed(w, d) != "" && Managed(w, d) != w.version
  }

  datatype Gates = Shut(why: Refusal) | Open(baseline: string)

  /** The gates a pass goes through before it looks at the HelmChartConfig, and the bundled tag behind them. */
  ghost function Gate(w: World, c: Component): Gates {
    if !w.out.prime(Chart(c)) then Shut(NotPrime)
    else if w.cli != map[] then Shut(CLIPatchesExist)
    else match w.out.bundled(c) case None => Shut(ChartLayoutMismatch) case Some(baseline) => Open(baseline)
  }

  predicate ManagedOnOldVersion(w: World, c: Component) { Managed(w, c) != "" && Managed(w, c) != w.version }

  ghost function Decide(w: World, c: Component, p: ImagePatch): (d: Decision)
    ensures d.Revert? ==> Managed(w, c) != ""
  {
    match Gate(w, c)
    case Shut(why) => Leave(Blocked(why), p.appliedTag)
    case Open(baseline) => DecideOpen(w, c, p, baseline)
  }

  /** With the gates open. */
  ghost function DecideOpen(w: World, c: Component, p: ImagePatch, baseline: string): (d: Decision)
    ensures d.Revert? ==> Managed(w, c) != ""
  {
    if p.marker == Some(p.generation) then
      if Managed(w, c) != "" then Revert(RevertedAfterUpgrade) else Leave(RevertedAfterUpgrade, "")
    else if ManagedOnOldVersion(w, c) then
      if p.policy == Manual then Leave(Stale, p.appliedTag) else Revert(RevertedAfterUpgrade)
    else
      DecideTarget(w.out, c, ConfigOf(w, c), StaleOther(w, c), p.tag, p.appliedTag, baseline)
  }

  /** With no marker for this spec, and no patch from another version. */
  ghost function DecideTarget(
      out: Outside, c: Component, seen: Option<Config>, stale: bool, tag: string, appliedTag: string,
      baseline: string): (d: Decision)
    ensures d.Revert? ==> ManagedOn(seen, c) != ""
  {
    DecideWith(c, seen, stale, tag, appliedTag, baseline,
               out.generated(c, tag), out.recheck(baseline, tag), out.check(c, baseline, appliedTag, tag))
  }

  ghost function DecideWith(
      c: Component, seen: Option<Config>, stale: bool, tag: string, appliedTag: string, baseline: string,
      generated: Tree, recheck: Verdict, check: Verdict): (d: Decision)
    ensures d.Revert? ==> ManagedOn(seen, c) != ""
  {
    if tag == baseline then
      if ManagedOn(seen, c) != "" then Revert(AtBaseline) else Leave(AtBaseline, "")
    else DecidePatch(c, seen, stale, tag, appliedTag, generated, recheck, check)
  }

  /** A tag other than the bundled one. */
  ghost function DecidePatch(
      c: Component, seen: Option<Config>, stale: bool, tag: string, appliedTag: string,
      generated: Tree, recheck: Verdict, check: Verdict): (d: Decision)
    ensures d.Revert? ==> ManagedOn(seen, c) != ""
  {
    if ManagedOn(seen, c) != "" && Present(ValuesOf(seen), generated) then Recheck(tag, recheck)
    else if stale then Leave(Blocked(StalePatchesExist), appliedTag)
    else DecideNew(c, seen, generated, appliedTag, check)
  }

  /** Values that are in place stay unless the bundled tag has overtaken them. */
  function Recheck(tag: string, verdict: Verdict): Decision {
    match verdict
    case Allowed => Leave(Steady, tag)
    case Refused(reason) => Revert(Overtaken(reason))
  }

  ghost function DecideNew(c: Component, seen: Option<Config>, generated: Tree, appliedTag: string,
      verdict: Verdict): (d: Decision)
    ensures !d.Revert?
  {
    match verdict
    case Refused(reason) => Leave(Blocked(Rule(reason)), appliedTag)
    case Allowed =>
      if ManagedOn(seen, c) == "" && HasConflict(ValuesOf(seen), generated)
      then Leave(Blocked(ConflictingOverride), appliedTag)
      else Apply(generated)
  }

  // ---------- a whole pass ----------

  function AddFinalizer(w: World, c: Component): World
    requires c in w.patches
  {
    if w.patches[c].finalizer then w else PutPatch(w, c, w.patches[c].(finalizer := true))
  }

  /** A marker for another spec is removed. */
  function ForgetMarker(w: World, c: Component): World
    requires c in w.patches
  {
    var p := w.patches[c];
    if p.marker.Some? && p.marker != Some(p.generation) then PutPatch(w, c, p.(marker := None)) else w
  }

  /** AutoRevert records the generation before it reverts. */
  function RecordMarker(w: World, c: Component): World
    requires c in w.patches
  {
    var p := w.patches[c];
    if p.marker.None? && ManagedOnOldVersion(w, c) && p.policy == AutoRevert
    then PutPatch(w, c, p.(marker := Some(p.generation)))
    else w
  }

  /** The object's own bookkeeping before anything else is written. */
  ghost function Prepared(w: World, c: Component): (r: World)
    requires c in w.patches
    ensures c in r.patches && r.configs == w.configs
  {
    var v := AddFinalizer(w, c);
    if Gate(w, c).Open? then RecordMarker(ForgetMarker(v, c), c) else v
  }

  function RecordTag(w: World, c: Component, tag: string): World
    requires c in w.patches
  {
    if w.patches[c].appliedTag == tag then w else PutPatch(w, c, w.patches[c].(appliedTag := tag))
  }

  ghost function Carry(w: World, c: Component, decision: Decision): World
    requires c in w.patches
    requires decision.Revert? ==> ConfigOf(w, c).Some?
  {
    match decision
    case Leave(_, tag) => RecordTag(w, c, tag)
    case Revert(_) => RecordTag(PutConfig(w, c, Stripped(w.out, ConfigOf(w, c).value, c)), c, "")
    case Apply(generated) =>
      RecordTag(PutConfig(w, c, Patched(ConfigOf(w, c), c, generated, w.version)), c, w.patches[c].tag)
  }

  /** Deletion: strip what the controller manages, then release the object. */
  ghost function Finalized(w: World, c: Component): World
    requires c in w.patches
  {
    if !w.patches[c].finalizer then w
    else DropPatch(if Managed(w, c) != "" then PutConfig(w, c, Stripped(w.out, ConfigOf(w, c).value, c)) else w, c)
  }

  /** The state after one pass for c that nothing interrupts and no one else disturbs. */
  ghost function AfterPass(w: World, c: Component): World {
    if c !in w.patches then w
    else if w.patches[c].deleting then Finalized(w, c)
    else
      Carry(Prepared(w, c), c, Decide(w, c, w.patches[c]))
  }

  /** The pass writes the HelmChartConfig. */
  ghost predicate Writes(w: World, c: Component) {
    c in w.patches &&
    if w.patches[c].deleting then w.patches[c].finalizer && Managed(w, c) != ""
    else !Decide(w, c, w.patches[c]).Leave?
  }
}
