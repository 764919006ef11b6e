/** The ImagePatch controller as an object: the methods of a reconcile pass, proved against AfterPass. */
module Controller {
  import opened Text
  import opened Values
  import opened Comparison
  import opened Components
  import opened Patcher
  import opened Policy
  import opened Cluster
  import opened Protocol
  import opened Pass
  import Safety
  import CliState

  /** The controller and the API server it writes to, while nobody else does. */
  class Reconciler {
    const version: Version
    const out: Outside
    const cli: CliState.State
    var patches: map<Component, ImagePatch>
    var configs: map<string, Config>
    var clock: nat

    constructor (w: World)
      ensures View() == w
    {
      version, out, cli := w.version, w.out, w.cli;
      patches, configs, clock := w.patches, w.configs, w.clock;
    }

    ghost function View(): World
      reads this
    {
      World(version, out, cli, patches, configs, clock)
    }

    // ---------- reads and writes ----------

    method UpdatePatch(c: Component, p: ImagePatch)
      modifies `patches, `clock
      ensures View() == PutPatch(old(View()), c, p)
    {
      patches := patches[c := p.(rv := clock)];
      clock := clock + 1;
    }

    method GetHelmChartConfig(c: Component) returns (seen: Option<Config>)
      ensures seen == ConfigOf(View(), c)
    {
      seen := if Chart(c) in configs then Some(configs[Chart(c)]) else None;
    }

    /** Creates the object when no version is expected, else replaces that version of it. */
    method ApplyHelmChartConfig(c: Component, config: Config, expected: Option<nat>) returns (ok: bool)
      modifies `configs, `clock
      ensures ok <==> expected == match ConfigOf(old(View()), c) case None => None
              case Some(current) => Some(current.rv)
      ensures View() == if ok then PutConfig(old(View()), c, config) else old(View())
    {
      match expected {
        case None => ok := Chart(c) !in configs;
        case Some(rv) => ok := Chart(c) in configs && configs[Chart(c)].rv == rv;
      }
      if ok {
        configs := configs[Chart(c) := config.(rv := clock)];
        clock := clock + 1;
      }
    }

    /** Strips the component's values and mark. */
    method Revert(c: Component, current: Option<Config>)
      requires current == ConfigOf(View(), c)
      modifies `configs, `clock
      ensures View() == if current.None?
              then old(View()) else PutConfig(old(View()), c, Stripped(out, current.value, c))
    {
      if current.None? {
        return;
      }
      var keys := RevertKeys(c);
      var reverted := DeepSubtractMap(current.value.values, keys);
      var config := current.value.(values := reverted, managed := current.value.managed - {c});
      assert config == Stripped(out, current.value, c);
      var ok := ApplyHelmChartConfig(c, config, Some(current.value.rv));
    }

    method SetRevertedGeneration(c: Component, marker: Option<nat>)
      requires c in patches
      modifies `patches, `clock
      ensures View() == PutPatch(old(View()), c, old(patches)[c].(marker := marker))
    {
      UpdatePatch(c, patches[c].(marker := marker));
    }

    /** Some other component's values were applied on another RKE2 version. */
    method StalePatches(except: Component) returns (stale: seq<Component>)
      ensures stale != [] <==> StaleOther(View(), except)
      ensures forall d | d in stale :: d != except && ManagedOnOldVersion(View(), d)
    {
      stale := [];
      for i := 0 to |SUPPORTED|
        invariant forall d | d in stale :: d != except && ManagedOnOldVersion(View(), d)
        invariant stale == [] ==>
                  forall j | 0 <= j < i && SUPPORTED[j] != except :: !ManagedOnOldVersion(View(), SUPPORTED[j])
      {
        if SUPPORTED[i] == except {
          continue;
        }
        var current := GetHelmChartConfig(SUPPORTED[i]);
        var on := ManagedOn(current, SUPPORTED[i]);
        if on != "" && on != version {
          stale := stale + [SUPPORTED[i]];
        }
      }
      ghost var w := View();
      StaleListed(w, except, stale);
    }

    // ---------- the pass ----------

    /** From the running images on: the bundled tag means no patch. */
    method ReconcileTarget(c: Component, baseline: string, current: Option<Config>)
        returns (outcome: Outcome, appliedTag: string)
      requires c in patches && current == ConfigOf(View(), c)
      modifies `configs, `clock
      ensures patches == old(patches)
      ensures var w := old(View()); var p := w.patches[c];
              RecordTag(View(), c, appliedTag) ==
              Carry(w, c, DecideTarget(out, c, current, StaleOther(w, c), p.tag, p.appliedTag, baseline))
    {
      TargetBranches(View(), c, current, baseline);
      if patches[c].tag != baseline {
        outcome, appliedTag := ReconcileTag(c, baseline, current);
        return;
      }
      if ManagedOn(current, c) != "" {
        Revert(c, current);
      }
      return AtBaseline, "";
    }

    /** A tag of its own: in place, or a new target. */
    method ReconcileTag(c: Component, baseline: string, current: Option<Config>)
        returns (outcome: Outcome, appliedTag: string)
      requires c in patches && current == ConfigOf(View(), c)
      modifies `configs, `clock
      ensures patches == old(patches)
      ensures var w := old(View()); var p := w.patches[c];
              RecordTag(View(), c, appliedTag) ==
              Carry(w, c, DecidePatch(c, current, StaleOther(w, c), p.tag, p.appliedTag, out.generated(c, p.tag),
                                      out.recheck(baseline, p.tag), out.check(c, baseline, p.appliedTag, p.tag)))
    {
      var p := patches[c];
      var generated := Generated(out.running(c), c, p.tag);
      assert generated == out.generated(c, p.tag);
      var present, conflicting := Compare(current, generated);
      var recheck := ValidateAgainstBaseline(baseline, p.tag);
      TagBranches(View(), c, current, generated, recheck, out.check(c, baseline, p.appliedTag, p.tag));
      if ManagedOn(current, c) == "" || !present {
        outcome, appliedTag := ReconcileNew(c, baseline, current, generated, conflicting);
        return;
      }
      if recheck.Refused? {
        Revert(c, current);
        return Overtaken(recheck.reason), "";
      }
      return Steady, p.tag;
    }

    /** Merges the generated values in and marks them as applied on the version read. */
    method Apply(c: Component, current: Option<Config>, generated: Tree)
      requires current == ConfigOf(View(), c)
      modifies `configs, `clock
      ensures View() == PutConfig(old(View()), c, Patched(current, c, generated, version))
    {
      var expected := if current.Some? then Some(current.value.rv) else None;
      var ok := ApplyHelmChartConfig(c, Patched(current, c, generated, version), expected);
    }

    /** CompareGeneratedValues. */
    method Compare(current: Option<Config>, generated: Tree) returns (present: bool, conflicting: bool)
      ensures present == Present(ValuesOf(current), generated) &&
              conflicting == HasConflict(ValuesOf(current), generated)
    {
      var conflicts;
      present, conflicts := CompareLeaves(ValuesOf(current), generated, [], true, []);
      ConflictsFound(ValuesOf(current), generated, conflicts);
      conflicting := conflicts != [];
    }

    /** A target that is not in place: stale patches, rules, conflicts, and the apply. */
    method ReconcileNew(c: Component, baseline: string, current: Option<Config>, generated: Tree, conflicting: bool)
        returns (outcome: Outcome, appliedTag: string)
      requires c in patches && current == ConfigOf(View(), c)
      requires conflicting == HasConflict(ValuesOf(current), generated)
      modifies `configs, `clock
      ensures patches == old(patches)
      ensures var w := old(View()); var p := w.patches[c];
              RecordTag(View(), c, appliedTag) ==
              if StaleOther(w, c) then w
              else Carry(w, c, DecideNew(c, current, generated, p.appliedTag,
                out.check(c, baseline, p.appliedTag, p.tag)))
    {
      var p := patches[c];
      NewBranches(View(), c, current, generated, out.check(c, baseline, p.appliedTag, p.tag));
      var stale := StalePatches(c);
      if stale != [] {
        return Blocked(StalePatchesExist), p.appliedTag;
      }
      var verdict := CheckRules(c, baseline, p.appliedTag, p.tag);
      if verdict.Refused? {
        return Blocked(Rule(verdict.reason)), p.appliedTag;
      }
      if ManagedOn(current, c) == "" && conflicting {
        return Blocked(ConflictingOverride), p.appliedTag;
      }
      Apply(c, current, generated);
      return Applied, p.tag;
    }

    /** The rules for a new target, one after the other. */
    method CheckRules(c: Component, baseline: string, appliedTag: string, tag: string) returns (verdict: Verdict)
      ensures verdict == out.check(c, baseline, appliedTag, tag)
    {
      ghost var all := CheckTarget(out.tags(c), out.zeroDay, c, baseline, appliedTag, tag);
      assert out.check(c, baseline, appliedTag, tag) == all;
      if appliedTag != "" {
        verdict := ValidateNotOlderThanCurrent(appliedTag, tag);
        if verdict.Refused? {
          return;
        }
      }
      verdict := ValidateExplicitTargetLoop(baseline, tag, out.tags(c));
      if verdict.Refused? {
        return;
      }
      verdict := ValidatePatchWindow(c, tag, out.zeroDay);
    }

    /** reconcilePatch: the outcome and the applied tag to record. */
    method ReconcilePatch(c: Component) returns (outcome: Outcome, appliedTag: string)
      requires c in patches
      modifies `patches, `configs, `clock
      ensures c in patches
      ensures RecordTag(View(), c, appliedTag) ==
              match Gate(old(View()), c) case Shut(_) => old(View())
                case Open(baseline) => FromConfig(old(View()), c, baseline)
    {
      appliedTag := patches[c].appliedTag;
      if !out.prime(Chart(c)) {
        return Blocked(NotPrime), appliedTag;
      }
      if cli != map[] {
        return Blocked(CLIPatchesExist), appliedTag;
      }
      var bundled := BundledImageTag(ImagePaths(c), TagKey(c), Repository(c), out.charts(Chart(c)));
      BundledFound(out, c, bundled);
      if bundled.None? {
        return Blocked(ChartLayoutMismatch), appliedTag;
      }
      outcome, appliedTag := ReconcileConfig(c, bundled.value);
    }

    /** From the HelmChartConfig on: the marker of an earlier revert. */
    method ReconcileConfig(c: Component, baseline: string) returns (outcome: Outcome, appliedTag: string)
      requires c in patches
      modifies `patches, `configs, `clock
      ensures c in patches
      ensures RecordTag(View(), c, appliedTag) == FromConfig(old(View()), c, baseline)
    {
      var p := patches[c];
      var current := GetHelmChartConfig(c);
      ConfigBranches(View(), c, baseline);
      if p.marker.Some? {
        if p.marker == Some(p.generation) {
          if ManagedOn(current, c) != "" {
            Revert(c, current);
          }
          return RevertedAfterUpgrade, "";
        }
        SetRevertedGeneration(c, None);
      }
      assert View() == ForgetMarker(old(View()), c);
      outcome, appliedTag := ReconcileUpgrade(c, baseline, current);
    }

    /** With no marker: a patch from another RKE2 version, or the target. */
    method ReconcileUpgrade(c: Component, baseline: string, current: Option<Config>)
        returns (outcome: Outcome, appliedTag: string)
      requires c in patches && patches[c].marker.None? && current == ConfigOf(View(), c)
      modifies `patches, `configs, `clock
      ensures c in patches
      ensures RecordTag(View(), c, appliedTag) == FromMarker(old(View()), c, baseline)
    {
      var p := patches[c];
      var on := ManagedOn(current, c);
      UpgradeBranches(View(), c, baseline);
      if on != "" && on != version {
        if p.policy == Manual {
          return Stale, p.appliedTag;
        }
        SetRevertedGeneration(c, Some(p.generation));
        Revert(c, current);
        return RevertedAfterUpgrade, "";
      }
      outcome, appliedTag := ReconcileTarget(c, baseline, current);
    }

    /** finalize: strips what the controller manages, then releases the object. */
    method Finalize(c: Component)
      requires c in patches
      modifies `patches, `configs, `clock
      ensures View() == Finalized(old(View()), c)
    {
      if !patches[c].finalizer {
        return;
      }
      var current := GetHelmChartConfig(c);
      if ManagedOn(current, c) != "" {
        Revert(c, current);
      }
      patches := patches - {c};
      clock := clock + 1;
    }

    /** Reconcile: one pass, for whatever is in the cluster. */
    method Reconcile(c: Component)
      modifies `patches, `configs, `clock
      ensures View() == AfterPass(old(View()), c)
    {
      if c !in patches {
        return;
      }
      if patches[c].deleting {
        Finalize(c);
        return;
      }
      if !patches[c].finalizer {
        UpdatePatch(c, patches[c].(finalizer := true));
      }
      ghost var v := View();
      LiveIsCarry(old(View()), v, c, Gate(old(View()), c));
      var outcome, appliedTag := ReconcilePatch(c);
      if patches[c].appliedTag != appliedTag {
        UpdatePatch(c, patches[c].(appliedTag := appliedTag));
      }
    }
  }

  // ---------- the branches of a pass ----------

  /** What a revert leaves, with the tag it records. */
  ghost function Reverted(w: World, c: Component): World
    requires c in w.patches
  {
    RecordTag(if ConfigOf(w, c).None? then w else PutConfig(w, c, Stripped(w.out, ConfigOf(w, c).value, c)), c, "")
  }

  /** From the marker on, with the bookkeeping of the marker done. */
  ghost function FromMarker(w: World, c: Component, baseline: string): World
    requires c in w.patches
  {
    Carry(RecordMarker(w, c), c, DecideOpen(w, c, w.patches[c], baseline))
  }

  lemma ConfigBranches(w: World, c: Component, baseline: string)
    requires c in w.patches
    ensures var p := w.patches[c];
            FromConfig(w, c, baseline) ==
            if p.marker == Some(p.generation) then (if Managed(w, c) != "" then Reverted(w, c) else RecordTag(w, c, ""))
            else FromMarker(ForgetMarker(w, c), c, baseline)
  {
    if w.patches[c].marker == Some(w.patches[c].generation) {
      ConfigWithMarker(w, c, baseline);
    } else {
      ConfigWithoutMarker(w, ForgetMarker(w, c), c, baseline);
    }
  }

  lemma ConfigWithoutMarker(w: World, v: World, c: Component, baseline: string)
    requires c in w.patches && w.patches[c].marker != Some(w.patches[c].generation) && v == ForgetMarker(w, c)
    ensures FromConfig(w, c, baseline) == FromMarker(v, c, baseline)
  {
    SameOpen(w, v, c, w.patches[c], v.patches[c], baseline);
  }

  lemma ConfigWithMarker(w: World, c: Component, baseline: string)
    requires c in w.patches && w.patches[c].marker == Some(w.patches[c].generation)
    ensures FromConfig(w, c, baseline) == if Managed(w, c) != "" then Reverted(w, c) else RecordTag(w, c, "")
  {
    assert ForgetMarker(w, c) == w && RecordMarker(w, c) == w;
  }

  lemma UpgradeBranches(w: World, c: Component, baseline: string)
    requires c in w.patches && w.patches[c].marker.None?
    ensures var p := w.patches[c];
            FromMarker(w, c, baseline) ==
            if !ManagedOnOldVersion(w, c) then
              Carry(w, c, DecideTarget(w.out, c, ConfigOf(w, c), StaleOther(w, c), p.tag, p.appliedTag, baseline))
            else if p.policy == Manual then RecordTag(w, c, p.appliedTag)
            else Reverted(PutPatch(w, c, p.(marker := Some(p.generation))), c)
  {
    if ManagedOnOldVersion(w, c) && w.patches[c].policy != Manual {
      RevertsAfterMark(w, PutPatch(w, c, w.patches[c].(marker := Some(w.patches[c].generation))), c, baseline);
    }
  }

  lemma RevertsAfterMark(w: World, v: World, c: Component, baseline: string)
    requires c in w.patches && w.patches[c].marker.None? && ManagedOnOldVersion(w, c) &&
             w.patches[c].policy == AutoRevert
    requires v == PutPatch(w, c, w.patches[c].(marker := Some(w.patches[c].generation)))
    ensures FromMarker(w, c, baseline) == Reverted(v, c)
  {
    assert ConfigOf(v, c) == ConfigOf(w, c);
  }

  lemma TargetBranches(w: World, c: Component, current: Option<Config>, baseline: string)
    requires c in w.patches && current == ConfigOf(w, c)
    ensures var p := w.patches[c];
            Carry(w, c, DecideTarget(w.out, c, current, StaleOther(w, c), p.tag, p.appliedTag, baseline)) ==
            if p.tag != baseline then
              Carry(w, c, DecidePatch(c, current, StaleOther(w, c), p.tag, p.appliedTag, w.out.generated(c, p.tag),
                                      w.out.recheck(baseline, p.tag), w.out.check(c, baseline, p.appliedTag, p.tag)))
            else if ManagedOn(current, c) != "" then Reverted(w, c)
            else RecordTag(w, c, "")
  {
  }

  lemma TagBranches(w: World, c: Component, current: Option<Config>, generated: Tree, recheck: Verdict, check: Verdict)
    requires c in w.patches && current == ConfigOf(w, c)
    ensures var p := w.patches[c];
            Carry(w, c, DecidePatch(c, current, StaleOther(w, c), p.tag, p.appliedTag, generated, recheck, check)) ==
            if ManagedOn(current, c) == "" || !Present(ValuesOf(current), generated) then
              (if StaleOther(w, c) then RecordTag(w, c, p.appliedTag)
               else Carry(w, c, DecideNew(c, current, generated, p.appliedTag, check)))
            else if recheck.Refused? then Reverted(w, c)
            else RecordTag(w, c, p.tag)
  {
  }

  lemma NewBranches(w: World, c: Component, current: Option<Config>, generated: Tree, check: Verdict)
    requires c in w.patches && current == ConfigOf(w, c)
    ensures var p := w.patches[c];
            Carry(w, c, DecideNew(c, current, generated, p.appliedTag, check)) ==
            if check.Refused? || (ManagedOn(current, c) == "" && HasConflict(ValuesOf(current), generated))
            then RecordTag(w, c, p.appliedTag)
            else RecordTag(PutConfig(w, c, Patched(current, c, generated, w.version)), c, p.tag)
  {
  }

  lemma StaleListed(w: World, c: Component, stale: seq<Component>)
    requires forall d | d in stale :: d != c && ManagedOnOldVersion(w, d)
    requires stale == [] ==>
             forall j | 0 <= j < |SUPPORTED| && SUPPORTED[j] != c :: !ManagedOnOldVersion(w, SUPPORTED[j])
    ensures stale != [] <==> StaleOther(w, c)
  {
    if stale != [] {
      var d := stale[0];
      assert d in stale;
      assert Managed(w, d) != "" && Managed(w, d) != w.version;
    } else if StaleOther(w, c) {
      var d :| d != c && Managed(w, d) != "" && Managed(w, d) != w.version;
      Safety.AllSupported(d);
      assert ManagedOnOldVersion(w, d);
    }
  }

  lemma ConflictsFound(values: Tree, generated: Tree, conflicts: seq<Path>)
    requires forall p :: p in conflicts[0..] <==> [] <= p && Conflict(values, generated, p[0..])
    ensures conflicts != [] <==> HasConflict(values, generated)
  {
    assert conflicts[0..] == conflicts;
    forall p ensures p in conflicts <==> Conflict(values, generated, p) {
      assert p[0..] == p;
    }
    if conflicts != [] {
      assert conflicts[0] in conflicts;
    }
  }

  lemma BundledFound(out: Outside, c: Component, bundled: Option<string>)
    requires bundled.Some? ==>
             AllImagesAre(out.charts(Chart(c)), ImagePaths(c), TagKey(c), Repository(c), bundled.value)
    requires bundled.None? ==>
             forall t :: !AllImagesAre(out.charts(Chart(c)), ImagePaths(c), TagKey(c), Repository(c), t)
    ensures out.bundled(c) == bundled
  {
    var found := BundledTag(c, out.charts(Chart(c)));
    if bundled.Some? {
      BundledTagIs(c, out.charts(Chart(c)), bundled.value);
    } else if found.Some? {
      BundledTagIs(c, out.charts(Chart(c)), found.value);
    }
  }
}
