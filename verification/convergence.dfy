/**
 With nothing else happening, reconciling comes to rest: after two rounds over all ImagePatches no pass writes
 a HelmChartConfig, whatever state they start from.
 */
module Convergence {
  import opened Text
  import opened Values
  import opened Comparison
  import opened Components
  import opened Patcher
  import opened Policy
  import opened Cluster
  import opened Protocol
  import opened Safety
  import opened Pass
  import opened Layout

  // ---------- sequences of passes ----------

  /** AfterPass as a value: what holds of any sequence of passes is proved without looking into them. */
  ghost function Passer(): (pass: (World, Component) -> World)
    ensures forall w, c {:trigger AfterPass(w, c)} :: pass(w, c) == AfterPass(w, c)
  {
    var same: (World, Component) -> World := (w, c) => AfterPass(w, c);
    assert forall w, c {:trigger AfterPass(w, c)} :: same(w, c) == AfterPass(w, c);
    var pass: (World, Component) -> World :| forall w, c {:trigger AfterPass(w, c)} :: pass(w, c) == AfterPass(w, c);
    pass
  }

  /** One undisturbed pass after the other. */
  ghost function Passes(w: World, cs: seq<Component>): World {
    if cs == [] then w else Passer()(Passes(w, cs[..|cs| - 1]), cs[|cs| - 1])
  }

  /** What reachable states satisfy: the invariant of runs, and a fitting chart behind every current mark. */
  ghost predicate Sound(w: World) {
    Inv(Machine(w, Idle)) && forall c | Managed(w, c) == w.version :: w.out.bundled(c).Some?
  }

  // ---------- what one pass changes ----------

  predicate SameSpec(p: ImagePatch, q: ImagePatch) {
    q.tag == p.tag && q.policy == p.policy && q.generation == p.generation && q.deleting == p.deleting
  }

  /** Only c's mark and the HelmChartConfig of c's chart may differ. */
  ghost predicate OwnConfig(w: World, v: World, c: Component) {
    (forall d | d != c :: Managed(v, d) == Managed(w, d)) &&
      forall d | Chart(d) != Chart(c) :: ConfigOf(v, d) == ConfigOf(w, d)
  }

  /** A pass for c keeps everything but c's own object and mark, and the values of c's HelmChartConfig. */
  ghost predicate Effect(w: World, v: World, c: Component) { EffectIf(w, v, c, Writes(w, c)) }

  ghost predicate EffectIf(w: World, v: World, c: Component, writes: bool) {
    v.out == w.out && v.version == w.version && v.cli == w.cli && OwnConfig(w, v, c) &&
    (forall d | d != c :: (d in v.patches <==> d in w.patches) && (d in w.patches ==> v.patches[d] == w.patches[d])) &&
    (c in v.patches ==> c in w.patches && SameSpec(w.patches[c], v.patches[c])) &&
    (if writes then Rewritten(w, v, c) else v.configs == w.configs)
  }

  ghost predicate Rewritten(w: World, v: World, c: Component) {
    c in w.patches &&
    (Holds(v, c, Subtract(ValuesOf(ConfigOf(w, c)), w.out.revertKeys(c))) ||
     Holds(v, c, Merge(ValuesOf(ConfigOf(w, c)), w.out.generated(c, w.patches[c].tag))))
  }

  predicate Holds(w: World, c: Component, values: Tree) {
    ConfigOf(w, c).Some? && ConfigOf(w, c).value.values == values
  }

  lemma SameMarks(w: World, v: World)
    requires v.configs == w.configs
    ensures forall d :: Managed(v, d) == Managed(w, d) && ConfigOf(v, d) == ConfigOf(w, d)
  {
  }

  /** Only bookkeeping on c's object: finalizer, marker, applied tag. */
  ghost predicate Kept(w: World, v: World, c: Component) {
    v.out == w.out && v.version == w.version && v.cli == w.cli && v.configs == w.configs &&
    c in w.patches && c in v.patches && SameSpec(w.patches[c], v.patches[c]) &&
    forall d | d != c :: (d in v.patches <==> d in w.patches) && (d in w.patches ==> v.patches[d] == w.patches[d])
  }

  lemma PutKept(w: World, c: Component, p: ImagePatch)
    requires c in w.patches && SameSpec(w.patches[c], p)
    ensures Kept(w, PutPatch(w, c, p), c) && PutPatch(w, c, p).patches[c].marker == p.marker
  {
  }

  lemma KeptTwice(w: World, u: World, v: World, c: Component)
    requires Kept(w, u, c) && Kept(u, v, c)
    ensures Kept(w, v, c)
  {
  }

  lemma KeptNothing(w: World, c: Component)
    requires c in w.patches
    ensures Kept(w, w, c)
  {
  }

  lemma AddFinalizerKept(w: World, c: Component)
    requires c in w.patches
    ensures Kept(w, AddFinalizer(w, c), c) && AddFinalizer(w, c).patches[c].marker == w.patches[c].marker
  {
    if w.patches[c].finalizer { KeptNothing(w, c); } else { PutKept(w, c, w.patches[c].(finalizer := true)); }
  }

  lemma ForgetMarkerKept(w: World, c: Component)
    requires c in w.patches
    ensures Kept(w, ForgetMarker(w, c), c)
    ensures ForgetMarker(w, c).patches[c].marker ==
            if w.patches[c].marker == Some(w.patches[c].generation) then w.patches[c].marker else None
  {
    KeptNothing(w, c);
    PutKept(w, c, w.patches[c].(marker := None));
  }

  lemma RecordMarkerKept(w: World, c: Component)
    requires c in w.patches
    ensures Kept(w, RecordMarker(w, c), c)
    ensures RecordMarker(w, c).patches[c].marker ==
            if w.patches[c].marker.None? && ManagedOnOldVersion(w, c) && w.patches[c].policy == AutoRevert
            then Some(w.patches[c].generation)
            else w.patches[c].marker
  {
    KeptNothing(w, c);
    PutKept(w, c, w.patches[c].(marker := Some(w.patches[c].generation)));
  }

  lemma PreparedKept(w: World, c: Component)
    requires c in w.patches
    ensures Kept(w, Prepared(w, c), c)
  {
    var v := AddFinalizer(w, c);
    AddFinalizerKept(w, c);
    ForgetMarkerKept(v, c);
    RecordMarkerKept(ForgetMarker(v, c), c);
    KeptTwice(v, ForgetMarker(v, c), RecordMarker(ForgetMarker(v, c), c), c);
    KeptTwice(w, v, RecordMarker(ForgetMarker(v, c), c), c);
  }

  /** After the bookkeeping the marker is for this spec exactly when it was, or when AutoRevert has set it. */
  lemma PreparedMarker(w: World, c: Component)
    requires c in w.patches && Gate(w, c).Open?
    ensures var p, q := w.patches[c], Prepared(w, c).patches[c];
            q.marker == Some(p.generation) <==>
            p.marker == Some(p.generation) || (ManagedOnOldVersion(w, c) && p.policy == AutoRevert)
  {
    var v := AddFinalizer(w, c);
    AddFinalizerKept(w, c);
    ForgetMarkerKept(v, c);
    RecordMarkerKept(ForgetMarker(v, c), c);
    SameMarks(w, v);
    SameMarks(w, ForgetMarker(v, c));
  }

  lemma RecordKept(w: World, c: Component, tag: string)
    requires c in w.patches
    ensures Kept(w, RecordTag(w, c, tag), c) && RecordTag(w, c, tag).patches[c].marker == w.patches[c].marker
  {
    KeptNothing(w, c);
    PutKept(w, c, w.patches[c].(appliedTag := tag));
  }

  lemma PutConfigEffect(w: World, c: Component, config: Config)
    requires forall d | d != c :: ManagedOn(Some(config), d) == ManagedOn(ConfigOf(w, c), d)
    ensures var v := PutConfig(w, c, config);
            (forall d | d != c :: Managed(v, d) == Managed(w, d)) && Managed(v, c) == ManagedOn(Some(config), c) &&
            (forall d | Chart(d) != Chart(c) :: ConfigOf(v, d) == ConfigOf(w, d)) &&
            ConfigOf(v, c).Some? && ConfigOf(v, c).value.values == config.values
  {
    var v := PutConfig(w, c, config);
    forall d | d != c ensures Managed(v, d) == Managed(w, d) {
      if Chart(d) == Chart(c) {
        assert ConfigOf(w, d) == ConfigOf(w, c);
      }
    }
  }

  /** What carrying out a decision leaves in the HelmChartConfig. */
  ghost predicate Carried(w: World, v: World, c: Component, decision: Decision) {
    match decision
    case Leave(_, _) => v.configs == w.configs
    case Revert(_) => Managed(v, c) == "" && Holds(v, c, Subtract(ValuesOf(ConfigOf(w, c)), w.out.revertKeys(c)))
    case Apply(generated) => Managed(v, c) == w.version && Holds(v, c, Merge(ValuesOf(ConfigOf(w, c)), generated))
  }

  lemma PutThenRecord(w: World, c: Component, config: Config, tag: string)
    requires c in w.patches && forall d | d != c :: ManagedOn(Some(config), d) == ManagedOn(ConfigOf(w, c), d)
    ensures var v := RecordTag(PutConfig(w, c, config), c, tag);
            OwnConfig(w, v, c) && Managed(v, c) == ManagedOn(Some(config), c) && Holds(v, c, config.values) &&
            Kept(w.(configs := v.configs), v, c) && v.patches[c].marker == w.patches[c].marker
  {
    var x := PutConfig(w, c, config);
    PutConfigEffect(w, c, config);
    RecordKept(x, c, tag);
    SameMarks(x, RecordTag(x, c, tag));
  }

  lemma LeaveEffect(w: World, c: Component, tag: string)
    requires c in w.patches
    ensures var v := RecordTag(w, c, tag);
            OwnConfig(w, v, c) && v.configs == w.configs &&
            Kept(w.(configs := v.configs), v, c) && v.patches[c].marker == w.patches[c].marker
  {
    RecordKept(w, c, tag);
    SameMarks(w, RecordTag(w, c, tag));
  }

  lemma CarryEffect(w: World, c: Component, decision: Decision)
    requires c in w.patches && (decision.Revert? ==> ConfigOf(w, c).Some?)
    ensures var v := Carry(w, c, decision);
            OwnConfig(w, v, c) && Carried(w, v, c, decision) &&
            Kept(w.(configs := v.configs), v, c) && v.patches[c].marker == w.patches[c].marker
  {
    match decision
    case Leave(_, tag) => LeaveEffect(w, c, tag);
    case Revert(_) => PutThenRecord(w, c, Stripped(w.out, ConfigOf(w, c).value, c), "");
    case Apply(generated) => PutThenRecord(w, c, Patched(ConfigOf(w, c), c, generated, w.version), w.patches[c].tag);
  }

  // ---------- a whole pass ----------

  predicate Live(w: World, c: Component) { c in w.patches && !w.patches[c].deleting }

  /** A pass over a live object carries out its decision and keeps its books. */
  lemma LivePass(w: World, c: Component, decision: Decision)
    requires Live(w, c) && decision == Decide(w, c, w.patches[c])
    ensures var v := AfterPass(w, c);
            OwnConfig(w, v, c) && Carried(w, v, c, decision) && Kept(w.(configs := v.configs), v, c) &&
            v.patches[c].marker == Prepared(w, c).patches[c].marker
  {
    var u := Prepared(w, c);
    PreparedKept(w, c);
    SameMarks(w, u);
    CarryEffect(u, c, decision);
    KeptAcross(w, u, Carry(u, c, decision), c);
  }

  lemma KeptAcross(w: World, u: World, v: World, c: Component)
    requires Kept(w, u, c) && Kept(u.(configs := v.configs), v, c)
    ensures Kept(w.(configs := v.configs), v, c)
  {
  }

  lemma LiveEffect(w: World, c: Component, decision: Decision)
    requires Live(w, c) && decision == Decide(w, c, w.patches[c])
    ensures Effect(w, AfterPass(w, c), c)
  {
    LivePass(w, c, decision);
    AppliesGenerated(w, c, w.patches[c], decision);
    var v := AfterPass(w, c);
    assert decision.Leave? <==> !Writes(w, c);
  }

  /** What is applied is what is generated for the spec. */
  lemma AppliesGenerated(w: World, c: Component, p: ImagePatch, decision: Decision)
    requires decision == Decide(w, c, p)
    ensures decision.Apply? ==> decision.generated == w.out.generated(c, p.tag) && Gate(w, c).Open?
    ensures decision.Revert? ==> Gate(w, c).Open?
  {
  }

  lemma GoneEffect(w: World, c: Component)
    requires c in w.patches && w.patches[c].deleting
    ensures Effect(w, AfterPass(w, c), c)
    ensures Managed(AfterPass(w, c), c) == if w.patches[c].finalizer then "" else Managed(w, c)
    ensures w.patches[c].finalizer ==> c !in AfterPass(w, c).patches
  {
    if w.patches[c].finalizer && Managed(w, c) != "" {
      StrippedAndGone(w, c, PutConfig(w, c, Stripped(w.out, ConfigOf(w, c).value, c)));
    } else {
      QuietlyGone(w, c);
    }
  }

  lemma StrippedAndGone(w: World, c: Component, x: World)
    requires c in w.patches && Managed(w, c) != ""
    requires x == PutConfig(w, c, Stripped(w.out, ConfigOf(w, c).value, c))
    ensures EffectIf(w, DropPatch(x, c), c, true) && Managed(DropPatch(x, c), c) == ""
  {
    var config := Stripped(w.out, ConfigOf(w, c).value, c);
    PutConfigEffect(w, c, config);
    SameMarks(x, DropPatch(x, c));
    assert Holds(x, c, Subtract(ValuesOf(ConfigOf(w, c)), w.out.revertKeys(c)));
  }

  lemma QuietlyGone(w: World, c: Component)
    requires c in w.patches && w.patches[c].deleting && !(w.patches[c].finalizer && Managed(w, c) != "")
    ensures EffectIf(w, Finalized(w, c), c, false) && Managed(Finalized(w, c), c) == Managed(w, c)
  {
    SameMarks(w, Finalized(w, c));
  }

  lemma PassEffect(w: World, c: Component)
    ensures Effect(w, AfterPass(w, c), c)
  {
    if Live(w, c) {
      LiveEffect(w, c, Decide(w, c, w.patches[c]));
    } else if c in w.patches {
      GoneEffect(w, c);
    }
  }

  // ---------- reachable states stay so ----------

  lemma RunPassKeeps(m: Machine)
    requires Inv(m)
    ensures Inv(RunPass(m))
    decreases m.worker.Busy?, if m.worker.Busy? then Rank(m.worker.pc) else 0,
              if m.worker.Busy? then Remaining(m.worker.pc) else 0
  {
    if m.worker.Busy? {
      StepDescends(m);
      WorkerStepKeeps(m);
      RunPassKeeps(Step(m));
    }
  }

  lemma PassKeepsInv(w: World, c: Component)
    requires Inv(Machine(w, Idle))
    ensures Inv(Machine(AfterPass(w, c), Idle))
  {
    if c in w.patches {
      OtherMoveKeeps(Machine(w, Idle), StartPass(c));
      RunPassKeeps(After(Machine(w, Idle), StartPass(c)));
      StepsMakeThePass(w, c);
    }
  }

  /** A mark of the current version that a pass leaves was there, or was set behind an open gate. */
  lemma MarkBehindGate(w: World, c: Component)
    ensures var v := AfterPass(w, c);
            Managed(v, c) == "" || Managed(v, c) == Managed(w, c) ||
              (Managed(v, c) == w.version && w.out.bundled(c).Some?)
  {
    if Live(w, c) {
      var decision := Decide(w, c, w.patches[c]);
      LivePass(w, c, decision);
      AppliesGenerated(w, c, w.patches[c], decision);
      if decision.Leave? { SameMarks(w, AfterPass(w, c)); }
    } else if c in w.patches {
      GoneEffect(w, c);
    }
  }

  lemma PassKeepsSound(w: World, c: Component)
    requires Sound(w)
    ensures Sound(AfterPass(w, c))
  {
    var v := AfterPass(w, c);
    PassKeepsInv(w, c);
    PassEffect(w, c);
    MarkBehindGate(w, c);
  }

  // ---------- components do not disturb each other ----------

  predicate SameUnder(e: Tree, f: Tree, k: string) { (k in e.m <==> k in f.m) && (k in e.m ==> e.m[k] == f.m[k]) }

  lemma MergeElsewhere(e: Tree, g: Tree, k: string)
    requires k !in g.m
    ensures SameUnder(e, Merge(e, g), k)
  {
  }

  lemma SubtractElsewhere(e: Tree, g: Tree, k: string)
    requires k !in g.m
    ensures SameUnder(e, Subtract(e, g), k)
  {
    assert k in e.m ==> !Dropped(e.m[k], k, g);
  }

  /** What is compared under one key only depends on what is there. */
  lemma ComparedUnder(e: Tree, f: Tree, g: Tree, k: string)
    requires g.m.Keys == {k} && SameUnder(e, f, k)
    ensures Present(e, g) == Present(f, g) && HasConflict(e, g) == HasConflict(f, g)
  {
    PresentByKeys(e, g);
    PresentByKeys(f, g);
    forall p ensures Conflict(e, g, p) == Conflict(f, g, p) {
      ConflictByKeys(e, g, p);
      ConflictByKeys(f, g, p);
    }
  }

  lemma GeneratedKeys(out: Outside, c: Component, tag: string)
    ensures out.generated(c, tag).m.Keys == {TopKey(c)} && out.revertKeys(c).m.Keys == {TopKey(c)}
  {
    assert out.generated(c, tag) == Generated(out.running(c), c, tag);
    assert out.revertKeys(c) == RevertKeys(c);
    GeneratedShape(c, WithoutRegistry(match out.running(c) case Some(name) => name case None => Repository(c)), tag);
    GeneratedShape(c, WithoutRegistry(Repository(c)), "revert");
  }

  /** Of two components with one place in one chart, at most one fits it. */
  lemma OneFits(out: Outside, c: Component, d: Component)
    requires c != d && Chart(c) == Chart(d) && TopKey(c) == TopKey(d)
    ensures out.bundled(c).None? || out.bundled(d).None?
  {
    assert out.bundled(c) == BundledTag(c, out.charts(Chart(c))) &&
           out.bundled(d) == BundledTag(d, out.charts(Chart(d)));
    OneFitsChart(c, d, out.charts(Chart(c)));
  }

  lemma OneFitsChart(c: Component, d: Component, chart: Tree)
    requires c != d && Chart(c) == Chart(d) && TopKey(c) == TopKey(d)
    ensures BundledTag(c, chart).None? || BundledTag(d, chart).None?
  {
    SamePlace(c, d);
    BothAtImage(chart);
    assert c == CoreDNS || d == CoreDNS;
  }

  lemma WritesBehindGate(w: World, d: Component)
    requires Writes(w, d)
    ensures Live(w, d) ==> w.out.bundled(d).Some?
    ensures !Live(w, d) ==> d in w.patches && w.patches[d].deleting && w.patches[d].finalizer && Managed(w, d) != ""
  {
    if Live(w, d) {
      AppliesGenerated(w, d, w.patches[d], Decide(w, d, w.patches[d]));
    }
  }

  /** Comparing c's values gives the same before and after a pass for another component. */
  lemma ComparedTheSame(w: World, v: World, c: Component, d: Component, tag: string, writes: bool)
    requires c != d && EffectIf(w, v, d, writes) && (writes && Chart(d) == Chart(c) ==> TopKey(c) != TopKey(d))
    ensures var e, f, g := ValuesOf(ConfigOf(w, c)), ValuesOf(ConfigOf(v, c)), w.out.generated(c, tag);
            Present(f, g) == Present(e, g) && HasConflict(f, g) == HasConflict(e, g)
  {
    if !writes {
      SameMarks(w, v);
    } else if Chart(d) == Chart(c) {
      assert ConfigOf(w, c) == ConfigOf(w, d) && ConfigOf(v, c) == ConfigOf(v, d);
      RewrittenElsewhere(w, v, c, d, tag);
    }
  }

  lemma RewrittenElsewhere(w: World, v: World, c: Component, d: Component, tag: string)
    requires Rewritten(w, v, d) && TopKey(c) != TopKey(d)
    ensures var e, f, g := ValuesOf(ConfigOf(w, d)), ValuesOf(ConfigOf(v, d)), w.out.generated(c, tag);
            Present(f, g) == Present(e, g) && HasConflict(f, g) == HasConflict(e, g)
  {
    var e, f := ValuesOf(ConfigOf(w, d)), ValuesOf(ConfigOf(v, d));
    GeneratedKeys(w.out, c, tag);
    GeneratedKeys(w.out, d, w.patches[d].tag);
    MergeElsewhere(e, w.out.generated(d, w.patches[d].tag), TopKey(c));
    SubtractElsewhere(e, w.out.revertKeys(d), TopKey(c));
    ComparedUnder(e, f, w.out.generated(c, tag), TopKey(c));
  }

  // ---------- a component that has been written to rest ----------

  /** The pass for c has done its work: behind an open gate, c is unmanaged for good, or managed and in place. */
  ghost predicate Spent(w: World, c: Component) {
    c in w.patches ==> Live(w, c) && Gate(w, c).Open? && AtRest(w, c, w.patches[c], Gate(w, c).baseline)
  }

  predicate HasMarker(p: ImagePatch) { p.marker == Some(p.generation) }

  ghost predicate AtRest(w: World, c: Component, p: ImagePatch, baseline: string) {
    if Managed(w, c) == "" then HasMarker(p) || p.tag == baseline || w.out.recheck(baseline, p.tag).Refused?
    else
      !HasMarker(p) && Managed(w, c) == w.version && p.tag != baseline && w.out.recheck(baseline, p.tag) == Allowed &&
      Present(ValuesOf(ConfigOf(w, c)), w.out.generated(c, p.tag))
  }

  /** A target that is refused where it stands is also refused as a new target. */
  lemma RecheckedIsChecked(out: Outside, c: Component, baseline: string, appliedTag: string, tag: string)
    ensures out.recheck(baseline, tag).Refused? ==> out.check(c, baseline, appliedTag, tag).Refused?
  {
    assert out.recheck(baseline, tag) == ValidateAgainstBaseline(baseline, tag);
    assert out.check(c, baseline, appliedTag, tag) ==
           CheckTarget(out.tags(c), out.zeroDay, c, baseline, appliedTag, tag);
  }

  lemma SpentIsQuiet(w: World, c: Component)
    requires Spent(w, c)
    ensures !Writes(w, c)
  {
    if c in w.patches {
      RecheckedIsChecked(w.out, c, Gate(w, c).baseline, w.patches[c].appliedTag, w.patches[c].tag);
    }
  }

  lemma SameGate(w: World, v: World, c: Component)
    requires v.out == w.out && v.cli == w.cli
    ensures Gate(v, c) == Gate(w, c) && (Gate(w, c).Open? ==> w.out.bundled(c).Some?)
  {
  }

  /** Its own passes leave a spent component spent. */
  lemma OwnPassKeepsSpent(w: World, c: Component)
    requires Spent(w, c)
    ensures Spent(AfterPass(w, c), c)
  {
    SpentIsQuiet(w, c);
    if c in w.patches {
      var v := AfterPass(w, c);
      LivePass(w, c, Decide(w, c, w.patches[c]));
      PreparedMarker(w, c);
      SameMarks(w, v);
      SameGate(w, v, c);
    }
  }

  /** What a pass over a live object behind an open gate leaves. */
  ghost predicate PassLeaves(w: World, v: World, c: Component, decision: Decision) {
    Live(w, c) && Kept(w.(configs := v.configs), v, c) && Carried(w, v, c, decision) &&
    (HasMarker(v.patches[c]) <==>
      HasMarker(w.patches[c]) || (ManagedOnOldVersion(w, c) && w.patches[c].policy == AutoRevert))
  }

  lemma LiveOutcome(w: World, c: Component, decision: Decision)
    requires Live(w, c) && Gate(w, c).Open? && decision == Decide(w, c, w.patches[c])
    ensures PassLeaves(w, AfterPass(w, c), c, decision)
  {
    LivePass(w, c, decision);
    PreparedMarker(w, c);
  }

  /** A pass that writes the HelmChartConfig leaves its component spent. */
  lemma WritingSpends(w: World, c: Component)
    requires Writes(w, c)
    ensures Spent(AfterPass(w, c), c)
  {
    if Live(w, c) {
      LiveWritingSpends(w, c, Decide(w, c, w.patches[c]));
    } else {
      GoneEffect(w, c);
    }
  }

  lemma LiveWritingSpends(w: World, c: Component, decision: Decision)
    requires Live(w, c) && decision == Decide(w, c, w.patches[c]) && !decision.Leave?
    ensures Spent(AfterPass(w, c), c)
  {
    AppliesGenerated(w, c, w.patches[c], decision);
    WritingDecision(w, c, w.patches[c], Gate(w, c).baseline);
    LiveOutcome(w, c, decision);
    SpentByDecision(w, AfterPass(w, c), c, decision, Gate(w, c).baseline);
  }

  lemma SpentByDecision(w: World, v: World, c: Component, decision: Decision, baseline: string)
    requires PassLeaves(w, v, c, decision) && !decision.Leave? && Gate(w, c) == Open(baseline)
    requires WhyWritten(w, c, w.patches[c], baseline, decision)
    ensures Spent(v, c)
  {
    SameGate(w, v, c);
    if decision.Apply? {
      MergeMakesPresent(ValuesOf(ConfigOf(w, c)), decision.generated);
    }
  }

  /** Why a pass writes. */
  ghost predicate WhyWritten(w: World, c: Component, p: ImagePatch, baseline: string, d: Decision) {
    match d
    case Leave(_, _) => true
    case Revert(_) =>
      HasMarker(p) || (ManagedOnOldVersion(w, c) && p.policy == AutoRevert) || p.tag == baseline ||
        w.out.recheck(baseline, p.tag).Refused?
    case Apply(generated) =>
      !HasMarker(p) && !ManagedOnOldVersion(w, c) && p.tag != baseline && w.out.recheck(baseline, p.tag) == Allowed &&
      generated == w.out.generated(c, p.tag)
  }

  lemma WritingDecision(w: World, c: Component, p: ImagePatch, baseline: string)
    requires Gate(w, c) == Open(baseline)
    ensures WhyWritten(w, c, p, baseline, Decide(w, c, p))
  {
    RecheckedIsChecked(w.out, c, baseline, p.appliedTag, p.tag);
  }

  // ---------- a pass that does not write does not write the next time either ----------

  /** The part of a decision that counts, from the facts it rests on. */
  ghost predicate Leaves(c: Component, seen: Option<Config>, stale: bool, tag: string, baseline: string,
                         generated: Tree, recheck: Verdict, check: Verdict)
  {
    if tag == baseline then ManagedOn(seen, c) == ""
    else if ManagedOn(seen, c) != "" && Present(ValuesOf(seen), generated) then recheck == Allowed
    else stale || check.Refused? || (ManagedOn(seen, c) == "" && HasConflict(ValuesOf(seen), generated))
  }

  lemma LeavesIs(c: Component, seen: Option<Config>, stale: bool, tag: string, applied: string, baseline: string,
                 generated: Tree, recheck: Verdict, check: Verdict)
    ensures var d := DecideWith(c, seen, stale, tag, applied, baseline, generated, recheck, check);
            (d.Leave? <==> Leaves(c, seen, stale, tag, baseline, generated, recheck, check)) &&
            (d.Leave? ==>
               d.appliedTag == applied || tag == baseline ||
               (ManagedOn(seen, c) != "" && Present(ValuesOf(seen), generated)))
  {
  }

  /** Whether a live object behind an open gate is left alone. */
  ghost predicate LeftAlone(w: World, c: Component, p: ImagePatch, baseline: string) {
    if HasMarker(p) then Managed(w, c) == ""
    else if ManagedOnOldVersion(w, c) then p.policy == Manual
    else
      Leaves(c, ConfigOf(w, c), StaleOther(w, c), p.tag, baseline, w.out.generated(c, p.tag),
             w.out.recheck(baseline, p.tag), w.out.check(c, baseline, p.appliedTag, p.tag))
  }

  lemma LeftAloneIs(w: World, c: Component, p: ImagePatch, baseline: string)
    ensures DecideOpen(w, c, p, baseline).Leave? <==> LeftAlone(w, c, p, baseline)
  {
    LeavesIs(c, ConfigOf(w, c), StaleOther(w, c), p.tag, p.appliedTag, baseline, w.out.generated(c, p.tag),
             w.out.recheck(baseline, p.tag), w.out.check(c, baseline, p.appliedTag, p.tag));
  }

  lemma WritesIs(w: World, c: Component)
    requires Live(w, c)
    ensures Writes(w, c) <==> Gate(w, c).Open? && !LeftAlone(w, c, w.patches[c], Gate(w, c).baseline)
  {
    if Gate(w, c).Open? {
      LeftAloneIs(w, c, w.patches[c], Gate(w, c).baseline);
    }
  }

  /** The applied tag recorded by a pass that leaves things alone does not change the choice. */
  lemma RecordedTagIsHarmless(w: World, v: World, c: Component, p: ImagePatch, q: ImagePatch, baseline: string)
    requires v.configs == w.configs && v.out == w.out && v.version == w.version && SameSpec(p, q)
    requires DecideOpen(w, c, p, baseline).Leave? && q.appliedTag == DecideOpen(w, c, p, baseline).appliedTag
    requires HasMarker(q) <==> HasMarker(p)
    ensures LeftAlone(v, c, q, baseline)
  {
    SameMarks(w, v);
    SameStale(w, v, c);
    LeftAloneIs(w, c, p, baseline);
    LeavesIs(c, ConfigOf(w, c), StaleOther(w, c), p.tag, p.appliedTag, baseline, w.out.generated(c, p.tag),
             w.out.recheck(baseline, p.tag), w.out.check(c, baseline, p.appliedTag, p.tag));
  }

  lemma LeaveRecords(w: World, c: Component, decision: Decision)
    requires Live(w, c) && decision == Decide(w, c, w.patches[c]) && decision.Leave?
    ensures c in AfterPass(w, c).patches && AfterPass(w, c).patches[c].appliedTag == decision.appliedTag
  {
  }

  lemma QuietStaysQuiet(w: World, c: Component)
    requires !Writes(w, c)
    ensures !Writes(AfterPass(w, c), c)
  {
    if Live(w, c) {
      QuietLiveStaysQuiet(w, c, Decide(w, c, w.patches[c]));
    }
  }

  lemma QuietLiveStaysQuiet(w: World, c: Component, decision: Decision)
    requires Live(w, c) && decision == Decide(w, c, w.patches[c]) && decision.Leave?
    ensures !Writes(AfterPass(w, c), c)
  {
    var v := AfterPass(w, c);
    LivePass(w, c, decision);
    SameGate(w, v, c);
    WritesIs(v, c);
    if Gate(w, c).Open? {
      var baseline := Gate(w, c).baseline;
      LeaveRecords(w, c, decision);
      LiveOutcome(w, c, decision);
      LeftAloneIs(w, c, w.patches[c], baseline);
      RecordedTagIsHarmless(w, v, c, w.patches[c], v.patches[c], baseline);
    }
  }

  // ---------- stale patches ----------

  /** A component managed on another version stays so for good, or not at all. */
  ghost predicate Calm(w: World, c: Component) { ManagedOnOldVersion(w, c) ==> !Writes(w, c) }

  predicate Released(w: World, c: Component) { c in w.patches && w.patches[c].deleting ==> !w.patches[c].finalizer }

  ghost predicate Rested(w: World) { forall c :: Calm(w, c) && Released(w, c) }

  lemma OwnPassCalms(w: World, c: Component)
    ensures Calm(AfterPass(w, c), c) && Released(AfterPass(w, c), c)
  {
    QuietAfterwards(w, c);
    OwnPassReleases(w, c);
  }

  /** A pass right after another one for the same component writes nothing. */
  lemma QuietAfterwards(w: World, c: Component)
    ensures !Writes(AfterPass(w, c), c)
  {
    if Writes(w, c) {
      WritingSpends(w, c);
      SpentIsQuiet(AfterPass(w, c), c);
    } else {
      QuietStaysQuiet(w, c);
    }
  }

  lemma OwnPassReleases(w: World, c: Component)
    ensures Released(AfterPass(w, c), c)
  {
    if c in w.patches && w.patches[c].deleting { ReleasesDeleted(w, c); } else { ReleasesOthers(w, c); }
  }

  lemma ReleasesDeleted(w: World, c: Component)
    requires c in w.patches && w.patches[c].deleting
    ensures Released(AfterPass(w, c), c)
  {
    if w.patches[c].finalizer {
      GoneEffect(w, c);
    } else {
      assert AfterPass(w, c) == w;
    }
  }

  lemma ReleasesOthers(w: World, c: Component)
    requires c in w.patches ==> !w.patches[c].deleting
    ensures Released(AfterPass(w, c), c)
  {
    PassEffect(w, c);
  }

  /** Whether a component from another version is written depends on nothing but its own object and the gates. */
  lemma StaleWrites(w: World, c: Component)
    requires ManagedOnOldVersion(w, c) && Live(w, c)
    ensures Writes(w, c) <==> Gate(w, c).Open? && (HasMarker(w.patches[c]) || w.patches[c].policy == AutoRevert)
  {
    WritesIs(w, c);
  }

  lemma OthersKeepCalm(w: World, c: Component, d: Component)
    requires c != d && Calm(w, c) && Released(w, c)
    ensures Calm(AfterPass(w, d), c) && Released(AfterPass(w, d), c)
  {
    var v := AfterPass(w, d);
    PassEffect(w, d);
    SameGate(w, v, c);
    if ManagedOnOldVersion(w, c) && Live(w, c) {
      StaleWrites(w, c);
      StaleWrites(v, c);
    }
  }

  lemma PassKeepsRested(w: World, d: Component)
    requires Rested(w)
    ensures Rested(AfterPass(w, d))
  {
    forall c ensures Calm(AfterPass(w, d), c) && Released(AfterPass(w, d), c) {
      if c == d { OwnPassCalms(w, c); } else { OthersKeepCalm(w, c, d); }
    }
  }

  /** At rest, a pass makes no component stale and cures none. */
  lemma StaleStays(w: World, c: Component, d: Component)
    requires Rested(w)
    ensures StaleOther(AfterPass(w, d), c) == StaleOther(w, c)
  {
    var v := AfterPass(w, d);
    PassEffect(w, d);
    MarkBehindGate(w, d);
    forall e ensures ManagedOnOldVersion(v, e) <==> ManagedOnOldVersion(w, e) {
      if e == d {
        assert Calm(w, d);
        if !Writes(w, d) { SameMarks(w, v); }
      }
    }
    StaleByEach(w, v, c);
  }

  lemma StaleByEach(w: World, v: World, c: Component)
    requires forall e :: ManagedOnOldVersion(v, e) <==> ManagedOnOldVersion(w, e)
    ensures StaleOther(v, c) == StaleOther(w, c)
  {
    if StaleOther(v, c) {
      var e :| e != c && Managed(v, e) != "" && Managed(v, e) != v.version;
      assert ManagedOnOldVersion(v, e);
    }
    if StaleOther(w, c) {
      var e :| e != c && Managed(w, e) != "" && Managed(w, e) != w.version;
      assert ManagedOnOldVersion(w, e);
    }
  }

  // ---------- two rounds ----------

  /** At rest, passes for others do not change what a component's own pass does. */
  lemma OthersDoNotMatter(w: World, c: Component, d: Component)
    requires Rested(w) && c != d && !Writes(w, c)
    ensures !Writes(AfterPass(w, d), c)
  {
    var v := AfterPass(w, d);
    PassEffect(w, d);
    SameGate(w, v, c);
    assert Released(w, c);
    if Live(w, c) {
      WritesIs(w, c);
      WritesIs(v, c);
      StaleStays(w, c, d);
      if Gate(w, c).Open? {
        MeetsNoWrite(w, c, d);
        ComparedTheSame(w, v, c, d, w.patches[c].tag, Writes(w, d));
        LeftAloneStill(w, v, c, w.patches[c], Gate(w, c).baseline);
      }
    }
  }

  lemma MeetsNoWrite(w: World, c: Component, d: Component)
    requires Rested(w) && c != d && w.out.bundled(c).Some?
    ensures Writes(w, d) && Chart(d) == Chart(c) ==> TopKey(c) != TopKey(d)
  {
    if Writes(w, d) && Chart(d) == Chart(c) {
      WritesBehindGate(w, d);
      assert Released(w, d);
      if TopKey(c) == TopKey(d) { OneFits(w.out, c, d); }
    }
  }

  lemma LeftAloneStill(w: World, v: World, c: Component, p: ImagePatch, baseline: string)
    requires v.out == w.out && v.version == w.version && Managed(v, c) == Managed(w, c) &&
             StaleOther(v, c) == StaleOther(w, c)
    requires var e, f, g := ValuesOf(ConfigOf(w, c)), ValuesOf(ConfigOf(v, c)), w.out.generated(c, p.tag);
             Present(f, g) == Present(e, g) && HasConflict(f, g) == HasConflict(e, g)
    ensures LeftAlone(v, c, p, baseline) == LeftAlone(w, c, p, baseline)
  {
    LeavesSame(c, ConfigOf(w, c), ConfigOf(v, c), StaleOther(w, c), p.tag, baseline, w.out.generated(c, p.tag),
               w.out.recheck(baseline, p.tag), w.out.check(c, baseline, p.appliedTag, p.tag));
  }

  lemma LeavesSame(c: Component, seen: Option<Config>, other: Option<Config>, stale: bool, tag: string,
      baseline: string,
                   generated: Tree, recheck: Verdict, check: Verdict)
    requires ManagedOn(other, c) == ManagedOn(seen, c)
    requires Present(ValuesOf(other), generated) == Present(ValuesOf(seen), generated)
    requires HasConflict(ValuesOf(other), generated) == HasConflict(ValuesOf(seen), generated)
    ensures Leaves(c, other, stale, tag, baseline, generated, recheck, check) ==
            Leaves(c, seen, stale, tag, baseline, generated, recheck, check)
  {
  }

  lemma {:induction false} PassesConcat(w: World, a: seq<Component>, b: seq<Component>)
    ensures Passes(w, a + b) == Passes(Passes(w, a), b)
    decreases |b|
  {
    if b == [] {
      assert a + b == a;
    } else {
      var front, last := b[..|b| - 1], b[|b| - 1];
      PassesConcat(w, a, front);
      assert b == front + [last] && a + b == a + front + [last];
      OneMorePass(w, a + front, last);
      OneMorePass(Passes(w, a), front, last);
    }
  }

  lemma OneMorePass(w: World, cs: seq<Component>, c: Component)
    ensures Passes(w, cs + [c]) == Passer()(Passes(w, cs), c)
  {
    assert (cs + [c])[..|cs|] == cs;
  }

  /** A round: a pass for every ImagePatch, in any order and any number of times. */
  ghost predicate Round(w: World, cs: seq<Component>) { forall c | c in w.patches :: c in cs }

  lemma CalmStep(w: World, c: Component, d: Component)
    requires c == d || (Calm(w, c) && Released(w, c))
    ensures Calm(AfterPass(w, d), c) && Released(AfterPass(w, d), c)
  {
    if c == d { OwnPassCalms(w, c); } else { OthersKeepCalm(w, c, d); }
  }

  lemma {:induction false} CalmAfterOwnPass(w: World, cs: seq<Component>, c: Component)
    requires c in cs || c !in w.patches
    ensures Calm(Passes(w, cs), c) && Released(Passes(w, cs), c)
    decreases |cs|
  {
    if cs != [] {
      var front, d := cs[..|cs| - 1], cs[|cs| - 1];
      assert cs == front + [d];
      if d != c {
        CalmAfterOwnPass(w, front, c);
      }
      CalmStep(Passes(w, front), c, d);
    }
  }

  lemma RoundRests(w: World, cs: seq<Component>)
    requires Round(w, cs)
    ensures Rested(Passes(w, cs))
  {
    forall c ensures Calm(Passes(w, cs), c) && Released(Passes(w, cs), c) {
      CalmAfterOwnPass(w, cs, c);
    }
  }

  lemma {:induction false} PassesKeepRested(w: World, cs: seq<Component>)
    requires Rested(w)
    ensures Rested(Passes(w, cs))
    decreases |cs|
  {
    if cs != [] {
      PassesKeepRested(w, cs[..|cs| - 1]);
      PassKeepsRested(Passes(w, cs[..|cs| - 1]), cs[|cs| - 1]);
    }
  }

  lemma QuietStep(w: World, c: Component, d: Component)
    requires Rested(w) && (c == d || !Writes(w, c))
    ensures !Writes(AfterPass(w, d), c)
  {
    if c != d { OthersDoNotMatter(w, c, d); } else { QuietAfterwards(w, c); }
  }

  lemma {:induction false} QuietAfterOwnPass(w: World, cs: seq<Component>, c: Component)
    requires Rested(w) && (c in cs || c !in w.patches)
    ensures !Writes(Passes(w, cs), c)
    decreases |cs|
  {
    if cs != [] {
      var front, d := cs[..|cs| - 1], cs[|cs| - 1];
      assert cs == front + [d];
      PassesKeepRested(w, front);
      if d != c {
        QuietAfterOwnPass(w, front, c);
      }
      QuietStep(Passes(w, front), c, d);
    }
  }

  lemma {:induction false} PatchesShrink(w: World, cs: seq<Component>)
    ensures Passes(w, cs).patches.Keys <= w.patches.Keys
    decreases |cs|
  {
    if cs != [] {
      PatchesShrink(w, cs[..|cs| - 1]);
      PassEffect(Passes(w, cs[..|cs| - 1]), cs[|cs| - 1]);
    }
  }

  lemma SettledFrom(w: World, first: seq<Component>, rest: seq<Component>, c: Component)
    requires Round(w, first) && Round(w, rest)
    ensures !Writes(Passes(w, first + rest), c)
  {
    RoundRests(w, first);
    PatchesShrink(w, first);
    QuietAfterOwnPass(Passes(w, first), rest, c);
    PassesConcat(w, first, rest);
  }

  /** From any state, after two rounds over all ImagePatches no pass writes a HelmChartConfig, however many follow. */
  lemma TwoRoundsSettle(w: World, first: seq<Component>, second: seq<Component>, more: seq<Component>, c: Component)
    requires Round(w, first) && Round(w, second)
    ensures !Writes(Passes(w, first + (second + more)), c)
  {
    SettledFrom(w, first, second + more, c);
  }

  // ---------- where this applies ----------

  /** Every reachable state is sound, unless a pass has raced with an upgrade. */
  lemma ReachableIsSound(bundle: (string, string) -> Tree, run: seq<Machine>, moves: seq<Move>, k: nat)
    requires NoRace(bundle, run, moves, k)
    ensures Sound(run[k].world)
  {
    var fits, w := FitsBundle(bundle), run[k].world;
    ManagedFits(bundle, run, moves, k);
    RunsAreSafe(run, moves, k);
    OtherMoveKeeps(run[k], Crash);
    assert ChartsFixed(bundle, w);
    forall c | Managed(w, c) == w.version ensures w.out.bundled(c).Some? {
      assert fits(Managed(w, c), c);
      assert w.out.bundled(c) == BundledTag(c, w.out.charts(Chart(c)));
    }
  }

  // ---------- the marker ----------

  /**
   A pass that finds the marker of this spec ends with the component unmanaged exactly when it was so
   before or the gates are open: a shut gate stops the pass before it looks at the marker.
   */
  lemma MarkerPassEnds(w: World, c: Component)
    requires Live(w, c) && HasMarker(w.patches[c])
    ensures Managed(AfterPass(w, c), c) == "" <==> Managed(w, c) == "" || Gate(w, c).Open?
  {
    LivePass(w, c, Decide(w, c, w.patches[c]));
    if !Writes(w, c) { SameMarks(w, AfterPass(w, c)); }
  }
}
