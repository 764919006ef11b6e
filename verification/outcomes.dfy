/**
 What one undisturbed pass leaves in the cluster, case by case: said by what is read before the pass and what
 stands in the objects after it.
 */
module Outcomes {
  import opened Text
  import opened Values
  import opened Comparison
  import opened Components
  import opened Patcher
  import opened Policy
  import opened Cluster
  import opened Protocol
  import opened Safety
  import opened Convergence
  import opened History
  import opened Images
  import Preservation

  // ---------- what is left behind ----------

  /** Patches of c do not write here, nor above or below. */
  predicate Foreign(c: Component, p: Path) {
    p != [] &&
    forall ip | ip in ImagePaths(c) :: !Related(p, ip + ["repository"]) && !Related(p, ip + [TagKey(c)])
  }

  ghost predicate KeepsForeign(before: Tree, after: Tree, c: Component) {
    forall p | Foreign(c, p) :: EndAt(after, p) == EndAt(before, p)
  }

  predicate KeysGone(values: Tree, c: Component) {
    forall ip | ip in ImagePaths(c) :: At(values, ip + ["repository"]).None? && At(values, ip + [TagKey(c)]).None?
  }

  /** No HelmChartConfig has changed, nor what the ImagePatch records. */
  ghost predicate Untouched(w: World, v: World, c: Component) {
    v.configs == w.configs && Record(v, c) == Record(w, c)
  }

  /** The component is unmanaged and nothing is recorded; if it was managed, its keys are gone and the rest is kept. */
  ghost predicate Withdrawn(w: World, v: World, c: Component) {
    Record(v, c) == "" && Managed(v, c) == "" && StrippedOff(w, v, c)
  }

  ghost predicate StrippedOff(w: World, v: World, c: Component) {
    if Managed(w, c) == "" then v.configs == w.configs
    else
      KeysGone(ValuesOf(ConfigOf(v, c)), c) && KeepsForeign(ValuesOf(ConfigOf(w, c)), ValuesOf(ConfigOf(v, c)), c)
  }

  /** The values name the running image with the tag of the spec, marked and recorded; all other values are kept. */
  ghost predicate Written(w: World, v: World, c: Component, tag: string) {
    Record(v, c) == tag && Managed(v, c) == w.version &&
    NamesImage(ValuesOf(ConfigOf(v, c)), c, WithoutRegistry(ImageName(w.out, c)), tag) &&
    KeepsForeign(ValuesOf(ConfigOf(w, c)), ValuesOf(ConfigOf(v, c)), c)
  }

  /** The values that a patch to the tag is made of. */
  function Wanted(out: Outside, c: Component, tag: string): Tree {
    Generate(c, WithoutRegistry(ImageName(out, c)), tag)
  }

  lemma WantedIs(out: Outside, c: Component, tag: string)
    ensures out.generated(c, tag) == Wanted(out, c, tag)
  {
    assert out.generated(c, tag) == Generated(out.running(c), c, tag);
  }

  lemma OwnLeaf(c: Component, repository: string, tag: string, q: Path)
    requires LeafAt(Generate(c, repository, tag), q)
    ensures exists ip :: ip in ImagePaths(c) && (q == ip + ["repository"] || q == ip + [TagKey(c)])
  {
    GeneratedLeaves(c, repository, tag, q);
    var ip := q[..|q| - 1];
    assert q == ip + [q[|q| - 1]];
  }

  lemma ForeignIsClear(c: Component, repository: string, tag: string, p: Path)
    requires Foreign(c, p)
    ensures !Touches(Generate(c, repository, tag), p)
  {
    if q :| LeafAt(Generate(c, repository, tag), q) && Related(p, q) {
      OwnLeaf(c, repository, tag, q);
    }
  }

  lemma MergeForeign(e: Tree, c: Component, repository: string, tag: string)
    ensures KeepsForeign(e, Merge(e, Generate(c, repository, tag)), c)
  {
    var g := Generate(c, repository, tag);
    GeneratedShape(c, repository, tag);
    forall p | Foreign(c, p) ensures EndAt(Merge(e, g), p) == EndAt(e, p) {
      ForeignIsClear(c, repository, tag, p);
      assert Related(p, p);
      MergeExact(e, g, p);
    }
  }

  lemma SubtractForeign(e: Tree, c: Component, repository: string, tag: string)
    ensures KeepsForeign(e, Subtract(e, Generate(c, repository, tag)), c)
    ensures KeysGone(Subtract(e, Generate(c, repository, tag)), c)
  {
    var g := Generate(c, repository, tag);
    GeneratedShape(c, repository, tag);
    forall p | Foreign(c, p) ensures EndAt(Subtract(e, g), p) == EndAt(e, p) {
      ForeignIsClear(c, repository, tag, p);
      SubtractExact(e, g, p);
    }
    forall ip | ip in ImagePaths(c)
      ensures At(Subtract(e, g), ip + ["repository"]).None? && At(Subtract(e, g), ip + [TagKey(c)]).None?
    {
      LeavesOfImage(c, repository, tag, ip);
      NothingLeft(e, g, ip + ["repository"]);
      NothingLeft(e, g, ip + [TagKey(c)]);
    }
  }

  /** After a subtraction nothing is left at a removed leaf. */
  lemma NothingLeft(e: Tree, g: Tree, p: Path)
    requires NoEmptyMaps(g) && p != [] && LeafAt(g, p)
    ensures At(Subtract(e, g), p).None?
  {
    if At(Subtract(e, g), p).Some? {
      var rest := SomeEnd(At(Subtract(e, g), p).value);
      AtConcat(Subtract(e, g), p, rest);
      assert Related(p + rest, p);
      SubtractExact(e, g, p + rest);
    }
  }

  // ---------- by decision ----------

  lemma Leaving(w: World, c: Component, d: Decision)
    requires Live(w, c) && d == Decide(w, c, w.patches[c]) && d.Leave?
    ensures AfterPass(w, c).configs == w.configs && Record(AfterPass(w, c), c) == d.appliedTag
    ensures Managed(AfterPass(w, c), c) == Managed(w, c)
  {
    LivePass(w, c, d);
    RecordAfter(w, c, d);
    SameMarks(w, AfterPass(w, c));
  }

  lemma Reverting(w: World, c: Component, d: Decision)
    requires Live(w, c) && d == Decide(w, c, w.patches[c]) && d.Revert?
    ensures Withdrawn(w, AfterPass(w, c), c) && Managed(w, c) != ""
  {
    LivePass(w, c, d);
    RecordAfter(w, c, d);
    assert w.out.revertKeys(c) == RevertKeys(c);
    SubtractForeign(ValuesOf(ConfigOf(w, c)), c, WithoutRegistry(Repository(c)), "revert");
  }

  lemma Applying(w: World, c: Component, d: Decision)
    requires Live(w, c) && d == Decide(w, c, w.patches[c]) && d.Apply?
    ensures Written(w, AfterPass(w, c), c, w.patches[c].tag)
  {
    LivePass(w, c, d);
    RecordAfter(w, c, d);
    AppliesGenerated(w, c, w.patches[c], d);
    WantedIs(w.out, c, w.patches[c].tag);
    PassNamesTheRunningImage(w, c);
    MergeForeign(ValuesOf(ConfigOf(w, c)), c, WithoutRegistry(ImageName(w.out, c)), w.patches[c].tag);
  }

  // ---------- by what the pass finds ----------

  /** The registry is trusted, the CLI has no patches of its own, and the chart has one tag for the component. */
  ghost predicate GatesOpen(w: World, c: Component) {
    w.out.prime(Chart(c)) && w.cli == map[] && w.out.bundled(c).Some?
  }

  /** The marker after a pass: kept behind a shut gate, and else there only for this spec. */
  lemma MarkerAfter(w: World, c: Component)
    requires Live(w, c)
    ensures c in AfterPass(w, c).patches
    ensures var p, q := w.patches[c], AfterPass(w, c).patches[c];
            q.marker ==
              if !GatesOpen(w, c) then p.marker
              else if HasMarker(p) || (ManagedOnOldVersion(w, c) && p.policy == AutoRevert) then Some(p.generation)
              else None
  {
    var v := AddFinalizer(w, c);
    LivePass(w, c, Decide(w, c, w.patches[c]));
    GateIs(w, c, w.patches[c], Gate(w, c));
    AddFinalizerKept(w, c);
    ForgetMarkerKept(v, c);
    RecordMarkerKept(ForgetMarker(v, c), c);
    SameMarks(w, ForgetMarker(v, c));
  }

  /** Behind a shut gate nothing happens, not even to a component that waits for its revert. */
  lemma ShutGates(w: World, c: Component)
    requires Live(w, c) && !GatesOpen(w, c)
    ensures Untouched(w, AfterPass(w, c), c)
  {
    GateIs(w, c, w.patches[c], Gate(w, c));
    Leaving(w, c, Decide(w, c, w.patches[c]));
  }

  /** A marker for this spec: the component ends unmanaged. */
  lemma MarkedIsWithdrawn(w: World, c: Component)
    requires Live(w, c) && GatesOpen(w, c) && HasMarker(w.patches[c])
    ensures Withdrawn(w, AfterPass(w, c), c)
  {
    var d := Decide(w, c, w.patches[c]);
    GateIs(w, c, w.patches[c], Gate(w, c));
    if d.Revert? { Reverting(w, c, d); } else { Leaving(w, c, d); }
  }

  /** After an upgrade, Manual leaves everything to the user, and AutoRevert withdraws the patch. */
  lemma UpgradedOutcome(w: World, c: Component)
    requires Live(w, c) && GatesOpen(w, c) && !HasMarker(w.patches[c]) && ManagedOnOldVersion(w, c)
    ensures if w.patches[c].policy == Manual then Untouched(w, AfterPass(w, c), c)
            else Withdrawn(w, AfterPass(w, c), c)
  {
    var d := Decide(w, c, w.patches[c]);
    GateIs(w, c, w.patches[c], Gate(w, c));
    if d.Revert? { Reverting(w, c, d); } else { Leaving(w, c, d); }
  }

  /** No marker for this spec, and no patch from another version. */
  ghost predicate Current(w: World, c: Component) {
    Live(w, c) && GatesOpen(w, c) && !HasMarker(w.patches[c]) && !ManagedOnOldVersion(w, c)
  }

  /** The component is managed, and its HelmChartConfig says what the spec asks for. */
  ghost predicate StandsInValues(w: World, c: Component)
    requires c in w.patches
  {
    Managed(w, c) != "" && Present(ValuesOf(ConfigOf(w, c)), Wanted(w.out, c, w.patches[c].tag))
  }

  /** No other component waits with a patch of another version, the rules allow the tag, and no user value is lost. */
  ghost predicate MayWrite(w: World, c: Component, tag: string, recorded: string, baseline: string) {
    !StaleOther(w, c) && Acceptable(w.out, c, baseline, recorded, tag) &&
    (Managed(w, c) == "" ==> forall p :: !Conflict(ValuesOf(ConfigOf(w, c)), Wanted(w.out, c, tag), p))
  }

  lemma CurrentDecision(w: World, c: Component, p: ImagePatch, baseline: string)
    requires Current(w, c) && p == w.patches[c] && w.out.bundled(c) == Some(baseline)
    ensures var d, stands := Decide(w, c, p), StandsInValues(w, c);
            var may := MayWrite(w, c, p.tag, p.appliedTag, baseline);
            (d.Revert? <==>
               Managed(w, c) != "" && (p.tag == baseline || (stands && !AboveBaseline(baseline, p.tag)))) &&
            (d.Apply? <==> p.tag != baseline && !stands && may) &&
            (d.Leave? ==> d.appliedTag == if p.tag == baseline then "" else if stands then p.tag else p.appliedTag)
  {
    var generated, recheck := w.out.generated(c, p.tag), w.out.recheck(baseline, p.tag);
    var check := w.out.check(c, baseline, p.appliedTag, p.tag);
    WantedIs(w.out, c, p.tag);
    RecheckedTarget(w.out, baseline, p.tag);
    CheckedTarget(w.out, c, baseline, p.appliedTag, p.tag);
    GateIs(w, c, p, Gate(w, c));
    OpenDecides(w, c, p, baseline, generated, recheck, check);
    DecisionIs(c, ConfigOf(w, c), StaleOther(w, c), p.tag, p.appliedTag, baseline, generated, recheck, check);
  }

  lemma DecisionIs(c: Component, seen: Option<Config>, stale: bool, tag: string, applied: string, baseline: string,
                   generated: Tree, recheck: Verdict, check: Verdict)
    ensures var d := DecideWith(c, seen, stale, tag, applied, baseline, generated, recheck, check);
            var stands := ManagedOn(seen, c) != "" && Present(ValuesOf(seen), generated);
            (d.Revert? <==> ManagedOn(seen, c) != "" && (tag == baseline || (stands && recheck != Allowed))) &&
            (d.Apply? <==> tag != baseline && !stands && !stale && check == Allowed &&
                           (ManagedOn(seen, c) == "" ==> !HasConflict(ValuesOf(seen), generated))) &&
            (d.Leave? ==> d.appliedTag == if tag == baseline then "" else if stands then tag else applied)
  {
  }

  /** The bundled tag needs no patch. */
  lemma BundledIsWithdrawn(w: World, c: Component)
    requires Current(w, c) && w.out.bundled(c) == Some(w.patches[c].tag)
    ensures Withdrawn(w, AfterPass(w, c), c)
  {
    var d := Decide(w, c, w.patches[c]);
    CurrentDecision(w, c, w.patches[c], w.patches[c].tag);
    if d.Revert? { Reverting(w, c, d); } else { Leaving(w, c, d); }
  }

  /** What stands stays, and is recorded, unless the bundled tag has overtaken it. */
  lemma StandingOutcome(w: World, c: Component, baseline: string)
    requires Current(w, c) && w.out.bundled(c) == Some(baseline) && w.patches[c].tag != baseline && StandsInValues(w, c)
    ensures var v := AfterPass(w, c);
            if AboveBaseline(baseline, w.patches[c].tag)
            then v.configs == w.configs && Record(v, c) == w.patches[c].tag
            else Withdrawn(w, v, c)
  {
    var d := Decide(w, c, w.patches[c]);
    CurrentDecision(w, c, w.patches[c], baseline);
    if d.Revert? { Reverting(w, c, d); } else { Leaving(w, c, d); }
  }

  /** What does not stand is written exactly when it may be, and else nothing changes. */
  lemma NewOutcome(w: World, c: Component, baseline: string)
    requires Current(w, c) && w.out.bundled(c) == Some(baseline) && w.patches[c].tag != baseline
    requires !StandsInValues(w, c)
    ensures var p, v := w.patches[c], AfterPass(w, c);
            if MayWrite(w, c, p.tag, p.appliedTag, baseline) then Written(w, v, c, p.tag) else Untouched(w, v, c)
  {
    var d := Decide(w, c, w.patches[c]);
    CurrentDecision(w, c, w.patches[c], baseline);
    if d.Apply? { Applying(w, c, d); } else { Leaving(w, c, d); }
  }

  /** A deleted object goes once its component is unmanaged; without the finalizer nothing is left to do. */
  lemma DeletedOutcome(w: World, c: Component)
    requires c in w.patches && w.patches[c].deleting
    ensures var v := AfterPass(w, c);
            if w.patches[c].finalizer then c !in v.patches && Managed(v, c) == "" && StrippedOff(w, v, c) else v == w
  {
    GoneEffect(w, c);
    if w.patches[c].finalizer && Managed(w, c) != "" { StrippedWhenGone(w, c); }
  }

  lemma StrippedWhenGone(w: World, c: Component)
    requires c in w.patches && w.patches[c].deleting && w.patches[c].finalizer && Managed(w, c) != ""
    ensures StrippedOff(w, AfterPass(w, c), c)
  {
    var e := ValuesOf(ConfigOf(w, c));
    assert ValuesOf(ConfigOf(AfterPass(w, c), c)) == Subtract(e, w.out.revertKeys(c));
    assert w.out.revertKeys(c) == RevertKeys(c);
    SubtractForeign(e, c, WithoutRegistry(Repository(c)), "revert");
  }
}
