/** The tags that a pass writes and records for its component, and when the recorded tag steps back. */
module History {
  import opened Text
  import opened Values
  import opened Comparison
  import opened Components
  import opened Patcher
  import opened Tags
  import opened Policy
  import opened Cluster
  import opened Protocol
  import opened Safety
  import opened Convergence

  // ---------- the order of tags that name a release ----------

  ghost predicate Parses(tag: string) { Parser()(tag).Some? }

  /** Both parse, and a is not older than b. */
  ghost predicate NotOlder(a: string, b: string) {
    Parses(a) && Parses(b) && CompareTags(Parser()(a).value, Parser()(b).value) >= 0
  }

  lemma EmptyDoesNotParse()
    ensures !Parses("")
  {
    assert ParseTag("").None?;
  }

  lemma NotOlderTransitive(a: string, b: string, c: string)
    requires NotOlder(a, b) && NotOlder(b, c)
    ensures NotOlder(a, c)
  {
    CompareTagsTransitive(Parser()(a).value, Parser()(b).value, Parser()(c).value);
  }

  lemma NotOlderReflexive(a: string)
    requires Parses(a)
    ensures NotOlder(a, a)
  {
    CompareTagsTotal(Parser()(a).value, Parser()(a).value);
  }

  /** An accepted target is newer than the bundled tag on its minor line, and no older than the recorded tag. */
  ghost predicate AboveBaseline(baseline: string, tag: string) {
    Parses(baseline) && Parses(tag) && OnSameLine(Parser()(baseline).value, Parser()(tag).value) &&
    CompareTags(Parser()(tag).value, Parser()(baseline).value) > 0
  }

  /** The target is allowed exactly when it is above the baseline, published, inside the window and not a step back. */
  lemma AcceptedTarget(tags: seq<string>, zeroDay: ValidDate, c: Component, baseline: string, applied: string,
      tag: string)
    ensures CheckTarget(tags, zeroDay, c, baseline, applied, tag) == Allowed <==>
            AboveBaseline(baseline, tag) && tag in tags && ValidatePatchWindow(c, tag, zeroDay) == Allowed &&
            (applied != "" && Parses(applied) ==> NotOlder(tag, applied))
  {
    RecheckIs(baseline, tag);
    if Parses(tag) { NotOlderIs(applied, tag); }
  }

  lemma RecheckIs(baseline: string, tag: string)
    ensures ValidateAgainstBaseline(baseline, tag) == Allowed <==> AboveBaseline(baseline, tag)
  {
  }

  lemma NotOlderIs(applied: string, tag: string)
    requires Parses(tag)
    ensures ValidateNotOlderThanCurrent(applied, tag) == Allowed <==> (Parses(applied) ==> NotOlder(tag, applied))
  {
  }

  /** The tag is published, and inside the patch window. */
  predicate Offered(out: Outside, c: Component, tag: string) {
    tag in out.tags(c) && ValidatePatchWindow(c, tag, out.zeroDay) == Allowed
  }

  /** The rules for a pass with these surroundings. */
  ghost predicate Acceptable(out: Outside, c: Component, baseline: string, applied: string, tag: string) {
    AboveBaseline(baseline, tag) && Offered(out, c, tag) &&
      (applied != "" && Parses(applied) ==> NotOlder(tag, applied))
  }

  lemma CheckedTarget(out: Outside, c: Component, baseline: string, applied: string, tag: string)
    ensures out.check(c, baseline, applied, tag) == Allowed <==> Acceptable(out, c, baseline, applied, tag)
  {
    assert out.check(c, baseline, applied, tag) == CheckTarget(out.tags(c), out.zeroDay, c, baseline, applied, tag);
    AcceptedTarget(out.tags(c), out.zeroDay, c, baseline, applied, tag);
  }

  lemma RecheckedTarget(out: Outside, baseline: string, tag: string)
    ensures out.recheck(baseline, tag) == Allowed <==> AboveBaseline(baseline, tag)
  {
    assert out.recheck(baseline, tag) == ValidateAgainstBaseline(baseline, tag);
    RecheckIs(baseline, tag);
  }

  // ---------- what one pass writes and records ----------

  /** The pass writes the values for spec.tag. */
  ghost predicate WritesTag(w: World, c: Component) { Live(w, c) && Decide(w, c, w.patches[c]).Apply? }

  /** No marker for the spec, managed on this version, and the spec's values in place and acceptable. */
  ghost predicate InPlace(w: World, c: Component, p: ImagePatch, baseline: string) {
    !HasMarker(p) && Managed(w, c) == w.version && p.tag != baseline &&
    Present(ValuesOf(ConfigOf(w, c)), w.out.generated(c, p.tag)) && w.out.recheck(baseline, p.tag) == Allowed
  }

  /** Nothing has to be done for spec.tag, which is in place. */
  ghost predicate Adopts(w: World, c: Component) {
    Live(w, c) && w.out.prime(Chart(c)) && w.cli == map[] && w.out.bundled(c).Some? &&
    InPlace(w, c, w.patches[c], w.out.bundled(c).value)
  }

  /** The tag found in place is older than the one recorded. */
  ghost predicate AdoptsOlder(w: World, c: Component) {
    Adopts(w, c) && w.patches[c].appliedTag != "" && !NotOlder(w.patches[c].tag, w.patches[c].appliedTag)
  }

  /** These are the passes that record spec.tag without writing it. */
  lemma AdoptsIs(w: World, c: Component)
    requires Live(w, c)
    ensures Adopts(w, c) <==> Decide(w, c, w.patches[c]) == Leave(Steady, w.patches[c].tag)
  {
    var p := w.patches[c];
    var gate := Gate(w, c);
    if gate.Open? { OpenAdopts(w, c, p, gate.baseline); }
    GateIs(w, c, p, gate);
  }

  lemma GateIs(w: World, c: Component, p: ImagePatch, gate: Gates)
    requires gate == Gate(w, c)
    ensures gate.Open? <==> w.out.prime(Chart(c)) && w.cli == map[] && w.out.bundled(c).Some?
    ensures gate.Open? ==> w.out.bundled(c) == Some(gate.baseline)
    ensures Decide(w, c, p) == if gate.Open?
            then DecideOpen(w, c, p, gate.baseline) else Leave(Blocked(gate.why), p.appliedTag)
  {
  }

  lemma OpenAdopts(w: World, c: Component, p: ImagePatch, baseline: string)
    ensures DecideOpen(w, c, p, baseline) == Leave(Steady, p.tag) <==> InPlace(w, c, p, baseline)
  {
    var generated, recheck := w.out.generated(c, p.tag), w.out.recheck(baseline, p.tag);
    var check := w.out.check(c, baseline, p.appliedTag, p.tag);
    InPlaceIs(c, ConfigOf(w, c), StaleOther(w, c), p.tag, p.appliedTag, baseline, generated, recheck, check);
    if !HasMarker(p) && !ManagedOnOldVersion(w, c) {
      OpenDecides(w, c, p, baseline, generated, recheck, check);
    }
  }

  lemma OpenDecides(w: World, c: Component, p: ImagePatch, baseline: string, generated: Tree, recheck: Verdict,
      check: Verdict)
    requires !HasMarker(p) && !ManagedOnOldVersion(w, c) && generated == w.out.generated(c, p.tag)
    requires recheck == w.out.recheck(baseline, p.tag) && check == w.out.check(c, baseline, p.appliedTag, p.tag)
    ensures DecideOpen(w, c, p, baseline) ==
            DecideWith(c, ConfigOf(w, c), StaleOther(w, c), p.tag, p.appliedTag, baseline, generated, recheck, check)
  {
  }

  lemma InPlaceIs(c: Component, seen: Option<Config>, stale: bool, tag: string, applied: string, baseline: string,
                  generated: Tree, recheck: Verdict, check: Verdict)
    ensures DecideWith(c, seen, stale, tag, applied, baseline, generated, recheck, check) == Leave(Steady, tag) <==>
            tag != baseline && ManagedOn(seen, c) != "" && Present(ValuesOf(seen), generated) && recheck == Allowed
  {
  }

  function Record(w: World, c: Component): string { if c in w.patches then w.patches[c].appliedTag else "" }

  function RecordOf(d: Decision, tag: string): string {
    match d
    case Leave(_, recorded) => recorded
    case Revert(_) => ""
    case Apply(_) => tag
  }

  lemma RecordedTag(w: World, c: Component, tag: string)
    requires c in w.patches
    ensures Record(RecordTag(w, c, tag), c) == tag
  {
  }

  lemma CarryRecords(w: World, c: Component, d: Decision)
    requires c in w.patches && (d.Revert? ==> ConfigOf(w, c).Some?)
    ensures Record(Carry(w, c, d), c) == RecordOf(d, w.patches[c].tag)
  {
    match d
    case Leave(_, tag) => RecordedTag(w, c, tag);
    case Revert(_) => RecordedTag(PutConfig(w, c, Stripped(w.out, ConfigOf(w, c).value, c)), c, "");
    case Apply(generated) =>
      RecordedTag(PutConfig(w, c, Patched(ConfigOf(w, c), c, generated, w.version)), c, w.patches[c].tag);
  }

  /** What a pass records, by its decision. */
  lemma RecordAfter(w: World, c: Component, d: Decision)
    requires Live(w, c) && d == Decide(w, c, w.patches[c])
    ensures Record(AfterPass(w, c), c) == RecordOf(d, w.patches[c].tag)
  {
    PreparedKept(w, c);
    SameMarks(w, Prepared(w, c));
    CarryRecords(Prepared(w, c), c, d);
  }

  /** A pass that leaves things alone keeps the record, clears it, or records what it finds in place. */
  lemma LeaveRecord(w: World, c: Component, p: ImagePatch, d: Decision)
    requires Live(w, c) && p == w.patches[c] && d == Decide(w, c, p) && d.Leave?
    ensures d.appliedTag == p.appliedTag || d.appliedTag == "" ||
            (Adopts(w, c) && d == Leave(Steady, p.tag) && Parses(p.tag))
  {
    AdoptsIs(w, c);
    if d == Leave(Steady, p.tag) {
      RecheckedTarget(w.out, w.out.bundled(c).value, p.tag);
    }
  }

  /** An apply has passed the checks against the bundled and the recorded tag, and its tag is on offer. */
  lemma ApplyIsChecked(w: World, c: Component)
    requires WritesTag(w, c)
    ensures Gate(w, c).Open? && AboveBaseline(Gate(w, c).baseline, w.patches[c].tag) &&
            Offered(w.out, c, w.patches[c].tag)
    ensures Record(w, c) != "" && Parses(Record(w, c)) ==> NotOlder(w.patches[c].tag, Record(w, c))
  {
    var p := w.patches[c];
    AppliesGenerated(w, c, p, Decide(w, c, p));
    var baseline := Gate(w, c).baseline;
    ApplyMeans(c, ConfigOf(w, c), StaleOther(w, c), p.tag, p.appliedTag, baseline, w.out.generated(c, p.tag),
               w.out.recheck(baseline, p.tag), w.out.check(c, baseline, p.appliedTag, p.tag));
    CheckedTarget(w.out, c, baseline, p.appliedTag, p.tag);
  }

  lemma ApplyMeans(c: Component, seen: Option<Config>, stale: bool, tag: string, applied: string, baseline: string,
                   generated: Tree, recheck: Verdict, check: Verdict)
    ensures DecideWith(c, seen, stale, tag, applied, baseline, generated, recheck, check).Apply? ==> check == Allowed
  {
  }

  /** The record is empty or a release tag, as it is in every reachable state (Records.RecordsParse). */
  ghost predicate RecordOk(w: World, c: Component) { Record(w, c) == "" || Parses(Record(w, c)) }

  lemma GoneKeepsRecord(w: World, c: Component)
    requires c in w.patches && w.patches[c].deleting
    ensures Record(AfterPass(w, c), c) == if w.patches[c].finalizer then "" else Record(w, c)
  {
    GoneEffect(w, c);
  }

  /** The recorded tag steps back in a pass exactly when the pass adopts an older tag that it finds in place. */
  lemma RecordStepsBackIffAdopted(w: World, c: Component)
    requires RecordOk(w, c)
    ensures Record(w, c) != "" && Record(AfterPass(w, c), c) != "" &&
            !NotOlder(Record(AfterPass(w, c), c), Record(w, c))
            <==> AdoptsOlder(w, c)
  {
    if Record(w, c) != "" {
      NotOlderReflexive(Record(w, c));
      if Live(w, c) {
        LiveStepsBack(w, c, Decide(w, c, w.patches[c]));
      } else {
        GoneKeepsRecord(w, c);
      }
    }
  }

  lemma LiveStepsBack(w: World, c: Component, d: Decision)
    requires Live(w, c) && d == Decide(w, c, w.patches[c]) && Record(w, c) != "" && NotOlder(Record(w, c), Record(w, c))
    ensures Record(AfterPass(w, c), c) != "" && !NotOlder(Record(AfterPass(w, c), c), Record(w, c)) <==>
            AdoptsOlder(w, c)
  {
    RecordAfter(w, c, d);
    AdoptsIs(w, c);
    if d.Leave? { LeaveRecord(w, c, w.patches[c], d); }
    if d.Apply? { ApplyIsChecked(w, c); }
    if Adopts(w, c) { AdoptedParses(w, c); }
  }

  lemma AdoptedParses(w: World, c: Component)
    requires Adopts(w, c)
    ensures Parses(w.patches[c].tag) && w.patches[c].tag != ""
  {
    RecheckedTarget(w.out, w.out.bundled(c).value, w.patches[c].tag);
    EmptyDoesNotParse();
  }
}
