/**
 How often one ImagePatch makes passes write its HelmChartConfig, with nothing else happening: once, unless
 the pass for another component strips the keys that both write; then twice, and never more.
 */
module Rewrites {
  import opened Text
  import opened Values
  import opened Comparison
  import opened Components
  import opened Patcher
  import opened Policy
  import opened Cluster
  import opened Protocol
  import opened Safety
  import opened Layout
  import opened Convergence
  import Tags

  // ---------- what disturbs a component at rest ----------

  /** Finalizing d strips keys that c writes as well: d is on its way out, still managed, and at c's place. */
  predicate Undermines(w: World, d: Component, c: Component) {
    d != c && {c, d} == {CoreDNS, DnsNodeCache} &&
    d in w.patches && w.patches[d].deleting && w.patches[d].finalizer && Managed(w, d) != ""
  }

  /** Only such a pass writes where a component that fits its chart has its values. */
  lemma WritesElsewhere(w: World, c: Component, d: Component)
    requires c != d && Chart(c) == Chart(d) && w.out.bundled(c).Some? && Writes(w, d) && !Undermines(w, d, c)
    ensures TopKey(c) != TopKey(d)
  {
    WritesBehindGate(w, d);
    if TopKey(c) == TopKey(d) {
      SamePlace(c, d);
      OneFits(w.out, c, d);
    }
  }

  /** Passes for others leave a spent component spent, unless they undermine it. */
  lemma OthersKeepSpent(w: World, c: Component, d: Component)
    requires Spent(w, c) && c != d && (c in w.patches && Managed(w, c) != "" ==> !Undermines(w, d, c))
    ensures Spent(AfterPass(w, d), c)
  {
    var v := AfterPass(w, d);
    PassEffect(w, d);
    SameGate(w, v, c);
    if c in w.patches && Managed(w, c) != "" {
      if Writes(w, d) && Chart(d) == Chart(c) {
        WritesElsewhere(w, c, d);
      }
      ComparedTheSame(w, v, c, d, w.patches[c].tag, Writes(w, d));
    }
  }

  /** The component is at rest, and if it is managed, no pass is going to undermine it. */
  ghost predicate Settled(w: World, c: Component) {
    Spent(w, c) && (c in w.patches && Managed(w, c) != "" ==> NoneUndermines(w, c))
  }

  ghost predicate NoneUndermines(w: World, c: Component) { forall d :: !Undermines(w, d, c) }

  /** Passes bring nothing new that undermines. */
  lemma PassesUndermineNoMore(w: World, c: Component, e: Component, d: Component)
    requires Undermines(AfterPass(w, e), d, c)
    ensures Undermines(w, d, c) && e != d
  {
    PassEffect(w, e);
    if e == d && w.patches[d].deleting {
      GoneEffect(w, d);
    } else if e == d {
      LivePass(w, d, Decide(w, d, w.patches[d]));
    }
  }

  lemma PassKeepsNone(w: World, c: Component, e: Component)
    requires NoneUndermines(w, c)
    ensures NoneUndermines(AfterPass(w, e), c)
  {
    forall d ensures !Undermines(AfterPass(w, e), d, c) {
      if Undermines(AfterPass(w, e), d, c) { PassesUndermineNoMore(w, c, e, d); }
    }
  }

  lemma PassKeepsSettled(w: World, c: Component, e: Component)
    requires Settled(w, c)
    ensures Settled(AfterPass(w, e), c)
  {
    if e == c { OwnPassKeepsSpent(w, c); } else { OthersKeepSpent(w, c, e); }
    MarkStays(w, c, e);
    if c in w.patches && Managed(w, c) != "" { PassKeepsNone(w, c, e); }
  }

  /** No pass brings a spent component under management, or its object back. */
  lemma MarkStays(w: World, c: Component, e: Component)
    requires Spent(w, c)
    ensures c in AfterPass(w, e).patches ==> c in w.patches
    ensures Managed(AfterPass(w, e), c) == Managed(w, c)
  {
    PassEffect(w, e);
    if e == c {
      SpentIsQuiet(w, c);
      SameMarks(w, AfterPass(w, c));
    }
  }

  lemma {:induction false} PassesKeepSettled(w: World, cs: seq<Component>, c: Component)
    requires Settled(w, c)
    ensures Settled(Passes(w, cs), c)
    decreases |cs|
  {
    if cs != [] {
      PassesKeepSettled(w, cs[..|cs| - 1], c);
      PassKeepsSettled(Passes(w, cs[..|cs| - 1]), c, cs[|cs| - 1]);
    }
  }

  /** The pass for c writes its values, and another pass is going to strip them. */
  ghost predicate Fought(w: World, c: Component) {
    Live(w, c) && Decide(w, c, w.patches[c]).Apply? && exists d :: Undermines(w, d, c)
  }

  /** Otherwise a write is the last one. */
  lemma WritesOnce(w: World, c: Component, between: seq<Component>)
    requires Writes(w, c) && !Fought(w, c)
    ensures !Writes(Passes(AfterPass(w, c), between), c)
  {
    WritingSpends(w, c);
    WritingSettles(w, c);
    PassesKeepSettled(AfterPass(w, c), between, c);
    SpentIsQuiet(Passes(AfterPass(w, c), between), c);
  }

  lemma WritingSettles(w: World, c: Component)
    requires Writes(w, c) && !Fought(w, c) && Spent(AfterPass(w, c), c)
    ensures Settled(AfterPass(w, c), c)
  {
    if Live(w, c) {
      var d := Decide(w, c, w.patches[c]);
      LivePass(w, c, d);
      if d.Apply? { PassKeepsNone(w, c, c); }
    } else {
      GoneEffect(w, c);
    }
  }

  // ---------- a write that is fought over ----------

  /** What the pass of the other one leaves: its own mark is gone, and the keys that both write. */
  lemma Undermined(v: World, u: World, c: Component, d: Component)
    requires Undermines(v, d, c) && u == AfterPass(v, d) && ConfigOf(v, c).Some?
    ensures u.out == v.out && u.version == v.version && u.cli == v.cli && Managed(u, d) == ""
    ensures forall e | e != d :: Managed(u, e) == Managed(v, e)
    ensures (c in u.patches <==> c in v.patches) && (c in v.patches ==> u.patches[c] == v.patches[c])
    ensures Holds(u, c, Subtract(ValuesOf(ConfigOf(v, c)), v.out.revertKeys(d)))
  {
    PassEffect(v, d);
    GoneEffect(v, d);
    StrippedAndGone(v, d, PutConfig(v, d, Stripped(v.out, ConfigOf(v, d).value, d)));
    assert Chart(c) == Chart(d);
    FinalizedValues(v, u, c, d);
  }

  lemma FinalizedValues(v: World, u: World, c: Component, d: Component)
    requires Undermines(v, d, c) && u == AfterPass(v, d) && Chart(c) == Chart(d) && ConfigOf(v, d).Some?
    ensures Holds(u, c, Subtract(ValuesOf(ConfigOf(v, c)), v.out.revertKeys(d)))
  {
  }

  /** Stripping the keys of one takes a value of the other away. */
  lemma StrippedIsAbsent(out: Outside, c: Component, d: Component, e: Tree, tag: string)
    requires c in {CoreDNS, DnsNodeCache} && d in {CoreDNS, DnsNodeCache}
    ensures !Present(Subtract(e, out.revertKeys(d)), out.generated(c, tag))
  {
    var repository := WithoutRegistry(match out.running(c) case Some(name) => name case None => Repository(c));
    assert out.revertKeys(d) == RevertKeys(d) && out.generated(c, tag) == Generated(out.running(c), c, tag);
    TagLeaf(c, repository, tag);
    TagLeaf(d, WithoutRegistry(Repository(d)), "revert");
    GeneratedShape(d, WithoutRegistry(Repository(d)), "revert");
    StripsLeaf(e, out.revertKeys(d), ["image", "tag"]);
  }

  lemma TagLeaf(c: Component, repository: string, tag: string)
    requires c in {CoreDNS, DnsNodeCache}
    ensures LeafAt(Generate(c, repository, tag), ["image", "tag"])
  {
    var p := ["image", "tag"];
    assert p[..|p| - 1] == ["image"] && ["image"] in ImagePaths(c);
    GeneratedLeaves(c, repository, tag, p);
  }

  lemma StripsLeaf(e: Tree, r: Tree, p: Path)
    requires NoEmptyMaps(r) && p != [] && LeafAt(r, p)
    ensures At(Subtract(e, r), p) == None
  {
    if At(Subtract(e, r), p).Some? {
      var rest := SomeEnd(At(Subtract(e, r), p).value);
      AtConcat(Subtract(e, r), p, rest);
      assert Related(p + rest, p);
      SubtractExact(e, r, p + rest);
    }
  }

  /** The state after c has applied and d has undermined it. */
  ghost predicate Torn(w: World, v: World, u: World, c: Component, d: Component, generated: Tree) {
    Live(w, c) && Decide(w, c, w.patches[c]) == Apply(generated) && Undermines(w, d, c) &&
    v == AfterPass(w, c) && u == AfterPass(v, d)
  }

  lemma TornState(w: World, v: World, u: World, c: Component, d: Component, generated: Tree, baseline: string)
    requires Torn(w, v, u, c, d, generated) && Gate(w, c) == Open(baseline)
    ensures Live(u, c) && u.patches[c].tag == w.patches[c].tag && u.patches[c].appliedTag == w.patches[c].tag
    ensures !HasMarker(u.patches[c]) && Managed(u, c) == u.version && Gate(u, c) == Gate(w, c) && u.out == w.out
    ensures !Present(ValuesOf(ConfigOf(u, c)), generated)
    ensures forall e | e != c :: Managed(u, e) == "" || Managed(u, e) == Managed(w, e)
  {
    var p := w.patches[c];
    WritingDecision(w, c, p, baseline);
    LiveOutcome(w, c, Apply(generated));
    LivePass(w, c, Apply(generated));
    AppliesRecord(w, c, generated);
    assert Undermines(v, d, c) && ConfigOf(v, c).Some?;
    Undermined(v, u, c, d);
    StrippedIsAbsent(w.out, c, d, ValuesOf(ConfigOf(v, c)), p.tag);
    SameGate(w, u, c);
  }

  lemma AppliesRecord(w: World, c: Component, generated: Tree)
    requires Live(w, c) && Decide(w, c, w.patches[c]) == Apply(generated)
    ensures c in AfterPass(w, c).patches && AfterPass(w, c).patches[c].appliedTag == w.patches[c].tag
  {
    PreparedKept(w, c);
    SameMarks(w, Prepared(w, c));
  }

  /** What an apply has to go by, but for the conflicts of a component that is not managed. */
  lemma ApplyMeans(w: World, c: Component, p: ImagePatch, baseline: string, generated: Tree)
    requires Gate(w, c) == Open(baseline) && Decide(w, c, p) == Apply(generated)
    ensures !StaleOther(w, c) && w.out.check(c, baseline, p.appliedTag, p.tag) == Allowed
    ensures p.tag != baseline && generated == w.out.generated(c, p.tag)
  {
  }

  lemma AppliesAgain(w: World, c: Component, p: ImagePatch, baseline: string, generated: Tree)
    requires Gate(w, c) == Open(baseline) && !HasMarker(p) && Managed(w, c) == w.version && p.tag != baseline
    requires !StaleOther(w, c) && w.out.check(c, baseline, p.appliedTag, p.tag) == Allowed
    requires generated == w.out.generated(c, p.tag) && !Present(ValuesOf(ConfigOf(w, c)), generated)
    ensures Decide(w, c, p) == Apply(generated)
  {
  }

  /** A tag that may be applied may be applied again. */
  lemma CheckedAgain(out: Outside, c: Component, baseline: string, applied: string, tag: string)
    requires out.check(c, baseline, applied, tag) == Allowed
    ensures out.check(c, baseline, tag, tag) == Allowed
  {
    assert out.check(c, baseline, applied, tag) ==
           CheckTarget(out.tags(c), out.zeroDay, c, baseline, applied, tag);
    assert out.check(c, baseline, tag, tag) == CheckTarget(out.tags(c), out.zeroDay, c, baseline, tag, tag);
    NotOlderThanItself(tag);
  }

  lemma NotOlderThanItself(tag: string)
    ensures ValidateNotOlderThanCurrent(tag, tag) == Allowed
  {
    if Tags.ParseTag(tag).Some? { Tags.CompareTagsTotal(Tags.ParseTag(tag).value, Tags.ParseTag(tag).value); }
  }

  lemma FoughtWritesAgain(w: World, c: Component, d: Component)
    requires Live(w, c) && Decide(w, c, w.patches[c]).Apply? && Undermines(w, d, c)
    ensures Writes(Passes(AfterPass(w, c), [d]), c)
  {
    var p, generated := w.patches[c], Decide(w, c, w.patches[c]).generated;
    var v := AfterPass(w, c);
    var u := AfterPass(v, d);
    assert [d][..0] == [];
    assert Passes(v, []) == v && Passes(v, [d]) == u;
    AppliesGenerated(w, c, p, Apply(generated));
    var baseline := Gate(w, c).baseline;
    ApplyMeans(w, c, p, baseline, generated);
    TornState(w, v, u, c, d, generated, baseline);
    CheckedAgain(w.out, c, baseline, p.appliedTag, p.tag);
    PassEffect(w, c);
    PassEffect(v, d);
    assert !StaleOther(u, c);
    AppliesAgain(u, c, u.patches[c], baseline, generated);
  }

  /**
   From any state, a pass that writes is followed by another write for the same component exactly when it
   applies, and another component at the same place of the same chart is being deleted and still managed.
   */
  lemma WritesAgainIff(w: World, c: Component)
    requires Writes(w, c)
    ensures (exists between :: WritesAfter(w, c, between)) <==> Fought(w, c)
  {
    if Fought(w, c) {
      FoughtWrites(w, c);
    } else {
      forall between ensures !WritesAfter(w, c, between) {
        WritesOnce(w, c, between);
      }
    }
  }

  /** After a pass for c and those in between, a pass for c writes. */
  ghost predicate WritesAfter(w: World, c: Component, between: seq<Component>) {
    Writes(Passes(AfterPass(w, c), between), c)
  }

  lemma FoughtWrites(w: World, c: Component)
    requires Fought(w, c)
    ensures exists between :: WritesAfter(w, c, between)
  {
    var d :| Undermines(w, d, c);
    FoughtWritesAgain(w, c, d);
    assert WritesAfter(w, c, [d]);
  }

  // ---------- no third write, and no second one in sound states ----------

  /** Nothing will make the component write again, or it has not been undermined yet. */
  ghost predicate Waiting(w: World, c: Component) { Spent(w, c) || NoneUndermines(w, c) }

  lemma PassKeepsWaiting(w: World, c: Component, e: Component)
    requires Waiting(w, c)
    ensures Waiting(AfterPass(w, e), c)
  {
    if NoneUndermines(w, c) {
      PassKeepsNone(w, c, e);
    } else if e == c {
      OwnPassKeepsSpent(w, c);
    } else if !Undermines(w, e, c) {
      OthersKeepSpent(w, c, e);
    } else {
      forall d ensures !Undermines(AfterPass(w, e), d, c) {
        if Undermines(AfterPass(w, e), d, c) { PassesUndermineNoMore(w, c, e, d); OnlyOne(w, c, d, e); }
      }
    }
  }

  lemma OnlyOne(w: World, c: Component, d: Component, e: Component)
    requires Undermines(w, d, c) && Undermines(w, e, c)
    ensures d == e
  {
    assert d in {CoreDNS, DnsNodeCache} && e in {CoreDNS, DnsNodeCache} && c in {CoreDNS, DnsNodeCache};
  }

  lemma {:induction false} PassesKeepWaiting(w: World, cs: seq<Component>, c: Component)
    requires Waiting(w, c)
    ensures Waiting(Passes(w, cs), c)
    decreases |cs|
  {
    if cs != [] {
      PassesKeepWaiting(w, cs[..|cs| - 1], c);
      PassKeepsWaiting(Passes(w, cs[..|cs| - 1]), c, cs[|cs| - 1]);
    }
  }

  /** From any state, each ImagePatch causes at most two writes. */
  lemma AtMostTwoWrites(w: World, c: Component, between: seq<Component>, v: World, more: seq<Component>)
    requires Writes(w, c) && v == Passes(AfterPass(w, c), between) && Writes(v, c)
    ensures !Writes(Passes(AfterPass(v, c), more), c)
  {
    WritingSpends(w, c);
    PassesKeepWaiting(AfterPass(w, c), between, c);
    if Spent(v, c) { SpentIsQuiet(v, c); }
    WritesOnce(v, c, more);
  }

  /** From a sound state, one: once a pass for c has written, no later one does, whatever comes in between. */
  lemma AtMostOneWrite(w: World, c: Component, between: seq<Component>)
    requires Sound(w) && Writes(w, c)
    ensures !Writes(Passes(AfterPass(w, c), between), c)
  {
    SoundIsNotFought(w, c);
    WritesOnce(w, c, between);
  }

  lemma SoundIsNotFought(w: World, c: Component)
    requires Sound(w)
    ensures !Fought(w, c)
  {
    if Fought(w, c) {
      var d :| Undermines(w, d, c);
      var p := w.patches[c];
      AppliesGenerated(w, c, p, Decide(w, c, p));
      ApplyMeans(w, c, p, Gate(w, c).baseline, Decide(w, c, p).generated);
      NotBothFit(w, c, d);
    }
  }

  lemma NotBothFit(w: World, c: Component, d: Component)
    requires Sound(w) && Undermines(w, d, c) && Managed(w, d) == w.version
    ensures Gate(w, c).Shut?
  {
    OneFits(w.out, c, d);
    SameGate(w, w, c);
  }
}
