/** A run in which the tags written for rke2-ingress-nginx go back: a user puts an older tag in place in between. */
module Backward {
  import opened Text
  import opened Values
  import opened Comparison
  import opened Components
  import opened Patcher
  import opened Tags
  import opened Policy
  import opened Cluster
  import opened Protocol
  import opened History
  import opened Scenes

  const NGINX := IngressNginx

  function NginxChart(base: string): Tree { Generate(NGINX, Repository(NGINX), base) }

  lemma Conditions(base: string, older: string, between: string, newest: string, tags: seq<string>, out: Outside)
    requires Later(base, older) && Later(older, between) && Later(between, newest) && Later(base, between) &&
             Later(base, newest)
    requires tags == [base, older, between, newest] && out == Surroundings(_ => true, _ => NginxChart(base), tags)
    ensures Ready(out, NGINX, base) && out.recheck(base, older) == Allowed
    ensures out.check(NGINX, base, "", newest) == Allowed && out.check(NGINX, base, older, between) == Allowed
  {
    OwnChartFits(NGINX, base, NginxChart(base));
    assert newest == tags[3] && between == tags[2];
    ChecksPass(NGINX, tags, base, "", newest);
    ChecksPass(NGINX, tags, base, older, between);
    RecheckPasses(base, older);
  }

  lemma OtherTagIsAbsent(out: Outside, s: string, t: string)
    requires s != t
    ensures !Present(out.generated(NGINX, s), out.generated(NGINX, t))
  {
    var p := ["controller", "image"] + ["primeTag"];
    assert p[..|p| - 1] == ["controller", "image"];
    assert out.generated(NGINX, s) == Generated(out.running(NGINX), NGINX, s);
    assert out.generated(NGINX, t) == Generated(out.running(NGINX), NGINX, t);
    var repository := WithoutRegistry(match out.running(NGINX) case Some(name) => name case None => Repository(NGINX));
    GeneratedLeaves(NGINX, repository, s, p);
    GeneratedLeaves(NGINX, repository, t, p);
    assert IsTagPath(NGINX, p);
    assert Clash(At(out.generated(NGINX, s), p).value, At(out.generated(NGINX, t), p).value);
  }

  /** A user edits the spec, and puts the values for it in place, between two passes. */
  ghost predicate Detour(
      r1: World, r2: World, r3: World, r4: World, r5: World, r6: World, older: string, between: string, values: Tree)
  {
    r2 == AfterPass(r1, NGINX) && r3 == MovePatch(r2, NGINX, EditSpec(older, Manual)) &&
    ConfigOf(r3, NGINX).Some? && CanMove(Machine(r3, Idle), UserValues(r3, NGINX, values)) &&
    r4 == After(Machine(r3, Idle), UserValues(r3, NGINX, values)).world &&
    r5 == AfterPass(r4, NGINX) && r6 == MovePatch(r5, NGINX, EditSpec(between, Manual))
  }

  lemma PassAdopts(w: World, out: Outside, base: string, tag: string, applied: string, values: Tree)
    requires Stands(w, NGINX, out, tag, Manual, applied, "v1", values) && Ready(out, NGINX, base) && tag != base
    requires Present(values, out.generated(NGINX, tag)) && out.recheck(base, tag) == Allowed
    ensures Adopts(w, NGINX)
    ensures Stands(AfterPass(w, NGINX), NGINX, out, tag, Manual, tag, "v1", values)
  {
    assert Gate(w, NGINX) == Open(base);
    AdoptsIs(w, NGINX);
    PassLeaves(w, NGINX, out, tag, Manual, applied, values, Leave(Steady, tag));
  }

  /** The newest tag is written, and a user asks for an older one. */
  lemma CourseStarts(out: Outside, base: string, older: string, newest: string, r1: World, r2: World, r3: World)
    requires Ready(out, NGINX, base) && out.check(NGINX, base, "", newest) == Allowed && newest != base
    requires Stands(r1, NGINX, out, newest, Manual, "", "", Empty)
    requires r2 == AfterPass(r1, NGINX) && r3 == MovePatch(r2, NGINX, EditSpec(older, Manual))
    ensures WritesTag(r1, NGINX) && Record(r2, NGINX) == newest
    ensures Stands(r3, NGINX, out, older, Manual, newest, "v1", Merge(Empty, out.generated(NGINX, newest)))
  {
    var first := out.generated(NGINX, newest);
    NothingConflicts(first);
    PassWrites(r1, NGINX, out, base, newest, Manual, "", "", Empty);
    UserEdits(r2, NGINX, out, newest, Manual, newest, "v1", Merge(Empty, first), older);
  }

  /** The user puts the older tag in place; then a tag in between is written. */
  lemma CourseEnds(
      out: Outside, base: string, older: string, between: string, r4: World, r5: World, r6: World, newest: string)
    requires Ready(out, NGINX, base) && out.recheck(base, older) == Allowed
    requires out.check(NGINX, base, older, between) == Allowed && older != base && between != base && older != between
    requires Stands(r4, NGINX, out, older, Manual, newest, "v1", out.generated(NGINX, older))
    requires r5 == AfterPass(r4, NGINX) && r6 == MovePatch(r5, NGINX, EditSpec(between, Manual))
    ensures Adopts(r4, NGINX) && Record(r5, NGINX) == older
    ensures Stands(r6, NGINX, out, between, Manual, older, "v1", out.generated(NGINX, older)) && WritesTag(r6, NGINX)
  {
    var second := out.generated(NGINX, older);
    SelfPresent(second);
    PassAdopts(r4, out, base, older, newest, second);
    UserEdits(r5, NGINX, out, older, Manual, older, "v1", second, between);
    OtherTagIsAbsent(out, older, between);
    PassWrites(r6, NGINX, out, base, between, Manual, older, "v1", second);
  }

  /** All of this happens in one run. */
  lemma CourseIsReached(
      out: Outside, newest: string, older: string, between: string, values: Tree,
      r1: World, r2: World, r3: World, r4: World, r5: World, r6: World)
    requires r1 == MovePatch(Start(out), NGINX, Create(newest, Manual)) && Initial(Machine(Start(out), Idle))
    requires Detour(r1, r2, r3, r4, r5, r6, older, between, values) && NGINX in r1.patches && NGINX in r4.patches
    ensures Reached(_ => true, Machine(r6, Idle))
  {
    var ok: Machine -> bool := _ => true;
    ReachInitial(ok, Machine(Start(out), Idle));
    ReachUser(ok, Start(out), OnPatch(NGINX, Create(newest, Manual)), r1);
    ReachPass(ok, r1, NGINX);
    ReachUser(ok, r2, OnPatch(NGINX, EditSpec(older, Manual)), r3);
    ReachUser(ok, r3, UserValues(r3, NGINX, values), r4);
    ReachPass(ok, r4, NGINX);
    ReachUser(ok, r5, OnPatch(NGINX, EditSpec(between, Manual)), r6);
  }

  /**
   So the tags written for a component can go back while it stays patched: from a new ImagePatch on, over
   five moves of the controller and a user.
   */
  lemma TagsCanGoBack() returns (
      out: Outside, newest: string, older: string, between: string, r1: World, r2: World, r3: World, r4: World,
      r5: World, r6: World)
    ensures r1 == MovePatch(Start(out), NGINX, Create(newest, Manual)) && Reached(_ => true, Machine(r6, Idle))
    ensures Detour(r1, r2, r3, r4, r5, r6, older, between, out.generated(NGINX, older))
    ensures WritesTag(r1, NGINX) && r1.patches[NGINX].tag == newest
    ensures WritesTag(r6, NGINX) && r6.patches[NGINX].tag == between && !NotOlder(between, newest)
    ensures AdoptsOlder(r4, NGINX) && forall r | r in {r2, r3, r4, r5, r6} :: Record(r, NGINX) != ""
  {
    var base;
    out, base, older, between, newest := Example();
    r1 := MovePatch(Start(out), NGINX, Create(newest, Manual));
    StartStands(out, NGINX, newest, Manual);
    r2 := AfterPass(r1, NGINX);
    r3 := MovePatch(r2, NGINX, EditSpec(older, Manual));
    var values := out.generated(NGINX, older);
    r4 := if ConfigOf(r3, NGINX).Some? then Rewrite(r3, NGINX, values) else r3;
    r5 := AfterPass(r4, NGINX);
    r6 := MovePatch(r5, NGINX, EditSpec(between, Manual));
    CourseStarts(out, base, older, newest, r1, r2, r3);
    UserRewrites(r3, NGINX, out, older, Manual, newest, Merge(Empty, out.generated(NGINX, newest)), values);
    CourseEnds(out, base, older, between, r4, r5, r6, newest);
    CourseIsReached(out, newest, older, between, values, r1, r2, r3, r4, r5, r6);
  }

  lemma Example() returns (out: Outside, base: string, older: string, between: string, newest: string)
    ensures Ready(out, NGINX, base) && out.recheck(base, older) == Allowed
    ensures out.check(NGINX, base, "", newest) == Allowed && out.check(NGINX, base, older, between) == Allowed
    ensures older != base && newest != base && between != base && older != between && older != "" && newest != ""
    ensures !NotOlder(older, newest) && !NotOlder(between, newest)
  {
    base, older, between, newest := TagOf(1), TagOf(2), TagOf(3), TagOf(4);
    var tags := [base, older, between, newest];
    out := Surroundings(_ => true, _ => NginxChart(base), tags);
    TagsOrdered(1, 2, base, older);
    TagsOrdered(2, 3, older, between);
    TagsOrdered(3, 4, between, newest);
    TagsOrdered(1, 3, base, between);
    TagsOrdered(1, 4, base, newest);
    TagsOrdered(2, 4, older, newest);
    Conditions(base, older, between, newest, tags, out);
  }
}
