/** What comparing generated values with existing ones decides, stated against Merge. */
module Comparison {
  import opened Text
  import opened Values

  /** An existing node x and a generated node y cannot both stand: map against scalar, or another text. */
  predicate Clash(x: Node, y: Node) {
    if y.Map? then !x.Map? else Print(x) != Print(y)
  }

  ghost predicate Conflict(e: Tree, g: Tree, p: Path) {
    At(e, p).Some? && At(g, p).Some? && Clash(At(e, p).value, At(g, p).value)
  }

  ghost predicate Present(e: Tree, g: Tree) {
    forall p | At(g, p).Some? :: At(e, p).Some? && !Clash(At(e, p).value, At(g, p).value)
  }

  /** The same tree, up to how scalars are spelled. */
  ghost predicate Agrees(before: Tree, after: Tree) {
    forall p :: (At(before, p).Some? <==> At(after, p).Some?) &&
                (At(before, p).Some? ==> !Clash(At(before, p).value, At(after, p).value))
  }

  /** Every node of the old tree is still there, with the same text if it is not a map. */
  ghost predicate Keeps(before: Tree, after: Tree) {
    forall p | At(before, p).Some? :: At(after, p).Some? && !Clash(At(before, p).value, At(after, p).value)
  }

  /** Generated scalars never read like a printed map. */
  ghost predicate PlainLeaves(g: Tree) {
    forall p | LeafAt(g, p) :: !(MAP_TEXT <= Print(At(g, p).value))
  }

  ghost predicate UnderLeaf(g: Node, p: Path) {
    exists i :: 0 <= i < |p| && LeafAt(g, p[..i])
  }

  /** The node a merge holds at each path. */
  lemma {:induction false} AtMerge(e: Tree, g: Tree, p: Path)
    ensures At(Merge(e, g), p) ==
            if At(g, p).Some? then
              Some(if At(g, p).value.Map? && At(e, p).Some? && At(e, p).value.Map?
                   then Merge(At(e, p).value, At(g, p).value) else At(g, p).value)
            else if UnderLeaf(g, p) then None
            else At(e, p)
    decreases |p|
  {
    if p != [] {
      var k, rest := p[0], p[1..];
      UnderLeafStep(g, p);
      if k in g.m && k in e.m && g.m[k].Map? && e.m[k].Map? {
        AtMerge(e.m[k], g.m[k], rest);
      } else if k in g.m {
        assert Merge(e, g).m[k] == g.m[k];
        NothingUnderLeaf(g.m[k], rest);
        if rest != [] {
          assert !g.m[k].Map? ==> LeafAt(g.m[k], rest[..0]);
          assert k in e.m && !e.m[k].Map? ==> At(e, p).None?;
        }
      } else if k in e.m {
        assert Merge(e, g).m[k] == e.m[k];
      }
    }
  }

  lemma UnderLeafStep(g: Tree, p: Path)
    requires p != []
    ensures UnderLeaf(g, p) <==> p[0] in g.m && UnderLeaf(g.m[p[0]], p[1..])
  {
    if UnderLeaf(g, p) {
      var i :| 0 <= i < |p| && LeafAt(g, p[..i]);
      assert i > 0 && p[..i][1..] == p[1..][..i - 1];
    }
    if p[0] in g.m && UnderLeaf(g.m[p[0]], p[1..]) {
      var i :| 0 <= i < |p[1..]| && LeafAt(g.m[p[0]], p[1..][..i]);
      assert p[..i + 1][1..] == p[1..][..i];
    }
  }

  lemma {:induction false} NothingUnderLeaf(g: Node, p: Path)
    ensures UnderLeaf(g, p) ==> At(g, p).None?
  {
    if UnderLeaf(g, p) {
      var i :| 0 <= i < |p| && LeafAt(g, p[..i]);
      BelowLeaf(g, p, p[..i]);
    }
  }

  /** "Present" means exactly that merging the generated values changes nothing. */
  lemma PresentMeansNothingToDo(e: Tree, g: Tree)
    requires PlainLeaves(g)
    ensures Present(e, g) <==> Agrees(e, Merge(e, g))
  {
    if Present(e, g) {
      forall p ensures (At(e, p).Some? <==> At(Merge(e, g), p).Some?) &&
                       (At(e, p).Some? ==> !Clash(At(e, p).value, At(Merge(e, g), p).value)) {
        AtMerge(e, g, p);
        if At(g, p).None? && UnderLeaf(g, p) {
          var i :| 0 <= i < |p| && LeafAt(g, p[..i]);
          assert !At(e, p[..i]).value.Map?;
          BelowLeaf(e, p, p[..i]);
        }
      }
    }
    if Agrees(e, Merge(e, g)) {
      forall p | At(g, p).Some? ensures At(e, p).Some? && !Clash(At(e, p).value, At(g, p).value) {
        AtMerge(e, g, p);
      }
    }
  }

  /** A value of the user under a generated leaf conflicts with that leaf. */
  lemma UnderLeafConflicts(e: Tree, g: Tree, p: Path)
    requires At(e, p).Some? && UnderLeaf(g, p)
    ensures PlainLeaves(g) ==> exists q :: Conflict(e, g, q)
  {
    var i :| 0 <= i < |p| && LeafAt(g, p[..i]);
    AboveIsMap(e, p, p[..i]);
    assert PlainLeaves(g) ==> Conflict(e, g, p[..i]);
  }

  /** No conflict means exactly that merging keeps every value the user already has. */
  lemma NoConflictMeansKept(e: Tree, g: Tree)
    requires PlainLeaves(g)
    ensures (forall p :: !Conflict(e, g, p)) <==> Keeps(e, Merge(e, g))
  {
    if forall p :: !Conflict(e, g, p) {
      forall p | At(e, p).Some?
        ensures At(Merge(e, g), p).Some? && !Clash(At(e, p).value, At(Merge(e, g), p).value)
      {
        AtMerge(e, g, p);
        assert !Conflict(e, g, p);
        if UnderLeaf(g, p) {
          UnderLeafConflicts(e, g, p);
        }
      }
    }
    if Keeps(e, Merge(e, g)) {
      forall p ensures !Conflict(e, g, p) {
        AtMerge(e, g, p);
      }
    }
  }

  /** After a merge the generated values are all present and nothing conflicts. */
  lemma MergeMakesPresent(e: Tree, g: Tree)
    ensures Present(Merge(e, g), g)
    ensures forall p :: !Conflict(Merge(e, g), g, p)
  {
    forall p | At(g, p).Some?
      ensures At(Merge(e, g), p).Some? && !Clash(At(Merge(e, g), p).value, At(g, p).value)
    {
      AtMerge(e, g, p);
    }
  }

  // ---------- one key at a time ----------

  ghost predicate KeyPresent(e: Tree, g: Tree, k: string)
    requires k in g.m
  {
    k in e.m && !Clash(e.m[k], g.m[k]) && (g.m[k].Map? ==> Present(e.m[k], g.m[k]))
  }

  lemma PresentByKeys(e: Tree, g: Tree)
    ensures Present(e, g) <==> forall k | k in g.m :: KeyPresent(e, g, k)
  {
    if Present(e, g) {
      forall k | k in g.m ensures KeyPresent(e, g, k) {
        OneStep(g, k);
        OneStep(e, k);
        assert At(g, [k]).Some?;
        if g.m[k].Map? {
          forall p | At(g.m[k], p).Some?
            ensures At(e.m[k], p).Some? && !Clash(At(e.m[k], p).value, At(g.m[k], p).value)
          {
            assert ([k] + p)[1..] == p;
            assert At(g, [k] + p).Some?;
          }
        }
      }
    }
    if forall k | k in g.m :: KeyPresent(e, g, k) {
      forall p | At(g, p).Some? ensures At(e, p).Some? && !Clash(At(e, p).value, At(g, p).value) {
        if p != [] {
          assert KeyPresent(e, g, p[0]);
          AtHead(e, p);
          AtHead(g, p);
        }
      }
    }
  }

  ghost predicate KeyConflict(e: Tree, g: Tree, k: string, rest: Path)
    requires k in g.m
  {
    k in e.m &&
    if rest == [] then Clash(e.m[k], g.m[k])
    else g.m[k].Map? && e.m[k].Map? && Conflict(e.m[k], g.m[k], rest)
  }

  lemma ConflictByKeys(e: Tree, g: Tree, p: Path)
    ensures Conflict(e, g, p) <==> p != [] && p[0] in g.m && KeyConflict(e, g, p[0], p[1..])
  {
    if p != [] {
      AtHead(e, p);
      AtHead(g, p);
    }
  }
}
