/**
 The values of a HelmChartConfig as a tree, and the three operations the patcher performs on them:
 merging generated values over existing ones, subtracting the generated keys again, and comparing.

 Every law below is derived from two exact descriptions, MergeExact and SubtractExact, which say
 node by node what the result holds.
 */
module Values {
  import opened Text

  /** A YAML value. Other stands for numbers, booleans and lists: text is what fmt.Sprint prints. */
  datatype Node = Str(s: string) | Other(value: int, text: string) | Null | Map(m: map<string, Node>)

  type Tree = n: Node | n.Map? witness Map(map[])

  type Path = seq<string>

  const Empty: Tree := Map(map[])

  // ---------- navigation ----------

  function At(n: Node, p: Path): Option<Node>
    decreases |p|
  {
    if p == [] then Some(n)
    else if n.Map? && p[0] in n.m then At(n.m[p[0]], p[1..])
    else None
  }

  /** An end of the tree: a scalar, or a map without keys. */
  predicate IsEnd(n: Node) { !n.Map? || n.m == map[] }

  function EndAt(n: Node, p: Path): Option<Node> {
    if At(n, p).Some? && IsEnd(At(n, p).value) then At(n, p) else None
  }

  predicate LeafAt(n: Node, p: Path) { At(n, p).Some? && !At(n, p).value.Map? }

  predicate NoEmptyMaps(n: Node)
    decreases n
  {
    n.Map? ==> n.m != map[] && forall k | k in n.m :: NoEmptyMaps(n.m[k])
  }

  predicate Related(p: Path, q: Path) { p <= q || q <= p }

  /** The path p is above, at or below a leaf of g. */
  ghost predicate Touches(g: Node, p: Path) { exists q :: LeafAt(g, q) && Related(p, q) }

  /** No leaf of one tree is above, at or below a leaf of the other. */
  ghost predicate Apart(g: Node, h: Node) {
    forall p, q :: LeafAt(g, p) && LeafAt(h, q) ==> !Related(p, q)
  }

  ghost predicate SameLeaves(g: Node, h: Node) {
    forall p :: LeafAt(g, p) <==> LeafAt(h, p)
  }

  // ---------- the operations ----------

  /** mergo.Merge with override: maps are merged key by key, anything else is replaced. */
  function Merge(base: Node, overlay: Node): (n: Node)
    ensures overlay.Map? ==> n.Map?
    decreases overlay
  {
    if base.Map? && overlay.Map? then
      Map(map k | k in base.m.Keys + overlay.m.Keys ::
            if k !in overlay.m then base.m[k]
            else if k !in base.m then overlay.m[k]
            else Merge(base.m[k], overlay.m[k]))
    else overlay
  }

  /** deepSubtractMap: the keys of remove are dropped, and so is every map this empties. */
  function Subtract(base: Tree, remove: Tree): Tree
    decreases remove
  {
    Map(map k | k in base.m && !Dropped(base.m[k], k, remove) ::
          if k in remove.m then Subtract(base.m[k], remove.m[k]) else base.m[k])
  }

  predicate Dropped(existing: Node, k: string, remove: Tree)
    decreases remove, 0
  {
    k in remove.m && (!existing.Map? || !remove.m[k].Map? || Subtract(existing, remove.m[k]) == Empty)
  }

  // ---------- text of a value ----------

  /** fmt.Sprint on a value; maps are printed with their keys in order. */
  function Print(n: Node): (t: string)
    ensures n.Map? ==> MAP_TEXT <= t
    decreases n, 1, 0
  {
    match n
    case Str(s) => s
    case Other(_, text) => text
    case Null => "<nil>"
    case Map(m) => MAP_TEXT + PrintEntries(n, m.Keys) + "]"
  }

  const MAP_TEXT := "map["

  function PrintEntries(n: Tree, keys: set<string>): string
    requires keys <= n.m.Keys
    decreases n, 0, |keys|
  {
    if keys == {} then ""
    else
      var k := LeastKey(keys);
      k + ":" + Print(n.m[k]) + (if keys == {k} then "" else " " + PrintEntries(n, keys - {k}))
  }

  predicate IsLeast(k: string, keys: set<string>) {
    k in keys && forall j | j in keys :: Compare(k, j) <= 0
  }

  lemma {:induction false} LeastKeyExists(keys: set<string>)
    requires keys != {}
    ensures exists k :: IsLeast(k, keys)
    ensures forall a, b | IsLeast(a, keys) && IsLeast(b, keys) :: a == b
  {
    forall a, b | IsLeast(a, keys) && IsLeast(b, keys) ensures a == b {
      CompareAntisymmetric(a, b);
    }
    var some :| some in keys;
    CompareAntisymmetric(some, some);
    if keys == {some} {
      assert IsLeast(some, keys);
    } else {
      LeastKeyExists(keys - {some});
      var other :| IsLeast(other, keys - {some});
      CompareAntisymmetric(some, other);
      var least := if Compare(some, other) <= 0 then some else other;
      forall k | k in keys ensures Compare(least, k) <= 0 {
        if k != some {
          assert Compare(other, k) <= 0;
          CompareTransitive(least, other, k);
        }
      }
      assert IsLeast(least, keys);
    }
  }

  function LeastKey(keys: set<string>): (least: string)
    requires keys != {}
    ensures least in keys
  {
    LeastKeyExists(keys);
    var k :| IsLeast(k, keys);
    k
  }

  // ---------- paths ----------

  lemma AtHead(n: Tree, p: Path)
    requires p != []
    ensures At(n, p) == if p[0] in n.m then At(n.m[p[0]], p[1..]) else None
    ensures p[0] in n.m && p[1..] != [] && !n.m[p[0]].Map? ==> At(n, p).None?
  {
  }

  lemma OneStep(n: Tree, k: string)
    ensures At(n, [k]) == if k in n.m then Some(n.m[k]) else None
  {
    assert [k][1..] == [];
  }

  lemma {:induction false} AtConcat(n: Node, p: Path, q: Path)
    ensures At(n, p + q) == if At(n, p).Some? then At(At(n, p).value, q) else None
    decreases |p|
  {
    if p == [] {
      assert p + q == q;
    } else {
      assert (p + q)[1..] == p[1..] + q;
      if n.Map? && p[0] in n.m {
        AtConcat(n.m[p[0]], p[1..], q);
      }
    }
  }

  /** Under a leaf there is nothing. */
  lemma BelowLeaf(n: Node, p: Path, q: Path)
    requires LeafAt(n, q) && q <= p && p != q
    ensures At(n, p).None?
  {
    assert p == q + p[|q|..];
    AtConcat(n, q, p[|q|..]);
  }

  /** Above anything that exists there are maps. */
  lemma AboveIsMap(n: Node, p: Path, q: Path)
    requires At(n, p).Some? && q <= p && p != q
    ensures At(n, q).Some? && At(n, q).value.Map? && At(n, q).value.m != map[]
  {
    assert p == q + p[|q|..];
    AtConcat(n, q, p[|q|..]);
  }

  lemma {:induction false} SomeLeaf(n: Node) returns (p: Path)
    requires NoEmptyMaps(n)
    ensures LeafAt(n, p)
    decreases n
  {
    if n.Map? {
      var k :| k in n.m;
      var rest := SomeLeaf(n.m[k]);
      p := [k] + rest;
    } else {
      p := [];
    }
  }

  lemma {:induction false} SomeEnd(n: Node) returns (p: Path)
    ensures EndAt(n, p).Some?
    decreases n
  {
    if IsEnd(n) {
      p := [];
    } else {
      var k :| k in n.m;
      var rest := SomeEnd(n.m[k]);
      p := [k] + rest;
    }
  }

  /** A step down: what touches [k] + p in g touches p in g[k], when g[k] is a map. */
  lemma TouchesBelow(g: Tree, k: string, p: Path)
    requires NoEmptyMaps(g)
    ensures k !in g.m ==> !Touches(g, [k] + p)
    ensures k in g.m && !g.m[k].Map? ==> Touches(g, [k] + p)
    ensures k in g.m && p == [] ==> Touches(g, [k] + p)
    ensures k in g.m && g.m[k].Map? && p != [] ==> (Touches(g, [k] + p) <==> Touches(g.m[k], p))
  {
    if Touches(g, [k] + p) {
      var q :| LeafAt(g, q) && Related([k] + p, q);
      assert q != [] && q[0] == k && Related(p, q[1..]);
      assert LeafAt(g.m[k], q[1..]);
    }
    if k in g.m {
      if !g.m[k].Map? {
        assert LeafAt(g, [k]) && Related([k] + p, [k]);
      } else if p == [] {
        var q := SomeLeaf(g.m[k]);
        assert LeafAt(g, [k] + q) && Related([k] + p, [k] + q);
      } else if Touches(g.m[k], p) {
        var q :| LeafAt(g.m[k], q) && Related(p, q);
        assert LeafAt(g, [k] + q) && Related([k] + p, [k] + q);
      }
    }
  }

  // ---------- exact descriptions ----------

  /** What a merge holds at every path: the generated leaf, nothing around it, the old end elsewhere. */
  lemma {:induction false} MergeExact(e: Tree, g: Tree, p: Path)
    requires NoEmptyMaps(g) && p != []
    ensures EndAt(Merge(e, g), p) ==
            if LeafAt(g, p) then At(g, p) else if Touches(g, p) then None else EndAt(e, p)
    decreases |p|
  {
    var k, rest := p[0], p[1..];
    assert p == [k] + rest;
    TouchesBelow(g, k, rest);
    if k in g.m {
      if k in e.m && e.m[k].Map? && g.m[k].Map? {
        if rest != [] {
          MergeExact(e.m[k], g.m[k], rest);
        } else {
          var j :| j in g.m[k].m;
          assert j in Merge(e.m[k], g.m[k]).m;
          OneStep(Merge(e, g), k);
        }
      } else if !LeafAt(g, p) {
        assert Merge(e, g).m[k] == g.m[k];
        EndsAreLeaves(g.m[k], rest);
        if g.m[k].Map? {
          if rest != [] && k in e.m && !e.m[k].Map? {
            assert At(e, p).None?;
          }
          if rest != [] && !Touches(g, p) && At(g, p).Some? {
            var below := SomeLeafBelow(g, p);
            assert Related(p, below);
          }
        }
      }
    }
  }

  lemma {:induction false} EndsAreLeaves(g: Node, p: Path)
    requires NoEmptyMaps(g)
    ensures EndAt(g, p).Some? ==> LeafAt(g, p)
    decreases |p|
  {
    if p != [] && g.Map? && p[0] in g.m {
      EndsAreLeaves(g.m[p[0]], p[1..]);
    }
  }

  lemma {:induction false} SubtreeNoEmptyMaps(g: Node, p: Path)
    requires NoEmptyMaps(g) && At(g, p).Some?
    ensures NoEmptyMaps(At(g, p).value)
    decreases |p|
  {
    if p != [] {
      SubtreeNoEmptyMaps(g.m[p[0]], p[1..]);
    }
  }

  lemma SomeLeafBelow(g: Node, p: Path) returns (q: Path)
    requires NoEmptyMaps(g) && At(g, p).Some?
    ensures LeafAt(g, q) && p <= q
  {
    SubtreeNoEmptyMaps(g, p);
    var rest := SomeLeaf(At(g, p).value);
    q := p + rest;
    AtConcat(g, p, rest);
  }

  /** What a subtraction leaves at every path: the old end, unless a removed leaf is above, at or below. */
  lemma {:induction false} SubtractExact(e: Tree, r: Tree, p: Path)
    requires NoEmptyMaps(r) && p != []
    ensures EndAt(Subtract(e, r), p) == if Touches(r, p) then None else EndAt(e, p)
    decreases |p|
  {
    var k, rest := p[0], p[1..];
    assert p == [k] + rest;
    TouchesBelow(r, k, rest);
    if k in e.m && k in r.m && e.m[k].Map? && r.m[k].Map? {
      if rest != [] {
        SubtractExact(e.m[k], r.m[k], rest);
      } else {
        OneStep(Subtract(e, r), k);
      }
    } else if k in e.m && k in r.m {
      assert Dropped(e.m[k], k, r);
      assert rest != [] && !e.m[k].Map? ==> At(e, p).None?;
    } else if k in e.m {
      assert !Dropped(e.m[k], k, r);
      assert Subtract(e, r).m[k] == e.m[k];
    }
  }

  /** A tree is determined by its ends. */
  lemma {:induction false} EndsDetermine(a: Tree, b: Tree)
    requires forall p | p != [] :: EndAt(a, p) == EndAt(b, p)
    ensures a == b
    decreases a
  {
    KeysFromEnds(a, b);
    KeysFromEnds(b, a);
    forall k | k in a.m ensures a.m[k] == b.m[k] {
      OneStep(a, k);
      OneStep(b, k);
      assert EndAt(a, [k]) == EndAt(b, [k]);
      if !IsEnd(a.m[k]) {
        forall p | p != [] ensures EndAt(a.m[k], p) == EndAt(b.m[k], p) {
          assert ([k] + p)[1..] == p;
          assert EndAt(a, [k] + p) == EndAt(b, [k] + p);
        }
        EndsDetermine(a.m[k], b.m[k]);
      }
    }
    assert a.m == b.m;
  }

  lemma KeysFromEnds(a: Tree, b: Tree)
    requires forall p | p != [] :: EndAt(a, p) == EndAt(b, p)
    ensures a.m.Keys <= b.m.Keys
  {
    forall k | k in a.m ensures k in b.m {
      var rest := SomeEnd(a.m[k]);
      assert ([k] + rest)[1..] == rest;
      assert EndAt(a, [k] + rest).Some?;
      assert EndAt(b, [k] + rest).Some?;
    }
  }

  // ---------- laws ----------

  lemma SameTouch(g: Node, h: Node, p: Path)
    requires SameLeaves(g, h)
    ensures Touches(g, p) <==> Touches(h, p)
  {
  }

  /** Patching and then reverting is reverting: nothing else of the original is lost or changed. */
  lemma RevertAfterPatch(e: Tree, g: Tree, r: Tree)
    requires NoEmptyMaps(g) && NoEmptyMaps(r) && SameLeaves(g, r)
    ensures Subtract(Merge(e, g), r) == Subtract(e, r)
  {
    forall p | p != [] ensures EndAt(Subtract(Merge(e, g), r), p) == EndAt(Subtract(e, r), p) {
      SubtractExact(Merge(e, g), r, p);
      SubtractExact(e, r, p);
      MergeExact(e, g, p);
      SameTouch(g, r, p);
    }
    EndsDetermine(Subtract(Merge(e, g), r), Subtract(e, r));
  }

  /** All the patches of one component, in order, with whatever tags. */
  function MergeAll(e: Tree, patches: seq<Tree>): Tree
    decreases |patches|
  {
    if patches == [] then e else MergeAll(Merge(e, patches[0]), patches[1..])
  }

  lemma {:induction false} RevertAfterPatches(e: Tree, patches: seq<Tree>, r: Tree)
    requires NoEmptyMaps(r)
    requires forall g | g in patches :: NoEmptyMaps(g) && SameLeaves(g, r)
    ensures Subtract(MergeAll(e, patches), r) == Subtract(e, r)
    decreases |patches|
  {
    if patches != [] {
      RevertAfterPatches(Merge(e, patches[0]), patches[1..], r);
      RevertAfterPatch(e, patches[0], r);
    }
  }

  /** A revert restores the original exactly when the user had nothing on the way to a generated leaf. */
  lemma RevertRestores(e: Tree, r: Tree)
    requires NoEmptyMaps(r)
    ensures Subtract(e, r) == e <==> forall p | p != [] && EndAt(e, p).Some? :: !Touches(r, p)
  {
    forall p | p != [] ensures EndAt(Subtract(e, r), p) == if Touches(r, p) then None else EndAt(e, p) {
      SubtractExact(e, r, p);
    }
    if forall p | p != [] && EndAt(e, p).Some? :: !Touches(r, p) {
      EndsDetermine(Subtract(e, r), e);
    }
  }

  lemma RevertTwice(e: Tree, r: Tree)
    requires NoEmptyMaps(r)
    ensures Subtract(Subtract(e, r), r) == Subtract(e, r)
  {
    forall p | p != [] ensures EndAt(Subtract(Subtract(e, r), r), p) == EndAt(Subtract(e, r), p) {
      SubtractExact(Subtract(e, r), r, p);
      SubtractExact(e, r, p);
    }
    EndsDetermine(Subtract(Subtract(e, r), r), Subtract(e, r));
  }

  lemma RevertsCommute(e: Tree, r: Tree, s: Tree)
    requires NoEmptyMaps(r) && NoEmptyMaps(s)
    ensures Subtract(Subtract(e, r), s) == Subtract(Subtract(e, s), r)
  {
    forall p | p != [] ensures EndAt(Subtract(Subtract(e, r), s), p) == EndAt(Subtract(Subtract(e, s), r), p) {
      SubtractExact(Subtract(e, r), s, p);
      SubtractExact(Subtract(e, s), r, p);
      SubtractExact(e, r, p);
      SubtractExact(e, s, p);
    }
    EndsDetermine(Subtract(Subtract(e, r), s), Subtract(Subtract(e, s), r));
  }

  lemma PatchesCommute(e: Tree, g: Tree, h: Tree)
    requires NoEmptyMaps(g) && NoEmptyMaps(h) && Apart(g, h)
    ensures Merge(Merge(e, g), h) == Merge(Merge(e, h), g)
  {
    forall p | p != [] ensures EndAt(Merge(Merge(e, g), h), p) == EndAt(Merge(Merge(e, h), g), p) {
      MergeExact(Merge(e, g), h, p);
      MergeExact(Merge(e, h), g, p);
      MergeExact(e, g, p);
      MergeExact(e, h, p);
      ApartTouch(g, h, p);
      ApartTouch(h, g, p);
    }
    EndsDetermine(Merge(Merge(e, g), h), Merge(Merge(e, h), g));
  }

  lemma ApartTouch(g: Node, h: Node, p: Path)
    requires Apart(g, h)
    ensures LeafAt(g, p) ==> !Touches(h, p)
    ensures LeafAt(h, p) ==> !Touches(g, p)
  {
    if LeafAt(h, p) {
      forall q | LeafAt(g, q) ensures !Related(p, q) {
        assert Related(q, p) == Related(p, q);
      }
    }
  }

  lemma PatchAndRevertCommute(e: Tree, g: Tree, r: Tree)
    requires NoEmptyMaps(g) && NoEmptyMaps(r) && Apart(g, r)
    ensures Subtract(Merge(e, g), r) == Merge(Subtract(e, r), g)
  {
    forall p | p != [] ensures EndAt(Subtract(Merge(e, g), r), p) == EndAt(Merge(Subtract(e, r), g), p) {
      SubtractExact(Merge(e, g), r, p);
      MergeExact(Subtract(e, r), g, p);
      MergeExact(e, g, p);
      SubtractExact(e, r, p);
      ApartTouch(g, r, p);
    }
    EndsDetermine(Subtract(Merge(e, g), r), Merge(Subtract(e, r), g));
  }

  /** A later patch of the same component replaces the earlier one. */
  lemma LastPatchWins(e: Tree, g: Tree, h: Tree)
    requires NoEmptyMaps(g) && NoEmptyMaps(h) && SameLeaves(g, h)
    ensures Merge(Merge(e, g), h) == Merge(e, h)
  {
    forall p | p != [] ensures EndAt(Merge(Merge(e, g), h), p) == EndAt(Merge(e, h), p) {
      MergeExact(Merge(e, g), h, p);
      MergeExact(e, g, p);
      MergeExact(e, h, p);
      SameTouch(g, h, p);
    }
    EndsDetermine(Merge(Merge(e, g), h), Merge(e, h));
  }
}
