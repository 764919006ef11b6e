/** The patcher's own loops over values trees, each proved against the laws of Values and Comparison. */
module Patcher {
  import opened Text
  import opened Values
  import opened Comparison
  import opened Components

  // ---------- subtracting and comparing ----------

  method DeepSubtractMap(base: Tree, toRemove: Tree) returns (result: Tree)
    ensures result == Subtract(base, toRemove)
    decreases toRemove
  {
    result := base;
    var todo := toRemove.m.Keys;
    while todo != {}
      invariant todo <= toRemove.m.Keys
      invariant result.m.Keys <= base.m.Keys
      invariant forall k | k in base.m && (k in todo || k !in toRemove.m) :: k in result.m && result.m[k] == base.m[k]
      invariant forall k | k in base.m && k in toRemove.m && k !in todo ::
                  if Dropped(base.m[k], k, toRemove) then k !in result.m
                  else k in result.m && result.m[k] == Subtract(base.m[k], toRemove.m[k])
    {
      var key :| key in todo;
      todo := todo - {key};
      if key in result.m {
        var existing, remove := result.m[key], toRemove.m[key];
        if remove.Map? && existing.Map? {
          var subtracted := DeepSubtractMap(existing, remove);
          if subtracted.m == map[] {
            result := Map(result.m - {key});
          } else {
            result := Map(result.m[key := subtracted]);
          }
        } else {
          result := Map(result.m - {key});
        }
      }
    }
    assert result.m == Subtract(base, toRemove).m;
  }

  ghost predicate Distinct<T>(s: seq<T>) {
    forall i, j :: 0 <= i < j < |s| ==> s[i] != s[j]
  }

  lemma DistinctAppend<T>(a: seq<T>, b: seq<T>)
    requires Distinct(a) && Distinct(b) && forall x | x in a :: x !in b
    ensures Distinct(a + b)
  {
    forall i, j | 0 <= i < j < |a + b| ensures (a + b)[i] != (a + b)[j] {
      if i < |a| <= j {
        assert a[i] in a && b[j - |a|] in b;
      }
    }
  }

  /** The paths below prefix that start with key, and what is left of them. */
  lemma PathStep(prefix: Path, key: string, p: Path)
    ensures prefix < p && p[|prefix|] == key <==> prefix + [key] <= p
    ensures prefix + [key] <= p ==> p[|prefix|..][1..] == p[|prefix + [key]|..]
    ensures prefix + [key] <= p ==> p[|prefix|..] != [] && p[|prefix|..][0] == key
    ensures prefix + [key] <= p ==> (p == prefix + [key] <==> p[|prefix + [key]|..] == [])
  {
    if prefix + [key] <= p {
      assert p == prefix + [key] + p[|prefix + [key]|..];
    }
    if prefix < p && p[|prefix|] == key {
      assert prefix + [key] == p[..|prefix| + 1];
    }
  }

  /** compareLeaves: clears the flag unless every leaf is present, and appends the conflicting paths. */
  method CompareLeaves(existing: Tree, generated: Tree, prefix: Path, flag: bool, found: seq<Path>)
      returns (allPresent: bool, conflicts: seq<Path>)
    ensures allPresent == (flag && Present(existing, generated))
    ensures found <= conflicts && Distinct(conflicts[|found|..])
    ensures forall p :: p in conflicts[|found|..] <==> prefix <= p && Conflict(existing, generated, p[|prefix|..])
    decreases generated
  {
    allPresent, conflicts := flag, found;
    var todo := generated.m.Keys;
    ghost var added: seq<Path> := [];
    while todo != {}
      invariant todo <= generated.m.Keys
      invariant allPresent == (flag && forall k | k in generated.m && k !in todo :: KeyPresent(existing, generated, k))
      invariant conflicts == found + added && Distinct(added)
      invariant forall p :: p in added <==> Reported(existing, generated, prefix, todo, p)
    {
      var key :| key in todo;
      todo := todo - {key};
      var path := prefix + [key];
      ghost var here: seq<Path> := [];
      if generated.m[key].Map? {
        if key !in existing.m || !existing.m[key].Map? {
          if key in existing.m {
            conflicts := conflicts + [path];
            here := [path];
          }
          allPresent := false;
        } else {
          var inner;
          allPresent, inner := CompareLeaves(existing.m[key], generated.m[key], path, allPresent, conflicts);
          here := inner[|conflicts|..];
          assert inner == conflicts + here;
          conflicts := inner;
        }
      } else if key !in existing.m {
        allPresent := false;
      } else if Print(existing.m[key]) != Print(generated.m[key]) {
        allPresent := false;
        conflicts := conflicts + [path];
        here := [path];
      }
      forall p ensures p in here <==> path <= p && KeyConflict(existing, generated, key, p[|path|..]) {
        PathStep(prefix, key, p);
      }
      forall p ensures p in here <==>
        prefix < p && p[|prefix|] == key && Reported(existing, generated, prefix, todo, p) {
        PathStep(prefix, key, p);
      }
      DistinctAppend(added, here);
      added := added + here;
      assert conflicts == found + added;
    }
    PresentByKeys(existing, generated);
    forall p ensures Reported(existing, generated, prefix, {}, p) <==>
                     prefix <= p && Conflict(existing, generated, p[|prefix|..]) {
      if prefix <= p {
        ConflictByKeys(existing, generated, p[|prefix|..]);
      }
    }
    assert conflicts[|found|..] == added;
  }

  /** The conflicts found once the keys of todo are still ahead. */
  ghost predicate Reported(e: Tree, g: Tree, prefix: Path, todo: set<string>, p: Path) {
    prefix < p && p[|prefix|] in g.m && p[|prefix|] !in todo &&
    KeyConflict(e, g, p[|prefix|], p[|prefix|..][1..])
  }

  // ---------- looking up tags ----------

  const SENTINEL := "rke2-patcher-tag-sentinel"

  /** collectSentinelPaths: appends exactly the paths that hold the sentinel, each once. */
  method CollectSentinelPaths(values: Tree, prefix: Path, found: seq<Path>) returns (paths: seq<Path>)
    ensures found <= paths && Distinct(paths[|found|..])
    ensures forall p :: p in paths[|found|..] <==> prefix <= p && At(values, p[|prefix|..]) == Some(Str(SENTINEL))
    decreases values
  {
    paths := found;
    var todo := values.m.Keys;
    ghost var added: seq<Path> := [];
    while todo != {}
      invariant todo <= values.m.Keys
      invariant paths == found + added && Distinct(added)
      invariant forall p :: p in added <==>
                  prefix < p && p[|prefix|] !in todo && At(values, p[|prefix|..]) == Some(Str(SENTINEL))
    {
      var key :| key in todo;
      todo := todo - {key};
      var path := prefix + [key];
      ghost var here: seq<Path> := [];
      match values.m[key] {
        case Map(_) =>
          var inner := CollectSentinelPaths(values.m[key], path, paths);
          here := inner[|paths|..];
          assert inner == paths + here;
          paths := inner;
        case Str(s) =>
          if s == SENTINEL {
            paths := paths + [path];
            here := [path];
          }
        case _ =>
      }
      forall p ensures p in here <==>
                       prefix < p && p[|prefix|] == key && At(values, p[|prefix|..]) == Some(Str(SENTINEL)) {
        PathStep(prefix, key, p);
      }
      DistinctAppend(added, here);
      added := added + here;
      assert paths == found + added;
    }
    assert paths[|found|..] == added;
  }

  /** What lookupString reads at a path: the printed value, trimmed; nothing for a missing or null value. */
  function Lookup(values: Tree, path: Path): Option<string> {
    var n := At(values, path);
    if n.Some? && n.value != Null then Some(TrimSpace(Print(n.value))) else None
  }

  method LookupString(values: Tree, path: Path) returns (r: Option<string>)
    ensures r == Lookup(values, path)
  {
    var current: Node := values;
    for i := 0 to |path|
      invariant At(values, path) == At(current, path[i..])
    {
      if !current.Map? || path[i] !in current.m {
        return None;
      }
      current := current.m[path[i]];
    }
    return if current == Null then None else Some(TrimSpace(Print(current)));
  }

  // ---------- the bundled tag ----------

  /** The first part of an image name is a registry host when it has a dot or a port, or is localhost. */
  predicate IsHost(part: string) {
    var first := ToLower(part);
    '.' in first || ':' in first || first == "localhost"
  }

  /** An image name without a leading registry host. */
  function WithoutRegistry(imageName: string): string {
    var at := IndexOf(imageName, '/');
    if at >= 0 && IsHost(imageName[..at]) then imageName[at + 1..] else imageName
  }

  /** What is in front of the first slash goes if it has a dot or a colon, or is localhost in any letter case. */
  lemma OnlyHostsAreStripped(first: string, rest: string, name: string)
    requires '/' !in first && name == first + ['/'] + rest
    ensures WithoutRegistry(name) ==
            if '.' in first || ':' in first || ToLower(first) == "localhost" then rest else name
  {
    IndexOfConcat(first, '/', rest);
    LowerKeeps(first, '.');
    LowerKeeps(first, ':');
  }

  lemma NoSlashNoHost(name: string)
    requires '/' !in name
    ensures WithoutRegistry(name) == name
  {
    IndexOfIs(name, '/');
  }

  /** Lower case neither makes nor removes a character that is no letter. */
  lemma LowerKeeps(s: string, c: char)
    requires c == '.' || c == ':'
    ensures c in ToLower(s) <==> c in s
  {
    assert forall i | 0 <= i < |s| :: ToLower(s)[i] == c <==> s[i] == c;
    if c in s {
      var i :| 0 <= i < |s| && s[i] == c;
      assert ToLower(s)[i] == c;
    }
  }

  /** imageRepositoryWithoutRegistry, which splits the name at its slashes and joins what is left. */
  lemma WithoutRegistryByParts(imageName: string, parts: seq<string>)
    requires parts == Split(imageName, '/')
    ensures WithoutRegistry(imageName) == if |parts| < 2 || !IsHost(parts[0]) then imageName else Join(parts[1..], '/')
  {
    var at := IndexOf(imageName, '/');
    PartsOf(imageName, at, parts);
    if at >= 0 { Strips(imageName, at, parts[0], Join(parts[1..], '/')); }
  }

  lemma PartsOf(imageName: string, at: int, parts: seq<string>)
    requires at == IndexOf(imageName, '/') && parts == Split(imageName, '/')
    ensures at < 0 ==> parts == [imageName]
    ensures at >= 0 ==>
              |parts| >= 2 && parts[0] == imageName[..at] && Join(parts[1..], '/') == imageName[at + 1..]
  {
    if at >= 0 {
      JoinOfSplit(imageName[at + 1..], '/');
      RestOfParts(parts, imageName[..at], Split(imageName[at + 1..], '/'));
    }
  }

  lemma Strips(imageName: string, at: nat, first: string, rest: string)
    requires at == IndexOf(imageName, '/') && first == imageName[..at] && rest == imageName[at + 1..]
    ensures WithoutRegistry(imageName) == if IsHost(first) then rest else imageName
  {
  }

  lemma RestOfParts(parts: seq<string>, first: string, rest: seq<string>)
    requires parts == [first] + rest
    ensures parts[0] == first && parts[1..] == rest
  {
  }

  function TagPaths(c: Component): seq<Path> {
    seq(|ImagePaths(c)|, i requires 0 <= i < |ImagePaths(c)| => ImagePaths(c)[i] + [TagKey(c)])
  }

  function RepositoryAt(chart: Tree, imagePath: Path): string {
    match Lookup(chart, imagePath + ["repository"]) case Some(r) => r case None => ""
  }

  /** WithoutRegistry as a value, so that proofs about charts do not look into names. */
  ghost function Stripper(): (strip: string -> string)
    ensures forall name {:trigger WithoutRegistry(name)} :: strip(name) == WithoutRegistry(name)
  {
    var same: string -> string := name => WithoutRegistry(name);
    assert forall name {:trigger WithoutRegistry(name)} :: same(name) == WithoutRegistry(name);
    var strip: string -> string :| forall name {:trigger WithoutRegistry(name)} :: strip(name) == WithoutRegistry(name);
    strip
  }

  /** The image at ip has this tag, next to the expected repository. */
  ghost predicate ImageIs(chart: Tree, ip: Path, tagKey: string, repository: string, tag: string) {
    Lookup(chart, ip + [tagKey]) == Some(tag) && Stripper()(RepositoryAt(chart, ip)) == Stripper()(repository)
  }

  ghost predicate AllImagesAre(chart: Tree, ips: seq<Path>, tagKey: string, repository: string, tag: string) {
    tag != "" && forall i | 0 <= i < |ips| :: ImageIs(chart, ips[i], tagKey, repository, tag)
  }

  /** The chart holds tag at every image of the component, next to the component's repository. */
  ghost predicate Bundles(c: Component, chart: Tree, tag: string) {
    AllImagesAre(chart, ImagePaths(c), TagKey(c), Repository(c), tag)
  }

  /** The bundled tag; None when the chart layout does not match what the patcher writes. */
  ghost function BundledTag(c: Component, chart: Tree): Option<string> {
    var first := Lookup(chart, ImagePaths(c)[0] + [TagKey(c)]);
    if first.Some? && Bundles(c, chart, first.value) then first else None
  }

  /** There is at most one such tag, and it is found whenever there is one. */
  lemma BundledTagIs(c: Component, chart: Tree, t: string)
    ensures BundledTag(c, chart) == Some(t) <==> Bundles(c, chart, t)
  {
    if Bundles(c, chart, t) {
      assert ImageIs(chart, ImagePaths(c)[0], TagKey(c), Repository(c), t);
    }
  }

  /** At the path stands a value with this text, apart from space around it. */
  predicate HasText(values: Tree, p: Path, text: string) {
    match At(values, p)
    case Some(Str(s)) => TrimSpace(s) == text
    case Some(Other(_, printed)) => TrimSpace(printed) == text
    case Some(Map(m)) => TrimSpace(Print(Map(m))) == text
    case _ => false
  }

  ghost predicate NamesRepository(values: Tree, p: Path, repository: string) {
    exists name :: HasText(values, p, name) && Stripper()(name) == repository
  }

  lemma RepositoryHasNoHost(c: Component, rest: string)
    requires Repository(c) == "rancher" + ['/'] + rest
    ensures WithoutRegistry(Repository(c)) == Repository(c) && Repository(c) != ""
  {
    var first := "rancher";
    assert |ToLower(first)| != |"localhost"|;
    OnlyHostsAreStripped(first, rest, Repository(c));
  }

  lemma AtRancher(c: Component) returns (rest: string)
    ensures Repository(c) == "rancher" + ['/'] + rest
  {
    rest := Repository(c)[8..];
  }

  lemma NothingToStrip(c: Component)
    ensures Stripper()(Repository(c)) == Repository(c) != "" && Stripper()("") == ""
  {
    var rest := AtRancher(c);
    RepositoryHasNoHost(c, rest);
    NoSlashNoHost("");
    assert Stripper()(Repository(c)) == WithoutRegistry(Repository(c)) && Stripper()("") == WithoutRegistry("");
  }

  lemma ReadsRepository(chart: Tree, ip: Path, repository: string)
    requires Stripper()(repository) == repository != "" && Stripper()("") == ""
    ensures Stripper()(RepositoryAt(chart, ip)) == Stripper()(repository) <==>
            NamesRepository(chart, ip + ["repository"], repository)
  {
    LookupReads(chart, ip + ["repository"]);
    assert Lookup(chart, ip + ["repository"]).Some? ==>
           HasText(chart, ip + ["repository"], RepositoryAt(chart, ip));
  }

  lemma LookupReads(values: Tree, p: Path)
    ensures forall text :: Lookup(values, p) == Some(text) <==> HasText(values, p, text)
  {
  }

  /**
   The bundled tag is the text that stands at every tag path of the component, next to the component's
   repository, which may have a registry host in front of it in the chart.
   */
  lemma BundledTagReads(c: Component, chart: Tree, t: string)
    ensures BundledTag(c, chart) == Some(t) <==>
            t != "" && forall ip | ip in ImagePaths(c) ::
              HasText(chart, ip + [TagKey(c)], t) && NamesRepository(chart, ip + ["repository"], Repository(c))
  {
    BundledTagIs(c, chart, t);
    NothingToStrip(c);
    forall ip | ip in ImagePaths(c)
      ensures ImageIs(chart, ip, TagKey(c), Repository(c), t) <==>
              HasText(chart, ip + [TagKey(c)], t) && NamesRepository(chart, ip + ["repository"], Repository(c))
    {
      ReadsRepository(chart, ip, Repository(c));
      LookupReads(chart, ip + [TagKey(c)]);
    }
    AllInOrder(c, chart, t);
  }

  lemma AllInOrder(c: Component, chart: Tree, t: string)
    ensures Bundles(c, chart, t) <==>
            t != "" && forall ip | ip in ImagePaths(c) :: ImageIs(chart, ip, TagKey(c), Repository(c), t)
  {
    if t != "" && forall ip | ip in ImagePaths(c) :: ImageIs(chart, ip, TagKey(c), Repository(c), t) {
      forall i | 0 <= i < |ImagePaths(c)| ensures ImageIs(chart, ImagePaths(c)[i], TagKey(c), Repository(c), t) {
        assert ImagePaths(c)[i] in ImagePaths(c);
      }
    }
  }

  /** The tag of one image, if it is set and next to the expected repository. */
  method ImageTag(chart: Tree, ip: Path, tagKey: string, repository: string) returns (r: Option<string>)
    ensures r.Some? ==> r.value != "" && ImageIs(chart, ip, tagKey, repository, r.value)
    ensures r.None? ==> forall t | t != "" :: !ImageIs(chart, ip, tagKey, repository, t)
  {
    var tag := LookupString(chart, ip + [tagKey]);
    if tag.None? || tag.value == "" {
      return None;
    }
    var found := LookupString(chart, ip + ["repository"]);
    var chartRepository := if found.Some? then found.value else "";
    if WithoutRegistry(chartRepository) != WithoutRegistry(repository) {
      return None;
    }
    return tag;
  }

  ghost predicate ImagesUpTo(chart: Tree, ips: seq<Path>, n: nat, tagKey: string, repository: string, tag: string)
    requires n <= |ips|
  {
    forall j :: 0 <= j < n ==> ImageIs(chart, ips[j], tagKey, repository, tag)
  }

  /** BundledImageTag: the loop over the images, stopping at the first that does not match. */
  method BundledImageTag(ips: seq<Path>, tagKey: string, repository: string, chart: Tree) returns (r: Option<string>)
    requires ips != []
    ensures r.Some? ==> AllImagesAre(chart, ips, tagKey, repository, r.value)
    ensures r.None? ==> forall t :: !AllImagesAre(chart, ips, tagKey, repository, t)
  {
    var bundled := "";
    for i := 0 to |ips|
      invariant i > 0 <==> bundled != ""
      invariant ImagesUpTo(chart, ips, i, tagKey, repository, bundled)
    {
      var tag := ImageTag(chart, ips[i], tagKey, repository);
      if tag.None? {
        NoTagAt(chart, ips, i, tagKey, repository);
        return None;
      }
      if bundled != "" && tag.value != bundled {
        OneTagEach(chart, ips, i, tagKey, repository, bundled, tag.value);
        return None;
      }
      bundled := tag.value;
    }
    return Some(bundled);
  }

  /** An image without a tag of its own leaves no tag for all. */
  lemma NoTagAt(chart: Tree, ips: seq<Path>, i: nat, tagKey: string, repository: string)
    requires i < |ips| && forall t | t != "" :: !ImageIs(chart, ips[i], tagKey, repository, t)
    ensures forall t :: !AllImagesAre(chart, ips, tagKey, repository, t)
  {
    assert forall t :: AllImagesAre(chart, ips, tagKey, repository, t) ==>
                         ImageIs(chart, ips[i], tagKey, repository, t);
  }

  /** Images with different tags have no tag in common. */
  lemma OneTagEach(chart: Tree, ips: seq<Path>, i: nat, tagKey: string, repository: string, first: string,
      other: string)
    requires 0 < i < |ips| && first != other
    requires ImageIs(chart, ips[0], tagKey, repository, first) && ImageIs(chart, ips[i], tagKey, repository, other)
    ensures forall t :: !AllImagesAre(chart, ips, tagKey, repository, t)
  {
    assert forall t :: ImageIs(chart, ips[i], tagKey, repository, t) ==> !ImageIs(chart, ips[0], tagKey, repository, t);
  }

  // ---------- what reading back and sharing a chart guarantee ----------

  /** ImageTagPaths are exactly the places a tag is written to. */
  lemma SentinelMarksTagPaths(c: Component, p: Path)
    ensures At(Generate(c, "repository", SENTINEL), p) == Some(Str(SENTINEL)) <==> IsTagPath(c, p)
    ensures IsTagPath(c, p) <==> p in TagPaths(c)
  {
    GeneratedLeaves(c, "repository", SENTINEL, p);
    TagPathsAre(c, p);
  }

  lemma TagPathsAre(c: Component, p: Path)
    ensures IsTagPath(c, p) <==> p in TagPaths(c)
  {
    if IsTagPath(c, p) {
      var i :| 0 <= i < |ImagePaths(c)| && ImagePaths(c)[i] == p[..|p| - 1];
      assert p == TagPaths(c)[i];
    }
    if p in TagPaths(c) { TagPathEnds(c, p); }
  }

  lemma TagPathEnds(c: Component, p: Path)
    requires p in TagPaths(c)
    ensures IsTagPath(c, p)
  {
    var i :| 0 <= i < |TagPaths(c)| && TagPaths(c)[i] == p;
    assert p[..|p| - 1] == ImagePaths(c)[i];
  }

  /** After a patch, every tag path of the component reads the tag that was patched. */
  lemma PatchedTagReadsBack(c: Component, e: Tree, repository: string, tag: string, p: Path)
    requires p in TagPaths(c)
    ensures Lookup(Merge(e, Generate(c, repository, tag)), p) == Some(TrimSpace(tag))
  {
    SentinelMarksTagPaths(c, p);
    GeneratedLeaves(c, repository, tag, p);
    AtMerge(e, Generate(c, repository, tag), p);
  }

  /** The laws of comparing hold of generated values exactly when neither text reads like a printed map. */
  lemma GeneratedArePlain(c: Component, repository: string, tag: string)
    ensures PlainLeaves(Generate(c, repository, tag)) <==> !(MAP_TEXT <= repository) && !(MAP_TEXT <= tag)
  {
    var g := Generate(c, repository, tag);
    if PlainLeaves(g) { PlainTexts(c, repository, tag, g); }
    forall r | LeafAt(g, r) ensures Print(At(g, r).value) == tag || Print(At(g, r).value) == repository {
      GeneratedLeaves(c, repository, tag, r);
    }
  }

  lemma PlainTexts(c: Component, repository: string, tag: string, g: Tree)
    requires g == Generate(c, repository, tag) && PlainLeaves(g)
    ensures !(MAP_TEXT <= repository) && !(MAP_TEXT <= tag)
  {
    var ip := ImagePaths(c)[0];
    LeavesOfImage(c, repository, tag, ip);
    PlainText(g, ip + [TagKey(c)], tag);
    PlainText(g, ip + ["repository"], repository);
  }

  lemma PlainText(g: Tree, p: Path, text: string)
    requires PlainLeaves(g) && At(g, p) == Some(Str(text))
    ensures !(MAP_TEXT <= text)
  {
    assert LeafAt(g, p);
  }

  /** Two components that write next to each other can only both match a chart with one repository. */
  lemma SharedImageSharesRepository(c: Component, d: Component, chart: Tree)
    requires BundledTag(c, chart).Some? && BundledTag(d, chart).Some?
    requires exists ip :: ip in ImagePaths(c) && ip in ImagePaths(d)
    ensures WithoutRegistry(Repository(c)) == WithoutRegistry(Repository(d))
  {
    BundledTagIs(c, chart, BundledTag(c, chart).value);
    BundledTagIs(d, chart, BundledTag(d, chart).value);
  }
}
