/** Release tags: parsing, the order between them, and the newest-first list. */
module Tags {
  import opened Text

  datatype Tag = Tag(
    name: string, major: int, minor: int, patch: int, build: int,
    flavor: string, flavorBase: string, flavorNumber: int)

  const BUILD_MARKER := "-build"

  // ---------- parsing ----------

  function ParseTag(tagName: string): (t: Option<Tag>)
    ensures t.Some? ==> t.value.name == TrimSpace(tagName)
  {
    ParseName(TrimSpace(tagName))
  }

  /** Names that registries list beside release tags: digests, signatures, attestations. */
  predicate IsArtifact(name: string) {
    var lower := ToLower(name);
    HasPrefix(lower, "sha256-") || HasSuffix(lower, ".sig") || HasSuffix(lower, ".att")
  }

  /** The number after the last build marker, and the version text before it. */
  function SplitBuild(name: string): Option<(int, string)>
    requires name != []
  {
    var at := LastIndex(name, BUILD_MARKER);
    if at <= 1 then Some((0, name[1..]))
    else if at + |BUILD_MARKER| >= |name| then None
    else
      match Atoi(name[at + |BUILD_MARKER|..])
      case None => None
      case Some(build) => Some((build, name[1..at]))
  }

  function ParseName(name: string): (t: Option<Tag>)
    ensures t.Some? ==> t.value.name == name
  {
    if name == "" || IsArtifact(name) || !HasPrefix(name, "v") then None
    else
      match SplitBuild(name)
      case None => None
      case Some((build, versionAndFlavor)) =>
        var dash := IndexOf(versionAndFlavor, '-');
        var core := if dash >= 0 then versionAndFlavor[..dash] else versionAndFlavor;
        var flavor := if dash >= 0 then versionAndFlavor[dash + 1..] else "";
        var parts := Split(core, '.');
        if |parts| != 3 then None
        else
          match (Atoi(parts[0]), Atoi(parts[1]), Atoi(parts[2]))
          case (Some(major), Some(minor), Some(patch)) =>
            var (base, number) := SplitFlavor(flavor);
            Some(Tag(name, major, minor, patch, build, flavor, base, number))
          case _ => None
  }

  /** Where the trailing digits of s begin. */
  function DigitsStart(s: string, i: nat): (r: nat)
    requires i <= |s|
    ensures r <= i
  {
    if i > 0 && IsDigit(s[i - 1]) then DigitsStart(s, i - 1) else i
  }

  lemma {:induction false} DigitsStartIs(s: string, i: nat)
    requires i <= |s|
    ensures forall j :: DigitsStart(s, i) <= j < i ==> IsDigit(s[j])
    ensures DigitsStart(s, i) == 0 || !IsDigit(s[DigitsStart(s, i) - 1])
  {
    if i > 0 && IsDigit(s[i - 1]) {
      DigitsStartIs(s, i - 1);
    }
  }

  /** A flavor such as hardened2 is a base and a number; a number too large for 64 bits stays in the base. */
  function SplitFlavor(flavor: string): (string, int) {
    var trimmed := TrimSpace(flavor);
    var start := DigitsStart(trimmed, |trimmed|);
    var number := Atoi(trimmed[start..]);
    if start == |trimmed| || number.None? then (trimmed, 0) else (trimmed[..start], number.value)
  }

  /** The trailing digits of the text are the number, and the base is what is in front of them. */
  predicate SplitsAtDigits(text: string, base: string, number: int) {
    base < text && Atoi(text[|base|..]) == Some(number) && (base == "" || !IsDigit(base[|base| - 1])) &&
    forall i :: |base| <= i < |text| ==> IsDigit(text[i])
  }

  /** Without trailing digits that make a number, the text stays whole. */
  predicate Splits(text: string, base: string, number: int) {
    SplitsAtDigits(text, base, number) || (base == text && number == 0 && NoNumberAtEnd(text))
  }

  predicate NoNumberAtEnd(text: string) {
    text == "" || !IsDigit(text[|text| - 1]) || Atoi(text[DigitsStart(text, |text|)..]).None?
  }

  lemma SplitFlavorIs(flavor: string)
    ensures Splits(TrimSpace(flavor), SplitFlavor(flavor).0, SplitFlavor(flavor).1)
  {
    var trimmed := TrimSpace(flavor);
    DigitsStartIs(trimmed, |trimmed|);
  }

  method SplitFlavorLoop(flavor: string) returns (base: string, number: int)
    ensures (base, number) == SplitFlavor(flavor)
    ensures Splits(TrimSpace(flavor), base, number)
  {
    var trimmed := TrimSpace(flavor);
    SplitFlavorIs(flavor);
    if trimmed == "" {
      return "", 0;
    }
    var splitIndex := |trimmed|;
    while splitIndex > 0
      invariant 0 <= splitIndex <= |trimmed|
      invariant DigitsStart(trimmed, splitIndex) == DigitsStart(trimmed, |trimmed|)
    {
      if !IsDigit(trimmed[splitIndex - 1]) {
        break;
      }
      splitIndex := splitIndex - 1;
    }
    if splitIndex == |trimmed| {
      return trimmed, 0;
    }
    var parsed := Atoi(trimmed[splitIndex..]);
    if parsed.None? {
      return trimmed, 0;
    }
    return trimmed[..splitIndex], parsed.value;
  }

  // ---------- a printed release tag parses to its parts ----------

  /** v<major>.<minor>.<patch>[-<flavor>][-build<build>] */
  function Render(major: nat, minor: nat, patch: nat, flavor: string, build: Option<nat>): string {
    "v" + Join([Itoa(major), Itoa(minor), Itoa(patch)], '.') +
    (if flavor == "" then "" else "-" + flavor) +
    (if build.None? then "" else BUILD_MARKER + Itoa(build.value))
  }

  /** Printing and parsing agree on every part of a release tag with a build number. */
  lemma ParseRendered(major: nat, minor: nat, patch: nat, flavor: string, build: nat, name: string)
    requires major < INT64_LIMIT && minor < INT64_LIMIT && patch < INT64_LIMIT && build < INT64_LIMIT
    requires name == Render(major, minor, patch, flavor, Some(build))
    ensures ParseTag(name) ==
            Some(Tag(name, major, minor, patch, build, flavor, SplitFlavor(flavor).0, SplitFlavor(flavor).1))
  {
    ItoaIsNumber(major); ItoaIsNumber(minor); ItoaIsNumber(patch); ItoaIsNumber(build);
    ParseParts([Itoa(major), Itoa(minor), Itoa(patch)], flavor, Itoa(build), name);
  }

  function WithFlavor(core: string, flavor: string): string { core + if flavor == "" then "" else "-" + flavor }

  predicate IsNumber(s: string) {
    Atoi(s).Some? && s != "" && '-' !in s && '.' !in s && IsDigit(s[|s| - 1])
  }

  lemma ItoaIsNumber(n: nat)
    requires n < INT64_LIMIT
    ensures IsNumber(Itoa(n)) && Atoi(Itoa(n)) == Some(n)
  {
    AtoiOfItoa(n);
  }

  lemma ParseParts(numbers: seq<string>, flavor: string, digits: string, name: string)
    requires |numbers| == 3 && IsNumber(numbers[0]) && IsNumber(numbers[1]) && IsNumber(numbers[2]) && IsNumber(digits)
    requires name == "v" + WithFlavor(Join(numbers, '.'), flavor) + BUILD_MARKER + digits
    ensures ParseTag(name) ==
            Some(Tag(name, Atoi(numbers[0]).value, Atoi(numbers[1]).value, Atoi(numbers[2]).value, Atoi(digits).value,
                                       flavor, SplitFlavor(flavor).0, SplitFlavor(flavor).1))
  {
    var core := Join(numbers, '.');
    var text := WithFlavor(core, flavor);
    FrameOfName(text, digits, name);
    CoreOfNumbers(numbers, core);
    DashParts(core, flavor, text);
    ParsesFromParts(name, Atoi(digits).value, text, core, flavor, numbers);
  }

  lemma FrameOfName(text: string, digits: string, name: string)
    requires text != "" && IsNumber(digits) && name == "v" + text + BUILD_MARKER + digits
    ensures TrimSpace(name) == name && name != "" && !IsArtifact(name) && HasPrefix(name, "v")
    ensures SplitBuild(name) == Some((Atoi(digits).value, text))
  {
    StartsAndEnds(text, digits);
    LastBuildMarker(text, digits);
  }

  lemma StartsAndEnds(text: string, digits: string)
    requires IsNumber(digits)
    ensures var name := "v" + text + BUILD_MARKER + digits;
            TrimSpace(name) == name && name != "" && !IsArtifact(name) && HasPrefix(name, "v")
  {
    var name := "v" + text + BUILD_MARKER + digits;
    assert name[|name| - 1] == digits[|digits| - 1];
    TrimSpaceIs(name);
    NotAnArtifact(name);
  }

  /** How the pieces of a name make up the parsed tag. */
  lemma ParsesFromParts(name: string, build: int, text: string, core: string, flavor: string, numbers: seq<string>)
    requires name != "" && TrimSpace(name) == name && !IsArtifact(name) && HasPrefix(name, "v")
    requires SplitBuild(name) == Some((build, text))
    requires var dash := IndexOf(text, '-');
             (if dash >= 0 then text[..dash] else text) == core &&
             (if dash >= 0 then text[dash + 1..] else "") == flavor
    requires Split(core, '.') == numbers && |numbers| == 3
    requires Atoi(numbers[0]).Some? && Atoi(numbers[1]).Some? && Atoi(numbers[2]).Some?
    ensures ParseTag(name) == Some(Tag(name, Atoi(numbers[0]).value, Atoi(numbers[1]).value, Atoi(numbers[2]).value,
                                       build, flavor, SplitFlavor(flavor).0, SplitFlavor(flavor).1))
  {
  }

  lemma LastBuildMarker(text: string, digits: string)
    requires text != "" && IsNumber(digits)
    ensures SplitBuild("v" + text + BUILD_MARKER + digits) == Some((Atoi(digits).value, text))
  {
    var name := "v" + text + BUILD_MARKER + digits;
    LastMarker("v" + text, BUILD_MARKER, digits);
    assert name[1 + |text| + |BUILD_MARKER|..] == digits;
    assert name[1..1 + |text|] == text;
  }

  /** The last marker is the one in front of the digits, which hold no dash. */
  lemma LastMarker(front: string, marker: string, digits: string)
    requires marker == BUILD_MARKER && '-' !in digits
    ensures LastIndex(front + marker + digits, marker) == |front|
  {
    var name, at := front + marker + digits, |front|;
    assert OccursAt(name, marker, at);
    assert forall j :: at < j < |name| ==> name[j] == (marker + digits)[j - at] && name[j] != '-';
    forall j | OccursAt(name, marker, j) ensures name[j] == '-' {
      assert name[j] == name[j..j + |marker|][0] == marker[0];
    }
    LastIndexIs(name, marker, at);
  }

  lemma FirstDash(core: string, flavor: string, text: string)
    requires '-' !in core && text == WithFlavor(core, flavor)
    ensures IndexOf(text, '-') == if flavor == "" then -1 else |core|
  {
    if flavor == "" {
      assert text == core;
      IndexOfIs(core, '-');
    } else {
      assert text == core + ['-'] + flavor;
      IndexOfConcat(core, '-', flavor);
    }
  }

  lemma DashParts(core: string, flavor: string, text: string)
    requires '-' !in core && text == WithFlavor(core, flavor)
    ensures var dash := IndexOf(text, '-');
            (if dash >= 0 then text[..dash] else text) == core &&
            (if dash >= 0 then text[dash + 1..] else "") == flavor
  {
    FirstDash(core, flavor, text);
    AroundDash(core, flavor, text);
  }

  lemma AroundDash(core: string, flavor: string, text: string)
    requires text == WithFlavor(core, flavor)
    ensures if flavor == "" then text == core else text[..|core|] == core && text[|core| + 1..] == flavor
  {
    if flavor != "" {
      assert text == core + ("-" + flavor);
    }
  }

  lemma CoreOfNumbers(numbers: seq<string>, core: string)
    requires |numbers| == 3 && IsNumber(numbers[0]) && IsNumber(numbers[1]) && IsNumber(numbers[2])
    requires core == Join(numbers, '.')
    ensures '-' !in core && Split(core, '.') == numbers
  {
    assert Join(numbers[1..][1..], '.') == numbers[2];
    assert Join(numbers[1..], '.') == numbers[1] + "." + numbers[2];
    assert core == numbers[0] + "." + Join(numbers[1..], '.');
    SplitOfJoin(numbers, '.');
  }

  /** Something that starts with v and ends in a digit is no digest, signature or attestation. */
  lemma NotAnArtifact(name: string)
    requires name != "" && name[0] == 'v' && IsDigit(name[|name| - 1])
    ensures !IsArtifact(name)
  {
    var lower := ToLower(name);
    assert lower[0] == 'v' && IsDigit(lower[|lower| - 1]);
  }

  // ---------- the order ----------

  function CompareInt(left: int, right: int): int {
    if left > right then 1 else if left < right then -1 else 0
  }

  /** Positive when left is newer: build date first, then version, flavor and name. */
  function CompareTags(left: Tag, right: Tag): int {
    if left.build != right.build then CompareInt(left.build, right.build)
    else if left.major != right.major then CompareInt(left.major, right.major)
    else if left.minor != right.minor then CompareInt(left.minor, right.minor)
    else if left.patch != right.patch then CompareInt(left.patch, right.patch)
    else if left.flavorBase != right.flavorBase then Compare(left.flavorBase, right.flavorBase)
    else if left.flavorNumber != right.flavorNumber then CompareInt(left.flavorNumber, right.flavorNumber)
    else if left.flavor != right.flavor then Compare(left.flavor, right.flavor)
    else Compare(left.name, right.name)
  }

  lemma CompareTagsTotal(a: Tag, b: Tag)
    ensures CompareTags(a, b) == -CompareTags(b, a)
    ensures CompareTags(a, b) == 0 <==> a == b
  {
    CompareAntisymmetric(a.flavorBase, b.flavorBase);
    CompareAntisymmetric(a.flavor, b.flavor);
    CompareAntisymmetric(a.name, b.name);
  }

  lemma CompareTagsTransitive(a: Tag, b: Tag, c: Tag)
    requires CompareTags(a, b) >= 0 && CompareTags(b, c) >= 0
    ensures CompareTags(a, c) >= 0
    ensures CompareTags(a, c) == 0 ==> a == b == c
  {
    CompareTagsTotal(a, b); CompareTagsTotal(b, c); CompareTagsTotal(a, c);
    TextTransitive(a.flavorBase, b.flavorBase, c.flavorBase);
    TextTransitive(a.flavor, b.flavor, c.flavor);
    TextTransitive(a.name, b.name, c.name);
  }

  lemma TextTransitive(a: string, b: string, c: string)
    ensures Compare(a, b) >= 0 && Compare(b, c) >= 0 ==> Compare(a, c) >= 0
    ensures Compare(a, b) >= 0 && Compare(b, c) >= 0 && a == c ==> a == b
    ensures Compare(a, c) == 0 <==> a == c
  {
    CompareAntisymmetric(a, b); CompareAntisymmetric(b, c); CompareAntisymmetric(a, c);
    CompareAntisymmetric(b, a); CompareAntisymmetric(c, b); CompareAntisymmetric(c, a);
    if Compare(a, b) >= 0 && Compare(b, c) >= 0 {
      CompareTransitive(c, b, a);
    }
  }

  /** The first field in which two tags differ decides; a is newer if it has more of it. */
  ghost predicate Ahead(a: Tag, b: Tag) {
    if a.build != b.build then a.build > b.build
    else if a.major != b.major then a.major > b.major
    else if a.minor != b.minor then a.minor > b.minor
    else if a.patch != b.patch then a.patch > b.patch
    else if a.flavorBase != b.flavorBase then Precedes(b.flavorBase, a.flavorBase)
    else if a.flavorNumber != b.flavorNumber then a.flavorNumber > b.flavorNumber
    else if a.flavor != b.flavor then Precedes(b.flavor, a.flavor)
    else Precedes(b.name, a.name)
  }

  lemma CompareTagsMeans(a: Tag, b: Tag)
    ensures CompareTags(a, b) > 0 <==> Ahead(a, b)
    ensures CompareTags(a, b) < 0 <==> Ahead(b, a)
  {
    CompareMeans(a.flavorBase, b.flavorBase);
    CompareMeans(a.flavor, b.flavor);
    CompareMeans(a.name, b.name);
  }

  /** Two published names compare equal exactly when they are the same name. */
  lemma EqualOnlyByName(left: string, right: string)
    requires ParseTag(left).Some? && ParseTag(right).Some?
    ensures CompareTags(ParseTag(left).value, ParseTag(right).value) == 0 <==> TrimSpace(left) == TrimSpace(right)
  {
    CompareTagsTotal(ParseTag(left).value, ParseTag(right).value);
  }

  // ---------- the newest-first list ----------

  /** ParseTag as a value: what follows from the order of tags alone is proved without looking into the parser. */
  ghost function Parser(): (parse: string -> Option<Tag>)
    ensures forall tag {:trigger ParseTag(tag)} :: parse(tag) == ParseTag(tag)
  {
    var same: string -> Option<Tag> := tag => ParseTag(tag);
    assert forall tag {:trigger ParseTag(tag)} :: same(tag) == ParseTag(tag);
    var parse: string -> Option<Tag> :| forall tag {:trigger ParseTag(tag)} :: parse(tag) == ParseTag(tag);
    parse
  }

  /** A name that parses, without space around it. */
  ghost predicate IsTag(name: string) { Parser()(name).Some? && Parser()(name).value.name == name }

  ghost predicate Newer(left: string, right: string) {
    IsTag(left) && IsTag(right) && CompareTags(Parser()(left).value, Parser()(right).value) > 0
  }

  /** Strictly newest first. */
  ghost predicate NewestFirst(names: seq<string>) {
    (forall i :: 0 <= i < |names| ==> IsTag(names[i])) &&
    forall i, j :: 0 <= i < j < |names| ==> Newer(names[i], names[j])
  }

  /** The list holds exactly the parseable names of the input, trimmed. */
  ghost predicate ListsTagsOf(names: seq<string>, ordered: seq<string>) {
    forall t :: t in ordered <==> exists i :: 0 <= i < |names| && Parser()(names[i]).Some? && TrimSpace(names[i]) == t
  }

  ghost predicate SortedTags(tags: seq<Tag>) {
    forall i, j :: 0 <= i < j < |tags| ==> CompareTags(tags[i], tags[j]) >= 0
  }

  /** sort.Slice with CompareTags > 0: some descending arrangement of the same tags. */
  method SortTags(tags: seq<Tag>) returns (sorted: seq<Tag>)
    ensures SortedTags(sorted) && multiset(sorted) == multiset(tags)
  {
    sorted := [];
    for n := 0 to |tags|
      invariant SortedTags(sorted) && multiset(sorted) == multiset(tags[..n])
    {
      assert tags[..n + 1] == tags[..n] + [tags[n]];
      sorted := InsertTag(sorted, tags[n]);
    }
    assert tags[..|tags|] == tags;
  }

  method InsertTag(sorted: seq<Tag>, t: Tag) returns (r: seq<Tag>)
    requires SortedTags(sorted)
    ensures SortedTags(r) && multiset(r) == multiset(sorted) + multiset{t}
  {
    var i := 0;
    while i < |sorted| && CompareTags(sorted[i], t) >= 0
      invariant 0 <= i <= |sorted|
      invariant forall j :: 0 <= j < i ==> CompareTags(sorted[j], t) >= 0
    {
      i := i + 1;
    }
    InsertKeepsSorted(sorted, i, t);
    InsertAdds(sorted, i, t);
    r := sorted[..i] + [t] + sorted[i..];
  }

  lemma InsertAdds(s: seq<Tag>, i: nat, t: Tag)
    requires i <= |s|
    ensures multiset(s[..i] + [t] + s[i..]) == multiset(s) + multiset{t}
  {
    assert s == s[..i] + s[i..];
  }

  lemma InsertKeepsSorted(s: seq<Tag>, i: nat, t: Tag)
    requires SortedTags(s) && i <= |s|
    requires forall j :: 0 <= j < i ==> CompareTags(s[j], t) >= 0
    requires i < |s| ==> CompareTags(s[i], t) < 0
    ensures SortedTags(s[..i] + [t] + s[i..])
  {
    forall j | i <= j < |s| ensures CompareTags(t, s[j]) >= 0 {
      CompareTagsTotal(s[i], t);
      if j > i {
        CompareTagsTransitive(t, s[i], s[j]);
      }
    }
    var r := s[..i] + [t] + s[i..];
    forall a, b | 0 <= a < b < |r| ensures CompareTags(r[a], r[b]) >= 0 {
      var x := if a < i then s[a] else if a == i then t else s[a - 1];
      var y := if b < i then s[b] else if b == i then t else s[b - 1];
      assert r[a] == x && r[b] == y;
    }
  }

  /** The results of f where it has one, in order. */
  function FilterMap<T, U>(f: T -> Option<U>, s: seq<T>): seq<U> {
    if s == [] then []
    else FilterMap(f, s[..|s| - 1]) + match f(s[|s| - 1]) case Some(u) => [u] case None => []
  }

  lemma {:induction false} FilterMapHas<T, U>(f: T -> Option<U>, s: seq<T>, u: U)
    ensures u in FilterMap(f, s) <==> exists j :: 0 <= j < |s| && f(s[j]) == Some(u)
  {
    if s != [] {
      var last := |s| - 1;
      FilterMapHas(f, s[..last], u);
      assert forall j :: 0 <= j < last ==> s[..last][j] == s[j];
      assert u in FilterMap(f, s) <==> u in FilterMap(f, s[..last]) || f(s[last]) == Some(u);
    }
  }

  method ParseAll(names: seq<string>) returns (parsed: seq<Tag>)
    ensures parsed == FilterMap(ParseTag, names)
  {
    parsed := [];
    for i := 0 to |names|
      invariant parsed == FilterMap(ParseTag, names[..i])
    {
      var item := ParseTag(names[i]);
      if item.Some? {
        parsed := parsed + [item.value];
      }
      assert names[..i + 1][..i] == names[..i];
    }
    assert names[..|names|] == names;
  }

  /** Keeps the first of equal names. */
  method DropRepeats(sorted: seq<Tag>) returns (ordered: seq<string>, ghost kept: seq<Tag>)
    requires SortedTags(sorted)
    requires forall t, u | t in sorted && u in sorted && t.name == u.name :: t == u
    ensures |kept| == |ordered| && forall i :: 0 <= i < |kept| ==> ordered[i] == kept[i].name
    ensures forall i, j :: 0 <= i < j < |kept| ==> CompareTags(kept[i], kept[j]) > 0
    ensures forall t :: t in kept <==> t in sorted
  {
    ordered, kept := [], [];
    var seen: set<string> := {};
    for i := 0 to |sorted|
      invariant |kept| == |ordered| && forall k :: 0 <= k < |kept| ==> ordered[k] == kept[k].name
      invariant forall t :: t in kept <==> t in sorted[..i]
      invariant forall n :: n in seen <==> n in ordered
      invariant forall k, l :: 0 <= k < l < |kept| ==> CompareTags(kept[k], kept[l]) > 0
    {
      var item := sorted[i];
      assert sorted[..i + 1] == sorted[..i] + [item];
      if item.name !in seen {
        seen := seen + {item.name};
        forall k | 0 <= k < |kept| ensures CompareTags(kept[k], item) > 0 {
          assert kept[k] in sorted[..i] && ordered[k] in ordered;
          var j :| 0 <= j < i && kept[k] == sorted[j];
          CompareTagsTotal(sorted[j], item);
        }
        ordered := ordered + [item.name];
        kept := kept + [item];
      } else {
        var k :| 0 <= k < |ordered| && ordered[k] == item.name;
        assert kept[k] in sorted[..i] && item in sorted;
        assert kept[k] == item;
      }
    }
    assert sorted[..|sorted|] == sorted;
  }

  /** Each tag is ahead of all that follow it. */
  ghost predicate AheadFirst(names: seq<string>) {
    forall i, j :: 0 <= i < j < |names| ==> IsAhead(names[i], names[j])
  }

  ghost predicate IsAhead(left: string, right: string) {
    Parser()(left).Some? && Parser()(right).Some? && Ahead(Parser()(left).value, Parser()(right).value)
  }

  lemma NewerIsAhead(left: string, right: string)
    requires IsTag(left) && IsTag(right)
    ensures Newer(left, right) <==> IsAhead(left, right)
  {
    CompareTagsMeans(Parser()(left).value, Parser()(right).value);
  }

  method OrderTags(names: seq<string>) returns (ordered: seq<string>)
    ensures NewestFirst(ordered) && AheadFirst(ordered) && ListsTagsOf(names, ordered)
  {
    var parsed := ParseAll(names);
    var sorted := SortTags(parsed);
    SortedAreParsed(names, parsed, sorted);
    ghost var kept;
    ordered, kept := DropRepeats(sorted);
    KeptNames(names, ordered, kept);
    forall i, j | 0 <= i < j < |ordered| ensures IsAhead(ordered[i], ordered[j]) {
      NewerIsAhead(ordered[i], ordered[j]);
    }
  }

  lemma SortedAreParsed(names: seq<string>, parsed: seq<Tag>, sorted: seq<Tag>)
    requires parsed == FilterMap(ParseTag, names) && multiset(sorted) == multiset(parsed)
    ensures forall t :: t in sorted <==> exists j :: 0 <= j < |names| && Parser()(names[j]) == Some(t)
    ensures forall t, u | t in sorted && u in sorted && t.name == u.name :: t == u
  {
    forall t ensures t in sorted <==> exists j :: 0 <= j < |names| && Parser()(names[j]) == Some(t) {
      assert t in sorted <==> t in multiset(sorted);
      assert t in parsed <==> t in multiset(parsed);
      FilterMapHas(ParseTag, names, t);
      assert forall j :: 0 <= j < |names| ==> Parser()(names[j]) == ParseTag(names[j]);
    }
    forall t, u | t in sorted && u in sorted && t.name == u.name ensures t == u {
      var i :| 0 <= i < |names| && Parser()(names[i]) == Some(t);
      var j :| 0 <= j < |names| && Parser()(names[j]) == Some(u);
      ParsedAgain(names[i]);
      ParsedAgain(names[j]);
    }
  }

  /** The name in a parsed tag is the trimmed text, and parses to the same tag. */
  lemma ParsedAgain(text: string)
    requires Parser()(text).Some?
    ensures IsTag(TrimSpace(text)) && Parser()(TrimSpace(text)) == Parser()(text) &&
            Parser()(text).value.name == TrimSpace(text)
  {
    TrimSpaceIs(text);
    assert ParseTag(text) == ParseTag(TrimSpace(text));
  }

  /** The names of the kept tags are the trimmed parseable names, strictly newest first. */
  lemma KeptNames(names: seq<string>, ordered: seq<string>, kept: seq<Tag>)
    requires |kept| == |ordered| && forall i :: 0 <= i < |kept| ==> ordered[i] == kept[i].name
    requires forall i, j :: 0 <= i < j < |kept| ==> CompareTags(kept[i], kept[j]) > 0
    requires forall t :: t in kept <==> exists j :: 0 <= j < |names| && Parser()(names[j]) == Some(t)
    ensures NewestFirst(ordered) && ListsTagsOf(names, ordered)
  {
    forall i | 0 <= i < |kept| ensures Parser()(ordered[i]) == Some(kept[i]) && IsTag(ordered[i]) {
      assert kept[i] in kept;
      var j :| 0 <= j < |names| && Parser()(names[j]) == Some(kept[i]);
      ParsedAgain(names[j]);
    }
    forall n ensures n in ordered <==>
      exists i :: 0 <= i < |names| && Parser()(names[i]).Some? && TrimSpace(names[i]) == n {
      if n in ordered {
        var k :| 0 <= k < |ordered| && ordered[k] == n;
        assert kept[k] in kept;
        var j :| 0 <= j < |names| && Parser()(names[j]) == Some(kept[k]);
        ParsedAgain(names[j]);
      }
      if i :| 0 <= i < |names| && Parser()(names[i]).Some? && TrimSpace(names[i]) == n {
        ParsedAgain(names[i]);
        assert Parser()(names[i]).value in kept;
        var k :| 0 <= k < |kept| && kept[k] == Parser()(names[i]).value;
        assert ordered[k] == n;
      }
    }
  }

  ghost predicate StrictlyBy<T(!new)>(less: (T, T) -> bool, s: seq<T>) {
    forall i, j :: 0 <= i < j < |s| ==> less(s[i], s[j])
  }

  /** A sequence strictly ordered by an asymmetric relation is determined by its elements. */
  lemma {:induction false} StrictOrderUnique<T(!new)>(less: (T, T) -> bool, a: seq<T>, b: seq<T>)
    requires forall x, y :: less(x, y) ==> !less(y, x)
    requires StrictlyBy(less, a) && StrictlyBy(less, b)
    requires forall t :: t in a <==> t in b
    ensures a == b
    decreases |a|
  {
    assert a != [] ==> a[0] in b;
    assert b != [] ==> b[0] in a;
    if a != [] && b != [] {
      var i :| 0 <= i < |b| && b[i] == a[0];
      var j :| 0 <= j < |a| && a[j] == b[0];
      assert a[0] == b[0];
      forall t ensures t in a[1..] <==> t in b[1..] {
        TailElements(less, a, t);
        TailElements(less, b, t);
      }
      StrictOrderUnique(less, a[1..], b[1..]);
      assert a == [a[0]] + a[1..] && b == [b[0]] + b[1..];
    }
  }

  lemma TailElements<T(!new)>(less: (T, T) -> bool, a: seq<T>, t: T)
    requires forall x, y :: less(x, y) ==> !less(y, x)
    requires StrictlyBy(less, a) && a != []
    ensures t in a[1..] <==> t in a && t != a[0]
  {
    if t in a[1..] {
      var i :| 0 <= i < |a[1..]| && a[1..][i] == t;
      assert less(a[0], a[i + 1]);
    }
    if t in a && t != a[0] {
      var i :| 0 <= i < |a| && a[i] == t;
      assert a[1..][i - 1] == t;
    }
  }

  lemma NewerIsAsymmetric(x: string, y: string)
    requires Newer(x, y)
    ensures !Newer(y, x)
  {
    CompareTagsTotal(Parser()(x).value, Parser()(y).value);
  }

  /** There is only one newest-first list with given elements. */
  lemma NewestFirstUnique(a: seq<string>, b: seq<string>)
    requires NewestFirst(a) && NewestFirst(b)
    requires forall t :: t in a <==> t in b
    ensures a == b
  {
    var newer := (x, y) => Newer(x, y);
    forall x, y | newer(x, y) ensures !newer(y, x) {
      NewerIsAsymmetric(x, y);
    }
    StrictOrderUnique(newer, a, b);
  }

  /** Whatever the order and repetition of the registry's answer, the ordered list is the same. */
  lemma OrderIgnoresInputOrder(names: seq<string>, others: seq<string>, a: seq<string>, b: seq<string>)
    requires forall n :: n in names <==> n in others
    requires NewestFirst(a) && ListsTagsOf(names, a)
    requires NewestFirst(b) && ListsTagsOf(others, b)
    ensures a == b
  {
    forall t ensures t in a <==> t in b {
      if t in a {
        var i :| 0 <= i < |names| && Parser()(names[i]).Some? && TrimSpace(names[i]) == t;
        assert names[i] in others;
      }
      if t in b {
        var i :| 0 <= i < |others| && Parser()(others[i]).Some? && TrimSpace(others[i]) == t;
        assert others[i] in names;
      }
    }
    NewestFirstUnique(a, b);
  }
}
