/** What makes one release tag newer than another, and which names are no release tags. */
module Releases {
  import opened Text
  import opened Tags

  // ---------- what decides the order ----------

  /** A later build is newer, whatever the version. */
  lemma BuildDecides(a: Tag, b: Tag)
    requires a.build > b.build
    ensures CompareTags(a, b) > 0
  {
  }

  /** On the same build date, the higher version is newer: major before minor before patch. */
  lemma VersionDecides(a: Tag, b: Tag)
    requires a.build == b.build
    requires a.major > b.major ||
             (a.major == b.major && (a.minor > b.minor || (a.minor == b.minor && a.patch > b.patch)))
    ensures CompareTags(a, b) > 0
  {
  }

  /** Of two rebuilds of one version, the one with the higher flavor number is newer. */
  lemma FlavorNumberDecides(a: Tag, b: Tag)
    requires a.build == b.build && a.major == b.major && a.minor == b.minor && a.patch == b.patch
    requires a.flavorBase == b.flavorBase && a.flavorNumber > b.flavorNumber
    ensures CompareTags(a, b) > 0
  {
  }

  // ---------- printed tags without a build number ----------

  /** Nothing in the flavor looks like a build marker, a signature or an attestation, or is trimmed. */
  predicate PlainFlavor(flavor: string) {
    (flavor != "" ==> !IsSpace(flavor[|flavor| - 1])) &&
    (forall i | 0 <= i <= |flavor| :: !OccursAt("-" + flavor, BUILD_MARKER, i)) &&
    !HasSuffix(ToLower(flavor), ".sig") && !HasSuffix(ToLower(flavor), ".att")
  }

  /** A build marker in such a name is in its flavor. */
  lemma MarkerInFlavor(core: string, flavor: string, name: string, j: int)
    requires '-' !in core && name == "v" + WithFlavor(core, flavor) && OccursAt(name, BUILD_MARKER, j)
    ensures 0 <= j - 1 - |core| <= |flavor| && OccursAt("-" + flavor, BUILD_MARKER, j - 1 - |core|)
  {
    var at := 1 + |core|;
    assert name[j] == name[j..j + |BUILD_MARKER|][0] == '-';
    assert forall i | 0 < i < at :: name[i] == core[i - 1];
    assert flavor == "" ==> name == "v" + core;
    assert name[at..] == "-" + flavor;
    assert ("-" + flavor)[j - at..j - at + |BUILD_MARKER|] == name[j..j + |BUILD_MARKER|];
  }

  lemma NoMarkerIn(core: string, flavor: string, name: string)
    requires '-' !in core && PlainFlavor(flavor) && name == "v" + WithFlavor(core, flavor)
    ensures forall j :: !OccursAt(name, BUILD_MARKER, j)
  {
    forall j ensures !OccursAt(name, BUILD_MARKER, j) {
      if OccursAt(name, BUILD_MARKER, j) { MarkerInFlavor(core, flavor, name, j); }
    }
  }

  lemma PlainEnd(core: string, flavor: string, name: string)
    requires core != "" && IsDigit(core[|core| - 1]) && PlainFlavor(flavor) && name == "v" + WithFlavor(core, flavor)
    ensures TrimSpace(name) == name && !IsArtifact(name)
  {
    var last := if flavor == "" then core[|core| - 1] else flavor[|flavor| - 1];
    assert name[0] == 'v' && name[|name| - 1] == last && !IsSpace(last);
    TrimSpaceIs(name);
    NoSuffix(core, flavor, name, ".sig");
    NoSuffix(core, flavor, name, ".att");
    assert ToLower(name)[0] == 'v';
  }

  lemma NoSuffix(core: string, flavor: string, name: string, suffix: string)
    requires core != "" && IsDigit(core[|core| - 1]) && name == "v" + WithFlavor(core, flavor)
    requires suffix in {".sig", ".att"} && !HasSuffix(ToLower(flavor), suffix)
    ensures !HasSuffix(ToLower(name), suffix)
  {
    if |flavor| >= 4 {
      assert name == "v" + core + "-" + flavor;
      SuffixOfLower("v" + core + "-", flavor, suffix);
    } else {
      SuffixChar(core, flavor, name, suffix);
      NotInSuffix(ToLower(name), suffix, |name| - 1 - |flavor|);
    }
  }

  lemma SuffixOfLower(front: string, back: string, suffix: string)
    requires |suffix| <= |back|
    ensures HasSuffix(ToLower(front + back), suffix) <==> HasSuffix(ToLower(back), suffix)
  {
    var a, b := ToLower(front), ToLower(back);
    assert ToLower(front + back) == a + b;
    assert (a + b)[|a + b| - |suffix|..] == b[|b| - |suffix|..];
  }

  lemma NotInSuffix(s: string, suffix: string, i: nat)
    requires i < |s| && s[i] !in suffix && |s| - |suffix| <= i
    ensures !HasSuffix(s, suffix)
  {
    assert |suffix| <= |s| ==> s[|s| - |suffix|..][i - (|s| - |suffix|)] == s[i];
  }

  /** The dash, or the last digit of the core, is not part of the suffix. */
  lemma SuffixChar(core: string, flavor: string, name: string, suffix: string)
    requires core != "" && IsDigit(core[|core| - 1]) && name == "v" + WithFlavor(core, flavor)
    requires suffix in {".sig", ".att"} && |flavor| < 4
    ensures ToLower(name)[|name| - 1 - |flavor|] !in suffix
  {
    assert name[|name| - 1 - |flavor|] == if flavor == "" then core[|core| - 1] else '-';
  }

  lemma ParseRenderedPlain(major: nat, minor: nat, patch: nat, flavor: string, name: string)
    requires major < INT64_LIMIT && minor < INT64_LIMIT && patch < INT64_LIMIT && PlainFlavor(flavor)
    requires name == Render(major, minor, patch, flavor, None)
    ensures ParseTag(name) ==
            Some(Tag(name, major, minor, patch, 0, flavor, SplitFlavor(flavor).0, SplitFlavor(flavor).1))
  {
    ItoaIsNumber(major); ItoaIsNumber(minor); ItoaIsNumber(patch);
    PlainParts([Itoa(major), Itoa(minor), Itoa(patch)], flavor, name);
  }

  lemma PlainParts(numbers: seq<string>, flavor: string, name: string)
    requires |numbers| == 3 && IsNumber(numbers[0]) && IsNumber(numbers[1]) && IsNumber(numbers[2]) &&
             PlainFlavor(flavor)
    requires name == "v" + WithFlavor(Join(numbers, '.'), flavor)
    ensures ParseTag(name) ==
            Some(Tag(name, Atoi(numbers[0]).value, Atoi(numbers[1]).value, Atoi(numbers[2]).value, 0,
                     flavor, SplitFlavor(flavor).0, SplitFlavor(flavor).1))
  {
    var core := Join(numbers, '.');
    var text := WithFlavor(core, flavor);
    CoreOfNumbers(numbers, core);
    CoreEnds(numbers, core);
    PlainEnd(core, flavor, name);
    NoMarkerIn(core, flavor, name);
    LastIndexNone(name, BUILD_MARKER);
    assert name[1..] == text;
    DashParts(core, flavor, text);
    ParsesFromParts(name, 0, text, core, flavor, numbers);
  }

  lemma CoreEnds(numbers: seq<string>, core: string)
    requires |numbers| == 3 && IsNumber(numbers[2]) && core == Join(numbers, '.')
    ensures core != "" && IsDigit(core[|core| - 1])
  {
    assert Join(numbers[1..][1..], '.') == numbers[2];
    assert Join(numbers[1..], '.') == numbers[1] + "." + numbers[2];
    assert core == numbers[0] + "." + Join(numbers[1..], '.');
    assert core[|core| - 1] == numbers[2][|numbers[2]| - 1];
  }

  // ---------- the order of printed tags ----------

  /** What a release tag is printed from. */
  datatype Release = Release(major: nat, minor: nat, patch: nat, build: Option<nat>)

  predicate Small(x: Release) {
    x.major < INT64_LIMIT && x.minor < INT64_LIMIT && x.patch < INT64_LIMIT &&
    (x.build.Some? ==> x.build.value < INT64_LIMIT)
  }

  function Printed(x: Release, flavor: string): string { Render(x.major, x.minor, x.patch, flavor, x.build) }

  function BuildOf(x: Release): nat { match x.build case Some(build) => build case None => 0 }

  /** A later build, or a higher version of the same build. */
  predicate Later(x: Release, y: Release) {
    if BuildOf(x) != BuildOf(y) then BuildOf(x) > BuildOf(y)
    else if x.major != y.major then x.major > y.major
    else if x.minor != y.minor then x.minor > y.minor
    else x.patch > y.patch
  }

  lemma ParsePrinted(x: Release, flavor: string, name: string)
    requires Small(x) && PlainFlavor(flavor) && name == Printed(x, flavor)
    ensures ParseTag(name) == Some(Tag(name, x.major, x.minor, x.patch, BuildOf(x), flavor,
                                       SplitFlavor(flavor).0, SplitFlavor(flavor).1))
  {
    match x.build
    case Some(build) => ParseRendered(x.major, x.minor, x.patch, flavor, build, name);
    case None => ParseRenderedPlain(x.major, x.minor, x.patch, flavor, name);
  }

  /** Two releases of one flavor: the printed tag of the later one is the newer tag, with and without builds. */
  lemma LaterIsNewer(x: Release, y: Release, flavor: string, a: string, b: string)
    requires Small(x) && Small(y) && PlainFlavor(flavor) && a == Printed(x, flavor) && b == Printed(y, flavor)
    requires x.build.Some? <==> y.build.Some?
    ensures Newer(a, b) <==> Later(x, y)
  {
    ParsePrinted(x, flavor, a);
    ParsePrinted(y, flavor, b);
    Compares(Parser()(a).value, Parser()(b).value, x, y, a, b);
  }

  lemma Compares(s: Tag, t: Tag, x: Release, y: Release, a: string, b: string)
    requires Parser()(a) == Some(s) && Parser()(b) == Some(t) && s.name == a && t.name == b
    requires (s.major, s.minor, s.patch, s.build) == (x.major, x.minor, x.patch, BuildOf(x))
    requires (t.major, t.minor, t.patch, t.build) == (y.major, y.minor, y.patch, BuildOf(y))
    requires s.flavor == t.flavor && s.flavorBase == t.flavorBase && s.flavorNumber == t.flavorNumber
    requires x == y ==> a == b
    requires x.build.Some? <==> y.build.Some?
    ensures Newer(a, b) <==> Later(x, y)
  {
    CompareTagsTotal(s, t);
  }

  // ---------- names that are no release tags ----------

  /** Digests, signatures and attestations, in any letter case, and names without a leading v do not parse. */
  lemma NoRelease(name: string)
    ensures TrimSpace(name) == "" || TrimSpace(name)[0] != 'v' ==> ParseTag(name).None?
    ensures HasPrefix(ToLower(TrimSpace(name)), "sha256-") ==> ParseTag(name).None?
    ensures HasSuffix(ToLower(TrimSpace(name)), ".sig") || HasSuffix(ToLower(TrimSpace(name)), ".att") ==>
              ParseTag(name).None?
  {
  }

  /** What a name that parses looks like: its numbers and its flavor are all in it, in this order. */
  lemma ParsedName(name: string, t: Tag)
    requires Parser()(name) == Some(t)
    ensures exists parts, rest, tail :: Spells(TrimSpace(name), t, parts, rest, tail)
  {
    var build, text, dash, core, rest, parts := PartsOfName(name, TrimSpace(name), t);
    Pieces(TrimSpace(name), build, text, dash, core, rest, parts, t);
  }

  lemma Pieces(
      full: string, build: int, text: string, dash: int, core: string, rest: string, parts: seq<string>, t: Tag)
    requires full != "" && full[0] == 'v' && SplitBuild(full) == Some((build, text)) && dash == IndexOf(text, '-')
    requires core == (if dash >= 0 then text[..dash] else text) && rest == (if dash >= 0 then text[dash..] else "")
    requires parts == Split(core, '.') && |parts| == 3 && t.build == build
    requires Atoi(parts[0]) == Some(t.major) && Atoi(parts[1]) == Some(t.minor) && Atoi(parts[2]) == Some(t.patch)
    requires t.flavor == if dash >= 0 then rest[1..] else ""
    ensures exists tail :: Spells(full, t, parts, rest, tail)
  {
    var at := LastIndex(full, BUILD_MARKER);
    var tail := if at <= 1 then "" else full[at..];
    AroundMarker(full, at, build, text, tail);
    TailIs(full, at, tail, build);
    JoinOfSplit(core, '.');
    Assemble(full, t, text, dash, core, rest, tail, parts);
  }

  lemma Assemble(
      full: string, t: Tag, text: string, dash: int, core: string, rest: string, tail: string, parts: seq<string>)
    requires full == "v" + text + tail && dash == IndexOf(text, '-')
    requires core == (if dash >= 0 then text[..dash] else text) && rest == (if dash >= 0 then text[dash..] else "")
    requires core == Join(parts, '.') && |parts| == 3 && SpellsBuild(tail, t.build)
    requires Atoi(parts[0]) == Some(t.major) && Atoi(parts[1]) == Some(t.minor) && Atoi(parts[2]) == Some(t.patch)
    requires t.flavor == if dash >= 0 then rest[1..] else ""
    ensures Spells(full, t, parts, rest, tail)
  {
    DashFirst(text, dash, core, rest);
    assert full == "v" + core + rest + tail;
  }

  lemma DashFirst(text: string, dash: int, core: string, rest: string)
    requires dash == IndexOf(text, '-')
    requires core == (if dash >= 0 then text[..dash] else text) && rest == (if dash >= 0 then text[dash..] else "")
    ensures text == core + rest && (dash >= 0 <==> rest != "") && (rest != "" ==> rest == "-" + rest[1..])
  {
    IndexOfIs(text, '-');
  }

  lemma PartsOfName(name: string, full: string, t: Tag)
      returns (build: int, text: string, dash: int, core: string, rest: string, parts: seq<string>)
    requires Parser()(name) == Some(t) && full == TrimSpace(name)
    ensures full != "" && full[0] == 'v' && SplitBuild(full) == Some((build, text)) && dash == IndexOf(text, '-')
    ensures core == (if dash >= 0 then text[..dash] else text) && rest == (if dash >= 0 then text[dash..] else "")
    ensures parts == Split(core, '.') && |parts| == 3 && t.build == build
    ensures Atoi(parts[0]) == Some(t.major) && Atoi(parts[1]) == Some(t.minor) && Atoi(parts[2]) == Some(t.patch)
    ensures t.flavor == if dash >= 0 then rest[1..] else ""
  {
    assert ParseTag(name) == Some(t);
    build, text := SplitBuild(full).value.0, SplitBuild(full).value.1;
    dash := IndexOf(text, '-');
    core, rest := if dash >= 0 then text[..dash] else text, if dash >= 0 then text[dash..] else "";
    parts := Split(core, '.');
  }

  predicate Spells(name: string, t: Tag, parts: seq<string>, rest: string, tail: string) {
    name == "v" + Join(parts, '.') + rest + tail && |parts| == 3 &&
    Atoi(parts[0]) == Some(t.major) && Atoi(parts[1]) == Some(t.minor) && Atoi(parts[2]) == Some(t.patch) &&
    (rest == "" ==> t.flavor == "") && (rest != "" ==> rest == "-" + t.flavor) && SpellsBuild(tail, t.build)
  }

  /** No build marker means no build number. */
  predicate SpellsBuild(tail: string, build: int) {
    if tail == "" then build == 0
    else HasPrefix(tail, BUILD_MARKER) && Atoi(tail[|BUILD_MARKER|..]) == Some(build)
  }

  lemma AroundMarker(full: string, at: int, build: int, text: string, tail: string)
    requires full != "" && full[0] == 'v' && SplitBuild(full) == Some((build, text))
    requires at == LastIndex(full, BUILD_MARKER) && tail == if at <= 1 then "" else full[at..]
    ensures full == "v" + text + tail
  {
  }

  lemma TailIs(full: string, at: int, tail: string, build: int)
    requires full != "" && at == LastIndex(full, BUILD_MARKER) && tail == if at <= 1 then "" else full[at..]
    requires SplitBuild(full).Some? && SplitBuild(full).value.0 == build
    ensures SpellsBuild(tail, build)
  {
    if at > 1 {
      LastIndexIsLast(full, BUILD_MARKER);
      assert tail[|BUILD_MARKER|..] == full[at + |BUILD_MARKER|..];
      assert tail[..|BUILD_MARKER|] == full[at..at + |BUILD_MARKER|];
    }
  }
}
