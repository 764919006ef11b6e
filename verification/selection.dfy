/** The CLI's index-based selection over the newest-first list, against the comparison-based rules. */
module Selection {
  import opened Text
  import opened Tags
  import opened Components
  import opened Policy

  datatype Why =
    | NoTags | CurrentNotFound | AlreadyLatest | TargetNotFound | AlreadyRunning | Older | NotComparable
    | NewerMinor | OtherMinor

  datatype Resolution = Target(tag: string) | Refusal(why: Why)

  /** t is the least published tag strictly newer than the current one. */
  ghost predicate IsNext(published: seq<string>, current: string, t: string) {
    t in published && Newer(t, current) &&
    forall u | u in published && Newer(u, current) :: u == t || Newer(u, t)
  }

  /** The tag belongs to the current major/minor line or to an older one. */
  ghost predicate OnNoNewerLine(t: string, current: string) {
    Parser()(t).Some? && Parser()(current).Some? &&
    var tag, running := Parser()(t).value, Parser()(current).value;
    tag.major < running.major || (tag.major == running.major && tag.minor <= running.minor)
  }

  ghost predicate IsLatest(published: seq<string>, current: string) {
    forall t | t in published :: !Newer(t, current)
  }

  lemma PositionIsAge(names: seq<string>, i: nat, j: nat)
    requires NewestFirst(names) && i < |names| && j < |names|
    ensures Newer(names[i], names[j]) <==> i < j
    ensures names[i] == names[j] <==> i == j
  {
    CompareTagsTotal(ParseTag(names[i]).value, ParseTag(names[j]).value);
    if j < i { NewerIsAsymmetric(names[j], names[i]); }
    if i < j { NewerIsAsymmetric(names[i], names[j]); }
  }

  method IndexIn(names: seq<string>, name: string) returns (index: int)
    ensures -1 <= index < |names|
    ensures index >= 0 ==> names[index] == name && name !in names[..index]
    ensures index < 0 ==> name !in names
  {
    for i := 0 to |names|
      invariant name !in names[..i]
    {
      if names[i] == name {
        return i;
      }
    }
    return -1;
  }

  /** The target that resolvePatchTargetTagForTarget picks by its position, before it compares the lines. */
  method PickTarget(ordered: seq<string>, current: string, requested: string) returns (r: Resolution)
    requires NewestFirst(ordered)
    ensures current !in ordered ==> r == Refusal(if ordered == [] then NoTags else CurrentNotFound)
    ensures current in ordered && requested != "" ==> r == PickOf(ordered, current, requested)
    ensures current in ordered && requested == "" ==>
              (forall t :: r == Target(t) <==> IsNext(ordered, current, t)) &&
              (r.Refusal? ==> r == Refusal(AlreadyLatest)) && (r.Refusal? <==> IsLatest(ordered, current))
  {
    if |ordered| == 0 {
      return Refusal(NoTags);
    }
    var currentIndex := IndexIn(ordered, current);
    if currentIndex == -1 {
      return Refusal(CurrentNotFound);
    }
    var targetIndex := -1;
    if requested == "" {
      targetIndex := currentIndex - 1;
      NextIsBefore(ordered, currentIndex);
      LatestIsFirst(ordered, currentIndex);
      if targetIndex < 0 {
        return Refusal(AlreadyLatest);
      }
    } else {
      targetIndex := IndexIn(ordered, requested);
      if targetIndex < 0 {
        return Refusal(TargetNotFound);
      }
      PositionIsAge(ordered, currentIndex, targetIndex);
      if targetIndex == currentIndex {
        return Refusal(AlreadyRunning);
      }
      if targetIndex > currentIndex {
        return Refusal(Older);
      }
    }
    return Target(ordered[targetIndex]);
  }

  ghost function PickOf(ordered: seq<string>, current: string, requested: string): Resolution {
    if requested !in ordered then Refusal(TargetNotFound)
    else if requested == current then Refusal(AlreadyRunning)
    else if Newer(current, requested) then Refusal(Older)
    else Target(requested)
  }

  /** resolvePatchTargetTagForTarget on an already ordered list; an empty request means the next tag. */
  method ResolveTarget(ordered: seq<string>, current: string, requested: string) returns (r: Resolution)
    requires NewestFirst(ordered)
    ensures current !in ordered ==> r == Refusal(if ordered == [] then NoTags else CurrentNotFound)
    // an explicit target: exactly what the controller accepts
    ensures current in ordered && requested != "" ==>
              (r == Target(requested) <==> ValidateExplicitTarget(current, requested, ordered) == Allowed) &&
              (r.Target? ==> r.tag == requested) &&
              (r == Refusal(TargetNotFound) <==> requested !in ordered) &&
              (r == Refusal(AlreadyRunning) <==> requested == current) &&
              (r == Refusal(Older) <==> requested in ordered && Newer(current, requested))
    // no explicit target: the next tag, unless it opens a newer minor line
    ensures current in ordered && requested == "" ==>
              (forall t :: r == Target(t) <==> IsNext(ordered, current, t) && OnNoNewerLine(t, current)) &&
              (r == Refusal(AlreadyLatest) <==> IsLatest(ordered, current))
  {
    r := PickTarget(ordered, current, requested);
    PickedAmong(ordered, current, requested);
    if r.Refusal? {
      return;
    }
    var targetTag := r.tag;
    var currentComparable, targetComparable := ParseTag(current), ParseTag(targetTag);
    if currentComparable.None? || targetComparable.None? {
      return Refusal(NotComparable);
    }
    if IsNewerMinorRelease(currentComparable.value, targetComparable.value) {
      return Refusal(NewerMinor);
    }
    if requested != "" && (targetComparable.value.major != currentComparable.value.major ||
                           targetComparable.value.minor != currentComparable.value.minor) {
      return Refusal(OtherMinor);
    }
  }

  /** The controller's rule on an explicit target, next to its position in the list. */
  lemma PickedAmong(ordered: seq<string>, current: string, requested: string)
    requires NewestFirst(ordered)
    ensures current in ordered && requested in ordered ==>
              (requested == current ==> !Newer(current, requested)) &&
              (ValidateExplicitTarget(current, requested, ordered) == Allowed <==>
               PickOf(ordered, current, requested) == Target(requested) && SameLine(requested, current))
    ensures current in ordered && requested !in ordered ==>
              ValidateExplicitTarget(current, requested, ordered) != Allowed && requested != current
    ensures current in ordered ==> IsTag(current)
    ensures forall t | t in ordered :: IsTag(t)
  {
    if current in ordered && requested in ordered {
      var i :| 0 <= i < |ordered| && ordered[i] == current;
      var j :| 0 <= j < |ordered| && ordered[j] == requested;
      PositionIsAge(ordered, i, j);
      PositionIsAge(ordered, j, i);
      AcceptedIsNewer(current, requested);
    }
  }

  ghost predicate SameLine(t: string, current: string) {
    Parser()(t).Some? && Parser()(current).Some? &&
    Parser()(t).value.major == Parser()(current).value.major && Parser()(t).value.minor == Parser()(current).value.minor
  }

  /** t is the trimmed text of a listed name that parses, which is what the ordered list holds. */
  ghost predicate Listed(names: seq<string>, t: string) {
    exists i :: 0 <= i < |names| && Parser()(names[i]).Some? && TrimSpace(names[i]) == t
  }

  /** The controller looks for the target in the registry's answer as it is, and the CLI among the trimmed names. */
  ghost predicate SameToBoth(names: seq<string>, t: string) { t in names <==> Listed(names, t) }

  /**
   resolvePatchTargetTagForTarget on the registry's answer. An explicit target that is listed the same way to
   both is accepted exactly when the controller accepts it; any other that passes the baseline is not agreed on.
   */
  method ResolvePublished(names: seq<string>, current: string, requested: string) returns (r: Resolution)
    ensures !Listed(names, current) ==> r.Refusal?
    ensures Listed(names, current) && requested != "" ==>
              (r == Target(requested) <==>
               Listed(names, requested) && ValidateAgainstBaseline(current, requested) == Allowed) &&
              (r.Target? ==> r.tag == requested)
    ensures Listed(names, current) && requested != "" ==>
              ((r == Target(requested) <==> ValidateExplicitTarget(current, requested, names) == Allowed) <==>
               SameToBoth(names, requested) || ValidateAgainstBaseline(current, requested) != Allowed)
    ensures Listed(names, current) && requested == "" ==>
              forall t :: r == Target(t) <==> LeastNewer(names, current, t) && OnNoNewerLine(t, current)
  {
    var ordered := OrderTags(names);
    r := ResolveTarget(ordered, current, requested);
    OrderedIsListed(names, ordered, current);
    OrderedIsListed(names, ordered, requested);
    NextIsLeast(names, ordered, current);
  }

  /** t is the least listed tag strictly newer than the current one. */
  ghost predicate LeastNewer(names: seq<string>, current: string, t: string) {
    Listed(names, t) && Newer(t, current) &&
    forall u | Listed(names, u) && Newer(u, current) :: u == t || Newer(u, t)
  }

  lemma OrderedIsListed(names: seq<string>, ordered: seq<string>, t: string)
    requires ListsTagsOf(names, ordered)
    ensures t in ordered <==> Listed(names, t)
  {
  }

  lemma NextIsLeast(names: seq<string>, ordered: seq<string>, current: string)
    requires ListsTagsOf(names, ordered)
    ensures forall t :: IsNext(ordered, current, t) <==> LeastNewer(names, current, t)
  {
    forall t ensures IsNext(ordered, current, t) <==> LeastNewer(names, current, t) {
      forall u ensures u in ordered <==> Listed(names, u) {
        OrderedIsListed(names, ordered, u);
      }
    }
  }

  /** Where no published name has space around it, every tag is the same to both. */
  lemma TrimmedNamesAgree(names: seq<string>, t: string)
    requires forall i | 0 <= i < |names| :: TrimSpace(names[i]) == names[i]
    requires Parser()(t).Some?
    ensures SameToBoth(names, t)
  {
    if t in names {
      var i :| 0 <= i < |names| && names[i] == t;
      assert TrimSpace(names[i]) == t;
    }
  }

  lemma LatestIsFirst(ordered: seq<string>, currentIndex: nat)
    requires NewestFirst(ordered) && currentIndex < |ordered|
    ensures IsLatest(ordered, ordered[currentIndex]) <==> currentIndex == 0
  {
    PositionIsAge(ordered, 0, currentIndex);
    if currentIndex == 0 {
      forall t | t in ordered ensures !Newer(t, ordered[0]) {
        var i :| 0 <= i < |ordered| && ordered[i] == t;
        PositionIsAge(ordered, i, 0);
      }
    }
  }

  lemma NextIsBefore(ordered: seq<string>, currentIndex: nat)
    requires NewestFirst(ordered) && currentIndex < |ordered|
    ensures forall t :: IsNext(ordered, ordered[currentIndex], t) <==>
            currentIndex > 0 && t == ordered[currentIndex - 1]
  {
    var current := ordered[currentIndex];
    forall t ensures IsNext(ordered, current, t) <==> currentIndex > 0 && t == ordered[currentIndex - 1] {
      if IsNext(ordered, current, t) {
        var i :| 0 <= i < |ordered| && ordered[i] == t;
        PositionIsAge(ordered, i, currentIndex);
        var next := ordered[currentIndex - 1];
        PositionIsAge(ordered, currentIndex - 1, currentIndex);
        PositionIsAge(ordered, currentIndex - 1, i);
        assert next in ordered;
      }
      if currentIndex > 0 && t == ordered[currentIndex - 1] {
        PositionIsAge(ordered, currentIndex - 1, currentIndex);
        forall u | u in ordered && Newer(u, current) ensures u == t || Newer(u, t) {
          var i :| 0 <= i < |ordered| && ordered[i] == u;
          PositionIsAge(ordered, i, currentIndex);
          PositionIsAge(ordered, i, currentIndex - 1);
        }
      }
    }
  }

  /** What the controller's rule means between two published tags. */
  lemma AcceptedIsNewer(current: string, target: string)
    requires IsTag(current) && IsTag(target)
    ensures ValidateAgainstBaseline(current, target) == Allowed <==>
            Newer(target, current) && SameLine(target, current)
  {
  }

  // ---------- the listing ----------

  /** selectTagsForCVEListing: everything newer, the current tag, and one previous tag. */
  method SelectTagsForListing(orderedTags: seq<string>, currentTag: string)
      returns (listing: seq<string>, previous: Option<string>)
    ensures currentTag !in orderedTags ==> listing == [] && previous == None
    ensures forall i | 0 <= i < |orderedTags| && orderedTags[i] == currentTag && currentTag !in orderedTags[..i] ::
              if i + 1 < |orderedTags| then previous == Some(orderedTags[i + 1]) && listing == orderedTags[..i + 2]
              else previous == None && listing == orderedTags
  {
    var currentIndex := IndexIn(orderedTags, currentTag);
    if currentIndex == -1 {
      return [], None;
    }
    previous := None;
    if currentIndex + 1 < |orderedTags| {
      previous := Some(orderedTags[currentIndex + 1]);
    }
    listing := [];
    for index := 0 to currentIndex
      invariant listing == orderedTags[..index]
    {
      listing := listing + [orderedTags[index]];
    }
    listing := listing + [currentTag];
    forall i | 0 <= i < |orderedTags| && orderedTags[i] == currentTag && currentTag !in orderedTags[..i]
      ensures i == currentIndex
    {
      assert forall j :: 0 <= j < i ==> orderedTags[..i][j] == orderedTags[j];
      assert forall j :: 0 <= j < currentIndex ==> orderedTags[..currentIndex][j] == orderedTags[j];
    }
    assert listing == orderedTags[..currentIndex + 1];
    if previous.Some? {
      listing := listing + [previous.value];
      assert listing == orderedTags[..currentIndex + 2];
    } else {
      assert listing == orderedTags;
    }
  }

  predicate Held(c: Component, zeroDay: Date, current: string, previous: Option<string>, tag: string)
    requires Valid(zeroDay)
  {
    tag != current && previous != Some(tag) && ValidatePatchWindow(c, tag, zeroDay) != Allowed
  }

  /** The elements for which keep answers want, in their order. */
  function Select<T>(s: seq<T>, keep: T -> bool, want: bool): seq<T> {
    if s == [] then []
    else Select(s[..|s| - 1], keep, want) + if keep(s[|s| - 1]) == want then [s[|s| - 1]] else []
  }

  lemma {:induction false} SelectHas<T>(s: seq<T>, keep: T -> bool, want: bool, x: T)
    ensures x in Select(s, keep, want) <==> x in s && keep(x) == want
  {
    if s != [] {
      assert s == s[..|s| - 1] + [s[|s| - 1]];
      SelectHas(s[..|s| - 1], keep, want, x);
    }
  }

  lemma SelectStep<T>(s: seq<T>, i: nat, keep: T -> bool, want: bool)
    requires i < |s|
    ensures Select(s[..i + 1], keep, want) == Select(s[..i], keep, want) + if keep(s[i]) == want then [s[i]] else []
  {
    assert s[..i + 1][..i] == s[..i];
  }

  method SplitLoop(c: Component, tags: seq<string>, current: string, previous: Option<string>, zeroDay: Date,
      ghost held: string -> bool)
      returns (eligible: seq<string>, blocked: seq<string>)
    requires Valid(zeroDay) && forall t :: held(t) == Held(c, zeroDay, current, previous, t)
    ensures eligible == Select(tags, held, false) && blocked == Select(tags, held, true)
  {
    eligible, blocked := [], [];
    for i := 0 to |tags|
      invariant eligible == Select(tags[..i], held, false) && blocked == Select(tags[..i], held, true)
    {
      SelectStep(tags, i, held, false);
      SelectStep(tags, i, held, true);
      if tags[i] == current || Some(tags[i]) == previous {
        eligible := eligible + [tags[i]];
      } else if ValidatePatchWindow(c, tags[i], zeroDay) != Allowed {
        blocked := blocked + [tags[i]];
      } else {
        eligible := eligible + [tags[i]];
      }
    }
    assert tags[..|tags|] == tags;
  }

  /** splitTagsByPatchWindow: an order-preserving partition of the listing. */
  method SplitByPatchWindow(c: Component, tags: seq<string>, current: string, previous: Option<string>, zeroDay: Date)
      returns (eligible: seq<string>, blocked: seq<string>)
    requires Valid(zeroDay)
    ensures var held := t => Held(c, zeroDay, current, previous, t);
            eligible == Select(tags, held, false) && blocked == Select(tags, held, true)
    ensures current in tags ==> current in eligible
    ensures previous.Some? && previous.value in tags ==> previous.value in eligible
  {
    ghost var held := t => Held(c, zeroDay, current, previous, t);
    if IsPatchWindowExempt(c) {
      eligible, blocked := tags, [];
      NothingHeld(tags, held);
    } else {
      eligible, blocked := SplitLoop(c, tags, current, previous, zeroDay, held);
    }
    SelectHas(tags, held, false, current);
    if previous.Some? {
      SelectHas(tags, held, false, previous.value);
    }
  }

  lemma {:induction false} NothingHeld<T>(s: seq<T>, held: T -> bool)
    requires forall x | x in s :: !held(x)
    ensures Select(s, held, false) == s && Select(s, held, true) == []
  {
    if s != [] {
      assert s == s[..|s| - 1] + [s[|s| - 1]];
      NothingHeld(s[..|s| - 1], held);
    }
  }

  /** Among dated tags the newer one is held back whenever the older one is. */
  lemma NewerIsHeldToo(c: Component, zeroDay: Date, newer: string, older: string)
    requires Valid(zeroDay) && Newer(newer, older)
    requires BuildDate(newer).Some? && BuildDate(older).Some?
    requires ValidatePatchWindow(c, older, zeroDay) != Allowed
    ensures ValidatePatchWindow(c, newer, zeroDay) != Allowed
  {
    WindowIs45Days(c, newer, zeroDay);
    WindowIs45Days(c, older, zeroDay);
  }

  /** In a newest-first listing of dated tags, the tags that need an upgrade come first. */
  lemma BlockedIsPrefix(c: Component, zeroDay: Date, tags: seq<string>, current: string, previous: Option<string>)
    requires Valid(zeroDay) && NewestFirst(tags)
    requires forall i, j | 0 <= i < j < |tags| &&
             Spared(tags[i], current, previous) :: Spared(tags[j], current, previous)
    requires forall i | 0 <= i < |tags| && !Spared(tags[i], current, previous) :: BuildDate(tags[i]).Some?
    ensures var blocked := Select(tags, t => Held(c, zeroDay, current, previous, t), true);
            |blocked| <= |tags| && blocked == tags[..|blocked|]
  {
    var held := t => Held(c, zeroDay, current, previous, t);
    forall i, j | 0 <= i < j < |tags| && held(tags[j]) ensures held(tags[i]) {
      assert !Spared(tags[i], current, previous);
      NewerIsHeldToo(c, zeroDay, tags[i], tags[j]);
    }
    DownwardSelectsPrefix(tags, held);
  }

  /** The current and the previous tag are always offered. */
  predicate Spared(tag: string, current: string, previous: Option<string>) {
    tag == current || previous == Some(tag)
  }

  /** The listing that SelectTagsForListing makes of a newest-first list, around the current tag at i. */
  predicate Lists(ordered: seq<string>, i: nat, listing: seq<string>, previous: Option<string>)
    requires i < |ordered|
  {
    if i + 1 < |ordered| then previous == Some(ordered[i + 1]) && listing == ordered[..i + 2]
    else previous == None && listing == ordered
  }

  /** From the published tags to the screen: of what is listed, the tags that need an upgrade come first. */
  method ListAndSplit(c: Component, ordered: seq<string>, current: string, zeroDay: Date)
      returns (listing: seq<string>, previous: Option<string>, eligible: seq<string>, blocked: seq<string>)
    requires Valid(zeroDay) && NewestFirst(ordered)
    ensures forall i | 0 <= i < |ordered| && ordered[i] == current :: Lists(ordered, i, listing, previous)
    ensures current !in ordered ==> listing == [] && blocked == []
    ensures (forall t | t in listing && !Spared(t, current, previous) :: BuildDate(t).Some?) ==>
              |blocked| <= |listing| && blocked == listing[..|blocked|]
    ensures forall t :: t in blocked <==> t in listing && Held(c, zeroDay, current, previous, t)
  {
    listing, previous := SelectTagsForListing(ordered, current);
    eligible, blocked := SplitByPatchWindow(c, listing, current, previous, zeroDay);
    ghost var held := t => Held(c, zeroDay, current, previous, t);
    forall t ensures t in blocked <==> t in listing && Held(c, zeroDay, current, previous, t) {
      SelectHas(listing, held, true, t);
    }
    forall i | 0 <= i < |ordered| && ordered[i] == current ensures Lists(ordered, i, listing, previous) {
      OnlyHere(ordered, i);
    }
    if i :| 0 <= i < |ordered| && ordered[i] == current {
      OrderedNoRepeats(ordered);
      SparedComeLast(ordered, i, listing, previous);
      PrefixIsOrdered(ordered, listing);
      if forall t | t in listing && !Spared(t, current, previous) :: BuildDate(t).Some? {
        BlockedIsPrefix(c, zeroDay, listing, current, previous);
      }
    }
  }

  lemma OnlyHere(ordered: seq<string>, i: nat)
    requires NewestFirst(ordered) && i < |ordered|
    ensures ordered[i] !in ordered[..i]
  {
    OrderedNoRepeats(ordered);
  }

  predicate NoRepeats(names: seq<string>) { forall a, b :: 0 <= a < b < |names| ==> names[a] != names[b] }

  lemma OrderedNoRepeats(names: seq<string>)
    requires NewestFirst(names)
    ensures NoRepeats(names)
  {
    forall a, b | 0 <= a < b < |names| ensures names[a] != names[b] {
      PositionIsAge(names, a, b);
    }
  }

  /** The listing ends with the tags that are always offered. */
  lemma SparedComeLast(ordered: seq<string>, i: nat, listing: seq<string>, previous: Option<string>)
    requires NoRepeats(ordered) && i < |ordered| && Lists(ordered, i, listing, previous)
    ensures listing <= ordered
    ensures forall a, b | 0 <= a < b < |listing| && Spared(listing[a], ordered[i], previous) ::
              Spared(listing[b], ordered[i], previous)
  {
    assert forall a :: 0 <= a < |listing| ==> listing[a] == ordered[a];
  }

  lemma PrefixIsOrdered(names: seq<string>, listing: seq<string>)
    requires NewestFirst(names) && listing <= names
    ensures NewestFirst(listing)
  {
  }

  lemma {:induction false} DownwardSelectsPrefix<T>(s: seq<T>, held: T -> bool)
    requires forall i, j | 0 <= i < j < |s| && held(s[j]) :: held(s[i])
    ensures var chosen := Select(s, held, true); |chosen| <= |s| && chosen == s[..|chosen|]
  {
    if s != [] {
      var front := s[..|s| - 1];
      assert s == front + [s[|s| - 1]];
      assert forall i :: 0 <= i < |front| ==> front[i] == s[i];
      DownwardSelectsPrefix(front, held);
      if held(s[|s| - 1]) {
        AllHeld(front, held);
      }
    }
  }

  lemma {:induction false} AllHeld<T>(s: seq<T>, held: T -> bool)
    requires forall i :: 0 <= i < |s| ==> held(s[i])
    ensures Select(s, held, true) == s
  {
    if s != [] {
      assert s == s[..|s| - 1] + [s[|s| - 1]];
      AllHeld(s[..|s| - 1], held);
    }
  }
}
