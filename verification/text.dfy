/** Text operations the patcher takes from Go's standard library, on strings as sequences of characters. */
module Text {

  datatype Option<+T> = None | Some(value: T)

  // ---------- order ----------

  /** The order of a and b from position i on, where they have agreed so far. */
  function CompareFrom(a: string, b: string, i: nat): int
    decreases |a| - i
  {
    if i >= |a| then (if i >= |b| then 0 else -1)
    else if i >= |b| then 1
    else if a[i] != b[i] then (if a[i] < b[i] then -1 else 1)
    else CompareFrom(a, b, i + 1)
  }

  /** strings.Compare: -1, 0 or 1 for the lexicographic order. */
  function Compare(a: string, b: string): int { CompareFrom(a, b, 0) }

  /** a comes first: at the first difference it has the smaller character, or has ended. */
  ghost predicate Precedes(a: string, b: string) {
    exists i :: SameUpTo(a, b, i) && i < |b| && (i == |a| || a[i] < b[i])
  }

  predicate SameUpTo(a: string, b: string, i: int) {
    0 <= i <= |a| && i <= |b| && forall j :: 0 <= j < i ==> a[j] == b[j]
  }

  lemma {:induction false} FromDecides(a: string, b: string, i: nat)
    requires SameUpTo(a, b, i)
    ensures CompareFrom(a, b, i) in {-1, 0, 1}
    ensures CompareFrom(a, b, i) == -1 ==> Precedes(a, b)
    ensures CompareFrom(a, b, i) == 1 ==> Precedes(b, a)
    ensures CompareFrom(a, b, i) == 0 ==> a == b
    decreases |a| - i
  {
    assert SameUpTo(b, a, i);
    if i < |a| && i < |b| && a[i] == b[i] {
      FromDecides(a, b, i + 1);
    }
  }

  lemma PrecedesIsStrict(a: string, b: string)
    requires Precedes(a, b)
    ensures !Precedes(b, a) && a != b
  {
    var i :| SameUpTo(a, b, i) && i < |b| && (i == |a| || a[i] < b[i]);
    forall j | SameUpTo(b, a, j) && j < |a| ensures j < |b| && b[j] >= a[j] {
    }
  }

  /** What the comparison decides by. */
  lemma CompareMeans(a: string, b: string)
    ensures Compare(a, b) < 0 <==> Precedes(a, b)
    ensures Compare(a, b) > 0 <==> Precedes(b, a)
  {
    FromDecides(a, b, 0);
    if Precedes(a, b) { PrecedesIsStrict(a, b); }
    if Precedes(b, a) { PrecedesIsStrict(b, a); }
  }

  lemma {:induction false} FromAntisymmetric(a: string, b: string, i: nat)
    requires i <= |a| && i <= |b| && forall j :: 0 <= j < i ==> a[j] == b[j]
    ensures CompareFrom(a, b, i) == -CompareFrom(b, a, i)
    ensures CompareFrom(a, b, i) == 0 <==> a == b
    decreases |a| - i
  {
    if i < |a| && i < |b| && a[i] == b[i] {
      FromAntisymmetric(a, b, i + 1);
    }
  }

  lemma CompareAntisymmetric(a: string, b: string)
    ensures Compare(a, b) == -Compare(b, a)
    ensures Compare(a, b) == 0 <==> a == b
  {
    FromAntisymmetric(a, b, 0);
  }

  lemma {:induction false} FromTransitive(a: string, b: string, c: string, i: nat)
    requires CompareFrom(a, b, i) <= 0 && CompareFrom(b, c, i) <= 0
    ensures CompareFrom(a, c, i) <= 0
    decreases |a| - i
  {
    if i < |a| && i < |b| && i < |c| && a[i] == b[i] == c[i] {
      FromTransitive(a, b, c, i + 1);
    }
  }

  lemma CompareTransitive(a: string, b: string, c: string)
    requires Compare(a, b) <= 0 && Compare(b, c) <= 0
    ensures Compare(a, c) <= 0
  {
    FromTransitive(a, b, c, 0);
  }

  // ---------- white space ----------

  /** unicode.IsSpace. */
  predicate IsSpace(c: char) {
    '\t' <= c <= '\r' || c == ' ' || c == '\U{0085}' || c == '\U{00A0}' || c == '\U{1680}' ||
    '\U{2000}' <= c <= '\U{200A}' || c == '\U{2028}' || c == '\U{2029}' || c == '\U{202F}' ||
    c == '\U{205F}' || c == '\U{3000}'
  }

  function TrimLeft(s: string): string {
    if s != [] && IsSpace(s[0]) then TrimLeft(s[1..]) else s
  }

  function TrimRight(s: string): string {
    if s != [] && IsSpace(s[|s| - 1]) then TrimRight(s[..|s| - 1]) else s
  }

  /** strings.TrimSpace. */
  function TrimSpace(s: string): string { TrimRight(TrimLeft(s)) }

  lemma {:induction false} TrimLeftIs(s: string)
    ensures TrimLeft(s) == [] || !IsSpace(TrimLeft(s)[0])
  {
    if s != [] && IsSpace(s[0]) {
      TrimLeftIs(s[1..]);
    }
  }

  lemma {:induction false} TrimRightIs(s: string)
    ensures TrimRight(s) <= s
    ensures TrimRight(s) == [] || !IsSpace(TrimRight(s)[|TrimRight(s)| - 1])
  {
    if s != [] && IsSpace(s[|s| - 1]) {
      TrimRightIs(s[..|s| - 1]);
    }
  }

  /** Trimming leaves no space at either end, and nothing else to trim. */
  lemma TrimSpaceIs(s: string)
    ensures Trimmed(TrimSpace(s))
    ensures Trimmed(s) ==> TrimSpace(s) == s
    ensures TrimSpace(TrimSpace(s)) == TrimSpace(s)
  {
    TrimLeftIs(s);
    TrimRightIs(TrimLeft(s));
  }

  predicate Trimmed(s: string) {
    s == [] || (!IsSpace(s[0]) && !IsSpace(s[|s| - 1]))
  }

  predicate AllSpace(s: string) { forall i | 0 <= i < |s| :: IsSpace(s[i]) }

  lemma {:induction false} TrimLeftOff(space: string, rest: string)
    requires AllSpace(space)
    ensures TrimLeft(space + rest) == TrimLeft(rest)
  {
    if space == "" {
      assert space + rest == rest;
    } else {
      TrimLeftOff(space[1..], rest);
      assert (space + rest)[1..] == space[1..] + rest;
    }
  }

  lemma {:induction false} TrimRightOff(rest: string, space: string)
    requires AllSpace(space)
    ensures TrimRight(rest + space) == TrimRight(rest)
  {
    if space == "" {
      assert rest + space == rest;
    } else {
      var front := space[..|space| - 1];
      TrimRightOff(rest, front);
      assert (rest + space)[..|rest + space| - 1] == rest + front;
    }
  }

  /** Trimming takes the space at both ends away, and nothing else. */
  lemma TrimSpaceMeans(before: string, text: string, after: string)
    requires AllSpace(before) && AllSpace(after) && Trimmed(text)
    ensures TrimSpace(before + text + after) == text
  {
    assert before + text + after == before + (text + after);
    TrimLeftOff(before, text + after);
    if text == "" {
      assert text + after == after + "";
      TrimLeftOff(after, "");
    } else {
      assert TrimLeft(text + after) == text + after;
      TrimRightOff(text, after);
    }
  }

  // ---------- searching ----------

  predicate HasPrefix(s: string, prefix: string) { prefix <= s }

  predicate HasSuffix(s: string, suffix: string) {
    |suffix| <= |s| && s[|s| - |suffix|..] == suffix
  }

  /** The text sub occurs in s at position i. */
  predicate OccursAt(s: string, sub: string, i: int) {
    0 <= i && i + |sub| <= |s| && s[i..i + |sub|] == sub
  }

  /** The last position at or before i where sub occurs, or -1. */
  function LastIndexFrom(s: string, sub: string, i: int): (r: int)
    requires i + |sub| <= |s|
    ensures -1 <= r && (r >= 0 ==> r + |sub| <= |s|)
    decreases i + 1
  {
    if i < 0 then -1 else if OccursAt(s, sub, i) then i else LastIndexFrom(s, sub, i - 1)
  }

  /** strings.LastIndex. */
  function LastIndex(s: string, sub: string): (r: int)
    ensures -1 <= r && (r >= 0 ==> r + |sub| <= |s|)
  {
    if |sub| > |s| then -1 else LastIndexFrom(s, sub, |s| - |sub|)
  }

  lemma {:induction false} LastIndexFromIs(s: string, sub: string, i: int, at: int)
    requires i + |sub| <= |s| && at <= i
    requires OccursAt(s, sub, at) && forall j :: at < j ==> !OccursAt(s, sub, j)
    ensures LastIndexFrom(s, sub, i) == at
    decreases i
  {
    if at < i {
      LastIndexFromIs(s, sub, i - 1, at);
    }
  }

  lemma {:induction false} LastIndexFromNone(s: string, sub: string, i: int)
    requires i + |sub| <= |s| && forall j :: !OccursAt(s, sub, j)
    ensures LastIndexFrom(s, sub, i) == -1
    decreases i + 1
  {
    if i >= 0 {
      LastIndexFromNone(s, sub, i - 1);
    }
  }

  lemma LastIndexNone(s: string, sub: string)
    requires forall j :: !OccursAt(s, sub, j)
    ensures LastIndex(s, sub) == -1
  {
    if |sub| <= |s| { LastIndexFromNone(s, sub, |s| - |sub|); }
  }

  lemma {:induction false} LastIndexFromLast(s: string, sub: string, i: int)
    requires i + |sub| <= |s|
    ensures LastIndexFrom(s, sub, i) >= 0 ==> OccursAt(s, sub, LastIndexFrom(s, sub, i))
    ensures forall j :: LastIndexFrom(s, sub, i) < j <= i ==> !OccursAt(s, sub, j)
    decreases i + 1
  {
    if i >= 0 && !OccursAt(s, sub, i) {
      LastIndexFromLast(s, sub, i - 1);
    }
  }

  lemma LastIndexIsLast(s: string, sub: string)
    ensures LastIndex(s, sub) >= 0 ==> OccursAt(s, sub, LastIndex(s, sub))
    ensures forall j :: LastIndex(s, sub) < j ==> !OccursAt(s, sub, j)
  {
    if |sub| <= |s| { LastIndexFromLast(s, sub, |s| - |sub|); }
  }

  /** The last occurrence is where LastIndex points. */
  lemma LastIndexIs(s: string, sub: string, at: int)
    requires OccursAt(s, sub, at) && forall j :: at < j ==> !OccursAt(s, sub, j)
    ensures LastIndex(s, sub) == at
  {
    LastIndexFromIs(s, sub, |s| - |sub|, at);
  }

  /** strings.Index for a single character, searching from position i. */
  function IndexFrom(s: string, c: char, i: nat): (r: int)
    requires i <= |s|
    ensures r == -1 || i <= r < |s|
    decreases |s| - i
  {
    if i == |s| then -1 else if s[i] == c then i else IndexFrom(s, c, i + 1)
  }

  function IndexOf(s: string, c: char): (r: int)
    ensures -1 <= r < |s|
  {
    IndexFrom(s, c, 0)
  }

  lemma {:induction false} IndexFromIs(s: string, c: char, i: nat)
    requires i <= |s|
    ensures var r := IndexFrom(s, c, i);
            if r < 0 then forall j :: i <= j < |s| ==> s[j] != c
            else s[r] == c && forall j :: i <= j < r ==> s[j] != c
    decreases |s| - i
  {
    if i < |s| && s[i] != c {
      IndexFromIs(s, c, i + 1);
    }
  }

  lemma IndexOfIs(s: string, c: char)
    ensures IndexOf(s, c) < 0 <==> c !in s
    ensures IndexOf(s, c) >= 0 ==> s[IndexOf(s, c)] == c && c !in s[..IndexOf(s, c)]
  {
    IndexFromIs(s, c, 0);
  }

  /** The first occurrence is where IndexOf points. */
  lemma IndexOfConcat(a: string, c: char, b: string)
    requires c !in a
    ensures IndexOf(a + [c] + b, c) == |a|
    ensures (a + [c] + b)[..|a|] == a && (a + [c] + b)[|a| + 1..] == b
  {
    var s := a + [c] + b;
    IndexFromIs(s, c, 0);
    assert s[|a|] == c && forall j :: 0 <= j < |a| ==> s[j] == a[j];
  }

  // ---------- splitting and joining ----------

  /** strings.Split on a single-character separator. */
  function Split(s: string, sep: char): (parts: seq<string>)
    ensures |parts| >= 1
    decreases |s|
  {
    var i := IndexOf(s, sep);
    if i < 0 then [s] else [s[..i]] + Split(s[i + 1..], sep)
  }

  /** strings.Join with a single-character separator. */
  function Join(parts: seq<string>, sep: char): string {
    if |parts| == 0 then "" else if |parts| == 1 then parts[0] else parts[0] + [sep] + Join(parts[1..], sep)
  }

  lemma SplitOnce(s: string, first: string, rest: string, sep: char)
    requires sep !in first && s == first + [sep] + rest
    ensures Split(s, sep) == [first] + Split(rest, sep)
  {
    IndexOfConcat(first, sep, rest);
  }

  lemma SplitNever(s: string, sep: char)
    requires sep !in s
    ensures Split(s, sep) == [s]
  {
    IndexOfIs(s, sep);
  }

  lemma {:induction false} SplitOfJoin(parts: seq<string>, sep: char)
    requires |parts| >= 1
    requires forall i :: 0 <= i < |parts| ==> sep !in parts[i]
    ensures Split(Join(parts, sep), sep) == parts
  {
    if |parts| > 1 {
      var first, rest := parts[0], parts[1..];
      SplitOfJoin(rest, sep);
      SplitOnce(Join(parts, sep), first, Join(rest, sep), sep);
      assert parts == [first] + rest;
    } else {
      SplitNever(parts[0], sep);
      assert parts == [parts[0]];
    }
  }

  lemma {:induction false} JoinOfSplit(s: string, sep: char)
    ensures Join(Split(s, sep), sep) == s
    decreases |s|
  {
    var i := IndexOf(s, sep);
    if i >= 0 {
      IndexOfIs(s, sep);
      var rest := Split(s[i + 1..], sep);
      JoinOfSplit(s[i + 1..], sep);
      assert ([s[..i]] + rest)[1..] == rest;
      assert s == s[..i] + [sep] + s[i + 1..];
    }
  }

  // ---------- numbers ----------

  predicate IsDigit(c: char) { '0' <= c <= '9' }

  predicate DigitsUpTo(s: string, n: nat)
    requires n <= |s|
  {
    n == 0 || (IsDigit(s[n - 1]) && DigitsUpTo(s, n - 1))
  }

  predicate AllDigits(s: string) { DigitsUpTo(s, |s|) }

  lemma {:induction false} DigitsUpToIs(s: string, n: nat)
    requires n <= |s|
    ensures DigitsUpTo(s, n) <==> forall i | 0 <= i < n :: IsDigit(s[i])
  {
    if n > 0 {
      DigitsUpToIs(s, n - 1);
    }
  }

  /** The number the first n digits denote, most significant digit first. */
  function ValueUpTo(s: string, n: nat): nat
    requires n <= |s| && DigitsUpTo(s, n)
  {
    if n == 0 then 0 else 10 * ValueUpTo(s, n - 1) + (s[n - 1] as int - '0' as int)
  }

  function DigitsValue(s: string): nat
    requires AllDigits(s)
  {
    ValueUpTo(s, |s|)
  }

  /** More digits do not change what the first ones denote. */
  lemma {:induction false} ValueOfPrefix(s: string, t: string, n: nat)
    requires n <= |s| && DigitsUpTo(s, n)
    ensures DigitsUpTo(s + t, n) && ValueUpTo(s + t, n) == ValueUpTo(s, n)
  {
    if n > 0 {
      ValueOfPrefix(s, t, n - 1);
    }
  }

  const INT64_LIMIT: int := 0x8000_0000_0000_0000

  /** strconv.Atoi: an optional sign and at least one digit, inside the 64-bit range. */
  function Atoi(s: string): Option<int> {
    var negative := s != [] && s[0] == '-';
    var digits := if s != [] && (s[0] == '-' || s[0] == '+') then s[1..] else s;
    if digits == [] || !AllDigits(digits) then None
    else
      var magnitude: int := DigitsValue(digits);
      var n := if negative then -magnitude else magnitude;
      if -INT64_LIMIT <= n < INT64_LIMIT then Some(n) else None
  }

  /** strconv.Itoa on a natural number. */
  function Itoa(n: nat): (s: string)
    ensures s != [] && AllDigits(s) && DigitsValue(s) == n
  {
    var last := [('0' as int + n % 10) as char];
    if n < 10 then assert ValueUpTo(last, 1) == 10 * ValueUpTo(last, 0) + n; last
    else
      var front := Itoa(n / 10);
      ValueOfPrefix(front, last, |front|);
      front + last
  }

  lemma AtoiOfItoa(n: nat)
    requires n < INT64_LIMIT
    ensures Atoi(Itoa(n)) == Some(n)
    ensures forall i | 0 <= i < |Itoa(n)| :: IsDigit(Itoa(n)[i])
  {
    var s := Itoa(n);
    DigitsUpToIs(s, |s|);
    assert s[0] != '-' && s[0] != '+';
  }

  /** A sign is allowed in front of the digits, and what does not fit 64 bits is no number. */
  lemma AtoiSigned(s: string, n: int)
    requires s != "" && AllDigits(s) && DigitsValue(s) == n
    ensures Atoi(s) == if n < INT64_LIMIT then Some(n) else None
    ensures Atoi("+" + s) == if n < INT64_LIMIT then Some(n) else None
    ensures Atoi("-" + s) == if n <= INT64_LIMIT then Some(-n) else None
  {
    DigitsUpToIs(s, |s|);
    assert IsDigit(s[0]);
    assert ("+" + s)[1..] == s && ("-" + s)[1..] == s;
  }

  /** Any other character, or no digit at all, is refused. */
  lemma AtoiRefuses(s: string, i: nat)
    requires s != "" ==> i < |s| && !IsDigit(s[i]) && (i > 0 || |s| == 1 || (s[0] != '-' && s[0] != '+'))
    ensures Atoi(s) == None
  {
    if s != "" && (s[0] == '-' || s[0] == '+') {
      DigitsUpToIs(s[1..], |s[1..]|);
      assert i > 0 ==> !IsDigit(s[1..][i - 1]);
    } else if s != "" {
      DigitsUpToIs(s, |s|);
    }
  }

  // ---------- letter case ----------

  /** unicode.ToLower, as far as it can produce a character of the ASCII range. */
  function LowerChar(c: char): char {
    if 'A' <= c <= 'Z' then (c as int + 32) as char
    else if c == '\U{0130}' then 'i'
    else if c == '\U{212A}' then 'k'
    else c
  }

  function ToLower(s: string): (r: string)
    ensures |r| == |s|
  {
    seq(|s|, i requires 0 <= i < |s| => LowerChar(s[i]))
  }
}
