/**
 The batch scan: the text a scan job's script prints around the output of each image, and the parser
 that reads it back line by line. Characters stand for bytes.
 */
module Framing {
  import opened Text

  const BEGIN := "__RKE2_PATCHER_TRIVY_BEGIN__"
  const RC := "__RKE2_PATCHER_TRIVY_RC__"
  const END := "__RKE2_PATCHER_TRIVY_END__"

  // ---------- the script ----------

  /** One scanned image: what trivy printed and its exit code. */
  datatype Scan = Scan(image: string, output: string, rc: nat)

  function RcLine(x: Scan): string { RC + (x.image + "__" + Itoa(x.rc)) }

  function Frame(x: Scan): string { FrameText(BEGIN + x.image, x.output, RcLine(x), END + x.image) }

  function FrameText(begin: string, output: string, rc: string, end: string): string {
    begin + "\n" + output + rc + "\n" + end + "\n"
  }

  function Emit(scans: seq<Scan>): string {
    if scans == [] then "" else Emit(scans[..|scans| - 1]) + Frame(scans[|scans| - 1])
  }

  /** The log of a job: what comes before the scans, and the scans. A single image is not framed. */
  function JobLog(noise: string, scans: seq<Scan>): string {
    noise + if |scans| == 1 then scans[0].output else Emit(scans)
  }

  // ---------- lines ----------

  /** Terminated lines, without their line break, and what follows the last line break. */
  datatype Cut = Cut(lines: seq<string>, tail: string)

  function Extend(cut: Cut, c: char): Cut {
    if c == '\n' then Cut(cut.lines + [cut.tail], "") else Cut(cut.lines, cut.tail + [c])
  }

  function CutLines(text: string): Cut {
    if text == "" then Cut([], "") else Extend(CutLines(text[..|text| - 1]), text[|text| - 1])
  }

  function DropCr(line: string): string {
    if line != "" && line[|line| - 1] == '\r' then line[..|line| - 1] else line
  }

  /** The lines bufio.Scanner yields, before it drops a trailing carriage return. */
  function RawLines(text: string): seq<string> {
    var cut := CutLines(text);
    if cut.tail == "" then cut.lines else cut.lines + [cut.tail]
  }

  const MAX_LINE := 65536

  /** No line is too long for the scanner's buffer. */
  predicate LinesFit(text: string) { forall line | line in RawLines(text) :: |line| < MAX_LINE }

  /** Empty, or made of terminated lines. */
  predicate Complete(text: string) { text == "" || text[|text| - 1] == '\n' }

  lemma {:induction false} CutConcat(a: string, b: string)
    requires Complete(a)
    ensures CutLines(a).tail == ""
    ensures CutLines(a + b) == Cut(CutLines(a).lines + CutLines(b).lines, CutLines(b).tail)
    decreases |b|
  {
    if b == "" {
      assert a + b == a;
    } else {
      var front, c := b[..|b| - 1], b[|b| - 1];
      CutConcat(a, front);
      assert (a + b)[..|a + b| - 1] == a + front && (a + b)[|a + b| - 1] == c;
      assert CutLines(a + b) == Extend(CutLines(a + front), c);
      assert CutLines(b) == Extend(CutLines(front), c);
    }
  }

  lemma LinesConcat(a: string, b: string)
    requires Complete(a)
    ensures RawLines(a + b) == RawLines(a) + RawLines(b)
  {
    CutConcat(a, b);
  }

  lemma {:induction false} NoBreak(line: string)
    requires '\n' !in line
    ensures CutLines(line) == Cut([], line)
  {
    if line != "" {
      var front, last := line[..|line| - 1], line[|line| - 1];
      assert last in line;
      NoBreak(front);
      assert line == front + [last];
    }
  }

  lemma OneLine(line: string)
    requires '\n' !in line
    ensures RawLines(line + "\n") == [line]
  {
    NoBreak(line);
    assert (line + "\n")[..|line|] == line;
  }

  /** Reading on only adds lines, and an overlong line stays overlong. */
  lemma {:induction false} ReadingOn(text: string, n: nat)
    requires n <= |text|
    ensures CutLines(text[..n]).lines <= RawLines(text)
    ensures |CutLines(text[..n]).tail| >= MAX_LINE ==> !LinesFit(text)
    decreases |text| - n
  {
    var cut := CutLines(text[..n]);
    if n == |text| {
      assert text[..n] == text;
      if |cut.tail| >= MAX_LINE {
        assert RawLines(text)[|cut.lines|] == cut.tail;
      }
    } else {
      ReadingOn(text, n + 1);
      assert text[..n + 1][..n] == text[..n];
      var next := CutLines(text[..n + 1]);
      assert next == Extend(cut, text[n]);
      if text[n] == '\n' && |cut.tail| >= MAX_LINE {
        assert next.lines[|cut.lines|] == cut.tail;
        assert RawLines(text)[|cut.lines|] == cut.tail;
      }
    }
  }

  // ---------- the parser ----------

  /** What a line is to the parser. */
  datatype Item =
    | Begin(image: string) | ExitStatus(image: string, rc: int) | Malformed | End(image: string) | Output(line: string)

  function Classify(rawLine: string): Item {
    var line := DropCr(rawLine);
    if HasPrefix(line, BEGIN) then Begin(TrimSpace(line[|BEGIN|..]))
    else if HasPrefix(line, RC) then ReadExitStatus(TrimSpace(line[|RC|..]))
    else if HasPrefix(line, END) then End(TrimSpace(line[|END|..]))
    else Output(line)
  }

  /** image__rc, split at the last double underscore. */
  function ReadExitStatus(rest: string): Item {
    var separator := LastIndex(rest, "__");
    if separator <= 0 then Malformed
    else
      match Atoi(TrimSpace(rest[separator + 2..]))
      case None => Malformed
      case Some(rc) => ExitStatus(TrimSpace(rest[..separator]), rc)
  }

  function ClassifyAll(lines: seq<string>): (items: seq<Item>)
    ensures |items| == |lines|
  {
    seq(|lines|, i requires 0 <= i < |lines| => Classify(lines[i]))
  }

  lemma ClassifyConcat(a: seq<string>, b: seq<string>)
    ensures ClassifyAll(a + b) == ClassifyAll(a) + ClassifyAll(b)
  {
  }

  /** What the parser has read: the image whose output it is in, if any, the lines and exit codes so far. */
  datatype Frames = Frames(current: string, chunks: map<string, seq<string>>, rcs: map<string, int>)

  const START := Frames("", map[], map[])

  function Chunk(f: Frames, image: string): seq<string> { if image in f.chunks then f.chunks[image] else [] }

  /** One line; None is a malformed marker. */
  function Feed(f: Frames, item: Item): Option<Frames> {
    match item
    case Begin(image) => Some(f.(current := image, chunks := f.chunks[image := Chunk(f, image)]))
    case ExitStatus(image, rc) => Some(f.(rcs := f.rcs[image := rc]))
    case Malformed => None
    case End(image) => Some(if f.current == image then f.(current := "") else f)
    case Output(line) =>
      Some(if f.current == "" then f else f.(chunks := f.chunks[f.current := Chunk(f, f.current) + [line]]))
  }

  function FeedAll(f: Frames, items: seq<Item>): Option<Frames>
    decreases |items|
  {
    if items == [] then Some(f)
    else match Feed(f, items[0]) case None => None case Some(next) => FeedAll(next, items[1..])
  }

  lemma {:induction false} FeedAllConcat(f: Frames, a: seq<Item>, b: seq<Item>)
    ensures FeedAll(f, a + b) == match FeedAll(f, a) case None => None case Some(next) => FeedAll(next, b)
    decreases |a|
  {
    if a == [] {
      assert a + b == b;
    } else {
      assert (a + b)[1..] == a[1..] + b;
      match Feed(f, a[0])
      case None =>
      case Some(next) => FeedAllConcat(next, a[1..], b);
    }
  }

  lemma FeedOne(f: Frames, item: Item)
    ensures FeedAll(f, [item]) == Feed(f, item)
  {
    assert [item][1..] == [];
  }

  function Parse(log: string): Option<Frames> {
    if LinesFit(log) then FeedAll(START, ClassifyAll(RawLines(log))) else None
  }

  // ---------- what the parser keeps ----------

  /** What comes next belongs to the image: its begin marker is the last one, and no end marker of it follows. */
  ghost predicate OpenAfter(items: seq<Item>, image: string) {
    image != "" && exists j :: OpensAt(items, j, image)
  }

  predicate OpensAt(items: seq<Item>, j: int, image: string) {
    0 <= j < |items| && items[j] == Begin(image) &&
    forall k | j < k < |items| :: !items[k].Begin? && items[k] != End(image)
  }

  /** The output lines of an image, in order, however often it begins and ends. */
  ghost function LinesOf(items: seq<Item>, image: string): seq<string> {
    if items == [] then []
    else
      var front, last := items[..|items| - 1], items[|items| - 1];
      LinesOf(front, image) + if last.Output? && OpenAfter(front, image) then [last.line] else []
  }

  /** The last exit code of an image. */
  predicate LastStatusAt(items: seq<Item>, j: int, image: string, rc: int) {
    0 <= j < |items| && items[j] == ExitStatus(image, rc) &&
    forall k | j < k < |items| :: !(items[k].ExitStatus? && items[k].image == image)
  }

  ghost predicate LastStatus(items: seq<Item>, image: string, rc: int) {
    exists j :: LastStatusAt(items, j, image, rc)
  }

  lemma OpenStep(front: seq<Item>, last: Item, image: string)
    ensures OpenAfter(front + [last], image) <==>
            image != "" && (last == Begin(image) || (!last.Begin? && last != End(image) && OpenAfter(front, image)))
  {
    var items := front + [last];
    assert items[|front|] == last && forall k | 0 <= k < |front| :: items[k] == front[k];
    if j :| OpensAt(items, j, image) {
      assert j < |front| ==> !items[|front|].Begin? && items[|front|] != End(image) && OpensAt(front, j, image);
    }
    if j :| OpensAt(front, j, image) {
      assert !last.Begin? && last != End(image) ==> OpensAt(items, j, image);
    }
    assert last == Begin(image) ==> OpensAt(items, |front|, image);
  }

  lemma StatusStep(front: seq<Item>, last: Item, image: string, rc: int)
    ensures LastStatus(front + [last], image, rc) <==>
            if last.ExitStatus? && last.image == image then last.rc == rc else LastStatus(front, image, rc)
  {
    var items := front + [last];
    assert items[|front|] == last && forall k | 0 <= k < |front| :: items[k] == front[k];
    if j :| LastStatusAt(items, j, image, rc) {
      assert j < |front| ==> LastStatusAt(front, j, image, rc);
    }
    if j :| LastStatusAt(front, j, image, rc) {
      assert !(last.ExitStatus? && last.image == image) ==> LastStatusAt(items, j, image, rc);
    }
    assert last == ExitStatus(image, rc) ==> LastStatusAt(items, |front|, image, rc);
  }

  ghost predicate Holds(f: Frames, items: seq<Item>, image: string) {
    (image != "" && f.current == image <==> OpenAfter(items, image)) && Chunk(f, image) == LinesOf(items, image) &&
    forall rc :: image in f.rcs && f.rcs[image] == rc <==> LastStatus(items, image, rc)
  }

  lemma FeedHolds(f: Frames, front: seq<Item>, last: Item, image: string)
    requires Holds(f, front, image) && Feed(f, last).Some?
    ensures Holds(Feed(f, last).value, front + [last], image)
  {
    FeedOpens(f, front, last, image);
    FeedAdds(f, front, last, image);
    forall rc ensures var g := Feed(f, last).value;
        image in g.rcs && g.rcs[image] == rc <==> LastStatus(front + [last], image, rc) {
      StatusStep(front, last, image, rc);
    }
  }

  lemma FeedOpens(f: Frames, front: seq<Item>, last: Item, image: string)
    requires Feed(f, last).Some? && (image != "" && f.current == image <==> OpenAfter(front, image))
    ensures image != "" && Feed(f, last).value.current == image <==> OpenAfter(front + [last], image)
  {
    OpenStep(front, last, image);
  }

  lemma FeedAdds(f: Frames, front: seq<Item>, last: Item, image: string)
    requires Holds(f, front, image) && Feed(f, last).Some?
    ensures Chunk(Feed(f, last).value, image) == LinesOf(front + [last], image)
  {
    assert (front + [last])[..|front|] == front;
  }

  /** The parser keeps, for each image, the lines between its markers and the last exit code. */
  lemma {:induction false} FeedAllKeeps(items: seq<Item>, f: Frames, image: string)
    requires FeedAll(START, items) == Some(f)
    ensures Holds(f, items, image)
    decreases |items|
  {
    if items != [] {
      var front, last := items[..|items| - 1], items[|items| - 1];
      assert items == front + [last];
      FeedAllConcat(START, front, [last]);
      var g := FeedAll(START, front).value;
      FeedOne(g, last);
      FeedAllKeeps(front, g, image);
      FeedHolds(g, front, last, image);
    }
  }

  /** What is read from any log that is not refused, whatever order its markers come in. */
  lemma ParseKeeps(log: string, image: string)
    requires Parse(log).Some?
    ensures var f, items := Parse(log).value, ClassifyAll(RawLines(log));
            Chunk(f, image) == LinesOf(items, image) &&
            forall rc :: image in f.rcs && f.rcs[image] == rc <==> LastStatus(items, image, rc)
  {
    FeedAllKeeps(ClassifyAll(RawLines(log)), Parse(log).value, image);
  }

  /** What follows the marker of an exit code: an image, the last double underscore, and a number. */
  ghost predicate IsStatus(rest: string) {
    exists i ::
      0 < i && OccursAt(rest, "__", i) && (forall j | i < j :: !OccursAt(rest, "__", j)) &&
      Atoi(TrimSpace(rest[i + 2..])).Some?
  }

  ghost predicate BadMarker(line: string) { HasPrefix(line, RC) && !IsStatus(TrimSpace(line[|RC|..])) }

  lemma MalformedIs(rest: string)
    ensures ReadExitStatus(rest) == Malformed <==> !IsStatus(rest)
  {
    if i :| 0 < i && OccursAt(rest, "__", i) && (forall j | i < j :: !OccursAt(rest, "__", j)) &&
            Atoi(TrimSpace(rest[i + 2..])).Some? {
      LastIndexIs(rest, "__", i);
    } else if LastIndex(rest, "__") > 0 {
      LastIndexIsLast(rest, "__");
    }
  }

  lemma BadMarkerIs(line: string)
    ensures Classify(line) == Malformed <==> BadMarker(DropCr(line))
  {
    var text := DropCr(line);
    if HasPrefix(text, RC) {
      assert text[21] == RC[21] == 'R' && BEGIN[21] == 'B';
      MalformedIs(TrimSpace(text[|RC|..]));
    }
  }

  lemma {:induction false} FeedStops(f: Frames, items: seq<Item>)
    ensures FeedAll(f, items).None? <==> Malformed in items
    decreases |items|
  {
    if items != [] && items[0] != Malformed {
      FeedStops(Feed(f, items[0]).value, items[1..]);
      assert items == [items[0]] + items[1..];
    }
  }

  /** A log is refused exactly for a line that is too long, or a marker of an exit code without image or number. */
  lemma ParseRefusesIff(log: string)
    ensures Parse(log).None? <==> !LinesFit(log) || exists line :: line in RawLines(log) && BadMarker(DropCr(line))
  {
    var lines := RawLines(log);
    FeedStops(START, ClassifyAll(lines));
    forall line ensures Classify(line) == Malformed <==> BadMarker(DropCr(line)) {
      BadMarkerIs(line);
    }
    SomeMalformed(lines);
  }

  lemma SomeMalformed(lines: seq<string>)
    ensures Malformed in ClassifyAll(lines) <==> exists line :: line in lines && Classify(line) == Malformed
  {
    if Malformed in ClassifyAll(lines) {
      var i :| 0 <= i < |lines| && ClassifyAll(lines)[i] == Malformed;
      assert lines[i] in lines;
    }
    if line :| line in lines && Classify(line) == Malformed {
      var i :| 0 <= i < |lines| && lines[i] == line;
      assert ClassifyAll(lines)[i] == Malformed;
    }
  }

  /** The loop over the log: a line is taken at every line break, and one more at the end. */
  method ParseLog(log: string) returns (r: Option<Frames>)
    ensures r == Parse(log)
  {
    var line, frames := "", START;
    ghost var lines: seq<string> := [];
    for n := 0 to |log|
      invariant CutLines(log[..n]) == Cut(lines, line) && |line| < MAX_LINE
      invariant forall l | l in lines :: |l| < MAX_LINE
      invariant FeedAll(START, ClassifyAll(lines)) == Some(frames)
    {
      assert log[..n + 1][..n] == log[..n];
      ReadingOn(log, n + 1);
      if log[n] == '\n' {
        TakeLine(lines, line, frames);
        var next := Feed(frames, Classify(line));
        lines := lines + [line];
        if next.None? {
          StopsEarly(log, lines);
          return None;
        }
        line, frames := "", next.value;
      } else {
        line := line + [log[n]];
        if |line| >= MAX_LINE {
          return None;
        }
      }
    }
    assert log[..|log|] == log;
    if line != "" {
      TakeLine(lines, line, frames);
      return Feed(frames, Classify(line));
    }
    return Some(frames);
  }

  lemma TakeLine(lines: seq<string>, line: string, frames: Frames)
    requires FeedAll(START, ClassifyAll(lines)) == Some(frames)
    ensures FeedAll(START, ClassifyAll(lines + [line])) == Feed(frames, Classify(line))
  {
    ClassifyConcat(lines, [line]);
    assert ClassifyAll([line]) == [Classify(line)];
    FeedAllConcat(START, ClassifyAll(lines), [Classify(line)]);
    FeedOne(frames, Classify(line));
  }

  lemma StopsEarly(log: string, lines: seq<string>)
    requires lines <= RawLines(log) && FeedAll(START, ClassifyAll(lines)) == None
    ensures Parse(log) == None
  {
    var rest := RawLines(log)[|lines|..];
    assert RawLines(log) == lines + rest;
    ClassifyConcat(lines, rest);
    FeedAllConcat(START, ClassifyAll(lines), ClassifyAll(rest));
  }

  // ---------- what one frame reads as ----------

  predicate IsMarker(line: string) { HasPrefix(line, BEGIN) || HasPrefix(line, RC) || HasPrefix(line, END) }

  /** An image name: not empty, and without white space. It may contain underscores anywhere. */
  predicate IsImage(name: string) { name != "" && forall i | 0 <= i < |name| :: !IsSpace(name[i]) }

  /** Lines that the parser takes for output. */
  predicate NoMarkers(lines: seq<string>) { forall i | 0 <= i < |lines| :: !IsMarker(DropCr(lines[i])) }

  /** The lines between the first and the last marker; an unterminated last line swallows the exit code marker. */
  function BodyLines(x: Scan): seq<string> {
    RawLines(if Complete(x.output) then x.output else x.output + RcLine(x))
  }

  /** A scan whose output cannot be mistaken for a frame. */
  predicate Plain(x: Scan) { IsImage(x.image) && x.rc < INT64_LIMIT && NoMarkers(BodyLines(x)) }

  function DropCrs(lines: seq<string>): (r: seq<string>)
    ensures |r| == |lines|
  {
    seq(|lines|, i requires 0 <= i < |lines| => DropCr(lines[i]))
  }

  /** The output of a scan as the parser keeps it. */
  function Received(x: Scan): seq<string> { DropCrs(BodyLines(x)) }

  function TextItems(lines: seq<string>): (items: seq<Item>)
    ensures |items| == |lines|
  {
    seq(|lines|, i requires 0 <= i < |lines| => Output(lines[i]))
  }

  lemma OutputItems(lines: seq<string>)
    requires NoMarkers(lines)
    ensures ClassifyAll(lines) == TextItems(DropCrs(lines))
  {
  }

  lemma ImageText(marker: string, image: string)
    requires IsImage(image) && '\n' !in marker
    ensures '\n' !in marker + image && DropCr(marker + image) == marker + image && TrimSpace(image) == image
    ensures (marker + image)[|marker|..] == image
  {
    TrimSpaceIs(image);
    assert (marker + image)[|marker + image| - 1] == image[|image| - 1];
  }

  lemma MarkersDiffer(text: string)
    ensures !HasPrefix(RC + text, BEGIN) && !HasPrefix(END + text, BEGIN) && !HasPrefix(END + text, RC)
    ensures '\n' !in BEGIN && '\n' !in RC && '\n' !in END
  {
    assert BEGIN[21] == 'B' && (RC + text)[21] == 'R' && (END + text)[21] == 'E' && RC[21] == 'R';
  }

  lemma BeginAndEnd(image: string)
    requires IsImage(image)
    ensures '\n' !in BEGIN + image && Classify(BEGIN + image) == Begin(image)
    ensures '\n' !in END + image && Classify(END + image) == End(image)
  {
    MarkersDiffer(image);
    ImageText(BEGIN, image);
    ImageText(END, image);
  }

  /** The last double underscore of image__digits is the one in front of the digits. */
  lemma LastUnderscores(image: string, sep: string, digits: string)
    requires sep == "__" && forall i | 0 <= i < |digits| :: digits[i] != '_'
    ensures LastIndex(image + sep + digits, sep) == |image|
  {
    var rest, at := image + sep + digits, |image|;
    assert OccursAt(rest, sep, at);
    assert forall k | at + 2 <= k < |rest| :: rest[k] == digits[k - at - 2];
    assert forall j | OccursAt(rest, sep, j) :: rest[j..j + 2][1] == rest[j + 1] == '_';
    LastIndexIs(rest, sep, at);
  }

  /** The exit code is read back whatever underscores the image name contains. */
  lemma ExitStatusText(image: string, digits: string)
    requires IsImage(image) && IsImage(digits) && Atoi(digits).Some? && forall i | 0 <= i < |digits| :: digits[i] != '_'
    ensures ReadExitStatus(image + "__" + digits) == ExitStatus(image, Atoi(digits).value)
  {
    var rest, at := image + "__" + digits, |image|;
    TrimSpaceIs(digits);
    TrimSpaceIs(image);
    LastUnderscores(image, "__", digits);
    assert rest[..at] == image && rest[at + 2..] == digits;
  }

  lemma RcItem(x: Scan)
    requires IsImage(x.image) && x.rc < INT64_LIMIT
    ensures '\n' !in RcLine(x) && Classify(RcLine(x)) == ExitStatus(x.image, x.rc)
  {
    var digits := Itoa(x.rc);
    var rest := x.image + "__" + digits;
    AtoiOfItoa(x.rc);
    RestReads(rest, x.image, digits, x.rc);
    RcOfRest(rest, x.image, x.rc);
  }

  lemma RestReads(rest: string, image: string, digits: string, rc: int)
    requires IsImage(image) && digits != "" && (forall i | 0 <= i < |digits| :: IsDigit(digits[i])) &&
             Atoi(digits) == Some(rc)
    requires rest == image + "__" + digits
    ensures IsImage(rest) && ReadExitStatus(rest) == ExitStatus(image, rc)
  {
    DigitsArePlain(digits);
    ExitStatusText(image, digits);
  }

  lemma DigitsArePlain(digits: string)
    requires digits != "" && forall i | 0 <= i < |digits| :: IsDigit(digits[i])
    ensures IsImage(digits) && forall i | 0 <= i < |digits| :: digits[i] != '_'
  {
  }

  lemma RcOfRest(rest: string, image: string, rc: int)
    requires IsImage(rest) && ReadExitStatus(rest) == ExitStatus(image, rc)
    ensures '\n' !in RC + rest && Classify(RC + rest) == ExitStatus(image, rc)
  {
    MarkersDiffer(rest);
    ImageText(RC, rest);
  }

  /** The items of one frame. */
  function FrameItems(x: Scan): seq<Item> {
    [Begin(x.image)] + TextItems(Received(x)) + (if Complete(x.output) then [ExitStatus(x.image, x.rc)] else []) +
      [End(x.image)]
  }

  lemma FrameReads(x: Scan)
    requires Plain(x)
    ensures ClassifyAll(RawLines(Frame(x))) == FrameItems(x) && Complete(Frame(x))
  {
    BeginAndEnd(x.image);
    RcItem(x);
    FrameReadsAs(x, BEGIN + x.image, RcLine(x), END + x.image);
  }

  lemma FrameReadsAs(x: Scan, begin: string, rc: string, end: string)
    requires '\n' !in begin && '\n' !in rc && '\n' !in end
    requires Classify(begin) == Begin(x.image) && Classify(rc) == ExitStatus(x.image, x.rc) &&
             Classify(end) == End(x.image)
    requires Frame(x) == FrameText(begin, x.output, rc, end) && rc == RcLine(x) && NoMarkers(BodyLines(x))
    ensures ClassifyAll(RawLines(Frame(x))) == FrameItems(x) && Complete(Frame(x))
  {
    LinesOfFrame(begin, x.output, rc, end);
    ItemsOfFrame(x, begin, rc, end);
  }

  lemma ItemsOfFrame(x: Scan, begin: string, rc: string, end: string)
    requires Classify(begin) == Begin(x.image) && Classify(rc) == ExitStatus(x.image, x.rc) &&
             Classify(end) == End(x.image)
    requires NoMarkers(BodyLines(x))
    ensures ClassifyAll([begin] + BodyLines(x) + (if Complete(x.output) then [rc] else []) + [end]) == FrameItems(x)
  {
    var status := if Complete(x.output) then [rc] else [];
    OutputItems(BodyLines(x));
    ItemsOfLines(begin, BodyLines(x), status, end);
    assert ClassifyAll(status) == if Complete(x.output) then [Classify(rc)] else [];
  }

  lemma ItemsOfLines(begin: string, body: seq<string>, status: seq<string>, end: string)
    ensures ClassifyAll([begin] + body + status + [end]) ==
            [Classify(begin)] + ClassifyAll(body) + ClassifyAll(status) + [Classify(end)]
  {
    ClassifyOne(begin);
    ClassifyOne(end);
    ClassifyConcat([begin], body);
    ClassifyConcat([begin] + body, status);
    ClassifyConcat([begin] + body + status, [end]);
  }

  lemma ClassifyOne(line: string)
    ensures ClassifyAll([line]) == [Classify(line)]
  {
  }

  lemma LinesOfFrame(begin: string, output: string, rc: string, end: string)
    requires '\n' !in begin && '\n' !in rc && '\n' !in end
    ensures RawLines(FrameText(begin, output, rc, end)) ==
            [begin] + RawLines(if Complete(output) then output else output + rc) +
              (if Complete(output) then [rc] else []) + [end]
    ensures Complete(FrameText(begin, output, rc, end))
  {
    var first, body, last := begin + "\n", output + rc + "\n", end + "\n";
    OneLine(begin);
    OneLine(end);
    assert FrameText(begin, output, rc, end) == first + (body + last);
    ThreeTexts(first, body, last);
    LinesOfBody(output, rc);
  }

  lemma ThreeTexts(first: string, body: string, last: string)
    requires Complete(first) && Complete(body) && Complete(last) && last != ""
    ensures RawLines(first + (body + last)) == RawLines(first) + RawLines(body) + RawLines(last)
    ensures Complete(first + (body + last))
  {
    var rest := body + last;
    StaysComplete(body, last);
    StaysComplete(first, rest);
    LinesConcat(first, rest);
    LinesConcat(body, last);
    Regroup(RawLines(first), RawLines(body), RawLines(last));
  }

  lemma StaysComplete(a: string, b: string)
    requires Complete(b) && b != ""
    ensures Complete(a + b)
  {
    assert (a + b)[|a + b| - 1] == b[|b| - 1];
  }

  lemma Regroup(a: seq<string>, b: seq<string>, c: seq<string>)
    ensures a + (b + c) == a + b + c
  {
  }

  lemma LinesOfBody(output: string, rc: string)
    requires '\n' !in rc
    ensures RawLines(output + rc + "\n") ==
            RawLines(if Complete(output) then output else output + rc) + if Complete(output) then [rc] else []
  {
    if Complete(output) {
      OneLine(rc);
      assert output + rc + "\n" == output + (rc + "\n");
      LinesConcat(output, rc + "\n");
    } else {
      LongerTail(output, rc);
      Terminate(output + rc);
    }
  }

  /** A line break at the end of an unterminated text adds no line. */
  lemma Terminate(text: string)
    requires text != "" && CutLines(text).tail != ""
    ensures RawLines(text + "\n") == RawLines(text)
  {
    assert (text + "\n")[..|text|] == text;
  }

  lemma {:induction false} LongerTail(text: string, more: string)
    requires !Complete(text) && '\n' !in more
    ensures CutLines(text + more).tail != ""
    decreases |more|
  {
    if more == "" {
      assert text + more == text;
    } else {
      LongerTail(text, more[..|more| - 1]);
      assert (text + more)[..|text + more| - 1] == text + more[..|more| - 1];
      assert (text + more)[|text + more| - 1] == more[|more| - 1];
    }
  }

  // ---------- the state after a frame ----------

  /** What the parser holds after the frame of x. */
  function Record(f: Frames, x: Scan): Frames {
    Frames("", f.chunks[x.image := Received(x)], if Complete(x.output) then f.rcs[x.image := x.rc] else f.rcs)
  }

  lemma {:induction false} FeedOutput(f: Frames, lines: seq<string>)
    requires f.current != "" && f.current in f.chunks
    ensures FeedAll(f, TextItems(lines)) == Some(f.(chunks := f.chunks[f.current := f.chunks[f.current] + lines]))
    decreases |lines|
  {
    if lines == [] {
      assert f.chunks[f.current] + lines == f.chunks[f.current];
      assert f.chunks[f.current := f.chunks[f.current]] == f.chunks;
    } else {
      var next := Feed(f, Output(lines[0])).value;
      FeedOutput(next, lines[1..]);
      assert TextItems(lines)[1..] == TextItems(lines[1..]);
      assert f.chunks[f.current] + [lines[0]] + lines[1..] == f.chunks[f.current] + lines;
      assert next.chunks[f.current := f.chunks[f.current] + lines] ==
             f.chunks[f.current := f.chunks[f.current] + lines];
    }
  }

  lemma FeedFrame(f: Frames, x: Scan)
    requires IsImage(x.image) && x.image !in f.chunks
    ensures FeedAll(f, FrameItems(x)) == Some(Record(f, x))
  {
    var lines := Received(x);
    var tail := (if Complete(x.output) then [ExitStatus(x.image, x.rc)] else []) + [End(x.image)];
    assert FrameItems(x) == [Begin(x.image)] + (TextItems(lines) + tail);
    var open := Frames(x.image, f.chunks[x.image := []], f.rcs);
    FeedAllConcat(f, [Begin(x.image)], TextItems(lines) + tail);
    FeedOne(f, Begin(x.image));
    FeedAllConcat(open, TextItems(lines), tail);
    FeedOutput(open, lines);
    assert [] + lines == lines;
    var filled := open.(chunks := open.chunks[x.image := lines]);
    assert filled.chunks == f.chunks[x.image := lines];
    FeedTail(filled, x, tail);
  }

  lemma FeedTail(f: Frames, x: Scan, tail: seq<Item>)
    requires f.current == x.image
    requires tail == (if Complete(x.output) then [ExitStatus(x.image, x.rc)] else []) + [End(x.image)]
    ensures FeedAll(f, tail) ==
            Some(f.(current := "", rcs := if Complete(x.output) then f.rcs[x.image := x.rc] else f.rcs))
  {
    if Complete(x.output) {
      assert tail[0] == ExitStatus(x.image, x.rc) && tail[1..] == [End(x.image)];
      FeedOne(f.(rcs := f.rcs[x.image := x.rc]), End(x.image));
    } else {
      assert tail == [End(x.image)];
      FeedOne(f, End(x.image));
    }
  }

  // ---------- the round trip ----------

  ghost predicate DistinctImages(scans: seq<Scan>) {
    forall i, j :: 0 <= i < j < |scans| ==> scans[i].image != scans[j].image
  }

  function Recorded(scans: seq<Scan>): Frames {
    if scans == [] then START else Record(Recorded(scans[..|scans| - 1]), scans[|scans| - 1])
  }

  predicate Known(scans: seq<Scan>, image: string) { exists i :: 0 <= i < |scans| && scans[i].image == image }

  lemma {:induction false} RecordedImages(scans: seq<Scan>, image: string)
    ensures image in Recorded(scans).chunks ==> Known(scans, image)
    ensures image in Recorded(scans).rcs ==> image in Recorded(scans).chunks
    decreases |scans|
  {
    if scans != [] {
      var front, x := scans[..|scans| - 1], scans[|scans| - 1];
      RecordedImages(front, image);
      if image == x.image {
        assert scans[|scans| - 1].image == image;
      } else if Known(front, image) {
        var i :| 0 <= i < |front| && front[i].image == image;
        assert scans[i].image == image;
      }
    }
  }

  /** The output and, if complete, the exit code of every scan. */
  lemma {:induction false} RecordedIs(scans: seq<Scan>, i: nat)
    requires DistinctImages(scans) && i < |scans|
    ensures var f, x := Recorded(scans), scans[i];
            Chunk(f, x.image) == Received(x) &&
            if Complete(x.output) then x.image in f.rcs && f.rcs[x.image] == x.rc else x.image !in f.rcs
    decreases |scans|
  {
    var front, x := scans[..|scans| - 1], scans[|scans| - 1];
    if i < |front| {
      RecordedIs(front, i);
      assert scans[i].image != x.image;
    } else {
      NotYetKnown(front, scans);
      RecordedImages(front, x.image);
    }
  }

  lemma NotYetKnown(front: seq<Scan>, scans: seq<Scan>)
    requires scans != [] && front == scans[..|scans| - 1] && DistinctImages(scans)
    ensures !Known(front, scans[|scans| - 1].image)
  {
    assert forall i :: 0 <= i < |front| ==> front[i] == scans[i];
  }

  lemma {:induction false} FeedEmitted(scans: seq<Scan>)
    requires DistinctImages(scans) && forall i | 0 <= i < |scans| :: Plain(scans[i])
    ensures FeedAll(START, ClassifyAll(RawLines(Emit(scans)))) == Some(Recorded(scans)) && Complete(Emit(scans))
    decreases |scans|
  {
    if scans == [] {
      assert RawLines("") == [];
    } else {
      var front, x := scans[..|scans| - 1], scans[|scans| - 1];
      FeedEmitted(front);
      NotYetKnown(front, scans);
      RecordedImages(front, x.image);
      FrameReads(x);
      EmitStep(Emit(front), Frame(x), Recorded(front), Recorded(scans), FrameItems(x));
      FeedFrame(Recorded(front), x);
    }
  }

  lemma EmitStep(a: string, b: string, f: Frames, g: Frames, items: seq<Item>)
    requires Complete(a) && Complete(b) && b != "" && ClassifyAll(RawLines(b)) == items
    requires FeedAll(START, ClassifyAll(RawLines(a))) == Some(f)
    ensures FeedAll(START, ClassifyAll(RawLines(a + b))) == FeedAll(f, items) && Complete(a + b)
  {
    LinesConcat(a, b);
    ClassifyConcat(RawLines(a), RawLines(b));
    FeedAllConcat(START, ClassifyAll(RawLines(a)), items);
    assert (a + b)[|a + b| - 1] == b[|b| - 1];
  }

  lemma {:induction false} FeedNoise(lines: seq<string>)
    requires NoMarkers(lines)
    ensures FeedAll(START, ClassifyAll(lines)) == Some(START)
    decreases |lines|
  {
    if lines != [] {
      FeedNoise(lines[1..]);
      assert ClassifyAll(lines)[1..] == ClassifyAll(lines[1..]);
      assert !IsMarker(DropCr(lines[0]));
    }
  }

  /** Nothing in the log but the frames themselves looks like a marker. */
  predicate Readable(noise: string, scans: seq<Scan>) {
    Complete(noise) && NoMarkers(RawLines(noise)) && (forall i | 0 <= i < |scans| :: Plain(scans[i])) &&
    LinesFit(JobLog(noise, scans))
  }

  /**
   Round trip: from the log of two or more distinct images the parser recovers the output lines of every
   image, and its exit code exactly when the output is empty or ends in a line break.
   */
  lemma RoundTrip(noise: string, scans: seq<Scan>, i: nat)
    requires |scans| >= 2 && DistinctImages(scans) && Readable(noise, scans) && i < |scans|
    ensures var r := Parse(JobLog(noise, scans));
            r.Some? && Chunk(r.value, scans[i].image) == Received(scans[i]) &&
            (scans[i].image in r.value.rcs <==> Complete(scans[i].output)) &&
            (Complete(scans[i].output) ==> r.value.rcs[scans[i].image] == scans[i].rc)
  {
    LogReads(noise, scans);
    RecordedIs(scans, i);
  }

  lemma LogReads(noise: string, scans: seq<Scan>)
    requires |scans| >= 2 && DistinctImages(scans) && Readable(noise, scans)
    ensures Parse(JobLog(noise, scans)) == Some(Recorded(scans))
  {
    FeedNoise(RawLines(noise));
    FeedEmitted(scans);
    LinesConcat(noise, Emit(scans));
    ClassifyConcat(RawLines(noise), RawLines(Emit(scans)));
    FeedAllConcat(START, ClassifyAll(RawLines(noise)), ClassifyAll(RawLines(Emit(scans))));
  }

  // ---------- results ----------

  datatype ScanError = MissingResult | ExitCode(rc: int) | ScannerMessage(text: string) | BadReport

  /** strings.Join with "\n". */
  function JoinLines(lines: seq<string>): string { Join(lines, '\n') }

  /** What the parser has kept of the output of an image, trimmed. */
  function PrintedBy(f: Frames, image: string): string { TrimSpace(JoinLines(Chunk(f, image))) }

  /** The image has exited with 0 and printed a report. */
  predicate HasReport<T>(f: Frames, image: string, parse: string -> Option<T>) {
    image in f.rcs && f.rcs[image] == 0 && parse(PrintedBy(f, image)).Some?
  }

  /** Why there is no report: no exit code, a failed scan with what it printed, or an output that is no report. */
  predicate Explains(f: Frames, image: string, error: ScanError) {
    error ==
      if image !in f.rcs then MissingResult
      else if f.rcs[image] == 0 then BadReport
      else if PrintedBy(f, image) == "" then ExitCode(f.rcs[image])
      else ScannerMessage(PrintedBy(f, image))
  }

  /** A result is the report that an image with exit code 0 has printed; anything else is an explained error. */
  ghost predicate Lands<T>(f: Frames, image: string, parse: string -> Option<T>, results: map<string, T>,
      errors: map<string, ScanError>) {
    if HasReport(f, image, parse) then image in results && Some(results[image]) == parse(PrintedBy(f, image))
    else image in errors && Explains(f, image, errors[image])
  }

  ghost predicate Collected<T>(f: Frames, targets: seq<string>, parse: string -> Option<T>, results: map<string, T>,
      errors: map<string, ScanError>) {
    results.Keys !! errors.Keys && results.Keys + errors.Keys == (set image | image in targets) &&
    forall image | image in targets :: Lands(f, image, parse, results, errors)
  }

  lemma ErrorAdded<T>(f: Frames, seen: seq<string>, image: string, parse: string -> Option<T>,
      results: map<string, T>, errors: map<string, ScanError>, error: ScanError)
    requires Collected(f, seen, parse, results, errors) && !HasReport(f, image, parse) && Explains(f, image, error)
    ensures Collected(f, seen + [image], parse, results, errors[image := error])
  {
    assert image in seen ==> Lands(f, image, parse, results, errors);
  }

  lemma ReportAdded<T>(f: Frames, seen: seq<string>, image: string, parse: string -> Option<T>,
      results: map<string, T>, errors: map<string, ScanError>, report: T)
    requires Collected(f, seen, parse, results, errors) && HasReport(f, image, parse)
    requires parse(PrintedBy(f, image)) == Some(report)
    ensures Collected(f, seen + [image], parse, results[image := report], errors)
  {
    assert image in seen ==> Lands(f, image, parse, results, errors);
  }

  /** Every target lands in exactly one of results and errors; parse reads a trivy report. */
  method Collect<T>(frames: Frames, targets: seq<string>, parse: string -> Option<T>)
      returns (results: map<string, T>, errors: map<string, ScanError>)
    ensures Collected(frames, targets, parse, results, errors)
  {
    results, errors := map[], map[];
    for i := 0 to |targets|
      invariant Collected(frames, targets[..i], parse, results, errors)
    {
      var image := targets[i];
      assert targets[..i + 1] == targets[..i] + [image];
      if image !in frames.rcs {
        ErrorAdded(frames, targets[..i], image, parse, results, errors, MissingResult);
        errors := errors[image := MissingResult];
        continue;
      }
      var raw := TrimSpace(JoinLines(Chunk(frames, image)));
      if frames.rcs[image] != 0 {
        var error := if raw == "" then ExitCode(frames.rcs[image]) else ScannerMessage(raw);
        ErrorAdded(frames, targets[..i], image, parse, results, errors, error);
        errors := errors[image := error];
        continue;
      }
      var report := parse(raw);
      if report.None? {
        ErrorAdded(frames, targets[..i], image, parse, results, errors, BadReport);
        errors := errors[image := BadReport];
        continue;
      }
      ReportAdded(frames, targets[..i], image, parse, results, errors, report.value);
      results := results[image := report.value];
    }
    assert targets[..|targets|] == targets;
  }

  /** The parser of a batch log: its lines are read first, and then the targets are judged one by one. */
  method ParseBatch<T>(log: string, targets: seq<string>, parse: string -> Option<T>)
      returns (ok: bool, results: map<string, T>, errors: map<string, ScanError>)
    ensures ok <==> Parse(log).Some?
    ensures ok ==> Collected(Parse(log).value, targets, parse, results, errors)
    ensures !ok ==> results == map[] && errors == map[]
  {
    var frames := ParseLog(log);
    if frames.None? {
      return false, map[], map[];
    }
    ok := true;
    results, errors := Collect(frames.value, targets, parse);
  }

  /** What trivy printed for a scan, as the caller gets to see it. */
  function Shown(x: Scan): string { TrimSpace(JoinLines(DropCrs(RawLines(x.output)))) }

  /**
   From the scans to the caller: an image has a result exactly when trivy exited with 0 and printed a report in
   whole lines, and then it is that report; a failed scan is explained by what it printed, or by its exit code
   if that was blank; an output that does not end in a line break is reported missing, whatever it says.
   */
  lemma ReportsArrive<T>(noise: string, scans: seq<Scan>, x: Scan, targets: seq<string>, parse: string -> Option<T>,
      results: map<string, T>, errors: map<string, ScanError>)
    requires |scans| >= 2 && DistinctImages(scans) && Readable(noise, scans) && x in scans && x.image in targets
    requires Parse(JobLog(noise, scans)).Some?
    requires Collected(Parse(JobLog(noise, scans)).value, targets, parse, results, errors)
    ensures x.image in results <==> Complete(x.output) && x.rc == 0 && parse(Shown(x)).Some?
    ensures x.image in results ==> parse(Shown(x)) == Some(results[x.image])
    ensures x.image !in results ==> x.image in errors
    ensures !Complete(x.output) ==> errors[x.image] == MissingResult
    ensures Complete(x.output) && x.rc != 0 ==>
              errors[x.image] == if Shown(x) == "" then ExitCode(x.rc) else ScannerMessage(Shown(x))
    ensures Complete(x.output) && x.rc == 0 && parse(Shown(x)).None? ==> errors[x.image] == BadReport
  {
    var i :| 0 <= i < |scans| && scans[i] == x;
    RoundTrip(noise, scans, i);
    CollectedFor(Parse(JobLog(noise, scans)).value, x, targets, parse, results, errors);
  }

  /** Why the caller gets no report of a scan. */
  function Explanation(x: Scan): ScanError {
    if !Complete(x.output) then MissingResult
    else if x.rc == 0 then BadReport
    else if Shown(x) == "" then ExitCode(x.rc) else ScannerMessage(Shown(x))
  }

  lemma CollectedFor<T>(f: Frames, x: Scan, targets: seq<string>, parse: string -> Option<T>,
      results: map<string, T>, errors: map<string, ScanError>)
    requires x.image in targets && Collected(f, targets, parse, results, errors)
    requires Chunk(f, x.image) == Received(x) && (x.image in f.rcs <==> Complete(x.output))
    requires Complete(x.output) ==> f.rcs[x.image] == x.rc
    ensures x.image in results <==> Complete(x.output) && x.rc == 0 && parse(Shown(x)).Some?
    ensures x.image in results ==> parse(Shown(x)) == Some(results[x.image])
    ensures x.image !in results ==> x.image in errors && errors[x.image] == Explanation(x)
  {
    assert Lands(f, x.image, parse, results, errors);
    assert Complete(x.output) ==> PrintedBy(f, x.image) == Shown(x);
  }

  /** A batch of one image is printed without a frame, so its result is always reported missing. */
  lemma SingleImageIsMissing<T>(noise: string, x: Scan, targets: seq<string>, parse: string -> Option<T>,
      results: map<string, T>, errors: map<string, ScanError>)
    requires Complete(noise) && LinesFit(JobLog(noise, [x])) && x.image in targets
    requires NoMarkers(RawLines(noise) + RawLines(x.output))
    ensures Parse(JobLog(noise, [x])).Some?
    ensures Collected(Parse(JobLog(noise, [x])).value, targets, parse, results, errors) ==>
              x.image in errors && errors[x.image] == MissingResult
  {
    LinesConcat(noise, x.output);
    FeedNoise(RawLines(noise) + RawLines(x.output));
  }
}
