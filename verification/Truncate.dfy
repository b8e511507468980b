/** Capping tool output by lines and by bytes, from the head or from the tail. */
module Truncations {
  import opened Bytes
  import opened Utf8

  const DEFAULT_LINES := 2000
  const DEFAULT_BYTES := 50 * 1024

  datatype Options = Options(maxLines: int, maxBytes: int, keepTail: bool)

  datatype Truncation = Truncation(
    text: seq<byte>, truncated: bool, totalLines: nat, keptLines: nat,
    totalBytes: nat, keptBytes: nat, keptTail: bool)

  function LineCap(opt: Options): (n: nat)
    ensures n >= 1
  {
    if opt.maxLines <= 0 then DEFAULT_LINES else opt.maxLines
  }

  function ByteCap(opt: Options): (n: nat)
    ensures n >= 1
  {
    if opt.maxBytes <= 0 then DEFAULT_BYTES else opt.maxBytes
  }

  // ----- what a truncation must be ------------------------------------------

  /** What the lines take with the newline each is followed by. */
  function Size(lines: seq<seq<byte>>): nat {
    if lines == [] then 0 else |lines[0]| + 1 + Size(lines[1..])
  }

  /** The n lines at the edge that is kept. */
  function Edge(lines: seq<seq<byte>>, n: nat, tail: bool): seq<seq<byte>>
    requires n <= |lines|
  {
    if tail then lines[|lines| - n..] else lines[..n]
  }

  function Last(s: seq<byte>, n: nat): seq<byte>
    requires n <= |s|
  {
    s[|s| - n..]
  }

  ghost predicate LongestPrefix(s: seq<byte>, max: nat, b: seq<byte>) {
    && |b| <= max <= |s| && b == s[..|b|] && Valid(b)
    && forall n :: |b| < n <= max ==> !Valid(s[..n])
  }

  ghost predicate LongestSuffix(s: seq<byte>, max: nat, b: seq<byte>) {
    && |b| <= max <= |s| && b == Last(s, |b|) && Valid(b)
    && forall n :: |b| < n <= max ==> !Valid(Last(s, n))
  }

  ghost predicate IsCut(line: seq<byte>, max: nat, tail: bool, b: seq<byte>) {
    if |line| <= max then b == line
    else if tail then LongestSuffix(line, max, b)
    else LongestPrefix(line, max, b)
  }

  predicate WithinCaps(s: seq<byte>, opt: Options) {
    |Lines(s)| <= LineCap(opt) && |s| <= ByteCap(opt)
  }

  /** The n lines at the edge are the most that satisfy both caps. */
  predicate MostLines(lines: seq<seq<byte>>, opt: Options, n: nat) {
    && n <= |lines| && n <= LineCap(opt)
    && Size(Edge(lines, n, opt.keepTail)) <= ByteCap(opt)
    && (n < |lines| && n < LineCap(opt) ==> Size(Edge(lines, n + 1, opt.keepTail)) > ByteCap(opt))
  }

  /** The most whole lines, or part of the edge line when not even that one fits. */
  ghost predicate ShortenedTo(lines: seq<seq<byte>>, opt: Options, n: nat, r: Truncation) {
    && MostLines(lines, opt, n)
    && if n > 0 then r.keptLines == n && r.text == Join(Edge(lines, n, opt.keepTail))
       else r.keptLines == 1 && lines != [] && IsCut(Edge(lines, 1, opt.keepTail)[0], ByteCap(opt), opt.keepTail, r.text)
  }

  ghost predicate Shortened(s: seq<byte>, opt: Options, r: Truncation) {
    exists n: nat :: ShortenedTo(Lines(s), opt, n, r)
  }

  ghost predicate Describes(s: seq<byte>, opt: Options, r: Truncation) {
    && r.totalLines == |Lines(s)| && r.totalBytes == |s| && r.keptTail == opt.keepTail
    && r.keptBytes == |r.text|
    && (r.truncated <==> !WithinCaps(s, opt))
    && (if r.truncated then Shortened(s, opt, r) else r.text == s && r.keptLines == |Lines(s)|)
  }

  // ----- sizes --------------------------------------------------------------

  lemma {:induction false} SizeConcat(a: seq<seq<byte>>, b: seq<seq<byte>>)
    ensures Size(a + b) == Size(a) + Size(b)
  {
    if a == [] {
      assert a + b == b;
    } else {
      assert (a + b)[1..] == a[1..] + b;
      SizeConcat(a[1..], b);
    }
  }

  lemma SizeOfOne(line: seq<byte>)
    ensures Size([line]) == |line| + 1
  {
    var rest: seq<seq<byte>> := [];
    assert [line][1..] == rest;
  }

  lemma {:induction false} SizeOfJoin(parts: seq<seq<byte>>)
    ensures parts != [] ==> |Join(parts)| == Size(parts) - 1
  {
    if |parts| > 1 {
      var n := |parts| - 1;
      SizeOfJoin(parts[..n]);
      SizeConcat(parts[..n], [parts[n]]);
      assert parts[..n] + [parts[n]] == parts;
      SizeOfOne(parts[n]);
    }
  }

  lemma SizeOfLines(s: seq<byte>)
    ensures |s| <= Size(Lines(s)) <= |s| + 1
    ensures Lines(s) == [] ==> s == []
  {
    var parts := Split(s);
    JoinSplit(s);
    SizeOfJoin(parts);
    var n := |parts| - 1;
    SizeConcat(parts[..n], [parts[n]]);
    assert parts[..n] + [parts[n]] == parts;
    SizeOfOne(parts[n]);
  }

  lemma EdgeGrows(lines: seq<seq<byte>>, m: nat, n: nat, tail: bool)
    requires m <= n <= |lines|
    ensures Size(Edge(lines, m, tail)) <= Size(Edge(lines, n, tail))
    ensures Edge(Edge(lines, n, tail), m, tail) == Edge(lines, m, tail)
  {
    var a, b := Edge(lines, m, tail), Edge(lines, n, tail);
    if tail {
      assert b == b[..n - m] + a;
      SizeConcat(b[..n - m], a);
    } else {
      assert b == a + b[m..];
      SizeConcat(a, b[m..]);
    }
  }

  // ----- what truncation promises -------------------------------------------

  /** Both caps and the input leave no choice. */
  lemma Determined(s: seq<byte>, opt: Options, a: Truncation, b: Truncation)
    requires Describes(s, opt, a) && Describes(s, opt, b)
    ensures a == b
  {
    if a.truncated {
      hide Valid, Size, Lines, Join;
      var lines := Lines(s);
      var m: nat :| ShortenedTo(lines, opt, m, a);
      var n: nat :| ShortenedTo(lines, opt, n, b);
      MostIsUnique(lines, opt, m, n);
      if m == 0 {
        CutIsUnique(Edge(lines, 1, opt.keepTail)[0], ByteCap(opt), opt.keepTail, a.text, b.text);
      }
    }
  }

  lemma MostIsUnique(lines: seq<seq<byte>>, opt: Options, m: nat, n: nat)
    requires MostLines(lines, opt, m) && MostLines(lines, opt, n)
    ensures m == n
  {
    hide Size, Edge;
    if m < n {
      EdgeGrows(lines, m + 1, n, opt.keepTail);
    } else if n < m {
      EdgeGrows(lines, n + 1, m, opt.keepTail);
    }
  }

  lemma CutIsUnique(line: seq<byte>, max: nat, tail: bool, a: seq<byte>, b: seq<byte>)
    requires IsCut(line, max, tail, a) && IsCut(line, max, tail, b)
    ensures a == b
  {
    hide Valid;
    if |line| > max {
      if tail {
        assert a == Last(line, |a|) && b == Last(line, |b|);
      } else {
        assert a == line[..|a|] && b == line[..|b|];
      }
    }
  }

  /** Every count of whole lines that satisfies the caps is at most the one kept. */
  lemma MostIsMost(lines: seq<seq<byte>>, opt: Options, n: nat, k: nat)
    requires MostLines(lines, opt, n)
    requires k <= |lines| && k <= LineCap(opt) && Size(Edge(lines, k, opt.keepTail)) <= ByteCap(opt)
    ensures k <= n
  {
    if k > n {
      EdgeGrows(lines, n + 1, k, opt.keepTail);
    }
  }

  /** Shortening whole lines always drops one. */
  lemma SomethingIsDropped(s: seq<byte>, opt: Options, n: nat)
    requires !WithinCaps(s, opt) && MostLines(Lines(s), opt, n)
    ensures n < |Lines(s)|
  {
    hide Lines, Size, LineCap, ByteCap;
    SizeOfLines(s);
    assert Edge(Lines(s), |Lines(s)|, opt.keepTail) == Lines(s);
  }

  lemma LinesHaveNoNewline(s: seq<byte>)
    ensures AllNoNewline(Lines(s))
  {
    SplitHasNoNewline(s);
  }

  lemma OneLineText(t: seq<byte>)
    requires NoNewline(t)
    ensures |Lines(t)| <= 1
  {
    SplitExtend([], t);
    assert [] + t == t;
  }

  lemma CutIsShort(line: seq<byte>, max: nat, tail: bool, b: seq<byte>)
    requires IsCut(line, max, tail, b)
    ensures |b| <= max && |b| <= |line|
    ensures NoNewline(line) ==> NoNewline(b)
  {}

  lemma JoinedIsShort(lines: seq<seq<byte>>, opt: Options, n: nat)
    requires AllNoNewline(lines) && MostLines(lines, opt, n) && n > 0
    ensures WithinCaps(Join(Edge(lines, n, opt.keepTail)), opt)
  {
    var kept := Edge(lines, n, opt.keepTail);
    SplitJoin(kept);
    SizeOfJoin(kept);
  }

  /** A shortened text satisfies both caps, keeps at least one line, and fewer than there were. */
  lemma ShortenedFits(s: seq<byte>, opt: Options, r: Truncation)
    requires Describes(s, opt, r)
    ensures WithinCaps(r.text, opt) && r.keptBytes == |r.text| <= ByteCap(opt)
    ensures r.truncated ==> 1 <= r.keptLines <= LineCap(opt) && r.keptLines <= r.totalLines
    ensures r.text == s <==> WithinCaps(s, opt)
    ensures var lines, bytes := (if opt.maxLines <= 0 then 2000 else opt.maxLines), (if opt.maxBytes <= 0 then 51_200 else opt.maxBytes);
            && |Lines(r.text)| <= lines && |r.text| <= bytes
            && (r.text == s <==> |Lines(s)| <= lines && |s| <= bytes)
  {
    if r.truncated {
      var lines := Lines(s);
      LinesHaveNoNewline(s);
      hide Lines, Join, Size;
      var n: nat :| ShortenedTo(lines, opt, n, r);
      if n > 0 {
        JoinedIsShort(lines, opt, n);
      } else {
        CutIsShort(Edge(lines, 1, opt.keepTail)[0], ByteCap(opt), opt.keepTail, r.text);
        OneLineText(r.text);
      }
    }
  }

  /** Truncating again with the same caps changes nothing. */
  lemma TruncatingAgainKeepsAll(s: seq<byte>, opt: Options, r: Truncation, again: Truncation)
    requires Describes(s, opt, r) && Describes(r.text, opt, again)
    ensures again.text == r.text && !again.truncated
  {
    ShortenedFits(s, opt, r);
  }

  // ----- UTF-8 --------------------------------------------------------------

  lemma LinesAreValid(s: seq<byte>)
    requires Valid(s)
    ensures AllValid(Lines(s))
  {
    JoinSplit(s);
    ValidJoin(Split(s));
  }

  /** A well-formed text stays well-formed. */
  lemma ValidStaysValid(s: seq<byte>, opt: Options, r: Truncation)
    requires Describes(s, opt, r) && Valid(s)
    ensures Valid(r.text)
  {
    hide Valid, Size, Join;
    if r.truncated {
      LinesAreValid(s);
      var lines := Lines(s);
      var n: nat :| ShortenedTo(lines, opt, n, r);
      hide Lines;
      if n > 0 {
        ValidJoin(Edge(lines, n, opt.keepTail));
      } else {
        assert Valid(Edge(lines, 1, opt.keepTail)[0]);
      }
    }
  }

  /** Cutting a well-formed line gives up at most three bytes of the cap. */
  lemma CutIsTight(line: seq<byte>, max: nat, tail: bool, b: seq<byte>)
    requires Valid(line) && |line| > max && IsCut(line, max, tail, b)
    ensures max - 3 <= |b| <= max
  {
    hide Valid;
    if tail {
      var lo, hi := NearBoundary(line, |line| - max);
      assert line[hi..] == Last(line, |line| - hi);
    } else {
      var lo, hi := NearBoundary(line, max);
    }
  }

  // ----- reading on ---------------------------------------------------------

  /** The content a read from the 1-based line `offset` looks at. */
  function From(s: seq<byte>, offset: nat): seq<byte> {
    var lines := Split(s);
    if 1 <= offset <= |lines| then Join(lines[offset - 1..]) else []
  }

  /** The line a reader by offset is told to continue from. */
  function ResumeAt(r: Truncation, offset: nat): nat {
    offset + r.keptLines
  }

  /** The pages shown to a reader who starts at `offset` and does what every notice says. */
  ghost predicate Pages(s: seq<byte>, opt: Options, offset: nat, pages: seq<Truncation>)
    decreases |pages|
  {
    && pages != [] && Describes(From(s, offset), opt, pages[0])
    && (if pages[0].truncated then Pages(s, opt, ResumeAt(pages[0], offset), pages[1..]) else |pages| == 1)
  }

  function Texts(pages: seq<Truncation>): (texts: seq<seq<byte>>)
    ensures |texts| == |pages|
  {
    if pages == [] then [] else [pages[0].text] + Texts(pages[1..])
  }

  /** No line is longer than the byte cap. */
  predicate AllFit(lines: seq<seq<byte>>, max: nat) {
    forall i :: 0 <= i < |lines| ==> |lines[i]| <= max
  }

  lemma {:induction false} JoinConcat(a: seq<seq<byte>>, b: seq<seq<byte>>)
    requires a != [] && b != []
    ensures Join(a + b) == Join(a) + [NL] + Join(b)
  {
    var n := |b| - 1;
    if n == 0 {
      assert (a + b)[..|a|] == a;
    } else {
      assert (a + b)[..|a + b| - 1] == a + b[..n];
      JoinConcat(a, b[..n]);
      assert Join(a) + [NL] + Join(b[..n]) + [NL] + b[n] == Join(a) + [NL] + (Join(b[..n]) + [NL] + b[n]);
    }
  }

  /** What is read from an offset has exactly the lines from there on. */
  lemma FromHasTheRest(s: seq<byte>, offset: nat)
    requires 1 <= offset <= |Split(s)|
    ensures Split(From(s, offset)) == Split(s)[offset - 1..]
  {
    SplitHasNoNewline(s);
    hide Split, Join;
    SplitJoin(Split(s)[offset - 1..]);
  }

  /** Where the next page starts. */
  lemma FromNext(s: seq<byte>, offset: nat, k: nat)
    requires 1 <= offset && 1 <= k && offset + k <= |Split(s)|
    ensures From(s, offset) == Join(Split(s)[offset - 1..][..k]) + [NL] + From(s, offset + k)
  {
    hide Split, Join;
    var rest := Split(s)[offset - 1..];
    assert rest == rest[..k] + rest[k..];
    assert rest[k..] == Split(s)[offset + k - 1..];
    JoinConcat(rest[..k], rest[k..]);
  }

  lemma {:induction false} SizeBoundsLines(lines: seq<seq<byte>>)
    ensures AllFit(lines, Size(lines))
  {
    if lines != [] {
      SizeBoundsLines(lines[1..]);
      forall i | 0 <= i < |lines| ensures |lines[i]| <= Size(lines) {
        assert i > 0 ==> lines[i] == lines[1..][i - 1];
      }
    }
  }

  /** A shortened page is its whole lines, all of which fit, or part of one line that does not. */
  lemma PageIsWholeOrCut(t: seq<byte>, opt: Options, r: Truncation)
    requires Describes(t, opt, r) && r.truncated && !opt.keepTail
    ensures 1 <= r.keptLines <= |Lines(t)|
    ensures || (r.text == Join(Lines(t)[..r.keptLines]) && AllFit(Lines(t)[..r.keptLines], ByteCap(opt)))
            || (r.keptLines == 1 && |r.text| < |Lines(t)[0]| && |Lines(t)[0]| > ByteCap(opt))
  {
    hide Valid, Lines;
    var lines := Lines(t);
    var n: nat :| ShortenedTo(lines, opt, n, r);
    if n > 0 {
      SizeBoundsLines(lines[..n]);
    } else {
      assert lines[..1] == [lines[0]];
      assert |lines[0]| <= ByteCap(opt) ==> r.text == lines[0];
    }
  }

  lemma LinesStartSplit(t: seq<byte>)
    ensures |Lines(t)| <= |Split(t)| && Lines(t) == Split(t)[..|Lines(t)|]
    ensures forall max :: AllFit(Lines(t), max) <==> AllFit(Split(t), max)
  {}

  /**
   Following every notice shows the file byte for byte exactly when no line is longer than
   the byte cap: the end of a longer line is out of every page's reach.
   */
  lemma {:induction false} PagesShowItAll(s: seq<byte>, opt: Options, offset: nat, pages: seq<Truncation>)
    requires Pages(s, opt, offset, pages) && !opt.keepTail && 1 <= offset <= |Split(s)|
    ensures |Join(Texts(pages))| <= |From(s, offset)|
    ensures Join(Texts(pages)) == From(s, offset) <==> AllFit(Split(s)[offset - 1..], ByteCap(opt))
    decreases |pages|
  {
    hide Split, Join, From, Lines, Texts, AllFit, Describes;
    var t, r := From(s, offset), pages[0];
    FromHasTheRest(s, offset);
    if !r.truncated {
      WholePage(t, opt, pages);
    } else {
      PageIsWholeOrCut(t, opt, r);
      LinesStartSplit(t);
      if offset + r.keptLines <= |Split(s)| {
        PagesShowItAll(s, opt, ResumeAt(r, offset), pages[1..]);
        PageThenRest(s, opt, offset, pages);
      } else {
        LastLineCut(s, opt, offset, pages);
      }
    }
  }

  lemma PageThenRest(s: seq<byte>, opt: Options, offset: nat, pages: seq<Truncation>)
    requires Pages(s, opt, offset, pages) && !opt.keepTail && pages[0].truncated
    requires 1 <= offset && ResumeAt(pages[0], offset) <= |Split(s)|
    requires var next := ResumeAt(pages[0], offset);
             && |Join(Texts(pages[1..]))| <= |From(s, next)|
             && (Join(Texts(pages[1..])) == From(s, next) <==> AllFit(Split(s)[next - 1..], ByteCap(opt)))
    ensures |Join(Texts(pages))| <= |From(s, offset)|
    ensures Join(Texts(pages)) == From(s, offset) <==> AllFit(Split(s)[offset - 1..], ByteCap(opt))
  {
    hide Split, Join, From, Lines, Texts, AllFit, Describes;
    var t, r, lines, max := From(s, offset), pages[0], Split(s)[offset - 1..], ByteCap(opt);
    var k := r.keptLines;
    FromHasTheRest(s, offset);
    LinesStartSplit(t);
    PageIsWholeOrCut(t, opt, r);
    NextText(pages);
    FromNext(s, offset, k);
    FitsInTwo(lines, k, max);
    assert lines[k..] == Split(s)[offset + k - 1..];
    assert Lines(t)[..k] == lines[..k];
    var shown, rest := Join(Texts(pages[1..])), From(s, offset + k);
    if r.text == Join(lines[..k]) && AllFit(lines[..k], max) {
      Cancel(r.text + [NL], shown, rest);
    } else {
      assert lines[..1] == [lines[0]];
      JoinOne(lines[0]);
      TooLong(lines, max);
    }
  }

  lemma JoinOne(line: seq<byte>)
    ensures Join([line]) == line
  {}

  lemma TooLong(lines: seq<seq<byte>>, max: nat)
    requires lines != [] && |lines[0]| > max
    ensures !AllFit(lines, max)
  {}

  lemma Cancel(a: seq<byte>, b: seq<byte>, c: seq<byte>)
    ensures a + b == a + c <==> b == c
  {
    if a + b == a + c {
      assert b == (a + b)[|a|..] && c == (a + c)[|a|..];
    }
  }

  /** The cut line was the last one, and the page after it is empty. */
  lemma LastLineCut(s: seq<byte>, opt: Options, offset: nat, pages: seq<Truncation>)
    requires Pages(s, opt, offset, pages) && !opt.keepTail && pages[0].truncated
    requires 1 <= offset <= |Split(s)| < ResumeAt(pages[0], offset)
    ensures |Join(Texts(pages))| <= |From(s, offset)|
    ensures Join(Texts(pages)) != From(s, offset) && !AllFit(Split(s)[offset - 1..], ByteCap(opt))
  {
    hide Split, Join, Lines, Texts, AllFit, Describes;
    var t, r, lines := From(s, offset), pages[0], Split(s)[offset - 1..];
    FromHasTheRest(s, offset);
    LinesStartSplit(t);
    PageIsWholeOrCut(t, opt, r);
    ShortenedFits(t, opt, r);
    NothingShortened(t, opt, r);
    assert r.keptLines == |lines|;
    assert lines[..|lines|] == lines && Lines(t) == lines;
    assert lines == [lines[0]];
    JoinOne(lines[0]);
    TooLong(lines, ByteCap(opt));
    SplitHasNoNewline(s);
    assert NoNewline(lines[0]);
    EmptyPage(opt, pages[1..]);
    assert From(s, ResumeAt(r, offset)) == [];
    NextText(pages);
    assert (r.text + [NL] + [])[|r.text|] == NL;
  }

  lemma NothingShortened(t: seq<byte>, opt: Options, r: Truncation)
    requires Describes(t, opt, r) && r.truncated
    ensures !WithinCaps(t, opt)
  {}

  /** A page of nothing shows nothing. */
  lemma EmptyPage(opt: Options, pages: seq<Truncation>)
    requires pages != [] && Describes([], opt, pages[0])
    requires pages[0].truncated || |pages| == 1
    ensures Join(Texts(pages)) == []
  {
    assert Lines([]) == [];
    assert |pages| == 1 && pages[0].text == [];
    WholePage([], opt, pages);
  }

  lemma WholePage(t: seq<byte>, opt: Options, pages: seq<Truncation>)
    requires |pages| == 1 && Describes(t, opt, pages[0]) && !pages[0].truncated
    ensures Join(Texts(pages)) == t && AllFit(Split(t), ByteCap(opt))
  {
    assert Texts(pages[1..]) == [];
    assert Texts(pages) == [t];
    LinesStartSplit(t);
    SizeOfLines(t);
    forall i | 0 <= i < |Lines(t)| ensures |Lines(t)[i]| <= ByteCap(opt) {
      LineIsShort(t, i);
    }
  }

  lemma LineIsShort(t: seq<byte>, i: nat)
    requires i < |Lines(t)|
    ensures |Lines(t)[i]| <= |t|
  {
    hide Lines;
    SizeOfLines(t);
    var lines := Lines(t);
    assert lines == lines[..i] + [lines[i]] + lines[i + 1..];
    SizeConcat(lines[..i] + [lines[i]], lines[i + 1..]);
    SizeConcat(lines[..i], [lines[i]]);
    SizeOfOne(lines[i]);
  }

  lemma NextText(pages: seq<Truncation>)
    requires |pages| > 1
    ensures Join(Texts(pages)) == pages[0].text + [NL] + Join(Texts(pages[1..]))
  {
    JoinConcat([pages[0].text], Texts(pages[1..]));
  }

  lemma FitsInTwo(lines: seq<seq<byte>>, k: nat, max: nat)
    requires k <= |lines|
    ensures AllFit(lines, max) <==> AllFit(lines[..k], max) && AllFit(lines[k..], max)
  {
    if AllFit(lines[..k], max) && AllFit(lines[k..], max) {
      forall i | 0 <= i < |lines| ensures |lines[i]| <= max {
        assert lines[i] == if i < k then lines[..k][i] else lines[k..][i - k];
      }
    }
  }

  // ----- an instance ----------------------------------------------------------

  const AB: seq<byte> := [97, 98]

  const ONE_BYTE := Options(10, 1, false)

  const CUT_PAGE := Truncation([97], true, 1, 1, 2, 1, false)

  const BLANK_PAGE := Truncation([], false, 0, 0, 0, 0, false)

  lemma OneLine()
    ensures Split(AB) == [AB] && Lines(AB) == [AB] && Split([]) == [[]] && Lines([]) == []
  {
    var none: seq<byte> := [];
    SplitExtend(none, AB);
    assert none + AB == AB;
  }

  /** A line of two bytes under a cap of one: the second byte is on no page. */
  lemma EndOfALongLineIsLost()
    ensures Pages(AB, ONE_BYTE, 1, [CUT_PAGE, BLANK_PAGE])
    ensures From(AB, 1) == AB && Join(Texts([CUT_PAGE, BLANK_PAGE])) == [97, 10]
  {
    OneLine();
    assert From(AB, 1) == AB by {
      assert [AB][0..] == [AB];
    }
    CutInTwo();
    assert Describes([], ONE_BYTE, BLANK_PAGE);
    assert From(AB, 2) == [];
    var pages := [CUT_PAGE, BLANK_PAGE];
    assert pages[1..] == [BLANK_PAGE] && [BLANK_PAGE][1..] == [];
    assert Pages(AB, ONE_BYTE, 2, [BLANK_PAGE]);
    NextText(pages);
    WholePage([], ONE_BYTE, [BLANK_PAGE]);
    assert [97] + [NL] + [] == [97, NL];
  }

  lemma CutInTwo()
    ensures Describes(AB, ONE_BYTE, CUT_PAGE)
  {
    OneLine();
    SizeOfOne(AB);
    assert Edge([AB], 1, false) == [AB] && Edge([AB], 0, false) == [];
    assert AB[..1] == [97] && [97][1..] == [];
    assert Valid([97]);
    assert LongestPrefix(AB, 1, [97]);
    assert ShortenedTo([AB], ONE_BYTE, 0, CUT_PAGE);
  }

  // ----- the program --------------------------------------------------------

  method CutHead(s: seq<byte>, max: nat) returns (b: seq<byte>)
    ensures IsCut(s, max, false, b)
  {
    hide Valid;
    EmptyIsValid();
    if |s| <= max {
      return s;
    }
    b := s[..max];
    while |b| > 0 && !Valid(b)
      invariant |b| <= max && b == s[..|b|]
      invariant forall n :: |b| < n <= max ==> !Valid(s[..n])
    {
      b := b[..|b| - 1];
    }
  }

  method CutTail(s: seq<byte>, max: nat) returns (b: seq<byte>)
    ensures IsCut(s, max, true, b)
  {
    hide Valid;
    EmptyIsValid();
    if |s| <= max {
      return s;
    }
    b := s[|s| - max..];
    while |b| > 0 && !Valid(b)
      invariant |b| <= max && b == Last(s, |b|)
      invariant forall n :: |b| < n <= max ==> !Valid(Last(s, n))
    {
      b := b[1..];
    }
  }

  /** Takes whole lines from the edge until the next would cross the byte cap. */
  method TakeLines(lines: seq<seq<byte>>, maxBytes: nat, tail: bool) returns (count: nat)
    ensures count <= |lines| && Size(Edge(lines, count, tail)) <= maxBytes
    ensures count < |lines| ==> Size(Edge(lines, count + 1, tail)) > maxBytes
  {
    var size := 0;
    count := 0;
    while count < |lines|
      invariant count <= |lines| && size == Size(Edge(lines, count, tail)) <= maxBytes
    {
      var idx := if tail then |lines| - 1 - count else count;
      var lineSize := |lines[idx]| + 1;
      OneMoreLine(lines, count, tail);
      if size + lineSize > maxBytes {
        break;
      }
      size := size + lineSize;
      count := count + 1;
    }
  }

  lemma OneMoreLine(lines: seq<seq<byte>>, n: nat, tail: bool)
    requires n < |lines|
    ensures Size(Edge(lines, n + 1, tail))
         == Size(Edge(lines, n, tail)) + |lines[if tail then |lines| - 1 - n else n]| + 1
  {
    var a, b := Edge(lines, n, tail), Edge(lines, n + 1, tail);
    if tail {
      assert b[1..] == a;
    } else {
      assert b == a + [lines[n]];
      SizeConcat(a, [lines[n]]);
      SizeOfOne(lines[n]);
    }
  }

  method Truncate(s: seq<byte>, opt: Options) returns (res: Truncation)
    ensures Describes(s, opt, res)
  {
    hide Valid, Size, Lines, Split, Join, IsCut;
    var maxLines, maxBytes, tail := LineCap(opt), ByteCap(opt), opt.keepTail;
    var lines := Lines(s);
    res := Truncation(s, false, |lines|, 0, |s|, 0, tail);
    if |lines| <= maxLines && |s| <= maxBytes {
      return res.(keptLines := |lines|, keptBytes := |s|);
    }
    var kept := lines;
    if |kept| > maxLines {
      kept := Edge(kept, maxLines, tail);
    }
    var count := TakeLines(kept, maxBytes, tail);
    TakenIsMost(lines, opt, kept, count);
    if count == 0 {
      SizeOfLines(s);
      var edge;
      if tail {
        edge := CutTail(kept[|kept| - 1], maxBytes);
      } else {
        edge := CutHead(kept[0], maxBytes);
      }
      res := res.(text := edge, truncated := true, keptLines := 1, keptBytes := |edge|);
      assert IsCut(Edge(lines, 1, tail)[0], maxBytes, tail, res.text);
    } else {
      EdgeGrows(lines, count, |kept|, tail);
      kept := Edge(kept, count, tail);
      res := res.(text := Join(kept), truncated := true, keptLines := |kept|, keptBytes := |Join(kept)|);
    }
    assert ShortenedTo(lines, opt, count, res);
  }

  lemma TakenIsMost(lines: seq<seq<byte>>, opt: Options, kept: seq<seq<byte>>, count: nat)
    requires kept == (if |lines| > LineCap(opt) then Edge(lines, LineCap(opt), opt.keepTail) else lines)
    requires count <= |kept| && Size(Edge(kept, count, opt.keepTail)) <= ByteCap(opt)
    requires count < |kept| ==> Size(Edge(kept, count + 1, opt.keepTail)) > ByteCap(opt)
    ensures MostLines(lines, opt, count)
    ensures kept == Edge(lines, |kept|, opt.keepTail)
  {
    EdgeGrows(lines, count, |kept|, opt.keepTail);
    if count < |kept| {
      EdgeGrows(lines, count + 1, |kept|, opt.keepTail);
    }
  }
}
