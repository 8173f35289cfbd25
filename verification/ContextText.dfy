/** The context text of a changed file: the lines around its hunks with their numbers
    (aegis/pipeline/context.py). */
module ContextText {
  import opened Numbers
  import opened Schemas
  import opened Text
  import opened Sorting
  import opened DiffText
  import opened ContextWindow

  datatype Part = Head(lo: int, hi: int) | Row(n: int, text: string)

  function Render(path: string, p: Part): string {
    match p
    case Head(lo, hi) => "@@ context " + path + ":" + Decimal(lo) + "-" + Decimal(hi) + " @@"
    case Row(n, text) => Decimal(n) + ": " + text
  }

  function RenderAll(path: string, parts: seq<Part>): seq<string> {
    seq(|parts|, i requires 0 <= i < |parts| => Render(path, parts[i]))
  }

  /** The window the source asks for around a hunk, cut to the file. */
  function Window(h: Hunk, contextLines: int, length: nat): Interval {
    Interval(Max(1, h.newStart - contextLines), Min(length, h.newStart + h.newCount + contextLines - 1))
  }

  function Windows(hunks: seq<Hunk>, contextLines: int, length: nat): (r: seq<Interval>)
    ensures |r| == |hunks|
  {
    seq(|hunks|, i requires 0 <= i < |hunks| => Window(hunks[i], contextLines, length))
  }

  /** Line `n` lies within `contextLines` of some hunk's new-side range. */
  ghost predicate Near(hunks: seq<Hunk>, contextLines: int, n: int) {
    exists i :: 0 <= i < |hunks|
      && hunks[i].newStart - contextLines <= n <= hunks[i].newStart + hunks[i].newCount + contextLines - 1
  }

  ghost predicate Shown(parts: seq<Part>, n: int) {
    exists p :: 0 <= p < |parts| && parts[p].Row? && parts[p].n == n
  }

  /** The parts of the context of a file with the lines `lines`. */
  function ContextParts(hunks: seq<Hunk>, contextLines: int, lines: seq<string>): seq<Part> {
    WindowsInFile(hunks, contextLines, |lines|);
    MergedInFile(Windows(hunks, contextLines, |lines|), |lines|);
    if lines == [] then [] else WindowParts(Merge(Windows(hunks, contextLines, |lines|)), lines)
  }

  /** The context shows each line near a hunk exactly once, in file order, with its own
      number and text, and no other line, whatever the hunks' ranges. */
  lemma ContextExactly(hunks: seq<Hunk>, contextLines: int, lines: seq<string>)
    ensures var parts := ContextParts(hunks, contextLines, lines);
      && (forall n :: Shown(parts, n) <==> 1 <= n <= |lines| && Near(hunks, contextLines, n))
      && RowsFine(parts, lines)
  {
    hide Shown, Near, Covered, Merge, WindowParts;
    if lines == [] {
      NothingShown();
    } else {
      var ivs := Windows(hunks, contextLines, |lines|);
      WindowsInFile(hunks, contextLines, |lines|);
      MergedInFile(ivs, |lines|);
      MergeProperties(ivs);
      WindowPartsProperties(Merge(ivs), lines);
      forall n ensures Covered(ivs, n) <==> 1 <= n <= |lines| && Near(hunks, contextLines, n) {
        CoveredIsNear(hunks, contextLines, |lines|, n);
      }
    }
  }

  /** `extract_context`. */
  method ExtractContext(path: string, hunks: seq<Hunk>, fileText: string, contextLines: int)
    returns (text: string)
    ensures text == Join('\n', RenderAll(path, ContextParts(hunks, contextLines, SplitLines(fileText))))
    ensures var lines := SplitLines(fileText); var parts := ContextParts(hunks, contextLines, lines);
      && (forall n :: Shown(parts, n) <==> 1 <= n <= |lines| && Near(hunks, contextLines, n))
      && (forall p :: 0 <= p < |parts| && parts[p].Row? ==>
            1 <= parts[p].n <= |lines| && parts[p].text == lines[parts[p].n - 1])
      && (forall p, q :: 0 <= p < q < |parts| && parts[p].Row? && parts[q].Row? ==> parts[p].n < parts[q].n)
    ensures '\n' !in path ==> TextShows(text, path, hunks, contextLines, SplitLines(fileText))
  {
    hide TextShows, Render, RenderAll, Shown, Near, SplitLines, Join, Covered, Merge, Window, WindowParts, Rows,
      Spaced, Separated;
    FileReads(path, hunks, fileText, contextLines);
    var lines := SplitLines(fileText);
    ContextExactly(hunks, contextLines, lines);
    RenderNone(path);
    if lines == [] {
      return "";
    }
    var intervals: seq<Interval> := [];
    for i := 0 to |hunks|
      invariant intervals == Windows(hunks[..i], contextLines, |lines|)
    {
      WindowsSnoc(hunks, i, contextLines, |lines|);
      var start := Max(1, hunks[i].newStart - contextLines);
      var end := Min(|lines|, hunks[i].newStart + hunks[i].newCount + contextLines - 1);
      intervals := intervals + [Interval(start, end)];
    }
    assert hunks[..|hunks|] == hunks;
    hide Windows;
    var merged := MergeIntervals(intervals);
    WindowsInFile(hunks, contextLines, |lines|);
    MergedInFile(intervals, |lines|);
    NoWindows(merged, lines);
    var strings: seq<string> := [];
    ghost var parts: seq<Part> := [];
    for k := 0 to |merged|
      invariant forall iv :: iv in merged ==> InFile(iv, |lines|)
      invariant parts == WindowParts(merged[..k], lines) && strings == RenderAll(path, parts)
    {
      var iv := merged[k];
      assert iv in merged;
      ghost var before := parts;
      RenderSnoc(path, parts, Head(iv.lo, iv.hi));
      strings := strings + [Render(path, Head(iv.lo, iv.hi))];
      parts := parts + [Head(iv.lo, iv.hi)];
      RowsSnoc(iv.lo, 0, lines);
      var n := iv.lo;
      while n <= iv.hi
        invariant iv.lo <= n <= Max(iv.lo, iv.hi + 1)
        invariant parts == before + [Head(iv.lo, iv.hi)] + Rows(iv.lo, n - iv.lo, lines)
        invariant strings == RenderAll(path, parts)
      {
        RowsSnoc(iv.lo, n - iv.lo, lines);
        RenderSnoc(path, parts, Row(n, lines[n - 1]));
        strings := strings + [Render(path, Row(n, lines[n - 1]))];
        parts := parts + [Row(n, lines[n - 1])];
        n := n + 1;
      }
      assert n - iv.lo == Max(0, iv.hi - iv.lo + 1);
      assert parts == before + OneWindow(iv, lines);
      WindowPartsSnoc(merged, k, lines);
    }
    assert merged[..|merged|] == merged;
    text := Join('\n', strings);
  }

  // ---------------------------------------------------------------- what the text says

  /** The number in front of the first colon of a row. */
  function NumberOf(row: string): Option<int> {
    if ':' in row then ParseInt(Split(':', row)[0]) else None
  }

  /** The row is a number, a colon, a space and the text of that line of the file. */
  predicate ReadsLine(row: string, lines: seq<string>) {
    var n := NumberOf(row);
    && n.Some? && 1 <= n.value <= |lines|
    && row == Split(':', row)[0] + ": " + lines[n.value - 1]
  }

  /** The row names the path and a first and a last line. */
  ghost predicate ReadsHead(row: string, path: string, lo: int, hi: int) {
    exists a, b :: ParseInt(a) == Some(lo) && ParseInt(b) == Some(hi)
      && row == "@@ context " + path + ":" + a + "-" + b + " @@"
  }

  ghost predicate ShowsNumber(rows: seq<string>, n: int) {
    exists p :: 0 <= p < |rows| && NumberOf(rows[p]) == Some(n)
  }

  /** Row `p` heads the rows of the lines lo..hi, and no other row without a number comes
      before their end. */
  ghost predicate HeadsLines(rows: seq<string>, path: string, p: int, lo: int, hi: int)
    requires 0 <= p < |rows|
  {
    && ReadsHead(rows[p], path, lo, hi)
    && p + Max(0, hi - lo + 1) < |rows|
    && (forall q :: p < q <= p + Max(0, hi - lo + 1) ==> NumberOf(rows[q]) == Some(lo + q - p - 1))
    && (p + 1 + Max(0, hi - lo + 1) < |rows| ==> NumberOf(rows[p + 1 + Max(0, hi - lo + 1)]).None?)
  }

  /** The rows with numbers are exactly the near lines of the file, each once, in order,
      under its number and with its text; the others name the intervals. */
  ghost predicate TextShows(text: string, path: string, hunks: seq<Hunk>, contextLines: int, lines: seq<string>) {
    var rows := Split('\n', text);
    && (forall n :: ShowsNumber(rows, n) <==> 1 <= n <= |lines| && Near(hunks, contextLines, n))
    && (forall p :: 0 <= p < |rows| && NumberOf(rows[p]).Some? ==> ReadsLine(rows[p], lines))
    && (forall p, q :: 0 <= p < q < |rows| && NumberOf(rows[p]).Some? && NumberOf(rows[q]).Some? ==>
          NumberOf(rows[p]).value < NumberOf(rows[q]).value)
    && (forall p :: 0 <= p < |rows| && NumberOf(rows[p]).None? && text != "" ==>
          exists lo, hi :: HeadsLines(rows, path, p, lo, hi))
  }

  lemma RowText(path: string, n: int, text: string)
    ensures var row := Render(path, Row(n, text));
      NumberOf(row) == Some(n) && row == Split(':', row)[0] + ": " + text
  {
    var d := Decimal(n);
    NoColon(n);
    ParseInteger(n);
    var row := Render(path, Row(n, text));
    hide Decimal, ParseInt;
    assert row == d + [':'] + (" " + text);
    SplitFirst(':', d, " " + text);
    assert row[|d|] == ':';
  }

  lemma HeadText(path: string, lo: int, hi: int)
    ensures var row := Render(path, Head(lo, hi)); NumberOf(row).None? && ReadsHead(row, path, lo, hi)
  {
    ParseInteger(lo);
    ParseInteger(hi);
    var row := Render(path, Head(lo, hi));
    hide Decimal, ParseInt;
    assert row[0] == '@';
    var first := Split(':', row)[0];
    assert first != "" && first[0] == '@';
    NoNumber(first);
  }

  lemma RenderedFree(path: string, p: Part)
    requires '\n' !in path && (p.Row? ==> '\n' !in p.text)
    ensures '\n' !in Render(path, p)
  {
    match p
    case Head(lo, hi) =>
      NoFeed(lo);
      NoFeed(hi);
      hide Decimal;
      assert '\n' !in "@@ context " && '\n' !in " @@";
    case Row(n, text) =>
      NoFeed(n);
      hide Decimal;
  }

  lemma NoFeed(n: int)
    ensures '\n' !in Decimal(n)
  {
    DecimalDigits(if n >= 0 then n else -n);
    if n < 0 {
      var d := Decimal(-n);
      assert Decimal(n) == "-" + d;
      hide Decimal;
      assert forall c :: c in "-" + d ==> c == '-' || c in d;
    }
  }

  /** Each head is followed by the rows of its lines, and then by a head or nothing. */
  ghost predicate HeadsFine(parts: seq<Part>) {
    forall p :: 0 <= p < |parts| && parts[p].Head? ==> HeadFine(parts, p)
  }

  ghost predicate HeadFine(parts: seq<Part>, p: int)
    requires 0 <= p < |parts| && parts[p].Head?
  {
    var n := Max(0, parts[p].hi - parts[p].lo + 1);
    && p + n < |parts|
    && (forall q :: p < q <= p + n ==> parts[q].Row? && parts[q].n == parts[p].lo + q - p - 1)
    && (p + 1 + n < |parts| ==> parts[p + 1 + n].Head?)
  }

  lemma HeadFineLeft(a: seq<Part>, b: seq<Part>, p: int)
    requires 0 <= p < |a| && a[p].Head? && HeadFine(a, p) && (b != [] ==> b[0].Head?)
    ensures (a + b)[p] == a[p] && HeadFine(a + b, p)
  {
    var n := Max(0, a[p].hi - a[p].lo + 1);
    assert (a + b)[..|a|] == a;
    assert p + 1 + n == |a| && b != [] ==> (a + b)[p + 1 + n] == b[0];
  }

  lemma HeadFineRight(a: seq<Part>, b: seq<Part>, p: int)
    requires 0 <= p < |b| && b[p].Head? && HeadFine(b, p)
    ensures (a + b)[|a| + p] == b[p] && HeadFine(a + b, |a| + p)
  {
    var all, n := a + b, Max(0, b[p].hi - b[p].lo + 1);
    forall q | |a| + p < q <= |a| + p + n ensures all[q].Row? && all[q].n == b[p].lo + q - |a| - p - 1 {
      assert all[q] == b[q - |a|];
    }
  }

  lemma HeadsFineConcat(a: seq<Part>, b: seq<Part>)
    requires HeadsFine(a) && HeadsFine(b) && (b != [] ==> b[0].Head?)
    ensures HeadsFine(a + b)
  {
    hide HeadFine;
    var all := a + b;
    forall p | 0 <= p < |all| && all[p].Head? ensures HeadFine(all, p) {
      if p < |a| {
        HeadFineLeft(a, b, p);
      } else {
        HeadFineRight(a, b, p - |a|);
      }
    }
  }

  lemma {:induction false} WindowHeadsFine(ivs: seq<Interval>, lines: seq<string>)
    requires forall iv :: iv in ivs ==> InFile(iv, |lines|)
    ensures HeadsFine(WindowParts(ivs, lines))
  {
    if ivs != [] {
      var k := |ivs| - 1;
      WindowHeadsFine(ivs[..k], lines);
      var b := OneWindow(ivs[k], lines);
      assert HeadFine(b, 0);
      assert HeadsFine(b);
      HeadsFineConcat(WindowParts(ivs[..k], lines), b);
    }
  }

  /** What the rows of a text say, by the parts they render. */
  lemma RenderedRows(path: string, parts: seq<Part>, lines: seq<string>)
    requires '\n' !in path && parts != [] && RowsFine(parts, lines) && forall i :: 0 <= i < |lines| ==> BreakFree(lines[i])
    ensures var rows := Split('\n', Join('\n', RenderAll(path, parts)));
      && |rows| == |parts|
      && forall p :: 0 <= p < |parts| ==> PartReads(path, parts[p], rows[p], lines)
  {
    hide Render, Split, Join;
    var rows := RenderAll(path, parts);
    forall p | 0 <= p < |parts| ensures '\n' !in rows[p] && PartReads(path, parts[p], rows[p], lines) {
      if parts[p].Row? {
        assert BreakFree(lines[parts[p].n - 1]);
        RowText(path, parts[p].n, parts[p].text);
      } else {
        HeadText(path, parts[p].lo, parts[p].hi);
      }
      RenderedFree(path, parts[p]);
    }
    SplitJoin('\n', rows);
  }

  ghost predicate PartReads(path: string, p: Part, row: string, lines: seq<string>) {
    match p
    case Head(lo, hi) => NumberOf(row).None? && ReadsHead(row, path, lo, hi)
    case Row(n, text) => NumberOf(row) == Some(n) && ReadsLine(row, lines)
  }

  lemma PartsShow(path: string, parts: seq<Part>, rows: seq<string>, lines: seq<string>)
    requires |rows| == |parts| && forall p :: 0 <= p < |parts| ==> PartReads(path, parts[p], rows[p], lines)
    requires HeadsFine(parts)
    ensures forall n :: ShowsNumber(rows, n) <==> Shown(parts, n)
    ensures forall p :: 0 <= p < |rows| && NumberOf(rows[p]).None? ==> exists lo, hi :: HeadsLines(rows, path, p, lo, hi)
  {
    hide NumberOf, ReadsHead, ReadsLine;
    forall p | 0 <= p < |rows| && NumberOf(rows[p]).None? ensures exists lo, hi :: HeadsLines(rows, path, p, lo, hi) {
      assert PartReads(path, parts[p], rows[p], lines) && HeadFine(parts, p);
      assert HeadsLines(rows, path, p, parts[p].lo, parts[p].hi);
    }
  }

  /** The rendered context says what its parts say. */
  lemma ContextReads(path: string, hunks: seq<Hunk>, contextLines: int, lines: seq<string>)
    requires '\n' !in path && forall i :: 0 <= i < |lines| ==> BreakFree(lines[i])
    ensures TextShows(Join('\n', RenderAll(path, ContextParts(hunks, contextLines, lines))), path, hunks, contextLines, lines)
  {
    var parts := ContextParts(hunks, contextLines, lines);
    ContextExactly(hunks, contextLines, lines);
    if parts == [] {
      NothingShown();
      RenderNone(path);
      assert Split('\n', "") == [""];
      assert NumberOf("").None?;
    } else {
      WindowsInFile(hunks, contextLines, |lines|);
      MergedInFile(Windows(hunks, contextLines, |lines|), |lines|);
      WindowHeadsFine(Merge(Windows(hunks, contextLines, |lines|)), lines);
      hide ContextParts, HeadsFine, RenderAll, Near, Shown, ReadsLine, NumberOf, Split, Join, HeadsLines, ShowsNumber;
      RenderedRows(path, parts, lines);
      PartsShow(path, parts, Split('\n', Join('\n', RenderAll(path, parts))), lines);
    }
  }

  lemma FileReads(path: string, hunks: seq<Hunk>, fileText: string, contextLines: int)
    ensures var lines := SplitLines(fileText);
      '\n' !in path ==>
        TextShows(Join('\n', RenderAll(path, ContextParts(hunks, contextLines, lines))), path, hunks, contextLines, lines)
  {
    SplitBreakFree(fileText);
    hide SplitLines, RenderAll, ContextParts, TextShows;
    if '\n' !in path {
      ContextReads(path, hunks, contextLines, SplitLines(fileText));
    }
  }

  lemma WindowsSnoc(hunks: seq<Hunk>, i: nat, contextLines: int, length: nat)
    requires i < |hunks|
    ensures Windows(hunks[..i + 1], contextLines, length) ==
            Windows(hunks[..i], contextLines, length)
            + [Interval(Max(1, hunks[i].newStart - contextLines),
                        Min(length, hunks[i].newStart + hunks[i].newCount + contextLines - 1))]
  {
  }

  lemma NoWindows(ivs: seq<Interval>, lines: seq<string>)
    ensures WindowParts(ivs[..0], lines) == []
  {
  }

  lemma RowsSnoc(lo: int, count: nat, lines: seq<string>)
    requires 1 <= lo && (count == 0 || lo + count - 1 <= |lines|)
    ensures Rows(lo, 0, lines) == []
    ensures lo + count <= |lines| ==>
              Rows(lo, count + 1, lines) == Rows(lo, count, lines) + [Row(lo + count, lines[lo + count - 1])]
  {
  }

  lemma RenderNone(path: string)
    ensures RenderAll(path, []) == [] && Join('\n', []) == ""
  {
  }

  lemma RenderSnoc(path: string, parts: seq<Part>, p: Part)
    ensures RenderAll(path, parts + [p]) == RenderAll(path, parts) + [Render(path, p)]
  {
    hide Render;
  }

  lemma NothingShown()
    ensures forall n :: !Shown([], n)
  {
  }

  predicate InFile(iv: Interval, length: nat) {
    1 <= iv.lo && iv.hi <= length
  }

  function Rows(lo: int, count: nat, lines: seq<string>): (r: seq<Part>)
    requires 1 <= lo && (count == 0 || lo + count - 1 <= |lines|)
    ensures |r| == count
  {
    seq(count, k requires 0 <= k < count => Row(lo + k, lines[lo + k - 1]))
  }

  function OneWindow(iv: Interval, lines: seq<string>): seq<Part>
    requires InFile(iv, |lines|)
  {
    [Head(iv.lo, iv.hi)] + Rows(iv.lo, Max(0, iv.hi - iv.lo + 1), lines)
  }

  function WindowParts(ivs: seq<Interval>, lines: seq<string>): seq<Part>
    requires forall iv :: iv in ivs ==> InFile(iv, |lines|)
  {
    if ivs == [] then []
    else WindowParts(ivs[..|ivs| - 1], lines) + OneWindow(ivs[|ivs| - 1], lines)
  }

  lemma WindowPartsSnoc(ivs: seq<Interval>, k: nat, lines: seq<string>)
    requires k < |ivs| && forall iv :: iv in ivs ==> InFile(iv, |lines|)
    ensures WindowParts(ivs[..k + 1], lines) == WindowParts(ivs[..k], lines) + OneWindow(ivs[k], lines)
  {
    assert ivs[..k + 1][..k] == ivs[..k];
  }

  lemma WindowsInFile(hunks: seq<Hunk>, contextLines: int, length: nat)
    ensures forall iv :: iv in Windows(hunks, contextLines, length) ==> InFile(iv, length)
  {
  }

  lemma {:induction false} MergeFromInFile(merged: seq<Interval>, rest: seq<Interval>, length: nat)
    requires merged != [] && (forall iv :: iv in merged ==> InFile(iv, length))
    requires forall iv :: iv in rest ==> InFile(iv, length)
    ensures forall iv :: iv in MergeFrom(merged, rest) ==> InFile(iv, length)
    decreases |rest|
  {
    if rest != [] {
      assert rest[0] in rest && merged[|merged| - 1] in merged;
      forall iv | iv in Absorb(merged, rest[0]) ensures InFile(iv, length) {
        var k :| 0 <= k < |Absorb(merged, rest[0])| && Absorb(merged, rest[0])[k] == iv;
        assert k < |merged| - 1 ==> iv == merged[k];
      }
      MergeFromInFile(Absorb(merged, rest[0]), rest[1..], length);
    }
  }

  lemma MergedInFile(ivs: seq<Interval>, length: nat)
    requires forall iv :: iv in ivs ==> InFile(iv, length)
    ensures forall iv :: iv in Merge(ivs) ==> InFile(iv, length)
  {
    SortedIntervals(ivs);
    hide Covered;
    var ordered := Sort(Before, ivs);
    if ordered != [] {
      forall iv | iv in ordered ensures InFile(iv, length) {
        assert iv in ivs;
      }
      assert forall iv :: iv in ordered[1..] ==> iv in ordered;
      MergeFromInFile([ordered[0]], ordered[1..], length);
    }
  }

  lemma CoveredIsNear(hunks: seq<Hunk>, contextLines: int, length: nat, n: int)
    ensures Covered(Windows(hunks, contextLines, length), n) <==> 1 <= n <= length && Near(hunks, contextLines, n)
  {
    var ivs := Windows(hunks, contextLines, length);
    if Covered(ivs, n) {
      var i :| 0 <= i < |ivs| && Within(ivs[i], n);
      assert Within(Window(hunks[i], contextLines, length), n);
    }
    if 1 <= n <= length && Near(hunks, contextLines, n) {
      var i :| 0 <= i < |hunks|
        && hunks[i].newStart - contextLines <= n <= hunks[i].newStart + hunks[i].newCount + contextLines - 1;
      assert Within(ivs[i], n);
    }
  }

  ghost predicate RowsFine(parts: seq<Part>, lines: seq<string>) {
    && (forall p :: 0 <= p < |parts| && parts[p].Row? ==>
          1 <= parts[p].n <= |lines| && parts[p].text == lines[parts[p].n - 1])
    && (forall p, q :: 0 <= p < q < |parts| && parts[p].Row? && parts[q].Row? ==> parts[p].n < parts[q].n)
  }

  lemma ShownConcat(a: seq<Part>, b: seq<Part>, n: int)
    ensures Shown(a + b, n) <==> Shown(a, n) || Shown(b, n)
  {
    var all := a + b;
    if Shown(a, n) {
      var p :| 0 <= p < |a| && a[p].Row? && a[p].n == n;
      assert all[p] == a[p];
    }
    if Shown(b, n) {
      var p :| 0 <= p < |b| && b[p].Row? && b[p].n == n;
      assert all[|a| + p] == b[p];
    }
    if Shown(all, n) {
      var p :| 0 <= p < |all| && all[p].Row? && all[p].n == n;
      assert p < |a| ==> all[p] == a[p];
      assert p >= |a| ==> all[p] == b[p - |a|];
    }
  }

  lemma OneWindowShown(iv: Interval, lines: seq<string>, n: int)
    requires InFile(iv, |lines|)
    ensures Shown(OneWindow(iv, lines), n) <==> Within(iv, n)
  {
    var parts := OneWindow(iv, lines);
    if Within(iv, n) {
      assert parts[n - iv.lo + 1] == Row(n, lines[n - 1]);
    }
  }

  lemma RowsFineConcat(a: seq<Part>, b: seq<Part>, lines: seq<string>)
    requires RowsFine(a, lines) && RowsFine(b, lines)
    requires forall m, n :: Shown(a, m) && Shown(b, n) ==> m < n
    ensures RowsFine(a + b, lines)
  {
    var all := a + b;
    assert forall p :: 0 <= p < |all| ==> all[p] == if p < |a| then a[p] else b[p - |a|];
    forall p | 0 <= p < |a| && a[p].Row? ensures Shown(a, a[p].n) {
    }
    forall p | 0 <= p < |b| && b[p].Row? ensures Shown(b, b[p].n) {
    }
    hide Shown;
  }

  lemma OneWindowFine(iv: Interval, lines: seq<string>)
    requires InFile(iv, |lines|)
    ensures RowsFine(OneWindow(iv, lines), lines)
  {
  }

  lemma SpacedApart(ivs: seq<Interval>, j: nat)
    requires Spaced(ivs) && j < |ivs|
    ensures forall i :: 0 <= i < j ==> ivs[i].hi < ivs[j].lo
  {
    forall i | 0 <= i < j ensures ivs[i].hi < ivs[j].lo {
      if i + 1 < j {
        assert Before(ivs[i + 1], ivs[j]);
      }
    }
  }

  lemma {:induction false} WindowPartsProperties(ivs: seq<Interval>, lines: seq<string>)
    requires (forall iv :: iv in ivs ==> InFile(iv, |lines|)) && Spaced(ivs)
    ensures RowsFine(WindowParts(ivs, lines), lines)
    ensures forall n :: Shown(WindowParts(ivs, lines), n) <==> Covered(ivs, n)
  {
    if ivs != [] {
      var k := |ivs| - 1;
      var init := ivs[..k];
      WindowPartsProperties(init, lines);
      var a, b := WindowParts(init, lines), OneWindow(ivs[k], lines);
      OneWindowFine(ivs[k], lines);
      SpacedApart(ivs, k);
      forall n ensures Shown(b, n) <==> Within(ivs[k], n) {
        OneWindowShown(ivs[k], lines, n);
      }
      forall n ensures Shown(a + b, n) <==> Shown(a, n) || Shown(b, n) {
        ShownConcat(a, b, n);
      }
      forall n ensures Covered(ivs, n) <==> Covered(init, n) || Within(ivs[k], n) {
        CoveredSnoc(ivs, n);
      }
      forall m, n | Shown(a, m) && Shown(b, n) ensures m < n {
        assert Covered(init, m);
      }
      hide Shown, Covered;
      RowsFineConcat(a, b, lines);
    }
  }
}
