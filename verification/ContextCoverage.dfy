/** Which added lines of a parsed patch the context of the new file shows, and where. */
module ContextCoverage {
  import opened Schemas
  import opened DiffText
  import opened FileText
  import opened GitlabDiff
  import opened Patches
  import opened DiffParse
  import opened ContextWindow
  import opened ContextText
  import L = LineMapping

  // ---------------------------------------------------------------- added lines

  /** An added line of the file is an added edit of the patch. */
  lemma AddedEdit(head: PatchHunk -> string, hs: seq<PatchHunk>, fc: FileChange, i: nat, ln: DiffLine) returns (j: nat)
    requires PatchFeedFree(hs) && ConvertedFile(PatchedFile(fc.path, UnidiffOf(head, hs)), fc)
    requires i < |fc.hunks| && ln in fc.hunks[i].lines && ln.kind.Add?
    ensures i < |hs| && j < |hs[i].body| && hs[i].body[j].Line? && hs[i].body[j].edit.kind.Add?
    ensures fc.hunks[i].lines[j..] != [] && fc.hunks[i].lines[j] == ln && ln.newLine == Some(NewNumber(hs[i], j))
  {
    FileLength(head, hs, fc);
    FileHunk(head, hs, fc, i);
    j :| 0 <= j < |fc.hunks[i].lines| && fc.hunks[i].lines[j] == ln;
    hide ConvertedFile, UnidiffOf, HeaderPosition, NewNumber, OldNumber, LineAt, UnidiffOfLine;
    UnifiedHunkLine(head, hs, fc, i, j);
    UnifiedLine(hs[i], j, HeaderPosition(UnidiffOf(head, hs), i) + 1 + j);
  }

  lemma NumberWithinHunk(h: PatchHunk, j: nat)
    requires j < |h.body| && h.body[j].Line? && !h.body[j].edit.kind.Del?
    ensures h.newStart <= NewNumber(h, j) <= h.newStart + |NewSide(Edits(h.body))| - 1
  {
    EditAt(h.body, j);
    SideAt(Edits(h.body), |Edits(h.body[..j])|);
    hide Edits;
  }

  /** With the true counts of `parse_unified_diff`, every added line of a patch, carriage
      returns and markers included, is a line of the new file near its own hunk. */
  lemma AddedLinesNear(head: PatchHunk -> string, o: seq<string>, n: seq<string>, hs: seq<PatchHunk>, fc: FileChange,
                       contextLines: nat, ln: DiffLine)
    requires PatchFeedFree(hs) && Turns(o, n, hs, 0, 0)
    requires ConvertedFile(PatchedFile(fc.path, UnidiffOf(head, hs)), fc)
    requires ln in AddedLines(fc)
    ensures ln.newLine.Some? && 1 <= ln.newLine.value <= |n| && n[ln.newLine.value - 1] == ln.content
    ensures Near(fc.hunks, contextLines, ln.newLine.value)
  {
    var i :| 0 <= i < |fc.hunks| && ln in fc.hunks[i].lines;
    hide ConvertedFile, UnidiffOf, Turns, NewNumber, Edits, NewSide, OldSide, HeaderPosition, Near, PatchFeedFree,
      AddedLines,
      TrueLine;
    var j := AddedEdit(head, hs, fc, i, ln);
    UnifiedLinesTrue(head, o, n, hs, fc, i, j);
    TrueAdded(o, n, ln);
    NumberWithinHunk(hs[i], j);
    FileHunk(head, hs, fc, i);
    NearHunk(fc.hunks, contextLines, i, ln.newLine.value);
  }

  lemma TrueAdded(o: seq<string>, n: seq<string>, ln: DiffLine)
    requires TrueLine(o, n, ln) && ln.kind.Add?
    ensures ln.newLine.Some? && 1 <= ln.newLine.value <= |n| && n[ln.newLine.value - 1] == ln.content
  {
  }

  lemma NearHunk(hunks: seq<Hunk>, contextLines: nat, i: nat, x: int)
    requires i < |hunks|
    requires hunks[i].newStart - contextLines <= x <= hunks[i].newStart + hunks[i].newCount + contextLines - 1
    ensures Near(hunks, contextLines, x)
  {
  }

  /** The j-th body line of the i-th hunk adds line `x` of the new file. */
  predicate AddsLine(hs: seq<PatchHunk>, i: int, j: int, x: int) {
    && 0 <= i < |hs| && 0 <= j < |hs[i].body|
    && hs[i].body[j].Line? && hs[i].body[j].edit.kind.Add? && NewNumber(hs[i], j) == x
  }

  /** The numbers against which reports and replies are checked are exactly those of the
      lines of the new file that the patch adds. */
  lemma AddedNumbersExactly(head: PatchHunk -> string, o: seq<string>, n: seq<string>, hs: seq<PatchHunk>, fc: FileChange)
    requires PatchFeedFree(hs) && Turns(o, n, hs, 0, 0)
    requires ConvertedFile(PatchedFile(fc.path, UnidiffOf(head, hs)), fc)
    ensures forall x :: x in L.AddedNumbers(fc) <==> exists i, j :: AddsLine(hs, i, j, x)
    ensures forall x :: x in L.AddedNumbers(fc) ==> 1 <= x <= |n|
  {
    hide ConvertedFile, UnidiffOf, Turns, PatchFeedFree, NewNumber, L.AddedNumbers, AddedLines;
    forall x | x in L.AddedNumbers(fc) ensures 1 <= x <= |n| && exists i, j :: AddsLine(hs, i, j, x) {
      var ln :| ln in AddedLines(fc) && ln.newLine == Some(x);
      var i :| 0 <= i < |fc.hunks| && ln in fc.hunks[i].lines;
      var j := AddedEdit(head, hs, fc, i, ln);
      assert AddsLine(hs, i, j, x);
      AddedLinesNear(head, o, n, hs, fc, 0, ln);
    }
    forall i, j, x | AddsLine(hs, i, j, x) ensures x in L.AddedNumbers(fc) {
      AddedIsListed(head, hs, fc, i, j);
    }
  }

  lemma AddedIsListed(head: PatchHunk -> string, hs: seq<PatchHunk>, fc: FileChange, i: nat, j: nat)
    requires PatchFeedFree(hs) && ConvertedFile(PatchedFile(fc.path, UnidiffOf(head, hs)), fc)
    requires i < |hs| && j < |hs[i].body| && hs[i].body[j].Line? && hs[i].body[j].edit.kind.Add?
    ensures NewNumber(hs[i], j) in L.AddedNumbers(fc)
  {
    hide ConvertedFile, UnidiffOf, HeaderPosition, NewNumber, OldNumber, LineAt, UnidiffOfLine, L.AddedNumbers,
      AddedLines;
    UnifiedHunkLine(head, hs, fc, i, j);
    UnifiedLine(hs[i], j, HeaderPosition(UnidiffOf(head, hs), i) + 1 + j);
    var ln := fc.hunks[i].lines[j];
    assert ln in fc.hunks[i].lines;
    assert ln in AddedLines(fc) && ln.newLine == Some(NewNumber(hs[i], j));
  }

  // ---------------------------------------------------------------- what the reader sees

  /** The context shows the row with number `x`, with the text `t`. */
  ghost predicate ShowsAs(parts: seq<Part>, x: int, t: string) {
    exists p :: 0 <= p < |parts| && parts[p] == Row(x, t)
  }

  lemma ShownText(hunks: seq<Hunk>, contextLines: int, lines: seq<string>, x: int)
    requires Shown(ContextParts(hunks, contextLines, lines), x)
    ensures 1 <= x <= |lines| && ShowsAs(ContextParts(hunks, contextLines, lines), x, lines[x - 1])
    ensures forall t :: ShowsAs(ContextParts(hunks, contextLines, lines), x, t) ==> t == lines[x - 1]
  {
    ContextExactly(hunks, contextLines, lines);
    var parts := ContextParts(hunks, contextLines, lines);
    hide ContextParts, Near;
    var p :| 0 <= p < |parts| && parts[p].Row? && parts[p].n == x;
    assert parts[p] == Row(x, lines[x - 1]);
  }

  /** Every added line's number is shown. The row with that number is the line itself if
      and only if no line of the file up to it holds another line break, a carriage
      return at the end of an earlier line excepted. */
  lemma AddedLinesShown(head: PatchHunk -> string, o: seq<string>, n: seq<string>, hs: seq<PatchHunk>, fc: FileChange,
                        contextLines: nat, ln: DiffLine, text: string)
    requires PatchFeedFree(hs) && Turns(o, n, hs, 0, 0) && FeedFree(n) && IsFile(text, n)
    requires ConvertedFile(PatchedFile(fc.path, UnidiffOf(head, hs)), fc)
    requires ln in AddedLines(fc)
    ensures ln.newLine.Some? && 1 <= ln.newLine.value <= |n|
    ensures var x, parts := ln.newLine.value, ContextParts(fc.hunks, contextLines, SplitLines(text));
      && Shown(parts, x)
      && (RowOf(n, x) == x && ShowsAs(parts, x, ln.content)
          <==> (forall k :: 0 <= k < x - 1 ==> OnePiece(n[k])) && BreakFree(n[x - 1]))
  {
    hide ConvertedFile, UnidiffOf, Turns, IsFile, SplitLines, Near, PatchFeedFree, AddedLines, RowOf, OnePiece,
      FirstBreak;
    AddedLinesNear(head, o, n, hs, fc, contextLines, ln);
    var x, lines := ln.newLine.value, SplitLines(text);
    RowOfLine(text, n, x);
    ContextExactly(fc.hunks, contextLines, lines);
    ShownText(fc.hunks, contextLines, lines, x);
    hide ContextParts, Shown, ShowsAs;
    FirstPart(n[x - 1]);
  }

  lemma FirstPart(s: string)
    ensures s[..FirstBreak(s)] == s <==> BreakFree(s)
  {
    assert s[..|s|] == s;
    assert FirstBreak(s) < |s| ==> s[FirstBreak(s)] in s;
  }

  /** With no other line breaks in the file, every added line is shown as it is. */
  lemma AddedLinesShownAsTheyAre(head: PatchHunk -> string, o: seq<string>, n: seq<string>, hs: seq<PatchHunk>,
                                 fc: FileChange, contextLines: nat, ln: DiffLine, text: string)
    requires PatchFeedFree(hs) && Turns(o, n, hs, 0, 0) && IsFile(text, n)
    requires forall k :: 0 <= k < |n| ==> BreakFree(n[k])
    requires ConvertedFile(PatchedFile(fc.path, UnidiffOf(head, hs)), fc)
    requires ln in AddedLines(fc)
    ensures ln.newLine.Some?
    ensures ShowsAs(ContextParts(fc.hunks, contextLines, SplitLines(text)), ln.newLine.value, ln.content)
  {
    hide ConvertedFile, UnidiffOf, Turns, IsFile, SplitLines, ContextParts, Near, Shown, ShowsAs, AddedLines, RowOf;
    forall k | 0 <= k < |n| ensures '\n' !in n[k] && OnePiece(n[k]) {
      FreeIsOnePiece(n[k]);
    }
    AddedLinesShown(head, o, n, hs, fc, contextLines, ln, text);
  }

  lemma FreeIsOnePiece(s: string)
    requires BreakFree(s)
    ensures '\n' !in s && OnePiece(s)
  {
    assert forall c :: c in Chomp(s) ==> c in s;
  }

  // ---------------------------------------------------------------- a form feed

  const FEED_OLD := ["a\U{0C}b"]
  const FEED_NEW := ["a\U{0C}b", "x"]
  const FEED_PATCH := [PatchHunk(1, Some(1), 1, Some(2), "", [Line(Edit(Ctx, "a\U{0C}b")), Line(Edit(Add, "x"))])]

  lemma FeedRows()
    ensures SplitLines(Unlines(FEED_NEW)) == ["a", "b", "x"]
  {
    assert FEED_NEW[1..] == ["x"] && FEED_NEW[1..][1..] == [];
    var rest := Unlines(["x"]);
    assert rest == "x" + "\n" + "";
    FreeLine("x", "");
    FreeLine("b", rest);
    NoText();
    var line := "a\U{0C}b";
    assert line[..1] == "a" && BreakFree("a");
    FirstBreakIs(line, 1);
    assert line[2..] == "b";
    BreakInside(line, rest, 1);
    assert Unlines(FEED_NEW) == line + "\n" + rest;
    assert ["a"] + (["b"] + ["x"]) == ["a", "b", "x"];
  }

  lemma FeedTurns()
    ensures Turns(FEED_OLD, FEED_NEW, FEED_PATCH, 0, 0)
  {
    var line := "a\U{0C}b";
    var body := FEED_PATCH[0].body;
    assert body[1..] == [Line(Edit(Add, "x"))] && body[1..][1..] == [];
    var edits := Edits(body);
    assert edits == [Edit(Ctx, line), Edit(Add, "x")];
    assert edits[1..] == [Edit(Add, "x")] && edits[1..][1..] == [];
    assert OldSide(edits[1..]) == [] && NewSide(edits[1..]) == ["x"];
    assert OldSide(edits) == [line] && NewSide(edits) == [line, "x"];
    hide Edits, OldSide, NewSide;
    OneHunkTurns(FEED_OLD, FEED_NEW, FEED_PATCH[0]);
  }

  lemma FeedNumber()
    ensures NewNumber(FEED_PATCH[0], 1) == 2
  {
    var line := "a\U{0C}b";
    var front := FEED_PATCH[0].body[..1];
    assert front == [Line(Edit(Ctx, line))] && front[1..] == [];
    assert Edits(front) == [Edit(Ctx, line)] && Edits(front)[1..] == [];
    assert NewSide(Edits(front)) == [line];
  }

  /** A form feed in line 1 of a file: its added line 2 reads "x", and the context shows
      row 2 with the text "b". */
  lemma FormFeedMisplaces(head: PatchHunk -> string, fc: FileChange, contextLines: nat)
    requires ConvertedFile(PatchedFile(fc.path, UnidiffOf(head, FEED_PATCH)), fc)
    ensures |fc.hunks| == 1 && |fc.hunks[0].lines| == 2
    ensures var ln, parts := fc.hunks[0].lines[1], ContextParts(fc.hunks, contextLines, SplitLines(Unlines(FEED_NEW)));
      && ln in AddedLines(fc) && ln.newLine == Some(2) && ln.content == "x"
      && ShowsAs(parts, 2, "b") && !ShowsAs(parts, 2, "x")
  {
    FeedTurns();
    FeedNumber();
    FeedRows();
    FeedsFree();
    hide SplitLines, Unlines, Turns, ConvertedFile, UnidiffOf, NewNumber, HeaderPosition, LineAt, UnidiffOfLine,
      PatchFeedFree;
    UnifiedHunkLine(head, FEED_PATCH, fc, 0, 1);
    FileLength(head, FEED_PATCH, fc);
    UnifiedLine(FEED_PATCH[0], 1, HeaderPosition(UnidiffOf(head, FEED_PATCH), 0) + 1 + 1);
    var ln := fc.hunks[0].lines[1];
    assert ln in fc.hunks[0].lines;
    assert ln in AddedLines(fc);
    hide AddedLines;
    AddedLinesShown(head, FEED_OLD, FEED_NEW, FEED_PATCH, fc, contextLines, ln, Unlines(FEED_NEW));
    ShownText(fc.hunks, contextLines, SplitLines(Unlines(FEED_NEW)), 2);
  }

  lemma FeedsFree()
    ensures PatchFeedFree(FEED_PATCH) && FeedFree(FEED_NEW) && '\n' !in "x"
  {
  }

  // ---------------------------------------------------------------- zero counts

  function NewCount(h: PatchHunk): nat {
    |NewSide(Edits(h.body))|
  }

  /** New lines before the hunk's. */
  function NewBefore(h: PatchHunk): int {
    Patches.Before(h.newStart, NewCount(h))
  }

  lemma {:induction false} HunkAfter(o: seq<string>, n: seq<string>, hs: seq<PatchHunk>, oi: nat, ni: nat, j: nat)
    requires oi <= |o| && ni <= |n| && Turns(o, n, hs, oi, ni) && j < |hs|
    ensures ni <= NewBefore(hs[j])
    decreases j
  {
    hide Edits, NewSide, OldSide;
    if j > 0 {
      var olds := OldSide(Edits(hs[0].body));
      HunkAfter(o, n, hs[1..], Patches.Before(hs[0].oldStart, |olds|) + |olds|, NewBefore(hs[0]) + NewCount(hs[0]), j - 1);
    }
  }

  /** A patch's hunks follow one another on the new side. */
  lemma {:induction false} HunksFollow(o: seq<string>, n: seq<string>, hs: seq<PatchHunk>, oi: nat, ni: nat, i: nat, j: nat)
    requires oi <= |o| && ni <= |n| && Turns(o, n, hs, oi, ni) && i < j < |hs|
    ensures NewBefore(hs[i]) + NewCount(hs[i]) <= NewBefore(hs[j])
    decreases i
  {
    hide Edits, NewSide, OldSide;
    var olds := OldSide(Edits(hs[0].body));
    var oi', ni' := Patches.Before(hs[0].oldStart, |olds|) + |olds|, NewBefore(hs[0]) + NewCount(hs[0]);
    if i == 0 {
      HunkAfter(o, n, hs[1..], oi', ni', j - 1);
    } else {
      HunksFollow(o, n, hs[1..], oi', ni', i - 1, j - 1);
    }
  }

  /** Of the windows of hunks with zero counts, only those of the line's own hunk and
      of the next one can hold the line. */
  lemma OwnOrNext(o: seq<string>, n: seq<string>, hs: seq<PatchHunk>, contextLines: nat, i: nat, j: nat, x: int)
    requires Turns(o, n, hs, 0, 0) && i < |hs| && j < |hs|
    requires hs[i].newStart <= x <= hs[i].newStart + NewCount(hs[i]) - 1
    requires hs[j].newStart - contextLines <= x <= hs[j].newStart + contextLines - 1
    ensures x < hs[i].newStart + contextLines
            || (i + 1 < |hs| && hs[i + 1].newStart - contextLines <= x < hs[i + 1].newStart + contextLines)
  {
    hide Turns, NewCount;
    if j < i {
      HunksFollow(o, n, hs, 0, 0, j, i);
    } else if i < j {
      HunksFollow(o, n, hs, 0, 0, i, i + 1);
      if i + 1 < j {
        HunksFollow(o, n, hs, 0, 0, i + 1, j);
      }
    }
  }

  /** The lines of a numbered hunk, and its header. */
  lemma NumberedWithin(h: PatchHunk, pos: nat, ln: DiffLine)
    ensures var hunk := NumberedHunk(h, Edits(h.body), pos);
      && hunk.newStart == h.newStart && hunk.newCount == 0
      && (ln in hunk.lines && ln.kind.Add? ==>
            ln.newLine.Some? && h.newStart <= ln.newLine.value <= h.newStart + NewCount(h) - 1)
  {
    hide Header;
    var hunk := NumberedHunk(h, Edits(h.body), pos);
    if ln in hunk.lines && ln.kind.Add? {
      var j :| 0 <= j < |hunk.lines| && hunk.lines[j] == ln;
      SideAt(Edits(h.body), j);
    }
  }

  /** The line lies in the window of its own hunk, or of the next one. */
  predicate InZeroWindow(hs: seq<PatchHunk>, contextLines: nat, i: nat, x: int)
    requires i < |hs|
  {
    || x < hs[i].newStart + contextLines
    || (i + 1 < |hs| && hs[i + 1].newStart - contextLines <= x < hs[i + 1].newStart + contextLines)
  }

  lemma ZeroWindows(o: seq<string>, n: seq<string>, hs: seq<PatchHunk>, contextLines: nat, i: nat, ln: DiffLine)
    requires Turns(o, n, hs, 0, 0) && i < |hs|
    ensures |NumberedHunks(hs, 0)| == |hs|
    ensures ln in NumberedHunks(hs, 0)[i].lines && ln.kind.Add? ==>
              ln.newLine.Some?
              && (Near(NumberedHunks(hs, 0), contextLines, ln.newLine.value)
                  <==> InZeroWindow(hs, contextLines, i, ln.newLine.value))
  {
    hide Turns, NumberedHunk, NumberedHunks, NewCount, Edits;
    var out := NumberedHunks(hs, 0);
    forall k | 0 <= k < |hs| ensures |out| == |hs| && out[k].newStart == hs[k].newStart && out[k].newCount == 0 {
      var pos := NumberedHunkAt(hs, 0, k);
      NumberedWithin(hs[k], pos, ln);
    }
    var pos := NumberedHunkAt(hs, 0, i);
    NumberedWithin(hs[i], pos, ln);
    if ln in out[i].lines && ln.kind.Add? {
      var x := ln.newLine.value;
      if Near(out, contextLines, x) {
        var j :| 0 <= j < |out|
          && out[j].newStart - contextLines <= x <= out[j].newStart + out[j].newCount + contextLines - 1;
        OwnOrNext(o, n, hs, contextLines, i, j, x);
      }
      if x < hs[i].newStart + contextLines {
        NearHunk(out, contextLines, i, x);
      } else if i + 1 < |hs| && hs[i + 1].newStart - contextLines <= x < hs[i + 1].newStart + contextLines {
        NearHunk(out, contextLines, i + 1, x);
      }
    }
  }

  /** The GitLab parser leaves the counts at zero, so the context of the new file shows
      an added line's number exactly when it comes within `contextLines` of the first
      line of its own hunk, or of the first line of the next hunk. */
  lemma GitlabWindowExactly(o: seq<string>, n: seq<string>, hs: seq<PatchHunk>, contextLines: nat, i: nat, ln: DiffLine,
                            text: string)
    requires PatchOnePiece(hs) && MarkerFree(hs) && Turns(o, n, hs, 0, 0) && i < |hs|
    requires FeedFree(n) && IsFile(text, n)
    ensures var r := Parse(SplitLines(PatchText(hs)));
      && r.Ok? && |r.value| == |hs|
      && (ln in r.value[i].lines && ln.kind.Add? ==>
            && ln.newLine.Some?
            && (Shown(ContextParts(r.value, contextLines, SplitLines(text)), ln.newLine.value)
                <==> InZeroWindow(hs, contextLines, i, ln.newLine.value)))
  {
    hide Parse, SplitLines, PatchText, Turns, NumberedHunks, MarkerFree, PatchOnePiece, PatchBreakFree, IsFile, Near,
      Chomp,
      ChompHunk, ContextParts, Shown, TrueLine, Consecutive, RowOf;
    var o', n', hs' := ChompAll(o), ChompAll(n), ChompPatch(hs);
    ReturnsDropped(hs);
    ChompMarkers(hs);
    ChompTurns(o, n, hs, 0, 0);
    RoundTripExactly(hs');
    ZeroWindows(o', n', hs', contextLines, i, ln);
    SameStarts(hs, contextLines, i);
    var r := Parse(SplitLines(PatchText(hs))).value;
    if ln in r[i].lines && ln.kind.Add? {
      FreeLinesTrue(o', n', hs');
      var x := ln.newLine.value;
      TrueAdded(o', n', ln);
      RowOfLine(text, n, x);
      ContextExactly(r, contextLines, SplitLines(text));
    }
  }

  lemma SameStarts(hs: seq<PatchHunk>, contextLines: nat, i: nat)
    requires i < |hs|
    ensures forall x :: InZeroWindow(ChompPatch(hs), contextLines, i, x) == InZeroWindow(hs, contextLines, i, x)
  {
    hide Chomp;
  }

  // ---------------------------------------------------------------- a line that is not shown

  const FOUR := ["a", "b", "c", "d"]
  const FOUR_ADDED := [PatchHunk(0, Some(0), 1, Some(4), "",
    [Line(Edit(Add, "a")), Line(Edit(Add, "b")), Line(Edit(Add, "c")), Line(Edit(Add, "d"))])]

  const FOUR_EDITS := [Edit(Add, "a"), Edit(Add, "b"), Edit(Add, "c"), Edit(Add, "d")]

  lemma FourTurns()
    ensures Turns([], FOUR, FOUR_ADDED, 0, 0)
  {
    AllAdded(FOUR_ADDED[0].body, FOUR_EDITS);
    assert Texts(FOUR_EDITS) == FOUR;
    hide Edits, OldSide, NewSide, Turns;
    OneHunkTurns([], FOUR, FOUR_ADDED[0]);
  }

  lemma FourthNumber()
    ensures NewNumber(FOUR_ADDED[0], 3) == 4
  {
    AllAdded(FOUR_ADDED[0].body[..3], FOUR_EDITS[..3]);
    hide Edits, NewSide, OldSide;
  }

  function Texts(edits: seq<Edit>): (r: seq<string>)
    ensures |r| == |edits|
  {
    seq(|edits|, i requires 0 <= i < |edits| => edits[i].content)
  }

  lemma {:induction false} AllAdded(body: seq<BodyLine>, edits: seq<Edit>)
    requires |body| == |edits| && forall i :: 0 <= i < |body| ==> body[i] == Line(edits[i]) && edits[i].kind == Add
    ensures Edits(body) == edits && NewSide(edits) == Texts(edits) && OldSide(edits) == []
  {
    if body != [] {
      AllAdded(body[1..], edits[1..]);
      assert edits == [edits[0]] + edits[1..];
      assert Texts(edits) == [edits[0].content] + Texts(edits[1..]);
    }
  }

  lemma FourPlain()
    ensures PatchOnePiece(FOUR_ADDED) && MarkerFree(FOUR_ADDED) && FeedFree(FOUR)
    ensures Chomp("d") == "d" && Markers(FOUR_ADDED[0].body[..3]) == 0
  {
    assert Chomp("d") == "d" && BodyMarkerFree(FOUR_ADDED[0].body[..3]);
    NoMarkers(FOUR_ADDED[0].body[..3]);
    hide Markers;
    assert Chomp("") == "" && Chomp("a") == "a" && Chomp("b") == "b" && Chomp("c") == "c" && Chomp("d") == "d";
  }

  /** Four lines added to an empty file, with the default of three context lines: the
      context of the file does not show the fourth. */
  lemma FourthLineMissing()
    ensures var r := Parse(SplitLines(PatchText(FOUR_ADDED)));
      && r.Ok? && |r.value| == 1 && |r.value[0].lines| == 4
      && r.value[0].lines[3].kind == Add && r.value[0].lines[3].content == "d" && r.value[0].lines[3].newLine == Some(4)
      && !Shown(ContextParts(r.value, 3, SplitLines(Unlines(FOUR))), 4)
  {
    FourTurns();
    FourthNumber();
    FourPlain();
    hide FeedFree, Near, BreakFree, Parse, SplitLines, PatchText, Turns, ContextParts, Shown, Unlines, NewNumber,
      OldNumber,
      Markers, PatchOnePiece,
      MarkerFree, Chomp;
    MarkersShiftExactly([], FOUR, FOUR_ADDED, 0, 3);
    var ln := Parse(SplitLines(PatchText(FOUR_ADDED))).value[0].lines[3];
    GitlabWindowExactly([], FOUR, FOUR_ADDED, 3, 0, ln, Unlines(FOUR));
  }

  lemma NoMarkers(body: seq<BodyLine>)
    requires BodyMarkerFree(body)
    ensures Markers(body) == 0
  {
    SomeMarkers(body);
  }
}
