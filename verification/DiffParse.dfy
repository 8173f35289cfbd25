/** `parse_unified_diff` (aegis/providers/diffparse.py) over the hunk structure that
    the unidiff library yields, and its agreement with the GitLab parser. */
module DiffParse {
  import opened Schemas
  import opened DiffText
  import opened FileText
  import opened GitlabDiff
  import opened Patches

  datatype UnidiffLine = UnidiffLine(added: bool, removed: bool, value: string, target: Option<int>, source: Option<int>)

  datatype UnidiffHunk = UnidiffHunk(
    sourceStart: int, sourceLength: int, targetStart: int, targetLength: int, header: string, lines: seq<UnidiffLine>)

  datatype PatchedFile = PatchedFile(path: string, hunks: seq<UnidiffHunk>)

  /** Python's `value.rstrip("\n")`. */
  function DropNewlines(s: string): string {
    if s != "" && s[|s| - 1] == '\n' then DropNewlines(s[..|s| - 1]) else s
  }

  /** What is left does not end in a line feed, and only line feeds were dropped. */
  lemma {:induction false} FeedsDropped(s: string)
    ensures var kept := DropNewlines(s);
      && kept <= s && (kept == "" || kept[|kept| - 1] != '\n')
      && forall c :: c in s[|kept|..] ==> c == '\n'
  {
    if s != "" && s[|s| - 1] == '\n' {
      FeedsDropped(s[..|s| - 1]);
      var kept := DropNewlines(s);
      assert s[|kept|..] == s[..|s| - 1][|kept|..] + ['\n'];
    }
  }

  function LineAt(ln: UnidiffLine, pos: nat): DiffLine {
    DiffLine(if ln.added then Add else if ln.removed then Del else Ctx,
             DropNewlines(ln.value), ln.target, ln.source, Some(pos))
  }

  /** Position of the i-th hunk's header within its file's diff, counted from 1. */
  function HeaderPosition(hunks: seq<UnidiffHunk>, i: nat): nat
    requires i <= |hunks|
  {
    if i == 0 then 1 else HeaderPosition(hunks, i - 1) + |hunks[i - 1].lines| + 1
  }

  predicate Converted(h: UnidiffHunk, headerPos: nat, out: Hunk) {
    && out.oldStart == h.sourceStart && out.oldCount == h.sourceLength
    && out.newStart == h.targetStart && out.newCount == h.targetLength && out.header == h.header
    && |out.lines| == |h.lines|
    && forall j :: 0 <= j < |h.lines| ==> out.lines[j] == LineAt(h.lines[j], headerPos + 1 + j)
  }

  predicate ConvertedFile(pf: PatchedFile, out: FileChange) {
    && out.path == pf.path && |out.hunks| == |pf.hunks|
    && forall i :: 0 <= i < |pf.hunks| ==> Converted(pf.hunks[i], HeaderPosition(pf.hunks, i), out.hunks[i])
  }

  lemma HeaderPositionFacts(hunks: seq<UnidiffHunk>, i: nat)
    requires i <= |hunks|
    ensures i == 0 ==> HeaderPosition(hunks, i) == 1
    ensures i < |hunks| ==> HeaderPosition(hunks, i + 1) == HeaderPosition(hunks, i) + |hunks[i].lines| + 1
  {
  }

  lemma ConvertedIntro(h: UnidiffHunk, headerPos: nat, lines: seq<DiffLine>)
    requires |lines| == |h.lines|
    requires forall k :: 0 <= k < |lines| ==> lines[k] == LineAt(h.lines[k], headerPos + 1 + k)
    ensures Converted(h, headerPos, Hunk(h.sourceStart, h.sourceLength, h.targetStart, h.targetLength, h.header, lines))
  {
  }

  lemma ConvertedFileIntro(pf: PatchedFile, hunks: seq<Hunk>)
    requires |hunks| == |pf.hunks|
    requires forall i :: 0 <= i < |hunks| ==> Converted(pf.hunks[i], HeaderPosition(pf.hunks, i), hunks[i])
    ensures ConvertedFile(pf, FileChange(pf.path, hunks))
  {
    hide Converted;
  }

  /** `parse_unified_diff`: a line's position is its offset within its own file's diff. */
  method ParseUnifiedDiff(patch: seq<PatchedFile>) returns (changes: seq<FileChange>)
    ensures |changes| == |patch|
    ensures forall f :: 0 <= f < |patch| ==> ConvertedFile(patch[f], changes[f])
  {
    hide DropNewlines, Converted, ConvertedFile, HeaderPosition, AddedLines;
    changes := [];
    for f := 0 to |patch|
      invariant |changes| == f
      invariant forall g :: 0 <= g < f ==> ConvertedFile(patch[g], changes[g])
    {
      var pf := patch[f];
      var position := 0;
      HeaderPositionFacts(pf.hunks, 0);
      var hunks: seq<Hunk> := [];
      for i := 0 to |pf.hunks|
        invariant |hunks| == i && position + 1 == HeaderPosition(pf.hunks, i)
        invariant forall k :: 0 <= k < i ==> Converted(pf.hunks[k], HeaderPosition(pf.hunks, k), hunks[k])
      {
        var h := pf.hunks[i];
        position := position + 1;
        ghost var at := position;
        var lines: seq<DiffLine> := [];
        for j := 0 to |h.lines|
          invariant |lines| == j && position == at + j
          invariant forall k :: 0 <= k < j ==> lines[k] == LineAt(h.lines[k], at + 1 + k)
        {
          position := position + 1;
          var ln := h.lines[j];
          var kind := if ln.added then Add else if ln.removed then Del else Ctx;
          lines := lines + [DiffLine(kind, DropNewlines(ln.value), ln.target, ln.source, Some(position))];
        }
        ConvertedIntro(h, at, lines);
        HeaderPositionFacts(pf.hunks, i);
        hunks := hunks + [Hunk(h.sourceStart, h.sourceLength, h.targetStart, h.targetLength, h.header, lines)];
      }
      ConvertedFileIntro(pf, hunks);
      changes := changes + [FileChange(pf.path, hunks)];
    }
  }

  // ---------------------------------------------------------------- printed patches

  /** What unidiff yields for a printed hunk: true counts, every body line with its text
      and its numbers, a marker as a line without numbers, and the header printed anew,
      which `head` stands for. */
  function UnidiffOfHunk(head: PatchHunk -> string, h: PatchHunk): UnidiffHunk {
    UnidiffHunk(h.oldStart, |OldSide(Edits(h.body))|, h.newStart, |NewSide(Edits(h.body))|, head(h),
                seq(|h.body|, j requires 0 <= j < |h.body| => UnidiffOfLine(h, j)))
  }

  function UnidiffOfLine(h: PatchHunk, j: nat): UnidiffLine
    requires j < |h.body|
  {
    match h.body[j]
    case NoEol => UnidiffLine(false, false, MARKER + "\n", None, None)
    case Line(e) =>
      UnidiffLine(e.kind.Add?, e.kind.Del?, e.content + "\n",
                  if e.kind.Del? then None else Some(NewNumber(h, j)),
                  if e.kind.Add? then None else Some(OldNumber(h, j)))
  }

  function UnidiffOf(head: PatchHunk -> string, hs: seq<PatchHunk>): (r: seq<UnidiffHunk>)
    ensures |r| == |hs|
  {
    seq(|hs|, i requires 0 <= i < |hs| => UnidiffOfHunk(head, hs[i]))
  }

  /** Patch lines end at line feeds, so no text holds one. */
  predicate PatchFeedFree(hs: seq<PatchHunk>) {
    forall i, j :: 0 <= i < |hs| && 0 <= j < |hs[i].body| && hs[i].body[j].Line? ==> '\n' !in hs[i].body[j].edit.content
  }

  lemma DropOne(c: string)
    requires '\n' !in c
    ensures DropNewlines(c + "\n") == c
  {
    assert (c + "\n")[..|c|] == c;
    assert c != "" ==> c[|c| - 1] in c;
  }

  /** The line that `parse_unified_diff` makes of the j-th body line: the edit with the
      numbers of its file lines; a marker is a context line without numbers. */
  lemma UnifiedLine(h: PatchHunk, j: nat, pos: nat)
    requires j < |h.body| && (h.body[j].Line? ==> '\n' !in h.body[j].edit.content)
    ensures LineAt(UnidiffOfLine(h, j), pos) ==
            match h.body[j]
            case NoEol => DiffLine(Ctx, MARKER, None, None, Some(pos))
            case Line(e) => DiffLine(e.kind, e.content, if e.kind.Del? then None else Some(NewNumber(h, j)),
                                     if e.kind.Add? then None else Some(OldNumber(h, j)), Some(pos))
  {
    hide NewNumber, OldNumber, DropNewlines;
    match h.body[j]
    case NoEol =>
      NoFeedInMarker();
      DropOne(MARKER);
    case Line(e) => DropOne(e.content);
  }

  lemma NoFeedInMarker()
    ensures '\n' !in MARKER
  {
  }

  /** The parsed file, line by line. */
  lemma UnifiedHunkLine(head: PatchHunk -> string, hs: seq<PatchHunk>, fc: FileChange, i: nat, j: nat)
    requires ConvertedFile(PatchedFile(fc.path, UnidiffOf(head, hs)), fc)
    requires i < |hs| && j < |hs[i].body|
    ensures |fc.hunks| == |hs| && |fc.hunks[i].lines| == |hs[i].body|
    ensures fc.hunks[i].lines[j] == LineAt(UnidiffOfLine(hs[i], j), HeaderPosition(UnidiffOf(head, hs), i) + 1 + j)
    ensures fc.hunks[i].newStart == hs[i].newStart && fc.hunks[i].newCount == |NewSide(Edits(hs[i].body))|
    ensures fc.hunks[i].oldStart == hs[i].oldStart && fc.hunks[i].oldCount == |OldSide(Edits(hs[i].body))|
  {
    hide HeaderPosition, LineAt, UnidiffOfLine, NewSide, OldSide, Edits;
    assert UnidiffOf(head, hs)[i] == UnidiffOfHunk(head, hs[i]);
    assert UnidiffOfHunk(head, hs[i]).lines[j] == UnidiffOfLine(hs[i], j);
  }

  /** For every patch that turns file `o` into file `n`, markers and carriage returns
      included: every number `parse_unified_diff` puts on an edit is the number of the
      file line with that text, and its hunk's counts are the true ones. */
  lemma UnifiedLinesTrue(head: PatchHunk -> string, o: seq<string>, n: seq<string>, hs: seq<PatchHunk>, fc: FileChange,
                         i: nat, j: nat)
    requires PatchFeedFree(hs) && Turns(o, n, hs, 0, 0)
    requires ConvertedFile(PatchedFile(fc.path, UnidiffOf(head, hs)), fc)
    requires i < |hs| && j < |hs[i].body| && hs[i].body[j].Line?
    ensures |fc.hunks| == |hs| && |fc.hunks[i].lines| == |hs[i].body|
    ensures var e, ln := hs[i].body[j].edit, fc.hunks[i].lines[j];
      ln.kind == e.kind && ln.content == e.content && TrueLine(o, n, ln)
  {
    hide ConvertedFile, UnidiffOf, Turns, NewNumber, OldNumber, LineAt, UnidiffOfLine, HeaderPosition, NewSide,
      OldSide, Edits;
    UnifiedHunkLine(head, hs, fc, i, j);
    UnifiedLine(hs[i], j, HeaderPosition(UnidiffOf(head, hs), i) + 1 + j);
    TrueNumbers(o, n, hs, i, j);
  }

  // ---------------------------------------------------------------- agreement

  lemma NextHeader(head: PatchHunk -> string, all: seq<PatchHunk>, k: nat)
    requires k < |all|
    ensures HeaderPosition(UnidiffOf(head, all), k + 1) == HeaderPosition(UnidiffOf(head, all), k) + |all[k].body| + 1
  {
    hide Header, Edits, NewSide, OldSide, UnidiffOfLine;
    assert UnidiffOf(head, all)[k] == UnidiffOfHunk(head, all[k]);
  }

  lemma {:induction false} NumberedAtPosition(head: PatchHunk -> string, hs: seq<PatchHunk>, all: seq<PatchHunk>, k: nat)
    requires k <= |all| && all[k..] == hs && MarkerFree(all)
    ensures |NumberedHunks(hs, HeaderPosition(UnidiffOf(head, all), k) - 1)| == |hs|
    ensures forall i :: 0 <= i < |hs| ==>
              NumberedHunks(hs, HeaderPosition(UnidiffOf(head, all), k) - 1)[i]
              == NumberedHunk(hs[i], Edits(hs[i].body), HeaderPosition(UnidiffOf(head, all), k + i))
    decreases |hs|
  {
    hide NumberedHunk, Header, Edits, UnidiffOf;
    if hs != [] {
      assert all[k] == hs[0] && all[k + 1..] == hs[1..];
      NextHeader(head, all, k);
      EditsAt(all[k].body);
      hide HeaderPosition, MarkerFree;
      NumberedAtPosition(head, hs[1..], all, k + 1);
    }
  }

  lemma NumberedFromZero(head: PatchHunk -> string, hs: seq<PatchHunk>)
    requires MarkerFree(hs)
    ensures |NumberedHunks(hs, 0)| == |hs|
    ensures forall i :: 0 <= i < |hs| ==>
              NumberedHunks(hs, 0)[i] == NumberedHunk(hs[i], Edits(hs[i].body), HeaderPosition(UnidiffOf(head, hs), i))
  {
    hide NumberedHunk, NumberedHunks, Edits, UnidiffOf, MarkerFree;
    assert hs[0..] == hs;
    NumberedAtPosition(head, hs, hs, 0);
  }

  /** The hunks as the GitLab parser would have them: without counts, and with the
      headers as they stand in the text. */
  function InGitlabForm(hs: seq<PatchHunk>, hunks: seq<Hunk>): (r: seq<Hunk>)
    requires |hunks| == |hs|
    ensures |r| == |hs|
  {
    seq(|hs|, i requires 0 <= i < |hs| => hunks[i].(oldCount := 0, newCount := 0, header := Header(hs[i])))
  }

  lemma HunksAgree(head: PatchHunk -> string, hs: seq<PatchHunk>, fc: FileChange, i: nat)
    requires PatchFeedFree(hs) && MarkerFree(hs) && i < |hs|
    requires ConvertedFile(PatchedFile(fc.path, UnidiffOf(head, hs)), fc)
    ensures |fc.hunks| == |hs|
    ensures NumberedHunk(hs[i], Edits(hs[i].body), HeaderPosition(UnidiffOf(head, hs), i))
            == fc.hunks[i].(oldCount := 0, newCount := 0, header := Header(hs[i]))
  {
    hide ConvertedFile, PatchFeedFree, MarkerFree, UnidiffOf, HeaderPosition, Edits, NewSide, OldSide, Header;
    FileHunk(head, hs, fc, i);
    var mine := NumberedHunk(hs[i], Edits(hs[i].body), HeaderPosition(UnidiffOf(head, hs), i));
    MarkerFreeEdits(hs, i);
    forall j | 0 <= j < |hs[i].body| ensures mine.lines[j] == fc.hunks[i].lines[j] {
      LinesAgree(head, hs, fc, i, j);
    }
    hide Numbered;
    assert mine.lines == fc.hunks[i].lines;
  }

  lemma MarkerFreeEdits(hs: seq<PatchHunk>, i: nat)
    requires MarkerFree(hs) && i < |hs|
    ensures |Edits(hs[i].body)| == |hs[i].body| && BodyMarkerFree(hs[i].body)
  {
    EditsAt(hs[i].body);
    hide Edits;
  }

  lemma LinesAgree(head: PatchHunk -> string, hs: seq<PatchHunk>, fc: FileChange, i: nat, j: nat)
    requires PatchFeedFree(hs) && MarkerFree(hs) && i < |hs| && j < |hs[i].body|
    requires ConvertedFile(PatchedFile(fc.path, UnidiffOf(head, hs)), fc)
    requires |Edits(hs[i].body)| == |hs[i].body| && BodyMarkerFree(hs[i].body)
    ensures |fc.hunks| == |hs| && |fc.hunks[i].lines| == |hs[i].body|
    ensures NumberedHunk(hs[i], Edits(hs[i].body), HeaderPosition(UnidiffOf(head, hs), i)).lines[j] == fc.hunks[i].lines[j]
  {
    hide ConvertedFile, UnidiffOf, HeaderPosition, Edits, NewSide, OldSide, NumberedHunk, UnidiffOfLine, NewNumber,
      OldNumber,
      LineAt;
    var pos := HeaderPosition(UnidiffOf(head, hs), i);
    UnifiedHunkLine(head, hs, fc, i, j);
    UnifiedLine(hs[i], j, pos + 1 + j);
    NumberedLine(hs[i], j, pos);
  }

  lemma FileHunk(head: PatchHunk -> string, hs: seq<PatchHunk>, fc: FileChange, i: nat)
    requires ConvertedFile(PatchedFile(fc.path, UnidiffOf(head, hs)), fc) && i < |hs|
    ensures |fc.hunks| == |hs| && |fc.hunks[i].lines| == |hs[i].body|
    ensures fc.hunks[i].newStart == hs[i].newStart && fc.hunks[i].newCount == |NewSide(Edits(hs[i].body))|
    ensures fc.hunks[i].oldStart == hs[i].oldStart && fc.hunks[i].oldCount == |OldSide(Edits(hs[i].body))|
  {
    hide HeaderPosition, LineAt, UnidiffOfLine, NewSide, OldSide, Edits;
    assert UnidiffOf(head, hs)[i] == UnidiffOfHunk(head, hs[i]);
  }

  lemma NumberedLine(h: PatchHunk, j: nat, pos: nat)
    requires j < |h.body| == |Edits(h.body)| && h.body[j].Line? && (forall k :: 0 <= k < |h.body| ==> h.body[k].Line?)
    ensures var e := h.body[j].edit;
      NumberedHunk(h, Edits(h.body), pos).lines[j] ==
      DiffLine(e.kind, e.content, if e.kind.Del? then None else Some(NewNumber(h, j)),
               if e.kind.Add? then None else Some(OldNumber(h, j)), Some(pos + 1 + j))
  {
    EditAt(h.body, j);
    EditsAt(h.body[..j]);
    hide Edits, NewSide, OldSide, Header;
  }

  lemma InGitlabFormNumbered(head: PatchHunk -> string, hs: seq<PatchHunk>, fc: FileChange)
    requires PatchFeedFree(hs) && MarkerFree(hs)
    requires ConvertedFile(PatchedFile(fc.path, UnidiffOf(head, hs)), fc)
    ensures |fc.hunks| == |hs| && InGitlabForm(hs, fc.hunks) == NumberedHunks(hs, 0)
  {
    NumberedFromZero(head, hs);
    FileLength(head, hs, fc);
    hide ConvertedFile, PatchFeedFree, MarkerFree, NumberedHunk, NumberedHunks, Edits, UnidiffOf, HeaderPosition,
      Header;
    forall i | 0 <= i < |hs| ensures InGitlabForm(hs, fc.hunks)[i] == NumberedHunks(hs, 0)[i] {
      HunksAgree(head, hs, fc, i);
      FormAt(hs, fc.hunks, i);
      hide InGitlabForm;
    }
  }

  lemma FormAt(hs: seq<PatchHunk>, hunks: seq<Hunk>, i: nat)
    requires |hunks| == |hs| && i < |hs|
    ensures InGitlabForm(hs, hunks)[i] == hunks[i].(oldCount := 0, newCount := 0, header := Header(hs[i]))
  {
    hide Header;
  }

  lemma FileLength(head: PatchHunk -> string, hs: seq<PatchHunk>, fc: FileChange)
    requires ConvertedFile(PatchedFile(fc.path, UnidiffOf(head, hs)), fc)
    ensures |fc.hunks| == |hs|
  {
    hide Converted, UnidiffOfHunk;
  }

  /** A marker's line has no numbers here, and two there. */
  lemma MarkerDisagrees(head: PatchHunk -> string, hs: seq<PatchHunk>, fc: FileChange, texts: seq<string>)
    requires !MarkerFree(hs) && ConvertedFile(PatchedFile(fc.path, UnidiffOf(head, hs)), fc)
    requires |fc.hunks| == |hs|
    ensures Parse(texts) != Ok(InGitlabForm(hs, fc.hunks))
  {
    var i, j :| 0 <= i < |hs| && 0 <= j < |hs[i].body| && hs[i].body[j].NoEol?;
    hide ConvertedFile, UnidiffOf, Parse, Explains, HeaderPosition, Header, MarkerFree, LineAt, UnidiffOfLine,
      BadHeader;
    UnifiedHunkLine(head, hs, fc, i, j);
    UnifiedLine(hs[i], j, HeaderPosition(UnidiffOf(head, hs), i) + 1 + j);
    ParsedIsExplained(texts);
    if Parse(texts) == Ok(InGitlabForm(hs, fc.hunks)) {
      assert InGitlabForm(hs, fc.hunks)[i].lines == fc.hunks[i].lines;
      ExplainedNumbers(texts, InGitlabForm(hs, fc.hunks), i, j);
    }
  }

  /** Both parsers give the same kinds, texts, numbers and positions for the same patch,
      apart from the counts and the header's printing, if and only if no text of it
      holds a line break other than a line feed and no hunk holds a marker. */
  lemma ParsersAgreeExactly(head: PatchHunk -> string, hs: seq<PatchHunk>, fc: FileChange)
    requires PatchFeedFree(hs) && ConvertedFile(PatchedFile(fc.path, UnidiffOf(head, hs)), fc)
    ensures |fc.hunks| == |hs|
    ensures Parse(SplitLines(PatchText(hs))) == Ok(InGitlabForm(hs, fc.hunks)) <==> PatchBreakFree(hs) && MarkerFree(hs)
    ensures forall i :: 0 <= i < |hs| ==>
              && fc.hunks[i].oldCount == |OldSide(Edits(hs[i].body))|
              && fc.hunks[i].newCount == |NewSide(Edits(hs[i].body))|
  {
    FileLength(head, hs, fc);
    hide Parse, SplitLines, PatchText, ConvertedFile, UnidiffOf, PatchFeedFree, PatchBreakFree, MarkerFree,
      NumberedHunks,
      InGitlabForm, Edits, OldSide, NewSide;
    forall i | 0 <= i < |hs|
      ensures fc.hunks[i].oldCount == |OldSide(Edits(hs[i].body))|
      ensures fc.hunks[i].newCount == |NewSide(Edits(hs[i].body))|
    {
      FileHunk(head, hs, fc, i);
    }
    if MarkerFree(hs) {
      InGitlabFormNumbered(head, hs, fc);
      RoundTripExactly(hs);
    } else {
      MarkerDisagrees(head, hs, fc, SplitLines(PatchText(hs)));
    }
  }

  // ---------------------------------------------------------------- a file with carriage returns

  const CRLF_PATCH := [PatchHunk(0, Some(0), 1, Some(1), "", [Line(Edit(Add, "a\r"))])]

  /** Adding a line that ends in a carriage return: this parser keeps the return, the
      GitLab parser drops it. */
  lemma ReturnsDiffer(head: PatchHunk -> string, fc: FileChange)
    requires ConvertedFile(PatchedFile(fc.path, UnidiffOf(head, CRLF_PATCH)), fc)
    ensures var r := Parse(SplitLines(PatchText(CRLF_PATCH)));
      && r.Ok? && |r.value| == |fc.hunks| == 1 && |r.value[0].lines| == |fc.hunks[0].lines| == 1
      && r.value[0].lines[0].content == "a" && fc.hunks[0].lines[0].content == "a\r"
      && r.value[0].lines[0].newLine == fc.hunks[0].lines[0].newLine == Some(1)
  {
    AddingTurns();
    AddingPlain();
    hide Parse, SplitLines, PatchText, ConvertedFile, UnidiffOf, Turns, NewNumber, OldNumber, PatchOnePiece,
      PatchFeedFree,
      Chomp, Markers, HeaderPosition, UnidiffOfLine, LineAt;
    MarkersShiftExactly([], ["a\r"], CRLF_PATCH, 0, 0);
    UnifiedHunkLine(head, CRLF_PATCH, fc, 0, 0);
    UnifiedLine(CRLF_PATCH[0], 0, HeaderPosition(UnidiffOf(head, CRLF_PATCH), 0) + 1 + 0);
  }

  lemma AddingPlain()
    ensures PatchOnePiece(CRLF_PATCH) && PatchFeedFree(CRLF_PATCH) && Chomp("a\r") == "a" && '\n' !in "a\r"
    ensures NewNumber(CRLF_PATCH[0], 0) == 1 && Markers(CRLF_PATCH[0].body[..0]) == 0
  {
    assert Chomp("") == "";
  }

  lemma AddingTurns()
    ensures Turns([], ["a\r"], CRLF_PATCH, 0, 0)
  {
    var body := CRLF_PATCH[0].body;
    assert body[1..] == [];
    assert Edits(body) == [Edit(Add, "a\r")];
    assert Edits(body)[1..] == [];
    assert OldSide(Edits(body)) == [] && NewSide(Edits(body)) == ["a\r"];
    OneHunkTurns([], ["a\r"], CRLF_PATCH[0]);
  }
}
