/** Patches: printed and parsed again by the GitLab parser, and what they mean (the
    "Diff -u Output Format" section of the POSIX `diff` utility). */
module Patches {
  import opened Schemas
  import opened DiffText
  import opened FileText
  import opened GitlabDiff

  datatype Edit = Edit(kind: LineKind, content: string)

  /** A body line of a patch: an edit, or the marker "\ No newline at end of file". */
  datatype BodyLine = Line(edit: Edit) | NoEol

  datatype PatchHunk = PatchHunk(
    oldStart: nat,
    oldCount: Option<nat>,
    newStart: nat,
    newCount: Option<nat>,
    section: string,
    body: seq<BodyLine>)

  const MARKER := " No newline at end of file"

  function Header(h: PatchHunk): string {
    HeaderText(h.oldStart, h.oldCount, h.newStart, h.newCount, h.section)
  }

  function PrintLine(b: BodyLine): string {
    match b
    case Line(Edit(Add, c)) => "+" + c
    case Line(Edit(Del, c)) => "-" + c
    case Line(Edit(Ctx, c)) => " " + c
    case NoEol => "\\" + MARKER
  }

  function PrintBody(body: seq<BodyLine>): seq<string> {
    if body == [] then [] else [PrintLine(body[0])] + PrintBody(body[1..])
  }

  function PrintLines(hs: seq<PatchHunk>): seq<string> {
    if hs == [] then [] else [Header(hs[0])] + PrintBody(hs[0].body) + PrintLines(hs[1..])
  }

  function PatchText(hs: seq<PatchHunk>): string {
    Unlines(PrintLines(hs))
  }

  /** The edits of a body, markers dropped. */
  function Edits(body: seq<BodyLine>): seq<Edit> {
    if body == [] then []
    else (if body[0].NoEol? then [] else [body[0].edit]) + Edits(body[1..])
  }

  /** The edits the parser sees: a marker counts as a context line. */
  function SeenEdits(body: seq<BodyLine>): (r: seq<Edit>)
    ensures |r| == |body|
  {
    seq(|body|, i requires 0 <= i < |body| => if body[i].NoEol? then Edit(Ctx, MARKER) else body[i].edit)
  }

  function NewSide(edits: seq<Edit>): seq<string> {
    if edits == [] then []
    else (if edits[0].kind.Del? then [] else [edits[0].content]) + NewSide(edits[1..])
  }

  function OldSide(edits: seq<Edit>): seq<string> {
    if edits == [] then []
    else (if edits[0].kind.Add? then [] else [edits[0].content]) + OldSide(edits[1..])
  }

  /** The numbered lines of a hunk: the i-th edit sits `i + 1` after the header's
      position, and after as many lines of each side as precede it in the hunk. */
  function Numbered(edits: seq<Edit>, newLn: int, oldLn: int, pos: nat): (r: seq<DiffLine>)
    ensures |r| == |edits|
  {
    seq(|edits|, i requires 0 <= i < |edits| =>
      DiffLine(edits[i].kind, edits[i].content,
               if edits[i].kind.Del? then None else Some(newLn + |NewSide(edits[..i])|),
               if edits[i].kind.Add? then None else Some(oldLn + |OldSide(edits[..i])|),
               Some(pos + 1 + i)))
  }

  function NumberedHunk(h: PatchHunk, edits: seq<Edit>, pos: nat): Hunk {
    Hunk(h.oldStart, 0, h.newStart, 0, Header(h), Numbered(edits, h.newStart, h.oldStart, pos))
  }

  /** The hunks a patch denotes, `base` positions into the file's diff. */
  function NumberedHunks(hs: seq<PatchHunk>, base: nat): seq<Hunk> {
    if hs == [] then []
    else [NumberedHunk(hs[0], Edits(hs[0].body), base + 1)]
         + NumberedHunks(hs[1..], base + 1 + |Edits(hs[0].body)|)
  }

  function SeenHunks(hs: seq<PatchHunk>, base: nat): seq<Hunk> {
    if hs == [] then []
    else [NumberedHunk(hs[0], SeenEdits(hs[0].body), base + 1)]
         + SeenHunks(hs[1..], base + 1 + |hs[0].body|)
  }

  // ---------------------------------------------------------------- printing, then parsing

  lemma NumberedCons(edits: seq<Edit>, newLn: int, oldLn: int, pos: nat)
    requires edits != []
    ensures var e := edits[0];
      Numbered(edits, newLn, oldLn, pos) ==
        [DiffLine(e.kind, e.content, if e.kind.Del? then None else Some(newLn),
                  if e.kind.Add? then None else Some(oldLn), Some(pos + 1))]
        + Numbered(edits[1..], newLn + (if e.kind.Del? then 0 else 1), oldLn + (if e.kind.Add? then 0 else 1), pos + 1)
  {
    forall i | 1 <= i < |edits|
      ensures |NewSide(edits[..i])| == (if edits[0].kind.Del? then 0 else 1) + |NewSide(edits[1..][..i - 1])|
      ensures |OldSide(edits[..i])| == (if edits[0].kind.Add? then 0 else 1) + |OldSide(edits[1..][..i - 1])|
    {
      assert edits[..i][1..] == edits[1..][..i - 1];
    }
  }

  lemma PrintedLineStep(p: Parsing, b: BodyLine)
    requires p.hunks != []
    ensures var e := SeenEdits([b])[0];
      LineStep(p, PrintLine(b)) ==
        Ok(Parsing(Grow(p.hunks, [DiffLine(e.kind, e.content, if e.kind.Del? then None else Some(p.newLn),
                                           if e.kind.Add? then None else Some(p.oldLn), Some(p.pos + 1))]),
                   p.pos + 1, p.newLn + (if e.kind.Del? then 0 else 1), p.oldLn + (if e.kind.Add? then 0 else 1)))
  {
    assert PrintLine(b)[1..] == SeenEdits([b])[0].content;
  }

  /** The parser's variables after the edits `edits`. */
  function After(p: Parsing, edits: seq<Edit>): Parsing
    requires p.hunks != []
  {
    Parsing(Grow(p.hunks, Numbered(edits, p.newLn, p.oldLn, p.pos)), p.pos + |edits|,
            p.newLn + |NewSide(edits)|, p.oldLn + |OldSide(edits)|)
  }

  lemma AfterNone(p: Parsing)
    requires p.hunks != []
    ensures After(p, []) == p
  {
    var last := p.hunks[|p.hunks| - 1];
    assert last.lines + [] == last.lines;
  }

  lemma AfterCons(p: Parsing, b: BodyLine, edits: seq<Edit>)
    requires p.hunks != [] && edits != [] && edits[0] == SeenEdits([b])[0]
    ensures LineStep(p, PrintLine(b)).Ok?
    ensures var q := LineStep(p, PrintLine(b)).value; q.hunks != [] && After(q, edits[1..]) == After(p, edits)
  {
    PrintedLineStep(p, b);
    NumberedCons(edits, p.newLn, p.oldLn, p.pos);
    hide PrintLine, LineStep, Numbered;
    var q := LineStep(p, PrintLine(b)).value;
    GrowTwice(p.hunks, Numbered(edits, p.newLn, p.oldLn, p.pos)[..1], Numbered(edits[1..], q.newLn, q.oldLn, q.pos));
  }

  lemma {:induction false} ParseBody(p: Parsing, body: seq<BodyLine>, rest: seq<string>)
    requires p.hunks != []
    ensures ParseFrom(p, PrintBody(body) + rest) == ParseFrom(After(p, SeenEdits(body)), rest)
    decreases |body|
  {
    var edits := SeenEdits(body);
    hide PrintLine, LineStep, After, NewSide, OldSide, Numbered;
    if body == [] {
      assert PrintBody(body) + rest == rest;
      assert edits == [];
      AfterNone(p);
    } else {
      var text := PrintBody(body) + rest;
      assert text == [PrintLine(body[0])] + (PrintBody(body[1..]) + rest);
      assert text[1..] == PrintBody(body[1..]) + rest;
      AfterCons(p, body[0], edits);
      assert SeenEdits(body[1..]) == edits[1..];
      ParseBody(LineStep(p, text[0]).value, body[1..], rest);
    }
  }

  lemma GrowTwice(hunks: seq<Hunk>, a: seq<DiffLine>, b: seq<DiffLine>)
    requires hunks != []
    ensures Grow(Grow(hunks, a), b) == Grow(hunks, a + b)
  {
    var last := hunks[|hunks| - 1];
    assert last.lines + a + b == last.lines + (a + b);
  }

  lemma ParseHeaderLine(p: Parsing, h: PatchHunk)
    ensures LineStep(p, Header(h)) ==
            Ok(Parsing(p.hunks + [Hunk(h.oldStart, 0, h.newStart, 0, Header(h), [])], p.pos + 1, h.newStart, h.oldStart))
  {
    HeaderRoundTrip(h.oldStart, h.oldCount, h.newStart, h.newCount, h.section);
    hide HeaderText, ParseHeader;
  }

  lemma ParseHunk(p: Parsing, h: PatchHunk, rest: seq<string>)
    ensures var edits := SeenEdits(h.body);
      ParseFrom(p, [Header(h)] + (PrintBody(h.body) + rest)) ==
      ParseFrom(Parsing(p.hunks + [NumberedHunk(h, edits, p.pos + 1)], p.pos + 1 + |h.body|,
                        h.newStart + |NewSide(edits)|, h.oldStart + |OldSide(edits)|), rest)
  {
    var text := [Header(h)] + (PrintBody(h.body) + rest);
    var edits := SeenEdits(h.body);
    ParseHeaderLine(p, h);
    hide Header, LineStep, PrintBody, NewSide, OldSide, SeenEdits, Numbered;
    var q := Parsing(p.hunks + [Hunk(h.oldStart, 0, h.newStart, 0, Header(h), [])], p.pos + 1, h.newStart, h.oldStart);
    assert text[1..] == PrintBody(h.body) + rest;
    ParseBody(q, h.body, rest);
    var lines := Numbered(edits, q.newLn, q.oldLn, q.pos);
    assert [] + lines == lines;
    assert Grow(q.hunks, lines) == p.hunks + [NumberedHunk(h, edits, q.pos)];
  }

  lemma {:induction false} ParsePrintedFrom(p: Parsing, hs: seq<PatchHunk>)
    ensures ParseFrom(p, PrintLines(hs)) == Ok(p.hunks + SeenHunks(hs, p.pos))
    decreases |hs|
  {
    hide Header, PrintBody, NewSide, OldSide, LineStep;
    if hs == [] {
      assert p.hunks + [] == p.hunks;
    } else {
      var h := hs[0];
      var edits := SeenEdits(h.body);
      assert PrintLines(hs) == [Header(h)] + (PrintBody(h.body) + PrintLines(hs[1..]));
      ParseHunk(p, h, PrintLines(hs[1..]));
      hide NumberedHunk;
      var next := Parsing(p.hunks + [NumberedHunk(h, edits, p.pos + 1)], p.pos + 1 + |h.body|,
                          h.newStart + |NewSide(edits)|, h.oldStart + |OldSide(edits)|);
      ParsePrintedFrom(next, hs[1..]);
      assert next.hunks + SeenHunks(hs[1..], next.pos) == p.hunks + SeenHunks(hs, p.pos);
    }
  }

  predicate HunkBreakFree(h: PatchHunk) {
    BreakFree(h.section) && forall i :: 0 <= i < |h.body| && h.body[i].Line? ==> BreakFree(h.body[i].edit.content)
  }

  predicate PatchBreakFree(hs: seq<PatchHunk>) {
    forall i :: 0 <= i < |hs| ==> HunkBreakFree(hs[i])
  }

  predicate MarkerFree(hs: seq<PatchHunk>) {
    forall i, j :: 0 <= i < |hs| && 0 <= j < |hs[i].body| ==> hs[i].body[j].Line?
  }

  lemma HeaderBreakFree(h: PatchHunk)
    ensures BreakFree(Header(h)) <==> BreakFree(h.section)
  {
    RangeChars(h.oldStart, h.oldCount);
    RangeChars(h.newStart, h.newCount);
    var a, b := Range(h.oldStart, h.oldCount), Range(h.newStart, h.newCount);
    hide Range;
    var front := "@@ -" + a + " +" + b + " @@";
    assert Header(h) == front + h.section;
    assert BreakFree("@@ -") && BreakFree(" +") && BreakFree(" @@");
    assert BreakFree(front);
  }

  lemma {:induction false} BodyBreakFree(body: seq<BodyLine>)
    requires forall i :: 0 <= i < |body| && body[i].Line? ==> BreakFree(body[i].edit.content)
    ensures forall i :: 0 <= i < |PrintBody(body)| ==> BreakFree(PrintBody(body)[i])
  {
    if body != [] {
      BodyBreakFree(body[1..]);
      assert BreakFree("\\" + MARKER);
    }
  }

  lemma {:induction false} PrintBreakFree(hs: seq<PatchHunk>)
    requires PatchBreakFree(hs)
    ensures forall i :: 0 <= i < |PrintLines(hs)| ==> BreakFree(PrintLines(hs)[i])
  {
    if hs != [] {
      HeaderBreakFree(hs[0]);
      BodyBreakFree(hs[0].body);
      PrintBreakFree(hs[1..]);
    }
  }

  /** Any printed patch whose texts hold no line break parses to its own hunks, every
      marker read as one more context line. */
  lemma ParsePrinted(hs: seq<PatchHunk>)
    requires PatchBreakFree(hs)
    ensures Parse(SplitLines(PatchText(hs))) == Ok(SeenHunks(hs, 0))
  {
    PrintBreakFree(hs);
    SplitUnlines(PrintLines(hs));
    ParsePrintedFrom(Parsing([], 0, 0, 0), hs);
    assert [] + SeenHunks(hs, 0) == SeenHunks(hs, 0);
  }

  lemma {:induction false} EditsAt(body: seq<BodyLine>)
    ensures |Edits(body)| <= |body|
    ensures (forall i :: 0 <= i < |body| ==> body[i].Line?) <==> |Edits(body)| == |body|
    ensures |Edits(body)| == |body| ==> Edits(body) == SeenEdits(body)
  {
    if body != [] {
      EditsAt(body[1..]);
      assert body == [body[0]] + body[1..];
    }
  }

  predicate BodyMarkerFree(body: seq<BodyLine>) {
    forall j :: 0 <= j < |body| ==> body[j].Line?
  }

  lemma MarkerFreeCons(hs: seq<PatchHunk>)
    requires hs != []
    ensures MarkerFree(hs) <==> BodyMarkerFree(hs[0].body) && MarkerFree(hs[1..])
  {
    if MarkerFree(hs) {
      assert forall i :: 0 <= i < |hs[1..]| ==> hs[1..][i] == hs[i + 1];
    }
    if BodyMarkerFree(hs[0].body) && MarkerFree(hs[1..]) {
      forall i, j | 0 <= i < |hs| && 0 <= j < |hs[i].body| ensures hs[i].body[j].Line? {
        assert i > 0 ==> hs[i] == hs[1..][i - 1];
      }
    }
  }

  lemma SeenHunkIsNumbered(h: PatchHunk, pos: nat)
    ensures |Edits(h.body)| == |h.body| ==> BodyMarkerFree(h.body)
    ensures NumberedHunk(h, SeenEdits(h.body), pos) == NumberedHunk(h, Edits(h.body), pos) <==> BodyMarkerFree(h.body)
    ensures BodyMarkerFree(h.body) ==> |Edits(h.body)| == |h.body|
  {
    EditsAt(h.body);
    hide Header, Edits, SeenEdits, NewSide, OldSide;
    var seen, mine := NumberedHunk(h, SeenEdits(h.body), pos), NumberedHunk(h, Edits(h.body), pos);
    assert |seen.lines| == |h.body| && |mine.lines| == |Edits(h.body)|;
  }

  lemma UnfoldHunks(hs: seq<PatchHunk>, base: nat)
    ensures hs == [] ==> SeenHunks(hs, base) == NumberedHunks(hs, base) && MarkerFree(hs)
    ensures hs != [] ==>
              var h := hs[0];
              && SeenHunks(hs, base) ==
                 [NumberedHunk(h, SeenEdits(h.body), base + 1)] + SeenHunks(hs[1..], base + 1 + |h.body|)
              && NumberedHunks(hs, base) ==
                 [NumberedHunk(h, Edits(h.body), base + 1)] + NumberedHunks(hs[1..], base + 1 + |Edits(h.body)|)
  {
    hide NumberedHunk, SeenEdits, Edits;
  }

  lemma {:induction false} SeenIsNumbered(hs: seq<PatchHunk>, base: nat)
    ensures SeenHunks(hs, base) == NumberedHunks(hs, base) <==> MarkerFree(hs)
  {
    hide SeenHunks, NumberedHunks, MarkerFree, BodyMarkerFree, NumberedHunk, SeenEdits, Edits;
    UnfoldHunks(hs, base);
    if hs != [] {
      var h := hs[0];
      MarkerFreeCons(hs);
      SeenHunkIsNumbered(h, base + 1);
      SeenIsNumbered(hs[1..], base + 1 + |h.body|);
      ConsEqual(NumberedHunk(h, SeenEdits(h.body), base + 1), SeenHunks(hs[1..], base + 1 + |h.body|),
                NumberedHunk(h, Edits(h.body), base + 1), NumberedHunks(hs[1..], base + 1 + |Edits(h.body)|));
    }
  }

  lemma ConsEqual<T>(x: T, xs: seq<T>, y: T, ys: seq<T>)
    ensures [x] + xs == [y] + ys <==> x == y && xs == ys
  {
    var a, b := [x] + xs, [y] + ys;
    assert a[0] == x && b[0] == y && a[1..] == xs && b[1..] == ys;
  }

  // ---------------------------------------------------------------- exactly when

  predicate LinesClean(hunks: seq<Hunk>) {
    forall i :: 0 <= i < |hunks| ==> HunkClean(hunks[i])
  }

  predicate HunkClean(h: Hunk) {
    BreakFree(h.header) && forall j :: 0 <= j < |h.lines| ==> BreakFree(h.lines[j].content)
  }

  lemma {:induction false} ParseClean(p: Parsing, lines: seq<string>)
    requires LinesClean(p.hunks)
    requires forall i :: 0 <= i < |lines| ==> BreakFree(lines[i])
    ensures ParseFrom(p, lines).Ok? ==> LinesClean(ParseFrom(p, lines).value)
    decreases |lines|
  {
    hide ParseHeader;
    if lines != [] && LineStep(p, lines[0]).Ok? {
      ParseClean(LineStep(p, lines[0]).value, lines[1..]);
    }
  }

  lemma {:induction false} EditsDirty(body: seq<BodyLine>, i: nat)
    requires i < |body| && body[i].Line? && !BreakFree(body[i].edit.content)
    ensures exists j :: 0 <= j < |Edits(body)| && !BreakFree(Edits(body)[j].content)
  {
    if i == 0 {
      assert Edits(body)[0] == body[0].edit;
    } else {
      EditsDirty(body[1..], i - 1);
      var j :| 0 <= j < |Edits(body[1..])| && !BreakFree(Edits(body[1..])[j].content);
      var k := j + |Edits(body)| - |Edits(body[1..])|;
      assert Edits(body)[k] == Edits(body[1..])[j];
    }
  }

  lemma {:induction false} NumberedDirty(hs: seq<PatchHunk>, base: nat)
    requires LinesClean(NumberedHunks(hs, base))
    ensures PatchBreakFree(hs)
  {
    if hs != [] {
      var h := hs[0];
      var out := NumberedHunks(hs, base);
      assert out[0] == NumberedHunk(h, Edits(h.body), base + 1);
      HeaderBreakFree(h);
      assert HunkClean(out[0]);
      forall j | 0 <= j < |Edits(h.body)| ensures BreakFree(Edits(h.body)[j].content) {
        assert out[0].lines[j].content == Edits(h.body)[j].content;
      }
      forall i | 0 <= i < |h.body| && h.body[i].Line? ensures BreakFree(h.body[i].edit.content) {
        if !BreakFree(h.body[i].edit.content) {
          EditsDirty(h.body, i);
        }
      }
      var base' := base + 1 + |Edits(h.body)|;
      assert out[1..] == NumberedHunks(hs[1..], base');
      NumberedDirty(hs[1..], base');
    }
  }

  /** Printing a patch and parsing the text gives exactly the patch's numbered hunks
      if and only if no text in it holds a line break and no hunk holds a marker. */
  lemma RoundTripExactly(hs: seq<PatchHunk>)
    ensures Parse(SplitLines(PatchText(hs))) == Ok(NumberedHunks(hs, 0)) <==> PatchBreakFree(hs) && MarkerFree(hs)
  {
    if PatchBreakFree(hs) {
      ParsePrinted(hs);
      SeenIsNumbered(hs, 0);
    } else if Parse(SplitLines(PatchText(hs))) == Ok(NumberedHunks(hs, 0)) {
      SplitBreakFree(PatchText(hs));
      ParseClean(Parsing([], 0, 0, 0), SplitLines(PatchText(hs)));
      NumberedDirty(hs, 0);
    }
  }

  // ---------------------------------------------------------------- what a patch means

  /** Lines before the hunk's first line on a side: a range of no lines names the line
      it follows. */
  function Before(start: nat, count: nat): int {
    if count == 0 then start else start - 1
  }

  /** `hs` turns the rest of `o` from line `oi` into the rest of `n` from line `ni`. */
  ghost predicate Turns(o: seq<string>, n: seq<string>, hs: seq<PatchHunk>, oi: nat, ni: nat)
    requires oi <= |o| && ni <= |n|
    decreases |hs|
  {
    if hs == [] then o[oi..] == n[ni..]
    else
      var edits := Edits(hs[0].body);
      var olds, news := OldSide(edits), NewSide(edits);
      var ob, nb := Before(hs[0].oldStart, |olds|), Before(hs[0].newStart, |news|);
      && oi <= ob && ob + |olds| <= |o| && ni <= nb && nb + |news| <= |n|
      && o[oi..ob] == n[ni..nb]
      && o[ob..ob + |olds|] == olds && n[nb..nb + |news|] == news
      && Turns(o, n, hs[1..], ob + |olds|, nb + |news|)
  }

  /** Every number on the line is the number of a line with that text. */
  predicate TrueLine(o: seq<string>, n: seq<string>, ln: DiffLine) {
    && (ln.newLine.Some? ==> 1 <= ln.newLine.value <= |n| && n[ln.newLine.value - 1] == ln.content)
    && (ln.oldLine.Some? ==> 1 <= ln.oldLine.value <= |o| && o[ln.oldLine.value - 1] == ln.content)
    && (ln.newLine.Some? <==> !ln.kind.Del?) && (ln.oldLine.Some? <==> !ln.kind.Add?)
  }

  lemma {:induction false} SideAt(edits: seq<Edit>, i: nat)
    requires i < |edits|
    ensures !edits[i].kind.Del? ==>
              |NewSide(edits[..i])| < |NewSide(edits)| && NewSide(edits)[|NewSide(edits[..i])|] == edits[i].content
    ensures !edits[i].kind.Add? ==>
              |OldSide(edits[..i])| < |OldSide(edits)| && OldSide(edits)[|OldSide(edits[..i])|] == edits[i].content
  {
    if i > 0 {
      SideAt(edits[1..], i - 1);
      assert edits[..i][1..] == edits[1..][..i - 1];
    }
  }

  lemma {:induction false} CountsAgree(lines: seq<DiffLine>, edits: seq<Edit>)
    requires |lines| == |edits| && forall i :: 0 <= i < |lines| ==> lines[i].kind == edits[i].kind
    ensures NewLines(lines) == |NewSide(edits)| && OldLines(lines) == |OldSide(edits)|
  {
    if lines != [] {
      CountsAgree(lines[1..], edits[1..]);
    }
  }

  lemma NumberedConsecutive(h: PatchHunk, edits: seq<Edit>, pos: nat)
    ensures Consecutive(NumberedHunk(h, edits, pos))
  {
    hide Header;
    var out := NumberedHunk(h, edits, pos);
    forall j | 0 <= j < |out.lines|
      ensures NewLines(out.lines[..j]) == |NewSide(edits[..j])| && OldLines(out.lines[..j]) == |OldSide(edits[..j])|
    {
      CountsAgree(out.lines[..j], edits[..j]);
    }
  }

  lemma HunkIsTrue(o: seq<string>, n: seq<string>, hs: seq<PatchHunk>, oi: nat, ni: nat, pos: nat)
    requires oi <= |o| && ni <= |n| && hs != [] && Turns(o, n, hs, oi, ni)
    ensures forall ln :: ln in NumberedHunk(hs[0], Edits(hs[0].body), pos).lines ==> TrueLine(o, n, ln)
  {
    hide Header;
    var edits := Edits(hs[0].body);
    var lines := NumberedHunk(hs[0], edits, pos).lines;
    var ob, nb := Before(hs[0].oldStart, |OldSide(edits)|), Before(hs[0].newStart, |NewSide(edits)|);
    forall i | 0 <= i < |lines| ensures TrueLine(o, n, lines[i]) {
      SideAt(edits, i);
      hide NewSide, OldSide, Edits;
      if !edits[i].kind.Del? {
        assert n[nb..nb + |NewSide(edits)|][|NewSide(edits[..i])|] == edits[i].content;
      }
      if !edits[i].kind.Add? {
        assert o[ob..ob + |OldSide(edits)|][|OldSide(edits[..i])|] == edits[i].content;
      }
    }
  }

  lemma {:induction false} NumberedTrue(o: seq<string>, n: seq<string>, hs: seq<PatchHunk>, oi: nat, ni: nat, base: nat)
    requires oi <= |o| && ni <= |n| && Turns(o, n, hs, oi, ni)
    ensures forall i :: 0 <= i < |NumberedHunks(hs, base)| ==>
              && Consecutive(NumberedHunks(hs, base)[i])
              && forall ln :: ln in NumberedHunks(hs, base)[i].lines ==> TrueLine(o, n, ln)
    decreases |hs|
  {
    hide TrueLine, Consecutive, NumberedHunk, Edits, NewSide, OldSide;
    if hs != [] {
      var edits := Edits(hs[0].body);
      HunkIsTrue(o, n, hs, oi, ni, base + 1);
      NumberedConsecutive(hs[0], edits, base + 1);
      NumberedTrue(o, n, hs[1..], Before(hs[0].oldStart, |OldSide(edits)|) + |OldSide(edits)|,
                   Before(hs[0].newStart, |NewSide(edits)|) + |NewSide(edits)|, base + 1 + |edits|);
    }
  }

  /** Without line breaks and markers, every number the parser puts on a line of the
      printed patch is the number of a file line with that text. */
  lemma FreeLinesTrue(o: seq<string>, n: seq<string>, hs: seq<PatchHunk>)
    requires PatchBreakFree(hs) && MarkerFree(hs) && Turns(o, n, hs, 0, 0)
    ensures var r := Parse(SplitLines(PatchText(hs)));
      && r.Ok? && |r.value| == |hs|
      && forall i :: 0 <= i < |r.value| ==>
           && r.value[i].newStart == hs[i].newStart && r.value[i].oldStart == hs[i].oldStart
           && Consecutive(r.value[i])
           && forall ln :: ln in r.value[i].lines ==> TrueLine(o, n, ln)
  {
    hide TrueLine, Consecutive, Parse, SplitLines, PatchText;
    RoundTripExactly(hs);
    NumberedTrue(o, n, hs, 0, 0, 0);
    NumberedStarts(hs, 0);
  }

  lemma {:induction false} NumberedStarts(hs: seq<PatchHunk>, base: nat)
    ensures |NumberedHunks(hs, base)| == |hs|
    ensures forall i :: 0 <= i < |hs| ==>
              NumberedHunks(hs, base)[i].newStart == hs[i].newStart && NumberedHunks(hs, base)[i].oldStart == hs[i].oldStart
  {
    hide Header;
    if hs != [] {
      NumberedStarts(hs[1..], base + 1 + |Edits(hs[0].body)|);
    }
  }

  lemma {:induction false} NumberedHunkAt(hs: seq<PatchHunk>, base: nat, i: nat) returns (pos: nat)
    requires i < |hs|
    ensures |NumberedHunks(hs, base)| == |hs|
    ensures NumberedHunks(hs, base)[i] == NumberedHunk(hs[i], Edits(hs[i].body), pos)
  {
    NumberedStarts(hs, base);
    hide NumberedHunk, Edits;
    pos := base + 1;
    if i > 0 {
      pos := NumberedHunkAt(hs[1..], base + 1 + |Edits(hs[0].body)|, i - 1);
    }
  }

  /** A patch of one hunk. */
  lemma OneHunkTurns(o: seq<string>, n: seq<string>, h: PatchHunk)
    requires var olds, news := OldSide(Edits(h.body)), NewSide(Edits(h.body));
      var ob, nb := Before(h.oldStart, |olds|), Before(h.newStart, |news|);
      && 0 <= ob && ob + |olds| <= |o| && 0 <= nb && nb + |news| <= |n|
      && o[..ob] == n[..nb] && o[ob..ob + |olds|] == olds && n[nb..nb + |news|] == news
      && o[ob + |olds|..] == n[nb + |news|..]
    ensures Turns(o, n, [h], 0, 0)
  {
    hide Edits, OldSide, NewSide, Before;
    var olds, news := OldSide(Edits(h.body)), NewSide(Edits(h.body));
    var ob, nb := Before(h.oldStart, |olds|), Before(h.newStart, |news|);
    assert Turns(o, n, [], ob + |olds|, nb + |news|);
    assert [h][0] == h && [h][1..] == [];
    assert o[0..ob] == n[0..nb];
  }

  // ---------------------------------------------------------------- applying the parsed hunks

  function NewText(lines: seq<DiffLine>): seq<string> {
    if lines == [] then []
    else (if lines[0].kind.Del? then [] else [lines[0].content]) + NewText(lines[1..])
  }

  /** The file that parsed hunks make of `o` from line `oi`; None when a hunk does not fit. */
  function Rebuild(o: seq<string>, hunks: seq<Hunk>, oi: nat): Option<seq<string>>
    requires oi <= |o|
    decreases |hunks|
  {
    if hunks == [] then Some(o[oi..])
    else
      var h := hunks[0];
      var count := OldLines(h.lines);
      var ob := if count == 0 then h.oldStart else h.oldStart - 1;
      if oi <= ob && ob + count <= |o| then
        match Rebuild(o, hunks[1..], ob + count)
        case None => None
        case Some(rest) => Some(o[oi..ob] + NewText(h.lines) + rest)
      else None
  }

  lemma {:induction false} NewTextIsNewSide(lines: seq<DiffLine>, edits: seq<Edit>)
    requires |lines| == |edits|
    requires forall i :: 0 <= i < |lines| ==> lines[i].kind == edits[i].kind && lines[i].content == edits[i].content
    ensures NewText(lines) == NewSide(edits)
  {
    if lines != [] {
      NewTextIsNewSide(lines[1..], edits[1..]);
    }
  }

  lemma RebuildHunk(o: seq<string>, n: seq<string>, h: PatchHunk, edits: seq<Edit>, pos: nat, oi: nat, ni: nat)
    requires oi <= |o| && ni <= |n|
    requires var olds, news := OldSide(edits), NewSide(edits);
      var ob, nb := Before(h.oldStart, |olds|), Before(h.newStart, |news|);
      && oi <= ob && ob + |olds| <= |o| && ni <= nb && nb + |news| <= |n|
      && o[oi..ob] == n[ni..nb] && n[nb..nb + |news|] == news
    ensures var out := NumberedHunk(h, edits, pos);
      var olds, news := OldSide(edits), NewSide(edits);
      var ob, nb := Before(h.oldStart, |olds|), Before(h.newStart, |news|);
      && OldLines(out.lines) == |olds| && out.oldStart == h.oldStart
      && o[oi..ob] + NewText(out.lines) + n[nb + |news|..] == n[ni..]
  {
    hide Header;
    var out := NumberedHunk(h, edits, pos);
    CountsAgree(out.lines, edits);
    NewTextIsNewSide(out.lines, edits);
    hide NewSide, OldSide, NewText, OldLines, Numbered;
    var news := NewSide(edits);
    var nb := Before(h.newStart, |news|);
    assert n[ni..] == n[ni..nb] + n[nb..nb + |news|] + n[nb + |news|..];
  }

  lemma {:induction false} NumberedRebuild(o: seq<string>, n: seq<string>, hs: seq<PatchHunk>, oi: nat, ni: nat, base: nat)
    requires oi <= |o| && ni <= |n| && Turns(o, n, hs, oi, ni)
    ensures Rebuild(o, NumberedHunks(hs, base), oi) == Some(n[ni..])
    decreases |hs|
  {
    hide NumberedHunk, NewSide, OldSide, Edits, NewText, OldLines;
    if hs != [] {
      var edits := Edits(hs[0].body);
      var olds, news := OldSide(edits), NewSide(edits);
      var ob, nb := Before(hs[0].oldStart, |olds|), Before(hs[0].newStart, |news|);
      var out := NumberedHunks(hs, base);
      RebuildHunk(o, n, hs[0], edits, base + 1, oi, ni);
      assert out[0] == NumberedHunk(hs[0], edits, base + 1);
      assert out[1..] == NumberedHunks(hs[1..], base + 1 + |edits|);
      NumberedRebuild(o, n, hs[1..], ob + |olds|, nb + |news|, base + 1 + |edits|);
    }
  }

  /** Without line breaks and markers, applying the parsed hunks to the old file gives
      the new file. */
  lemma FreeHunksRebuild(o: seq<string>, n: seq<string>, hs: seq<PatchHunk>)
    requires PatchBreakFree(hs) && MarkerFree(hs) && Turns(o, n, hs, 0, 0)
    ensures var r := Parse(SplitLines(PatchText(hs))); r.Ok? && Rebuild(o, r.value, 0) == Some(n)
  {
    hide Parse, SplitLines, PatchText;
    RoundTripExactly(hs);
    NumberedRebuild(o, n, hs, 0, 0, 0);
    assert n[0..] == n;
  }

  // ---------------------------------------------------------------- what a marker does

  function Markers(body: seq<BodyLine>): nat {
    if body == [] then 0 else (if body[0].NoEol? then 1 else 0) + Markers(body[1..])
  }

  lemma {:induction false} SeenSides(body: seq<BodyLine>)
    ensures |NewSide(SeenEdits(body))| == |NewSide(Edits(body))| + Markers(body)
    ensures |OldSide(SeenEdits(body))| == |OldSide(Edits(body))| + Markers(body)
  {
    if body != [] {
      SeenSides(body[1..]);
      assert SeenEdits(body)[1..] == SeenEdits(body[1..]);
      var first := if body[0].NoEol? then [] else [body[0].edit];
      assert Edits(body) == first + Edits(body[1..]);
      assert first == [] ==> Edits(body) == Edits(body[1..]);
      assert first != [] ==> Edits(body)[1..] == Edits(body[1..]);
    }
  }

  lemma {:induction false} EditAt(body: seq<BodyLine>, j: nat)
    requires j < |body| && body[j].Line?
    ensures var k := |Edits(body[..j])|;
      k < |Edits(body)| && Edits(body)[k] == body[j].edit && Edits(body)[..k] == Edits(body[..j])
  {
    if j > 0 {
      EditAt(body[1..], j - 1);
      assert body[..j][1..] == body[1..][..j - 1];
    }
  }

  lemma {:induction false} SeenHunkAt(hs: seq<PatchHunk>, base: nat, i: nat) returns (pos: nat)
    requires i < |hs|
    ensures |SeenHunks(hs, base)| == |hs|
    ensures SeenHunks(hs, base)[i] == NumberedHunk(hs[i], SeenEdits(hs[i].body), pos)
  {
    SeenCount(hs, base);
    hide NumberedHunk, SeenEdits;
    pos := base + 1;
    if i > 0 {
      pos := SeenHunkAt(hs[1..], base + 1 + |hs[0].body|, i - 1);
    }
  }

  lemma {:induction false} SeenCount(hs: seq<PatchHunk>, base: nat)
    ensures |SeenHunks(hs, base)| == |hs|
  {
    hide NumberedHunk, SeenEdits;
    if hs != [] {
      SeenCount(hs[1..], base + 1 + |hs[0].body|);
    }
  }

  /** The numbers of the file lines behind the j-th body line of a hunk. */
  function NewNumber(h: PatchHunk, j: nat): int
    requires j <= |h.body|
  {
    h.newStart + |NewSide(Edits(h.body[..j]))|
  }

  function OldNumber(h: PatchHunk, j: nat): int
    requires j <= |h.body|
  {
    h.oldStart + |OldSide(Edits(h.body[..j]))|
  }

  /** The edit the parser sees in a body line. */
  function SeenEdit(b: BodyLine): Edit {
    if b.NoEol? then Edit(Ctx, MARKER) else b.edit
  }

  lemma SeenNumbers(h: PatchHunk, j: nat, pos: nat)
    requires j < |h.body|
    ensures var ln := NumberedHunk(h, SeenEdits(h.body), pos).lines[j];
      var e, m := SeenEdit(h.body[j]), Markers(h.body[..j]);
      && |NumberedHunk(h, SeenEdits(h.body), pos).lines| == |h.body|
      && ln.kind == e.kind && ln.content == e.content
      && ln.newLine == (if e.kind.Del? then None else Some(NewNumber(h, j) + m))
      && ln.oldLine == (if e.kind.Add? then None else Some(OldNumber(h, j) + m))
  {
    SeenSides(h.body[..j]);
    hide NewSide, OldSide, Edits, Markers, Header;
    assert SeenEdits(h.body)[..j] == SeenEdits(h.body[..j]);
  }

  lemma {:induction false} HunkIsTrueAt(o: seq<string>, n: seq<string>, hs: seq<PatchHunk>, oi: nat, ni: nat, i: nat)
    requires oi <= |o| && ni <= |n| && Turns(o, n, hs, oi, ni) && i < |hs|
    ensures forall ln :: ln in NumberedHunk(hs[i], Edits(hs[i].body), 0).lines ==> TrueLine(o, n, ln)
    decreases i
  {
    hide NumberedHunk, Edits, NewSide, OldSide, TrueLine;
    if i == 0 {
      HunkIsTrue(o, n, hs, oi, ni, 0);
    } else {
      var edits := Edits(hs[0].body);
      HunkIsTrueAt(o, n, hs[1..], Before(hs[0].oldStart, |OldSide(edits)|) + |OldSide(edits)|,
                   Before(hs[0].newStart, |NewSide(edits)|) + |NewSide(edits)|, i - 1);
    }
  }

  lemma TrueNumbers(o: seq<string>, n: seq<string>, hs: seq<PatchHunk>, i: nat, j: nat)
    requires Turns(o, n, hs, 0, 0) && i < |hs| && j < |hs[i].body| && hs[i].body[j].Line?
    ensures var e := hs[i].body[j].edit;
      && (!e.kind.Del? ==> 1 <= NewNumber(hs[i], j) <= |n| && n[NewNumber(hs[i], j) - 1] == e.content)
      && (!e.kind.Add? ==> 1 <= OldNumber(hs[i], j) <= |o| && o[OldNumber(hs[i], j) - 1] == e.content)
  {
    hide NewSide, OldSide, Edits, Turns, Header;
    HunkIsTrueAt(o, n, hs, 0, 0, i);
    var h := hs[i];
    EditAt(h.body, j);
    var lines := NumberedHunk(h, Edits(h.body), 0).lines;
    assert TrueLine(o, n, lines[|Edits(h.body[..j])|]);
  }

  lemma FreeMarkersShift(o: seq<string>, n: seq<string>, hs: seq<PatchHunk>, i: nat, j: nat)
    requires PatchBreakFree(hs) && Turns(o, n, hs, 0, 0)
    requires i < |hs| && j < |hs[i].body| && hs[i].body[j].Line?
    ensures ShiftedLine(Parse(SplitLines(PatchText(hs))), o, n, hs, i, j)
  {
    hide Parse, SplitLines, PatchText, Turns, SeenHunks, NewNumber, OldNumber, Markers, PatchBreakFree, NumberedHunk,
      SeenEdits;
    ParsePrinted(hs);
    var pos := SeenHunkAt(hs, 0, i);
    SeenNumbers(hs[i], j, pos);
    TrueNumbers(o, n, hs, i, j);
  }

  /** The parser's line for the j-th body line of the i-th hunk: the edit, with numbers
      that exceed those of its file lines by the markers before it in the hunk. */
  predicate ShiftedLine(r: Result<seq<Hunk>>, o: seq<string>, n: seq<string>, hs: seq<PatchHunk>, i: nat, j: nat)
    requires i < |hs| && j < |hs[i].body| && hs[i].body[j].Line?
  {
    && r.Ok? && |r.value| == |hs| && |r.value[i].lines| == |hs[i].body|
    && var e, ln, m := hs[i].body[j].edit, r.value[i].lines[j], Markers(hs[i].body[..j]);
       && ln.kind == e.kind && ln.content == e.content
       && (!e.kind.Del? ==>
             && 1 <= NewNumber(hs[i], j) <= |n| && n[NewNumber(hs[i], j) - 1] == ln.content
             && ln.newLine == Some(NewNumber(hs[i], j) + m))
       && (!e.kind.Add? ==>
             && 1 <= OldNumber(hs[i], j) <= |o| && o[OldNumber(hs[i], j) - 1] == ln.content
             && ln.oldLine == Some(OldNumber(hs[i], j) + m))
  }

  // ---------------------------------------------------------------- carriage returns

  function ChompLine(b: BodyLine): BodyLine {
    if b.NoEol? then NoEol else Line(Edit(b.edit.kind, Chomp(b.edit.content)))
  }

  function ChompBody(body: seq<BodyLine>): (r: seq<BodyLine>)
    ensures |r| == |body|
  {
    seq(|body|, i requires 0 <= i < |body| => ChompLine(body[i]))
  }

  function ChompHunk(h: PatchHunk): PatchHunk {
    h.(section := Chomp(h.section), body := ChompBody(h.body))
  }

  /** The patch without trailing carriage returns. */
  function ChompPatch(hs: seq<PatchHunk>): (r: seq<PatchHunk>)
    ensures |r| == |hs|
  {
    seq(|hs|, i requires 0 <= i < |hs| => ChompHunk(hs[i]))
  }

  /** No text of the hunk holds a line break but a trailing carriage return. */
  predicate HunkOnePiece(h: PatchHunk) {
    OnePiece(h.section) && forall i :: 0 <= i < |h.body| && h.body[i].Line? ==> OnePiece(h.body[i].edit.content)
  }

  predicate PatchOnePiece(hs: seq<PatchHunk>) {
    forall i :: 0 <= i < |hs| ==> HunkOnePiece(hs[i])
  }

  lemma ChompAfter(front: string, s: string)
    requires front != "" && front[|front| - 1] != '\r'
    ensures Chomp(front + s) == front + Chomp(s)
  {
    if s == "" {
      assert front + s == front;
    } else {
      assert (front + s)[|front + s| - 1] == s[|s| - 1];
      assert (front + s)[..|front + s| - 1] == front + s[..|s| - 1];
    }
  }

  lemma ChompPrintLine(b: BodyLine)
    ensures PrintLine(ChompLine(b)) == Chomp(PrintLine(b))
  {
    match b
    case Line(Edit(Add, c)) => ChompAfter("+", c);
    case Line(Edit(Del, c)) => ChompAfter("-", c);
    case Line(Edit(Ctx, c)) => ChompAfter(" ", c);
    case NoEol =>
      var t := "\\" + MARKER;
      assert t[|t| - 1] == 'e';
  }

  lemma ChompHeader(h: PatchHunk)
    ensures Header(ChompHunk(h)) == Chomp(Header(h))
  {
    hide Range, Chomp;
    var front := "@@ -" + Range(h.oldStart, h.oldCount) + " +" + Range(h.newStart, h.newCount) + " @@";
    assert front[|front| - 1] == '@';
    assert Header(h) == front + h.section && Header(ChompHunk(h)) == front + Chomp(h.section);
    ChompAfter(front, h.section);
  }

  lemma {:induction false} ChompPrintBody(body: seq<BodyLine>)
    ensures PrintBody(ChompBody(body)) == ChompAll(PrintBody(body))
  {
    hide PrintLine, ChompLine, Chomp;
    if body != [] {
      ChompPrintLine(body[0]);
      ChompPrintBody(body[1..]);
      assert ChompBody(body)[1..] == ChompBody(body[1..]);
    }
  }

  lemma ChompConcat(a: seq<string>, b: seq<string>)
    ensures ChompAll(a + b) == ChompAll(a) + ChompAll(b)
  {
    hide Chomp;
  }

  lemma {:induction false} ChompPrint(hs: seq<PatchHunk>)
    ensures PrintLines(ChompPatch(hs)) == ChompAll(PrintLines(hs))
  {
    hide Header, PrintBody, Chomp, ChompHunk;
    if hs != [] {
      var h := hs[0];
      ChompHeader(h);
      ChompHunkBody(h);
      ChompPrint(hs[1..]);
      assert ChompPatch(hs)[1..] == ChompPatch(hs[1..]);
      ChompConcat([Header(h)] + PrintBody(h.body), PrintLines(hs[1..]));
      ChompConcat([Header(h)], PrintBody(h.body));
      assert ChompAll([Header(h)]) == [Header(ChompHunk(h))];
    }
  }

  lemma ChompHunkBody(h: PatchHunk)
    ensures PrintBody(ChompHunk(h).body) == ChompAll(PrintBody(h.body))
  {
    ChompPrintBody(h.body);
  }

  lemma ChompIsFree(hs: seq<PatchHunk>)
    requires PatchOnePiece(hs)
    ensures PatchBreakFree(ChompPatch(hs))
  {
    hide Chomp;
    forall i | 0 <= i < |hs| ensures HunkBreakFree(ChompPatch(hs)[i]) {
      assert HunkOnePiece(hs[i]);
    }
  }

  /** A patch whose texts hold no line break but trailing carriage returns reads like
      the patch without those. */
  lemma ReturnsDropped(hs: seq<PatchHunk>)
    requires PatchOnePiece(hs)
    ensures PatchBreakFree(ChompPatch(hs))
    ensures SplitLines(PatchText(hs)) == SplitLines(PatchText(ChompPatch(hs)))
  {
    hide PatchOnePiece, PatchBreakFree, SplitLines, PrintLines, Unlines, ChompPatch, Chomp;
    ChompIsFree(hs);
    ChompPrint(hs);
    PrintBreakFree(ChompPatch(hs));
    var lines := PrintLines(hs);
    forall i | 0 <= i < |lines| ensures OnePiece(lines[i]) {
      assert ChompAll(lines)[i] == Chomp(lines[i]);
    }
    SplitReturns(lines);
    SplitUnlines(ChompAll(lines));
  }

  lemma {:induction false} ChompEdits(body: seq<BodyLine>)
    ensures |Edits(ChompBody(body))| == |Edits(body)|
    ensures forall i :: 0 <= i < |Edits(body)| ==>
              Edits(ChompBody(body))[i] == Edit(Edits(body)[i].kind, Chomp(Edits(body)[i].content))
  {
    hide Chomp;
    if body != [] {
      ChompEdits(body[1..]);
      assert ChompBody(body)[1..] == ChompBody(body[1..]);
    }
  }

  lemma ChompSidesCons(a: seq<Edit>, b: seq<Edit>)
    requires |a| == |b| > 0 && b[0] == Edit(a[0].kind, Chomp(a[0].content))
    requires NewSide(b[1..]) == ChompAll(NewSide(a[1..])) && OldSide(b[1..]) == ChompAll(OldSide(a[1..]))
    ensures NewSide(b) == ChompAll(NewSide(a)) && OldSide(b) == ChompAll(OldSide(a))
  {
    var text := a[0].content;
    assert ChompAll([text]) == [Chomp(text)] && ChompAll([]) == [];
    var news, olds := NewSide(a[1..]), OldSide(a[1..]);
    assert [] + news == news && [] + olds == olds;
    assert [] + ChompAll(news) == ChompAll(news) && [] + ChompAll(olds) == ChompAll(olds);
    hide Chomp;
    ChompConcat([text], news);
    ChompConcat([text], olds);
    hide ChompAll;
  }

  lemma {:induction false} ChompSides(a: seq<Edit>, b: seq<Edit>)
    requires |a| == |b| && forall i :: 0 <= i < |a| ==> b[i] == Edit(a[i].kind, Chomp(a[i].content))
    ensures NewSide(b) == ChompAll(NewSide(a)) && OldSide(b) == ChompAll(OldSide(a))
  {
    hide Chomp;
    if a != [] {
      ChompSides(a[1..], b[1..]);
      hide NewSide, OldSide, ChompAll;
      ChompSidesCons(a, b);
    }
  }

  lemma ChompHunkSides(h: PatchHunk)
    ensures NewSide(Edits(ChompHunk(h).body)) == ChompAll(NewSide(Edits(h.body)))
    ensures OldSide(Edits(ChompHunk(h).body)) == ChompAll(OldSide(Edits(h.body)))
    ensures ChompHunk(h).oldStart == h.oldStart && ChompHunk(h).newStart == h.newStart
  {
    ChompEdits(h.body);
    ChompSides(Edits(h.body), Edits(ChompBody(h.body)));
  }

  lemma ChompSlice(lines: seq<string>, a: nat, b: nat)
    requires a <= b <= |lines|
    ensures ChompAll(lines)[a..b] == ChompAll(lines[a..b])
  {
    hide Chomp;
  }

  lemma {:induction false} ChompTurns(o: seq<string>, n: seq<string>, hs: seq<PatchHunk>, oi: nat, ni: nat)
    requires oi <= |o| && ni <= |n| && Turns(o, n, hs, oi, ni)
    ensures Turns(ChompAll(o), ChompAll(n), ChompPatch(hs), oi, ni)
    decreases |hs|
  {
    hide Chomp, Edits, NewSide, OldSide, ChompAll, ChompHunk;
    if hs == [] {
      ChompSlice(o, oi, |o|);
      ChompSlice(n, ni, |n|);
      assert ChompPatch(hs) == [] && ChompAll(o)[oi..] == ChompAll(o)[oi..|o|] && ChompAll(n)[ni..] == ChompAll(n)[ni..|n|];
      assert o[oi..] == o[oi..|o|] && n[ni..] == n[ni..|n|];
    } else {
      var h := hs[0];
      ChompHunkSides(h);
      var olds, news := OldSide(Edits(h.body)), NewSide(Edits(h.body));
      var ob, nb := Before(h.oldStart, |olds|), Before(h.newStart, |news|);
      ChompSlice(o, oi, ob);
      ChompSlice(n, ni, nb);
      ChompSlice(o, ob, ob + |olds|);
      ChompSlice(n, nb, nb + |news|);
      ChompTurns(o, n, hs[1..], ob + |olds|, nb + |news|);
      assert ChompPatch(hs)[0] == ChompHunk(h) && ChompPatch(hs)[1..] == ChompPatch(hs[1..]);
    }
  }

  lemma ChompMarkers(hs: seq<PatchHunk>)
    ensures MarkerFree(ChompPatch(hs)) <==> MarkerFree(hs)
  {
    hide Chomp;
    forall i, j | 0 <= i < |hs| && 0 <= j < |hs[i].body| ensures ChompPatch(hs)[i].body[j].Line? <==> hs[i].body[j].Line? {
    }
    if MarkerFree(ChompPatch(hs)) {
      forall i, j | 0 <= i < |hs| && 0 <= j < |hs[i].body| ensures hs[i].body[j].Line? {
        assert ChompPatch(hs)[i].body[j].Line?;
      }
    }
  }

  lemma ChompNumbers(h: PatchHunk, j: nat)
    requires j <= |h.body|
    ensures NewNumber(ChompHunk(h), j) == NewNumber(h, j) && OldNumber(ChompHunk(h), j) == OldNumber(h, j)
    ensures Markers(ChompHunk(h).body[..j]) == Markers(h.body[..j])
  {
    assert ChompBody(h.body)[..j] == ChompBody(h.body[..j]);
    ChompEdits(h.body[..j]);
    ChompSides(Edits(h.body[..j]), Edits(ChompBody(h.body[..j])));
    SameMarkers(h.body[..j]);
  }

  lemma {:induction false} SameMarkers(body: seq<BodyLine>)
    ensures Markers(ChompBody(body)) == Markers(body)
  {
    if body != [] {
      SameMarkers(body[1..]);
      assert ChompBody(body)[1..] == ChompBody(body[1..]);
    }
  }

  // ---------------------------------------------------------------- exactly which lines are true

  /** As git prints them: every marker comes right after the last line of a file. */
  predicate MarkersLast(o: seq<string>, n: seq<string>, hs: seq<PatchHunk>) {
    forall i, j :: 0 <= i < |hs| && 0 <= j < |hs[i].body| && hs[i].body[j].NoEol? ==>
      OldNumber(hs[i], j) > |o| || NewNumber(hs[i], j) > |n|
  }

  /** All parsed lines are lines of the files. */
  ghost predicate AllTrue(o: seq<string>, n: seq<string>, hunks: seq<Hunk>) {
    forall i :: 0 <= i < |hunks| ==> HunkTrue(o, n, hunks[i])
  }

  ghost predicate HunkTrue(o: seq<string>, n: seq<string>, h: Hunk) {
    forall ln :: ln in h.lines ==> TrueLine(o, n, ln)
  }

  /** A patch with markers, as git prints it for files without a final newline: every
      number the parser puts on an edit is too high by the number of markers before it
      in its hunk, so it is the number of the edit's file line if and only if no marker
      precedes the edit in the hunk. Trailing carriage returns are dropped. */
  lemma MarkersShiftExactly(o: seq<string>, n: seq<string>, hs: seq<PatchHunk>, i: nat, j: nat)
    requires PatchOnePiece(hs) && Turns(o, n, hs, 0, 0)
    requires i < |hs| && j < |hs[i].body| && hs[i].body[j].Line?
    ensures var r := Parse(SplitLines(PatchText(hs)));
      && r.Ok? && |r.value| == |hs| && |r.value[i].lines| == |hs[i].body|
      && var e, ln, m := hs[i].body[j].edit, r.value[i].lines[j], Markers(hs[i].body[..j]);
         && ln.kind == e.kind && ln.content == Chomp(e.content)
         && (!e.kind.Del? ==>
               && 1 <= NewNumber(hs[i], j) <= |n| && Chomp(n[NewNumber(hs[i], j) - 1]) == ln.content
               && ln.newLine == Some(NewNumber(hs[i], j) + m))
         && (!e.kind.Add? ==>
               && 1 <= OldNumber(hs[i], j) <= |o| && Chomp(o[OldNumber(hs[i], j) - 1]) == ln.content
               && ln.oldLine == Some(OldNumber(hs[i], j) + m))
  {
    hide Parse, SplitLines, PatchText, Turns, NewNumber, OldNumber, Markers, PatchOnePiece, PatchBreakFree, Chomp,
      ShiftedLine, ChompHunk;
    ReturnsDropped(hs);
    ChompTurns(o, n, hs, 0, 0);
    ChompedLine(hs, i, j);
    FreeMarkersShift(ChompAll(o), ChompAll(n), ChompPatch(hs), i, j);
    ShiftedReturns(Parse(SplitLines(PatchText(hs))), o, n, hs, i, j);
  }

  lemma ChompedLine(hs: seq<PatchHunk>, i: nat, j: nat)
    requires i < |hs| && j < |hs[i].body|
    ensures |ChompPatch(hs)[i].body| == |hs[i].body| && ChompPatch(hs)[i].body[j] == ChompLine(hs[i].body[j])
  {
  }

  lemma ShiftedReturns(r: Result<seq<Hunk>>, o: seq<string>, n: seq<string>, hs: seq<PatchHunk>, i: nat, j: nat)
    requires i < |hs| && j < |hs[i].body| && hs[i].body[j].Line?
    requires |ChompPatch(hs)[i].body| == |hs[i].body| && ChompPatch(hs)[i].body[j] == ChompLine(hs[i].body[j])
    requires ShiftedLine(r, ChompAll(o), ChompAll(n), ChompPatch(hs), i, j)
    ensures r.Ok? && |r.value| == |hs| && |r.value[i].lines| == |hs[i].body|
    ensures var e, ln, m := hs[i].body[j].edit, r.value[i].lines[j], Markers(hs[i].body[..j]);
      && ln.kind == e.kind && ln.content == Chomp(e.content)
      && (!e.kind.Del? ==>
            && 1 <= NewNumber(hs[i], j) <= |n| && Chomp(n[NewNumber(hs[i], j) - 1]) == ln.content
            && ln.newLine == Some(NewNumber(hs[i], j) + m))
      && (!e.kind.Add? ==>
            && 1 <= OldNumber(hs[i], j) <= |o| && Chomp(o[OldNumber(hs[i], j) - 1]) == ln.content
            && ln.oldLine == Some(OldNumber(hs[i], j) + m))
  {
    ChompNumbers(hs[i], j);
    hide NewNumber, OldNumber, Markers, Chomp, ChompHunk;
    assert ChompPatch(hs)[i] == ChompHunk(hs[i]);
  }

  lemma MarkerUntrue(o: seq<string>, n: seq<string>, h: PatchHunk, j: nat, pos: nat)
    requires j < |h.body| && h.body[j].NoEol? && (OldNumber(h, j) > |o| || NewNumber(h, j) > |n|)
    ensures !HunkTrue(o, n, NumberedHunk(h, SeenEdits(h.body), pos))
  {
    SeenNumbers(h, j, pos);
    hide NumberedHunk, NewNumber, OldNumber, Markers;
    var lines := NumberedHunk(h, SeenEdits(h.body), pos).lines;
    assert lines[j] in lines && !TrueLine(o, n, lines[j]);
  }

  /** If a patch turns file `o` into file `n`, with markers only where git puts them,
      every number the parser puts on a line of the printed patch is the number of a
      file line with that text, less a trailing carriage return, if and only if the
      patch holds no marker. */
  lemma ParsedLinesTrue(o: seq<string>, n: seq<string>, hs: seq<PatchHunk>)
    requires PatchOnePiece(hs) && Turns(o, n, hs, 0, 0) && MarkersLast(o, n, hs)
    ensures var r := Parse(SplitLines(PatchText(hs)));
      && r.Ok? && |r.value| == |hs|
      && (forall i :: 0 <= i < |hs| ==> r.value[i].newStart == hs[i].newStart && r.value[i].oldStart == hs[i].oldStart)
      && (forall i :: 0 <= i < |hs| ==> Consecutive(r.value[i]))
      && (AllTrue(ChompAll(o), ChompAll(n), r.value) <==> MarkerFree(hs))
  {
    hide Parse, SplitLines, PatchText, Turns, Chomp, PatchOnePiece, PatchBreakFree, Consecutive, TrueLine, SeenHunks;
    var o', n', hs' := ChompAll(o), ChompAll(n), ChompPatch(hs);
    ParsedConsecutive(SplitLines(PatchText(hs)));
    ReturnsDropped(hs);
    ParsePrinted(hs');
    SeenStarts(hs', 0);
    ChompMarkers(hs);
    if MarkerFree(hs) {
      ChompTurns(o, n, hs, 0, 0);
      FreeLinesTrue(o', n', hs');
    } else {
      var i, j :| 0 <= i < |hs| && 0 <= j < |hs[i].body| && hs[i].body[j].NoEol?;
      var pos := SeenHunkAt(hs', 0, i);
      ChompNumbers(hs[i], j);
      hide NewNumber, OldNumber, Markers;
      MarkerUntrue(o', n', hs'[i], j, pos);
    }
  }

  lemma {:induction false} SeenStarts(hs: seq<PatchHunk>, base: nat)
    ensures |SeenHunks(hs, base)| == |hs|
    ensures forall i :: 0 <= i < |hs| ==>
              SeenHunks(hs, base)[i].newStart == hs[i].newStart && SeenHunks(hs, base)[i].oldStart == hs[i].oldStart
  {
    hide Header, SeenEdits;
    if hs != [] {
      SeenStarts(hs[1..], base + 1 + |hs[0].body|);
    }
  }

  // ---------------------------------------------------------------- exactly when nothing is lost

  /** Patches printed with context: a hunk with a marker holds old lines, unless the old
      file is empty. */
  predicate MarkedInContext(hs: seq<PatchHunk>) {
    forall i :: 0 <= i < |hs| && !BodyMarkerFree(hs[i].body) ==> OldSide(Edits(hs[i].body)) != [] || hs[i].oldStart == 0
  }

  lemma {:induction false} SomeMarkers(body: seq<BodyLine>)
    ensures Markers(body) == 0 <==> BodyMarkerFree(body)
  {
    if body != [] {
      SomeMarkers(body[1..]);
      assert body == [body[0]] + body[1..];
    }
  }

  lemma SeenOldLines(h: PatchHunk, pos: nat)
    ensures OldLines(NumberedHunk(h, SeenEdits(h.body), pos).lines) == |OldSide(Edits(h.body))| + Markers(h.body)
  {
    CountsAgree(NumberedHunk(h, SeenEdits(h.body), pos).lines, SeenEdits(h.body));
    SeenSides(h.body);
  }

  /** The arithmetic of a marked hunk: it reaches past the old file, or past the start
      of the next hunk. */
  lemma MarkedReaches(o: seq<string>, n: seq<string>, hs: seq<PatchHunk>, oi: nat, ni: nat, j: nat)
    requires oi <= |o| && ni <= |n| && hs != [] && Turns(o, n, hs, oi, ni)
    requires j < |hs[0].body| && (OldNumber(hs[0], j) > |o| || NewNumber(hs[0], j) > |n|)
    requires OldSide(Edits(hs[0].body)) != []
    ensures var olds := |OldSide(Edits(hs[0].body))|; var next := Before(hs[0].oldStart, olds) + olds;
      || next == |o|
      || (hs[1..] != [] && Before(hs[1].oldStart, |OldSide(Edits(hs[1].body))|) == next)
  {
    var h := hs[0];
    SidePrefix(h.body, j);
    hide Edits, NewSide, OldSide;
    var olds, news := OldSide(Edits(h.body)), NewSide(Edits(h.body));
    var next, nn := Before(h.oldStart, |olds|) + |olds|, Before(h.newStart, |news|) + |news|;
    if next < |o| {
      assert nn == |n|;
      TurnsLengths(o, n, hs[1..], next, nn);
    }
  }

  /** Both files have the same number of lines up to the next hunk. */
  lemma TurnsLengths(o: seq<string>, n: seq<string>, hs: seq<PatchHunk>, oi: nat, ni: nat)
    requires oi <= |o| && ni <= |n| && Turns(o, n, hs, oi, ni)
    ensures hs == [] ==> |o| - oi == |n| - ni
    ensures hs != [] ==>
              && Before(hs[0].oldStart, |OldSide(Edits(hs[0].body))|) - oi
                 == Before(hs[0].newStart, |NewSide(Edits(hs[0].body))|) - ni
              && Before(hs[0].newStart, |NewSide(Edits(hs[0].body))|) <= |n|
  {
    hide Edits, NewSide, OldSide;
    if hs == [] {
      assert |o[oi..]| == |n[ni..]|;
    } else {
      var ob := Before(hs[0].oldStart, |OldSide(Edits(hs[0].body))|);
      var nb := Before(hs[0].newStart, |NewSide(Edits(hs[0].body))|);
      assert |o[oi..ob]| == |n[ni..nb]|;
    }
  }

  lemma {:induction false} SidePrefix(body: seq<BodyLine>, j: nat)
    requires j <= |body|
    ensures |NewSide(Edits(body[..j]))| <= |NewSide(Edits(body))|
    ensures |OldSide(Edits(body[..j]))| <= |OldSide(Edits(body))|
  {
    if j > 0 {
      SidePrefix(body[1..], j - 1);
      assert body[..j][1..] == body[1..][..j - 1];
      EditsCons(body);
      EditsCons(body[..j]);
    }
  }

  lemma EditsCons(body: seq<BodyLine>)
    requires body != []
    ensures |NewSide(Edits(body))| == |NewSide(Edits(body[1..]))| + (if body[0].NoEol? || body[0].edit.kind.Del? then 0 else 1)
    ensures |OldSide(Edits(body))| == |OldSide(Edits(body[1..]))| + (if body[0].NoEol? || body[0].edit.kind.Add? then 0 else 1)
  {
    if body[0].NoEol? {
      assert Edits(body) == Edits(body[1..]);
    } else {
      assert Edits(body)[1..] == Edits(body[1..]);
    }
  }

  lemma TailMarkers(o: seq<string>, n: seq<string>, hs: seq<PatchHunk>)
    requires hs != [] && MarkersLast(o, n, hs) && MarkedInContext(hs)
    ensures MarkersLast(o, n, hs[1..]) && MarkedInContext(hs[1..])
  {
    hide Edits, OldSide, OldNumber, NewNumber;
    assert forall i :: 0 <= i < |hs[1..]| ==> hs[1..][i] == hs[i + 1];
  }

  /** Old lines before the parsed hunk's. */
  function ParsedBefore(h: Hunk): int {
    if OldLines(h.lines) == 0 then h.oldStart else h.oldStart - 1
  }

  lemma RebuildCons(o: seq<string>, h: Hunk, rest: seq<Hunk>, oi: nat)
    requires oi <= |o|
    ensures var ob, count := ParsedBefore(h), OldLines(h.lines);
      && (!(oi <= ob && ob + count <= |o|) ==> Rebuild(o, [h] + rest, oi) == None)
      && (oi <= ob && ob + count <= |o| && Rebuild(o, rest, ob + count) == None ==> Rebuild(o, [h] + rest, oi) == None)
  {
    assert ([h] + rest)[1..] == rest;
    hide OldLines, NewText;
  }

  /** The first parsed hunk counts a marker as an old line. */
  lemma SeenFirst(hs: seq<PatchHunk>, base: nat) returns (seen: Hunk)
    requires hs != []
    ensures SeenHunks(hs, base) == [seen] + SeenHunks(hs[1..], base + 1 + |hs[0].body|)
    ensures seen.oldStart == hs[0].oldStart
    ensures OldLines(seen.lines) == |OldSide(Edits(hs[0].body))| + Markers(hs[0].body)
  {
    seen := NumberedHunk(hs[0], SeenEdits(hs[0].body), base + 1);
    SeenOldLines(hs[0], base + 1);
    UnfoldHunks(hs, base);
    hide SeenHunks, NumberedHunks, Edits, OldSide, OldLines, Markers, SeenEdits, Header;
  }

  lemma MarkedFacts(o: seq<string>, n: seq<string>, hs: seq<PatchHunk>) returns (j: nat)
    requires hs != [] && MarkersLast(o, n, hs) && MarkedInContext(hs) && !BodyMarkerFree(hs[0].body)
    ensures j < |hs[0].body| && (OldNumber(hs[0], j) > |o| || NewNumber(hs[0], j) > |n|)
    ensures OldSide(Edits(hs[0].body)) != [] || hs[0].oldStart == 0
    ensures Markers(hs[0].body) > 0
  {
    hide Edits, OldSide, OldNumber, NewNumber, Markers;
    SomeMarkers(hs[0].body);
    j :| 0 <= j < |hs[0].body| && hs[0].body[j].NoEol?;
  }

  /** A parsed hunk with more old lines than its file has stops the rebuilding. */
  lemma MarkedBlocks(o: seq<string>, n: seq<string>, hs: seq<PatchHunk>, oi: nat, ni: nat, base: nat)
    requires oi <= |o| && ni <= |n| && hs != [] && Turns(o, n, hs, oi, ni)
    requires MarkersLast(o, n, hs) && MarkedInContext(hs) && !BodyMarkerFree(hs[0].body)
    ensures Rebuild(o, SeenHunks(hs, base), oi) == None
  {
    hide SeenEdits, NewSide, OldSide, Edits, MarkersLast, MarkedInContext, BodyMarkerFree, OldLines, Markers,
      SeenHunks, Turns,
      Rebuild, OldNumber, NewNumber;
    var h := hs[0];
    var olds := OldSide(Edits(h.body));
    var j := MarkedFacts(o, n, hs);
    var seen := SeenFirst(hs, base);
    var rest := SeenHunks(hs[1..], base + 1 + |h.body|);
    RebuildCons(o, seen, rest, oi);
    if olds != [] {
      MarkedReaches(o, n, hs, oi, ni, j);
      var after := Before(h.oldStart, |olds|) + |olds| + Markers(h.body);
      if hs[1..] != [] && after <= |o| {
        NextBlocked(o, hs[1..], base + 1 + |h.body|, after);
      }
    }
  }

  lemma NextBlocked(o: seq<string>, hs: seq<PatchHunk>, base: nat, oi: nat)
    requires hs != [] && oi <= |o| && Before(hs[0].oldStart, |OldSide(Edits(hs[0].body))|) < oi
    ensures Rebuild(o, SeenHunks(hs, base), oi) == None
  {
    hide Edits, OldSide, OldLines, SeenHunks, Rebuild, Markers;
    var seen := SeenFirst(hs, base);
    RebuildCons(o, seen, SeenHunks(hs[1..], base + 1 + |hs[0].body|), oi);
  }

  lemma TurnsTail(o: seq<string>, n: seq<string>, hs: seq<PatchHunk>, oi: nat, ni: nat) returns (oi': nat, ni': nat)
    requires oi <= |o| && ni <= |n| && hs != [] && Turns(o, n, hs, oi, ni)
    ensures oi' == Before(hs[0].oldStart, |OldSide(Edits(hs[0].body))|) + |OldSide(Edits(hs[0].body))|
    ensures oi' <= |o| && ni' <= |n| && Turns(o, n, hs[1..], oi', ni')
  {
    hide Edits, OldSide, NewSide;
    oi' := Before(hs[0].oldStart, |OldSide(Edits(hs[0].body))|) + |OldSide(Edits(hs[0].body))|;
    ni' := Before(hs[0].newStart, |NewSide(Edits(hs[0].body))|) + |NewSide(Edits(hs[0].body))|;
  }

  lemma {:induction false} MarkersBlockRebuild(o: seq<string>, n: seq<string>, hs: seq<PatchHunk>, oi: nat, ni: nat, base: nat)
    requires oi <= |o| && ni <= |n| && Turns(o, n, hs, oi, ni) && hs != []
    requires MarkersLast(o, n, hs) && MarkedInContext(hs) && !MarkerFree(hs)
    ensures Rebuild(o, SeenHunks(hs, base), oi) == None
    decreases |hs|
  {
    hide Edits, OldSide, NewSide, MarkersLast, MarkedInContext, MarkerFree, BodyMarkerFree, Rebuild, SeenHunks,
      OldLines,
      Markers, Turns;
    if BodyMarkerFree(hs[0].body) {
      MarkerFreeCons(hs);
      NotEmpty(hs[1..]);
      SomeMarkers(hs[0].body);
      TailMarkers(o, n, hs);
      var seen := SeenFirst(hs, base);
      var oi', ni' := TurnsTail(o, n, hs, oi, ni);
      MarkersBlockRebuild(o, n, hs[1..], oi', ni', base + 1 + |hs[0].body|);
      RebuildCons(o, seen, SeenHunks(hs[1..], base + 1 + |hs[0].body|), oi);
    } else {
      MarkedBlocks(o, n, hs, oi, ni, base);
    }
  }

  lemma NotEmpty(hs: seq<PatchHunk>)
    requires !MarkerFree(hs)
    ensures hs != []
  {
  }

  lemma ChompLast(o: seq<string>, n: seq<string>, hs: seq<PatchHunk>)
    ensures MarkersLast(o, n, hs) ==> MarkersLast(ChompAll(o), ChompAll(n), ChompPatch(hs))
    ensures MarkedInContext(hs) ==> MarkedInContext(ChompPatch(hs))
  {
    var hs' := ChompPatch(hs);
    forall i, j | 0 <= i < |hs| && 0 <= j < |hs[i].body|
      ensures hs'[i].body[j].NoEol? <==> hs[i].body[j].NoEol?
      ensures OldNumber(hs'[i], j) == OldNumber(hs[i], j) && NewNumber(hs'[i], j) == NewNumber(hs[i], j)
    {
      ChompedLine(hs, i, j);
      ChompNumbers(hs[i], j);
    }
    forall i | 0 <= i < |hs|
      ensures |OldSide(Edits(hs'[i].body))| == |OldSide(Edits(hs[i].body))| && hs'[i].oldStart == hs[i].oldStart
      ensures BodyMarkerFree(hs'[i].body) ==> BodyMarkerFree(hs[i].body)
    {
      ChompHunkSides(hs[i]);
      ChompMarkerFree(hs[i].body);
    }
    hide OldNumber, NewNumber, Edits, OldSide, ChompPatch, BodyMarkerFree;
  }

  lemma ChompMarkerFree(body: seq<BodyLine>)
    ensures BodyMarkerFree(ChompBody(body)) <==> BodyMarkerFree(body)
  {
    hide Chomp;
    forall j | 0 <= j < |body| ensures ChompBody(body)[j].Line? <==> body[j].Line? {
    }
    if BodyMarkerFree(ChompBody(body)) {
      forall j | 0 <= j < |body| ensures body[j].Line? {
        assert ChompBody(body)[j].Line?;
      }
    }
  }

  /** Parsing loses nothing of a patch, less trailing carriage returns, if and only if the
      patch holds no marker: applying the parsed hunks to the old file gives the new
      file then, and otherwise they do not fit the old file. */
  lemma ParsedHunksRebuild(o: seq<string>, n: seq<string>, hs: seq<PatchHunk>)
    requires PatchOnePiece(hs) && Turns(o, n, hs, 0, 0) && MarkersLast(o, n, hs) && MarkedInContext(hs)
    ensures var r := Parse(SplitLines(PatchText(hs)));
      r.Ok? && Rebuild(ChompAll(o), r.value, 0) == if MarkerFree(hs) then Some(ChompAll(n)) else None
  {
    hide Parse, SplitLines, PatchText, Turns, Chomp, PatchOnePiece, PatchBreakFree, MarkersLast, MarkedInContext,
      MarkerFree,
      SeenHunks, Rebuild;
    ReturnsDropped(hs);
    ChompTurns(o, n, hs, 0, 0);
    ChompMarkers(hs);
    ChompLast(o, n, hs);
    if MarkerFree(hs) {
      FreeHunksRebuild(ChompAll(o), ChompAll(n), ChompPatch(hs));
    } else {
      ParsePrinted(ChompPatch(hs));
      NotEmpty(ChompPatch(hs));
      MarkersBlockRebuild(ChompAll(o), ChompAll(n), ChompPatch(hs), 0, 0, 0);
    }
  }

  const EXAMPLE_BODY := [Line(Edit(Del, "a")), NoEol, Line(Edit(Add, "b"))]
  const EXAMPLE := PatchHunk(1, None, 1, None, "", EXAMPLE_BODY)

  /** Replacing the only line of a file that ends without a newline: the marker takes
      a line number, and the added line 1 is reported as line 2. */
  lemma MarkerShiftsNumbers()
    ensures Turns(["a"], ["b"], [EXAMPLE], 0, 0)
    ensures var r := Parse(SplitLines(PatchText([EXAMPLE])));
      && r.Ok? && |r.value| == 1 && |r.value[0].lines| == 3
      && r.value[0].lines[2] == DiffLine(Add, "b", Some(2), None, Some(4))
  {
    ExampleTurns();
    ExampleSeen();
    assert PatchBreakFree([EXAMPLE]);
    ParsePrinted([EXAMPLE]);
    hide Parse, SplitLines, PatchText, Turns, NumberedHunk;
    assert SeenHunks([EXAMPLE], 0) == [NumberedHunk(EXAMPLE, SeenEdits(EXAMPLE_BODY), 1)];
  }

  lemma ExampleSeen()
    ensures var lines := NumberedHunk(EXAMPLE, SeenEdits(EXAMPLE_BODY), 1).lines;
      |lines| == 3 && lines[2] == DiffLine(Add, "b", Some(2), None, Some(4))
  {
    hide Header;
    var seen := SeenEdits(EXAMPLE_BODY);
    assert seen[..2] == [Edit(Del, "a"), Edit(Ctx, MARKER)];
    assert seen[..2][1..] == [Edit(Ctx, MARKER)];
    assert NewSide([Edit(Ctx, MARKER)]) == [MARKER];
  }

  lemma ExampleTurns()
    ensures Turns(["a"], ["b"], [EXAMPLE], 0, 0)
  {
    assert EXAMPLE_BODY[1..][1..] == [Line(Edit(Add, "b"))];
    var edits := Edits(EXAMPLE_BODY);
    assert edits == [Edit(Del, "a"), Edit(Add, "b")];
    assert edits[1..] == [Edit(Add, "b")];
    assert edits[1..][1..] == [];
    assert OldSide(edits[1..]) == [] && NewSide(edits[1..]) == ["b"];
    assert OldSide(edits) == ["a"] && NewSide(edits) == ["b"];
    assert [EXAMPLE][1..] == [];
    assert Turns(["a"], ["b"], [], 1, 1);
  }
}
