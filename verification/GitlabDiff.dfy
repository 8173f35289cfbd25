/** `_parse_gitlab_diff` (aegis/providers/gitlab.py): what it makes of any text. */
module GitlabDiff {
  import opened Schemas
  import opened DiffText

  // ---------------------------------------------------------------- the parser

  /** The loop's variables; `cur` is the last hunk, None while there is none. */
  datatype Parsing = Parsing(hunks: seq<Hunk>, pos: nat, newLn: int, oldLn: int)

  function LineStep(p: Parsing, raw: string): Result<Parsing> {
    if IsHeader(raw) then
      match ParseHeader(raw)
      case None => Error
      case Some((o, n)) => Ok(Parsing(p.hunks + [Hunk(o, 0, n, 0, raw, [])], p.pos + 1, n, o))
    else if p.hunks == [] then Ok(p)
    else Ok(BodyStep(p, raw))
  }

  function BodyStep(p: Parsing, raw: string): Parsing
    requires p.hunks != []
  {
    var kind := if raw != "" && raw[0] == '+' then Add else if raw != "" && raw[0] == '-' then Del else Ctx;
    var line := DiffLine(kind, if raw == "" then "" else raw[1..],
                         if kind.Del? then None else Some(p.newLn),
                         if kind.Add? then None else Some(p.oldLn), Some(p.pos + 1));
    Parsing(Grow(p.hunks, [line]), p.pos + 1,
            p.newLn + (if kind.Del? then 0 else 1), p.oldLn + (if kind.Add? then 0 else 1))
  }

  /** Appends to the lines of the last hunk. */
  function Grow(hunks: seq<Hunk>, lines: seq<DiffLine>): seq<Hunk>
    requires hunks != []
  {
    var last := hunks[|hunks| - 1];
    hunks[|hunks| - 1 := last.(lines := last.lines + lines)]
  }

  function ParseFrom(p: Parsing, lines: seq<string>): Result<seq<Hunk>>
    decreases |lines|
  {
    if lines == [] then Ok(p.hunks)
    else
      match LineStep(p, lines[0])
      case Error => Error
      case Ok(q) => ParseFrom(q, lines[1..])
  }

  function Parse(lines: seq<string>): Result<seq<Hunk>> {
    ParseFrom(Parsing([], 0, 0, 0), lines)
  }

  // ---------------------------------------------------------------- what a result says of the text

  function NewLines(lines: seq<DiffLine>): nat {
    if lines == [] then 0 else (if lines[0].kind.Del? then 0 else 1) + NewLines(lines[1..])
  }

  function OldLines(lines: seq<DiffLine>): nat {
    if lines == [] then 0 else (if lines[0].kind.Add? then 0 else 1) + OldLines(lines[1..])
  }

  /** Each side's numbers run consecutively from the hunk's start. */
  predicate Consecutive(h: Hunk) {
    forall j :: 0 <= j < |h.lines| ==>
      && (!h.lines[j].kind.Del? ==> h.lines[j].newLine == Some(h.newStart + NewLines(h.lines[..j])))
      && (!h.lines[j].kind.Add? ==> h.lines[j].oldLine == Some(h.oldStart + OldLines(h.lines[..j])))
  }

  /** The line is what the text line says, apart from its numbers. */
  predicate ReadsAs(raw: string, ln: DiffLine) {
    && !IsHeader(raw)
    && ln.kind == (if raw != "" && raw[0] == '+' then Add else if raw != "" && raw[0] == '-' then Del else Ctx)
    && ln.content == (if raw == "" then "" else raw[1..])
    && (ln.newLine.Some? <==> !ln.kind.Del?) && (ln.oldLine.Some? <==> !ln.kind.Add?)
  }

  /** The text lines of one hunk: its header, which names its start lines and sits at
      position `pos + 1`, and then one text line for each line. */
  predicate HunkExplained(texts: seq<string>, h: Hunk, pos: nat) {
    && |texts| == 1 + |h.lines|
    && IsHeader(texts[0]) && h.header == texts[0] && ParseHeader(texts[0]) == Some((h.oldStart, h.newStart))
    && h.oldCount == h.newCount == 0
    && Consecutive(h)
    && forall j :: 0 <= j < |h.lines| ==> ReadsAs(texts[1 + j], h.lines[j]) && h.lines[j].position == Some(pos + 2 + j)
  }

  /** The number of text lines that hunks take. */
  function Size(hunks: seq<Hunk>): nat {
    if hunks == [] then 0 else Size(hunks[..|hunks| - 1]) + 1 + |hunks[|hunks| - 1].lines|
  }

  /** The hunks account for every text line from the first header on, in order; no
      header comes before. Positions are offsets from the first header. */
  predicate Explains(texts: seq<string>, hunks: seq<Hunk>)
    decreases |hunks|
  {
    if hunks == [] then forall k :: 0 <= k < |texts| ==> !IsHeader(texts[k])
    else
      var init, h := hunks[..|hunks| - 1], hunks[|hunks| - 1];
      var n := |texts| - 1 - |h.lines|;
      n >= 0 && HunkExplained(texts[n..], h, Size(init)) && Explains(texts[..n], init)
  }

  /** A header that the source cannot read. */
  predicate BadHeader(raw: string) {
    IsHeader(raw) && ParseHeader(raw).None?
  }

  predicate Explained(texts: seq<string>, p: Parsing) {
    && Explains(texts, p.hunks) && p.pos == Size(p.hunks)
    && (p.hunks != [] ==>
          var h := p.hunks[|p.hunks| - 1];
          p.newLn == h.newStart + NewLines(h.lines) && p.oldLn == h.oldStart + OldLines(h.lines))
  }

  lemma {:induction false} LinesSnoc(lines: seq<DiffLine>, ln: DiffLine)
    ensures NewLines(lines + [ln]) == NewLines(lines) + (if ln.kind.Del? then 0 else 1)
    ensures OldLines(lines + [ln]) == OldLines(lines) + (if ln.kind.Add? then 0 else 1)
  {
    if lines != [] {
      assert (lines + [ln])[1..] == lines[1..] + [ln];
      LinesSnoc(lines[1..], ln);
    }
  }

  lemma HunkGrows(texts: seq<string>, h: Hunk, pos: nat, raw: string, ln: DiffLine)
    requires HunkExplained(texts, h, pos) && ReadsAs(raw, ln) && ln.position == Some(pos + 2 + |h.lines|)
    requires !ln.kind.Del? ==> ln.newLine == Some(h.newStart + NewLines(h.lines))
    requires !ln.kind.Add? ==> ln.oldLine == Some(h.oldStart + OldLines(h.lines))
    ensures HunkExplained(texts + [raw], h.(lines := h.lines + [ln]), pos)
  {
    hide ParseHeader, ReadsAs, NewLines, OldLines, IsHeader, Consecutive;
    ConsecutiveGrows(h, ln);
  }

  lemma ConsecutiveGrows(h: Hunk, ln: DiffLine)
    requires Consecutive(h)
    requires !ln.kind.Del? ==> ln.newLine == Some(h.newStart + NewLines(h.lines))
    requires !ln.kind.Add? ==> ln.oldLine == Some(h.oldStart + OldLines(h.lines))
    ensures Consecutive(h.(lines := h.lines + [ln]))
  {
    hide NewLines, OldLines;
    var grown := h.lines + [ln];
    assert h.lines[..|h.lines|] == h.lines;
    assert forall j :: 0 <= j <= |h.lines| ==> grown[..j] == h.lines[..j];
  }

  lemma ExplainsSnoc(before: seq<string>, after: seq<string>, init: seq<Hunk>, h: Hunk)
    requires |after| == 1 + |h.lines|
    ensures Explains(before + after, init + [h]) <==> HunkExplained(after, h, Size(init)) && Explains(before, init)
    ensures Size(init + [h]) == Size(init) + 1 + |h.lines|
  {
    hide HunkExplained;
    assert (init + [h])[..|init|] == init;
    assert (before + after)[|before|..] == after && (before + after)[..|before|] == before;
  }

  lemma EmptyHunk(raw: string, h: Hunk, pos: nat)
    requires IsHeader(raw) && ParseHeader(raw) == Some((h.oldStart, h.newStart))
    requires h.oldCount == h.newCount == 0 && h.header == raw && h.lines == []
    ensures HunkExplained([raw], h, pos) && NewLines(h.lines) == OldLines(h.lines) == 0
  {
    hide ParseHeader;
  }

  lemma HeaderExplained(texts: seq<string>, p: Parsing, raw: string)
    requires Explained(texts, p) && IsHeader(raw) && ParseHeader(raw).Some?
    ensures Explained(texts + [raw], LineStep(p, raw).value)
  {
    var (o, n) := ParseHeader(raw).value;
    hide ParseHeader, Explains, HunkExplained, NewLines, OldLines, Size, IsHeader;
    var h := Hunk(o, 0, n, 0, raw, []);
    EmptyHunk(raw, h, Size(p.hunks));
    ExplainsSnoc(texts, [raw], p.hunks, h);
  }

  lemma ExplainsSplit(texts: seq<string>, hunks: seq<Hunk>) returns (before: seq<string>, after: seq<string>)
    requires hunks != [] && Explains(texts, hunks)
    ensures var k := |hunks| - 1;
      && hunks == hunks[..k] + [hunks[k]]
      && texts == before + after && |after| == 1 + |hunks[k].lines|
      && HunkExplained(after, hunks[k], Size(hunks[..k])) && Explains(before, hunks[..k])
  {
    hide HunkExplained, IsHeader, Size;
    var k := |hunks| - 1;
    var n := |texts| - 1 - |hunks[k].lines|;
    before, after := texts[..n], texts[n..];
    assert Explains(before, hunks[..k]);
    hide Explains;
  }

  /** The line that a body step adds. */
  lemma StepLine(p: Parsing, raw: string) returns (ln: DiffLine)
    requires p.hunks != [] && !IsHeader(raw)
    ensures ReadsAs(raw, ln) && ln.position == Some(p.pos + 1)
    ensures !ln.kind.Del? ==> ln.newLine == Some(p.newLn)
    ensures !ln.kind.Add? ==> ln.oldLine == Some(p.oldLn)
    ensures var q, k := BodyStep(p, raw), |p.hunks| - 1;
      && q.hunks == p.hunks[..k] + [p.hunks[k].(lines := p.hunks[k].lines + [ln])] && q.pos == p.pos + 1
      && q.newLn == p.newLn + (if ln.kind.Del? then 0 else 1) && q.oldLn == p.oldLn + (if ln.kind.Add? then 0 else 1)
  {
    var k := |p.hunks| - 1;
    ln := BodyStep(p, raw).hunks[k].lines[|p.hunks[k].lines|];
  }

  lemma BodyExplained(texts: seq<string>, p: Parsing, raw: string)
    requires Explained(texts, p) && !IsHeader(raw) && p.hunks != []
    ensures Explained(texts + [raw], BodyStep(p, raw))
  {
    hide Explains, HunkExplained, NewLines, OldLines, Size, IsHeader, BodyStep, ReadsAs;
    var before, after := ExplainsSplit(texts, p.hunks);
    var ln := StepLine(p, raw);
    var k := |p.hunks| - 1;
    var init, h := p.hunks[..k], p.hunks[k];
    LinesSnoc(h.lines, ln);
    ExplainsSnoc(before, after, init, h);
    HunkGrows(after, h, Size(init), raw, ln);
    ExplainsSnoc(before, after + [raw], init, h.(lines := h.lines + [ln]));
    assert texts + [raw] == before + (after + [raw]);
  }

  lemma StepExplained(texts: seq<string>, p: Parsing, raw: string)
    requires Explained(texts, p) && LineStep(p, raw).Ok?
    ensures Explained(texts + [raw], LineStep(p, raw).value)
  {
    if IsHeader(raw) {
      HeaderExplained(texts, p, raw);
    } else if p.hunks != [] {
      BodyExplained(texts, p, raw);
    } else {
      hide ParseHeader;
    }
  }

  lemma {:induction false} ParseExplained(done: seq<string>, p: Parsing, rest: seq<string>)
    requires Explained(done, p)
    ensures ParseFrom(p, rest).Error? <==> exists i :: 0 <= i < |rest| && BadHeader(rest[i])
    ensures ParseFrom(p, rest).Ok? ==> Explains(done + rest, ParseFrom(p, rest).value)
    decreases |rest|
  {
    if rest == [] {
      assert done + rest == done;
    } else {
      assert LineStep(p, rest[0]).Error? <==> BadHeader(rest[0]);
      hide BadHeader, BodyStep, ParseHeader;
      if LineStep(p, rest[0]).Ok? {
        StepExplained(done, p, rest[0]);
        hide Explained, Explains, LineStep;
        ParseExplained(done + [rest[0]], LineStep(p, rest[0]).value, rest[1..]);
        assert done + [rest[0]] + rest[1..] == done + rest;
        assert rest == [rest[0]] + rest[1..];
      }
    }
  }

  lemma NothingExplained()
    ensures Explained([], Parsing([], 0, 0, 0))
  {
  }

  /** For every text: the parse fails exactly when some header is unreadable, and
      otherwise accounts for every line. */
  lemma ParsedIsExplained(texts: seq<string>)
    ensures Parse(texts).Error? <==> exists i :: 0 <= i < |texts| && BadHeader(texts[i])
    ensures Parse(texts).Ok? ==> Explains(texts, Parse(texts).value)
  {
    hide Explained, Explains, BadHeader, ParseFrom;
    NothingExplained();
    ParseExplained([], Parsing([], 0, 0, 0), texts);
    assert [] + texts == texts;
  }

  /** Explained hunks, one by one: where in the text the i-th hunk lies. */
  lemma {:induction false} ExplainedHunk(texts: seq<string>, hunks: seq<Hunk>, i: nat) returns (first: nat)
    requires Explains(texts, hunks) && i < |hunks|
    ensures first + Size(hunks) == |texts|
    ensures forall k :: 0 <= k < first ==> !IsHeader(texts[k])
    ensures var at := first + Size(hunks[..i]);
      at + 1 + |hunks[i].lines| <= |texts| && HunkExplained(texts[at..at + 1 + |hunks[i].lines|], hunks[i], Size(hunks[..i]))
    decreases |hunks|
  {
    hide HunkExplained, IsHeader, Explains, Size;
    var k := |hunks| - 1;
    var before, after := ExplainsSplit(texts, hunks);
    var init, h := hunks[..k], hunks[k];
    ExplainsSnoc(before, after, init, h);
    if init == [] {
      NoHunks(before);
      first := |before|;
    } else if i == k {
      first := ExplainedHunk(before, init, 0);
    } else {
      first := ExplainedHunk(before, init, i);
      assert init[..i] == hunks[..i];
      var at := first + Size(hunks[..i]);
      assert before[at..at + 1 + |hunks[i].lines|] == texts[at..at + 1 + |hunks[i].lines|];
    }
    if i == k {
      assert texts[|before|..|before| + |after|] == after;
    }
  }

  /** A parsed line has a number on each side that it belongs to. */
  lemma ExplainedNumbers(texts: seq<string>, hunks: seq<Hunk>, i: nat, j: nat)
    requires Explains(texts, hunks) && i < |hunks| && j < |hunks[i].lines|
    ensures hunks[i].lines[j].newLine.Some? <==> !hunks[i].lines[j].kind.Del?
  {
    hide Explains, Size, Consecutive, IsHeader, ParseHeader;
    var first := ExplainedHunk(texts, hunks, i);
    var at := first + Size(hunks[..i]);
    assert ReadsAs(texts[at..at + 1 + |hunks[i].lines|][1 + j], hunks[i].lines[j]);
  }

  /** In every parsed text, each side's numbers run consecutively from the hunk's start. */
  lemma ParsedConsecutive(texts: seq<string>)
    ensures Parse(texts).Ok? ==> forall i :: 0 <= i < |Parse(texts).value| ==> Consecutive(Parse(texts).value[i])
  {
    hide Parse, Explains, Size, Consecutive, IsHeader, ParseHeader, BadHeader, ReadsAs;
    ParsedIsExplained(texts);
    if Parse(texts).Ok? {
      var hunks := Parse(texts).value;
      forall i | 0 <= i < |hunks| ensures Consecutive(hunks[i]) {
        var first := ExplainedHunk(texts, hunks, i);
      }
    }
  }

  lemma NoHunks(texts: seq<string>)
    ensures Size([]) == 0
    ensures Explains(texts, []) ==> forall k :: 0 <= k < |texts| ==> !IsHeader(texts[k])
  {
  }

  /** `_parse_gitlab_diff`: fails exactly when some header is unreadable; otherwise the
      hunks account for every line of the text from the first header on. */
  method ParseGitlabDiff(diff: string) returns (r: Result<seq<Hunk>>)
    ensures r == Parse(SplitLines(diff))
    ensures r.Error? <==> exists i :: 0 <= i < |SplitLines(diff)| && BadHeader(SplitLines(diff)[i])
    ensures r.Ok? ==> Explains(SplitLines(diff), r.value)
  {
    hide SplitLines, ParseHeader, Explains, BadHeader;
    ParsedIsExplained(SplitLines(diff));
    var lines := SplitLines(diff);
    var hunks: seq<Hunk> := [];
    var pos, newLn, oldLn := 0, 0, 0;
    for k := 0 to |lines|
      invariant pos >= 0
      invariant ParseFrom(Parsing(hunks, pos, newLn, oldLn), lines[k..]) == Parse(lines)
    {
      var raw := lines[k];
      assert lines[k..][0] == raw && lines[k..][1..] == lines[k + 1..];
      if IsHeader(raw) {
        pos := pos + 1;
        var starts := ParseHeader(raw);
        if starts.None? {
          return Error;
        }
        oldLn, newLn := starts.value.0, starts.value.1;
        hunks := hunks + [Hunk(oldLn, 0, newLn, 0, raw, [])];
      } else if hunks != [] {
        pos := pos + 1;
        if raw != "" && raw[0] == '+' {
          hunks := Grow(hunks, [DiffLine(Add, raw[1..], Some(newLn), None, Some(pos))]);
          newLn := newLn + 1;
        } else if raw != "" && raw[0] == '-' {
          hunks := Grow(hunks, [DiffLine(Del, raw[1..], None, Some(oldLn), Some(pos))]);
          oldLn := oldLn + 1;
        } else {
          hunks := Grow(hunks, [DiffLine(Ctx, if raw == "" then "" else raw[1..], Some(newLn), Some(oldLn), Some(pos))]);
          newLn := newLn + 1;
          oldLn := oldLn + 1;
        }
      }
    }
    return Ok(hunks);
  }
}
