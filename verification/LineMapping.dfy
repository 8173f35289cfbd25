/** From tool reports and model replies, arbitrary input both, to findings on added lines. */
module LineMapping {
  import opened Schemas
  import opened Text
  import opened DiffText

  // The tools are wrapped in aegis/pipeline/deterministic; replies are parsed in
  // aegis/llm/parser.py and placed in aegis/pipeline/llm_stage.py.

  // ---------------------------------------------------------------- added lines

  /** `ln` is an added line of `fc` with the finding's line number and diff position. */
  predicate Places(ln: DiffLine, f: Finding) {
    ln.newLine == Some(f.line) && ln.position == f.position
  }

  ghost predicate OnAddedLine(fc: FileChange, f: Finding) {
    f.file == fc.path && exists ln :: ln in AddedLines(fc) && Places(ln, f)
  }

  /** The finding lies on an added line of a changed file and carries its position. */
  ghost predicate OnChange(files: seq<FileChange>, f: Finding) {
    exists fc :: fc in files && OnAddedLine(fc, f)
  }

  /** `_added_line_set`. */
  function AddedNumbers(fc: FileChange): (r: set<int>)
    ensures forall n :: n in r <==> exists ln :: ln in AddedLines(fc) && ln.newLine == Some(n)
  {
    set ln | ln in AddedLines(fc) && ln.newLine.Some? :: ln.newLine.value
  }

  /** The position of the first line with that number. */
  function FirstPosition(added: seq<DiffLine>, line: int): (position: Option<int>)
    ensures (exists ln :: ln in added && ln.newLine == Some(line)) ==>
              exists ln :: ln in added && ln.newLine == Some(line) && ln.position == position
    ensures (forall ln :: ln in added ==> ln.newLine != Some(line)) ==> position == None
  {
    if added == [] then None
    else
      assert added == [added[0]] + added[1..];
      if added[0].newLine == Some(line) then added[0].position else FirstPosition(added[1..], line)
  }

  /** `_position_for`. */
  method PositionFor(fc: FileChange, line: int) returns (position: Option<int>)
    ensures position == FirstPosition(AddedLines(fc), line)
    ensures line in AddedNumbers(fc) ==>
              exists ln :: ln in AddedLines(fc) && ln.newLine == Some(line) && ln.position == position
    ensures line !in AddedNumbers(fc) ==> position == None
  {
    hide AddedLines;
    var added := AddedLines(fc);
    assert added[0..] == added;
    for i := 0 to |added|
      invariant FirstPosition(added[i..], line) == FirstPosition(added, line)
    {
      assert added[i..][1..] == added[i + 1..];
      if added[i].newLine == Some(line) {
        return added[i].position;
      }
    }
    return None;
  }

  /** `fc` is the last of the files with its path. */
  ghost predicate LastOfPath(files: seq<FileChange>, fc: FileChange) {
    exists i :: IsLastAt(files, fc, i)
  }

  predicate IsLastAt(files: seq<FileChange>, fc: FileChange, i: int) {
    0 <= i < |files| && files[i] == fc && forall j :: i < j < |files| ==> files[j].path != fc.path
  }

  /** `{f.path: f for f in files}`: the last file of a path. */
  function ByPath(files: seq<FileChange>): (r: map<string, FileChange>)
    ensures forall p :: p in r ==> r[p] in files && r[p].path == p
    ensures forall fc :: fc in files ==> fc.path in r
  {
    if files == [] then map[]
    else
      var n := |files| - 1;
      assert files == files[..n] + [files[n]];
      ByPath(files[..n])[files[n].path := files[n]]
  }

  lemma {:induction false} ByPathIsLast(files: seq<FileChange>, p: string)
    requires p in ByPath(files)
    ensures LastOfPath(files, ByPath(files)[p])
  {
    var n := |files| - 1;
    if p == files[n].path {
      assert IsLastAt(files, files[n], n);
    } else {
      ByPathIsLast(files[..n], p);
      var fc := ByPath(files[..n])[p];
      assert ByPath(files)[p] == fc && fc.path == p;
      hide ByPath;
      LastGrows(files, fc);
    }
  }

  lemma LastGrows(files: seq<FileChange>, fc: FileChange)
    requires files != [] && files[|files| - 1].path != fc.path && LastOfPath(files[..|files| - 1], fc)
    ensures LastOfPath(files, fc)
  {
    var i :| IsLastAt(files[..|files| - 1], fc, i);
    assert IsLastAt(files, fc, i);
  }

  // ---------------------------------------------------------------- model replies

  datatype Reply = Reply(
    file: string, line: int, cwe: Option<string>, severity: Severity, confidence: real,
    title: string, rationale: string, exploit: Option<string>, fix: Option<string>)

  function Cut(s: string, n: nat): string {
    if |s| <= n then s else s[..n]
  }

  function CutOption(s: Option<string>, n: nat): Option<string> {
    if s.Some? && s.value != "" then Some(Cut(s.value, n)) else None
  }

  function SourceName(s: Source): string {
    match s
    case Deterministic => "deterministic"
    case LlmA => "llm_a"
    case LlmB => "llm_b"
    case Judge => "judge"
  }

  function ReplyFinding(r: Reply, source: Source, position: Option<int>): Finding {
    Finding(r.file, r.line, position, r.cwe, Some("llm:" + SourceName(source)), r.severity, r.confidence, source,
            Cut(r.title, 180), Cut(r.rationale, 1800), CutOption(r.exploit, 1200), CutOption(r.fix, 2000),
            r.fix.Some? && r.fix.value != "")
  }

  /** The first n characters, or all when there are fewer. */
  predicate Shortened(s: string, whole: string, n: nat) {
    s <= whole && |s| <= n && (|s| < n ==> s == whole)
  }

  /** An optional text: left out when blank, else shortened. */
  predicate ShortenedOption(t: Option<string>, whole: Option<string>, n: nat) {
    if Blank(whole) then t.None? else t.Some? && Shortened(t.value, whole.value, n)
  }

  /** The finding says what the reply says, under the rule of its model. */
  predicate Repeats(f: Finding, r: Reply, source: Source) {
    && f.file == r.file && f.line == r.line && f.cwe == r.cwe
    && f.severity == r.severity && f.confidence == r.confidence && f.source == source
    && f.ruleId == Some(match source
                        case Deterministic => "llm:deterministic"
                        case LlmA => "llm:llm_a"
                        case LlmB => "llm:llm_b"
                        case Judge => "llm:judge")
    && Shortened(f.title, r.title, 180) && Shortened(f.rationale, r.rationale, 1800)
    && ShortenedOption(f.exploit, r.exploit, 1200) && ShortenedOption(f.fix, r.fix, 2000)
    && (f.fixIsSuggestion <==> !Blank(r.fix))
  }

  lemma ReplyRepeats(r: Reply, source: Source, position: Option<int>)
    ensures Repeats(ReplyFinding(r, source, position), r, source)
  {
    assert "llm:" + "deterministic" == "llm:deterministic" && "llm:" + "llm_a" == "llm:llm_a";
    assert "llm:" + "llm_b" == "llm:llm_b" && "llm:" + "judge" == "llm:judge";
  }

  /** `_changed_lines`. */
  function ChangedLines(files: seq<FileChange>): (r: map<string, set<int>>)
    ensures r.Keys == ByPath(files).Keys
    ensures forall p :: p in r ==> r[p] == AddedNumbers(ByPath(files)[p])
  {
    map p | p in ByPath(files) :: AddedNumbers(ByPath(files)[p])
  }

  /** A path's numbers are those of the added lines of its last file, and of no other
      file. */
  lemma ChangedLinesOfLast(files: seq<FileChange>, fc: FileChange)
    requires LastOfPath(files, fc)
    ensures fc.path in ChangedLines(files)
    ensures forall n :: n in ChangedLines(files)[fc.path] <==> exists ln :: ln in AddedLines(fc) && ln.newLine == Some(n)
  {
    hide AddedLines;
    var i :| IsLastAt(files, fc, i);
    assert fc in files;
    ByPathIsLast(files, fc.path);
    var k :| IsLastAt(files, ByPath(files)[fc.path], k);
    assert i == k;
  }

  /** Every position recorded for a line of a path's last file comes from that file. */
  ghost predicate PositionsFrom(files: seq<FileChange>, positions: map<(string, int), Option<int>>) {
    forall p, n :: p in ByPath(files) && n in AddedNumbers(ByPath(files)[p]) ==>
      PositionKnown(ByPath(files)[p], n, positions)
  }

  ghost predicate PositionKnown(fc: FileChange, n: int, positions: map<(string, int), Option<int>>) {
    (fc.path, n) in positions
    && exists ln :: ln in AddedLines(fc) && ln.newLine == Some(n) && ln.position == positions[(fc.path, n)]
  }

  function RecordLines(base: map<(string, int), Option<int>>, path: string, added: seq<DiffLine>)
    : map<(string, int), Option<int>>
  {
    if added == [] then base
    else
      var n := |added| - 1;
      var before := RecordLines(base, path, added[..n]);
      if added[n].newLine.Some? then before[(path, added[n].newLine.value) := added[n].position] else before
  }

  function Positions(files: seq<FileChange>): map<(string, int), Option<int>> {
    if files == [] then map[]
    else var n := |files| - 1; RecordLines(Positions(files[..n]), files[n].path, AddedLines(files[n]))
  }

  /** `_diff_positions`: later files and later lines overwrite earlier ones. */
  method DiffPositions(files: seq<FileChange>) returns (positions: map<(string, int), Option<int>>)
    ensures positions == Positions(files)
    ensures PositionsFrom(files, positions)
  {
    hide AddedLines, PositionsFrom;
    positions := map[];
    for i := 0 to |files|
      invariant positions == Positions(files[..i])
    {
      var fc := files[i];
      var added := AddedLines(fc);
      for j := 0 to |added|
        invariant positions == RecordLines(Positions(files[..i]), fc.path, added[..j])
      {
        assert added[..j + 1][..j] == added[..j];
        if added[j].newLine.Some? {
          positions := positions[(fc.path, added[j].newLine.value) := added[j].position];
        }
      }
      assert added[..|added|] == added;
      assert files[..i + 1][..i] == files[..i];
    }
    assert files[..|files|] == files;
    PositionsKnown(files);
  }

  ghost predicate LineHas(added: seq<DiffLine>, n: int, position: Option<int>) {
    exists ln :: ln in added && ln.newLine == Some(n) && ln.position == position
  }

  lemma {:induction false} RecordedOutside(base: map<(string, int), Option<int>>, path: string, added: seq<DiffLine>,
                                           other: string, n: int)
    requires other != path
    ensures var after := RecordLines(base, path, added);
      ((other, n) in after <==> (other, n) in base) && ((other, n) in base ==> after[(other, n)] == base[(other, n)])
  {
    if added != [] {
      RecordedOutside(base, path, added[..|added| - 1], other, n);
    }
  }

  lemma {:induction false} RecordedInside(base: map<(string, int), Option<int>>, path: string, added: seq<DiffLine>,
                                          ln: DiffLine)
    requires ln in added && ln.newLine.Some?
    ensures var after := RecordLines(base, path, added);
      (path, ln.newLine.value) in after && LineHas(added, ln.newLine.value, after[(path, ln.newLine.value)])
  {
    var k := |added| - 1;
    var init, last := added[..k], added[k];
    assert added == init + [last];
    var n := ln.newLine.value;
    if last.newLine == Some(n) {
      assert last in added;
    } else {
      RecordedInside(base, path, init, ln);
      var p := RecordLines(base, path, init)[(path, n)];
      var was :| was in init && was.newLine == Some(n) && was.position == p;
      assert was in added;
    }
  }

  lemma {:induction false} PositionsKnown(files: seq<FileChange>)
    ensures PositionsFrom(files, Positions(files))
  {
    hide AddedLines, AddedNumbers, RecordLines;
    if files != [] {
      var k := |files| - 1;
      var fc, before := files[k], Positions(files[..k]);
      PositionsKnown(files[..k]);
      assert ByPath(files) == ByPath(files[..k])[fc.path := fc];
      forall p, n | p in ByPath(files) && n in AddedNumbers(ByPath(files)[p])
        ensures PositionKnown(ByPath(files)[p], n, Positions(files))
      {
        if p == fc.path {
          var ln :| ln in AddedLines(fc) && ln.newLine == Some(n);
          RecordedInside(before, p, AddedLines(fc), ln);
        } else {
          assert PositionKnown(ByPath(files[..k])[p], n, before);
          RecordedOutside(before, fc.path, AddedLines(fc), p, n);
        }
      }
    }
  }

  /** The replies on a changed line, in order. */
  function OnChangedLines(replies: seq<Reply>, changed: map<string, set<int>>): seq<Reply> {
    if replies == [] then []
    else
      var n := |replies| - 1;
      OnChangedLines(replies[..n], changed)
      + (if replies[n].file in changed && replies[n].line in changed[replies[n].file] then [replies[n]] else [])
  }

  /** `diff_positions.get((file, line))`. */
  function PositionIn(positions: map<(string, int), Option<int>>, file: string, line: int): Option<int> {
    if (file, line) in positions then positions[(file, line)] else None
  }

  /** `parse_findings` after validation: exactly the replies on changed lines. */
  method ParseFindings(replies: seq<Reply>, source: Source, changed: map<string, set<int>>,
                       positions: map<(string, int), Option<int>>) returns (out: seq<Finding>)
    ensures var kept := OnChangedLines(replies, changed);
      && |out| == |kept|
      && forall i :: 0 <= i < |out| ==>
           out[i] == ReplyFinding(kept[i], source, PositionIn(positions, kept[i].file, kept[i].line))
             && Repeats(out[i], kept[i], source)
    ensures forall f :: f in out ==>
              (f.file in changed && f.line in changed[f.file]
               && f.position == if (f.file, f.line) in positions then positions[(f.file, f.line)] else None)
  {
    hide Cut, CutOption, SourceName, Repeats;
    out := [];
    for i := 0 to |replies|
      invariant var kept := OnChangedLines(replies[..i], changed);
        && |out| == |kept|
        && forall j :: 0 <= j < |out| ==>
             out[j] == ReplyFinding(kept[j], source, PositionIn(positions, kept[j].file, kept[j].line))
               && Repeats(out[j], kept[j], source)
      invariant forall f :: f in out ==>
                  (f.file in changed && f.line in changed[f.file]
                   && f.position == PositionIn(positions, f.file, f.line))
    {
      var r := replies[i];
      assert replies[..i + 1][..i] == replies[..i];
      if r.file !in changed || r.line !in changed[r.file] {
        continue;
      }
      ReplyRepeats(r, source, PositionIn(positions, r.file, r.line));
      out := out + [ReplyFinding(r, source, PositionIn(positions, r.file, r.line))];
    }
    assert replies[..|replies|] == replies;
  }

  /** The three together: whatever a model replies, its findings lie on added lines of
      changed files and carry the positions of those lines. */
  method LlmFindings(files: seq<FileChange>, replies: seq<Reply>, source: Source) returns (out: seq<Finding>)
    ensures var kept := OnChangedLines(replies, ChangedLines(files));
      && |out| == |kept|
      && forall i :: 0 <= i < |out| ==>
           out[i] == ReplyFinding(kept[i], source, PositionIn(Positions(files), kept[i].file, kept[i].line))
             && Repeats(out[i], kept[i], source)
    ensures forall f :: f in out ==> OnChange(files, f)
  {
    hide Repeats;
    var changed := ChangedLines(files);
    var positions := DiffPositions(files);
    out := ParseFindings(replies, source, changed, positions);
    hide AddedLines;
    forall f | f in out ensures OnChange(files, f) {
      var fc := ByPath(files)[f.file];
      assert PositionKnown(fc, f.line, positions);
      var ln :| ln in AddedLines(fc) && ln.newLine == Some(f.line) && ln.position == positions[(f.file, f.line)];
      assert Places(ln, f);
      assert OnAddedLine(fc, f);
    }
  }

  // ---------------------------------------------------------------- Semgrep and Bandit

  /** A report entry: its path relative to the scanned directory, its line, the rest.
      `severity` is in upper case; `title` is the first title the entry offers. */
  datatype Report = Report(rel: string, line: Option<int>, rule: Option<string>, severity: Option<string>,
                           cwe: Option<string>, title: string, text: string, more: Option<string>, fix: Option<string>)

  function LineOf(entry: Report, default: Option<int>): Option<int> {
    if entry.line.Some? then entry.line else default
  }

  /** The entry names a line, and it is an added line of a changed file. */
  predicate Hit(entry: Report, changed: map<string, FileChange>, default: Option<int>) {
    LineOf(entry, default).Some? && entry.rel in changed
    && LineOf(entry, default).value in AddedNumbers(changed[entry.rel])
  }

  /** The entries of a report that fall on added lines, in order. */
  function Hits(reports: seq<Report>, changed: map<string, FileChange>, default: Option<int>): (r: seq<Report>)
    ensures forall i :: 0 <= i < |r| ==> Hit(r[i], changed, default)
  {
    if reports == [] then []
    else
      var n := |reports| - 1;
      Hits(reports[..n], changed, default) + (if Hit(reports[n], changed, default) then [reports[n]] else [])
  }

  /** The entries kept are exactly those that name a changed file and the number of a line
      added to it; `default` stands for a missing line. */
  lemma {:induction false} HitsExactly(reports: seq<Report>, changed: map<string, FileChange>, default: Option<int>,
                                       entry: Report)
    ensures entry in Hits(reports, changed, default) <==>
              && entry in reports && entry.rel in changed
              && exists ln :: ln in AddedLines(changed[entry.rel]) && ln.newLine.Some?
                   && ln.newLine == if entry.line.Some? then entry.line else default
  {
    hide AddedLines;
    if reports != [] {
      var n := |reports| - 1;
      HitsExactly(reports[..n], changed, default, entry);
      assert reports == reports[..n] + [reports[n]];
    }
  }

  function NonEmpty(s: Option<string>): Option<string> {
    if Or(s, "") == "" then None else s
  }

  function SemgrepSeverity(s: Option<string>): Severity {
    if s == Some("ERROR") then High else if s == Some("INFO") then Low else Medium
  }

  function SemgrepFinding(res: Report, line: int, position: Option<int>): Finding {
    var fix := NonEmpty(res.fix);
    Finding(res.rel, line, position, res.cwe, res.rule, SemgrepSeverity(res.severity), 0.95, Deterministic,
            Cut(Split('\n', res.title)[0], 160), Cut(Strip(res.text), 1200), res.more, fix, fix.Some?)
  }

  function SemgrepAt(res: Report, changed: map<string, FileChange>): Finding
    requires Hit(res, changed, None)
  {
    SemgrepFinding(res, res.line.value, FirstPosition(AddedLines(changed[res.rel]), res.line.value))
  }

  /** The finding says what the report entry says. */
  predicate RepeatsSemgrep(f: Finding, res: Report) {
    && f.file == res.rel && res.line == Some(f.line) && f.cwe == res.cwe && f.ruleId == res.rule
    && (f.severity.High? <==> res.severity == Some("ERROR")) && (f.severity.Low? <==> res.severity == Some("INFO"))
    && !f.severity.Critical? && !f.severity.Info?
    && f.confidence == 0.95 && f.source == Deterministic
    && f.title <= res.title && '\n' !in f.title && |f.title| <= 160
    && (|f.title| < 160 ==> f.title == res.title || res.title[|f.title|] == '\n')
    && Shortened(f.rationale, Strip(res.text), 1200) && f.exploit == res.more
    && f.fix == (if Blank(res.fix) then None else res.fix) && (f.fixIsSuggestion <==> !Blank(res.fix))
  }

  /** What comes before the first separator. */
  lemma {:induction false} SplitHead(sep: char, text: string)
    ensures var head := Split(sep, text)[0];
      head <= text && sep !in head && (head == text || text[|head|] == sep)
  {
    if text != "" {
      SplitHead(sep, text[1..]);
      assert text == [text[0]] + text[1..];
    }
  }

  lemma SemgrepRepeats(res: Report, line: int, position: Option<int>)
    requires res.line == Some(line)
    ensures RepeatsSemgrep(SemgrepFinding(res, line, position), res)
  {
    SplitHead('\n', res.title);
    hide Strip, Split;
  }

  lemma NoReports(reports: seq<Report>, changed: map<string, FileChange>)
    ensures SemgrepFindings([], reports[..0], changed) && BanditFindings([], reports[..0], changed)
  {
  }

  lemma SemgrepPlaced(res: Report, line: int, position: Option<int>)
    ensures var f := SemgrepFinding(res, line, position); f.file == res.rel && f.line == line && f.position == position
  {
  }

  /** The findings are those of the entries on added lines, in order. */
  ghost predicate SemgrepFindings(out: seq<Finding>, reports: seq<Report>, changed: map<string, FileChange>) {
    var hits := Hits(reports, changed, None);
    |out| == |hits| && forall i :: 0 <= i < |out| ==> out[i] == SemgrepAt(hits[i], changed) && RepeatsSemgrep(out[i], hits[i])
  }

  lemma SemgrepNext(out: seq<Finding>, reports: seq<Report>, i: nat, changed: map<string, FileChange>)
    requires i < |reports| && SemgrepFindings(out, reports[..i], changed)
    ensures !Hit(reports[i], changed, None) ==> SemgrepFindings(out, reports[..i + 1], changed)
    ensures Hit(reports[i], changed, None) && RepeatsSemgrep(SemgrepAt(reports[i], changed), reports[i]) ==>
              SemgrepFindings(out + [SemgrepAt(reports[i], changed)], reports[..i + 1], changed)
  {
    hide Hit, SemgrepAt, RepeatsSemgrep;
    assert reports[..i + 1][..i] == reports[..i];
  }

  /** The result loop of `run_semgrep`: one finding for each report entry on an added
      line of a changed file, at that line's position; no entry without a line. */
  method RunSemgrep(reports: seq<Report>, changed: map<string, FileChange>) returns (out: seq<Finding>)
    requires forall p :: p in changed ==> changed[p].path == p
    ensures SemgrepFindings(out, reports, changed)
    ensures forall f :: f in out ==> f.file in changed && OnAddedLine(changed[f.file], f)
  {
    hide AddedLines, AddedNumbers, FirstPosition, OnAddedLine, SemgrepFinding, RepeatsSemgrep, SemgrepFindings, Hits;
    assert SemgrepFindings([], reports[..0], changed) by { NoReports(reports, changed); }
    out := [];
    for i := 0 to |reports|
      invariant SemgrepFindings(out, reports[..i], changed)
      invariant forall f :: f in out ==> f.file in changed && OnAddedLine(changed[f.file], f)
    {
      var res := reports[i];
      SemgrepNext(out, reports, i, changed);
      if res.rel !in changed {
        continue;
      }
      var fc := changed[res.rel];
      if res.line.None? || res.line.value !in AddedNumbers(fc) {
        continue;
      }
      var position := PositionFor(fc, res.line.value);
      var f := SemgrepFinding(res, res.line.value, position);
      SemgrepPlaced(res, res.line.value, position);
      SemgrepRepeats(res, res.line.value, position);
      PlacedFinding(fc, f);
      out := out + [f];
    }
    assert reports[..|reports|] == reports;
  }

  lemma PlacedFinding(fc: FileChange, f: Finding)
    requires f.file == fc.path
    requires exists ln :: ln in AddedLines(fc) && ln.newLine == Some(f.line) && ln.position == f.position
    ensures OnAddedLine(fc, f)
  {
    hide AddedLines;
    var ln :| ln in AddedLines(fc) && ln.newLine == Some(f.line) && ln.position == f.position;
    assert Places(ln, f);
  }

  function BanditSeverity(s: Option<string>): Severity {
    if s == Some("HIGH") then High else if s == Some("LOW") then Low else Medium
  }

  function BanditCwe(test: string): Option<string> {
    if test == "B102" || test == "B307" then Some("CWE-94")
    else if test == "B602" then Some("CWE-78")
    else if test == "B608" then Some("CWE-89")
    else if test == "B506" then Some("CWE-502")
    else None
  }

  function BanditFinding(item: Report, line: int, position: Option<int>): Finding {
    var test := Or(item.rule, "bandit");
    Finding(item.rel, line, position, BanditCwe(test), Some("bandit:" + test), BanditSeverity(item.severity),
            0.90, Deterministic, if item.title == "" then test else item.title, Cut(item.text, 1200), NonEmpty(item.more),
            Some("Replace the unsafe Python construct with a safe API and validate inputs."), false)
  }

  function BanditAt(item: Report, changed: map<string, FileChange>): Finding
    requires Hit(item, changed, Some(0))
  {
    var line := LineOf(item, Some(0)).value;
    BanditFinding(item, line, FirstPosition(AddedLines(changed[item.rel]), line))
  }

  /** The CWE of a Bandit test. */
  predicate BanditNames(test: string, cwe: Option<string>) {
    && (cwe == Some("CWE-94") <==> test in {"B102", "B307"})
    && (cwe == Some("CWE-78") <==> test == "B602")
    && (cwe == Some("CWE-89") <==> test == "B608")
    && (cwe == Some("CWE-502") <==> test == "B506")
    && (cwe.None? <==> test !in {"B102", "B307", "B602", "B608", "B506"})
  }

  /** The finding says what the report entry says; an entry without a line counts as line
      0, one without a test identifier as "bandit". */
  predicate RepeatsBandit(f: Finding, item: Report) {
    var test := if Blank(item.rule) then "bandit" else item.rule.value;
    && f.file == item.rel && f.line == (if item.line.Some? then item.line.value else 0)
    && BanditNames(test, f.cwe) && f.ruleId == Some("bandit:" + test)
    && (f.severity.High? <==> item.severity == Some("HIGH")) && (f.severity.Low? <==> item.severity == Some("LOW"))
    && !f.severity.Critical? && !f.severity.Info?
    && f.confidence == 0.90 && f.source == Deterministic
    && f.title == (if item.title == "" then test else item.title)
    && Shortened(f.rationale, item.text, 1200) && f.exploit == (if Blank(item.more) then None else item.more)
    && !f.fixIsSuggestion
  }

  lemma BanditTests(test: string)
    ensures BanditNames(test, BanditCwe(test))
  {
    assert "CWE-94"[4] == '9' && "CWE-78"[4] == '7' && "CWE-89"[4] == '8' && "CWE-502"[4] == '5';
    assert "B102"[1] == '1' && "B307"[1] == '3' && "B506"[1] == '5' && "B602"[3] == '2' && "B608"[3] == '8';
  }

  lemma BanditRepeats(item: Report, line: int, position: Option<int>)
    requires line == if item.line.Some? then item.line.value else 0
    ensures RepeatsBandit(BanditFinding(item, line, position), item)
  {
    BanditTests(Or(item.rule, "bandit"));
    hide BanditNames, BanditCwe;
  }

  lemma BanditPlaced(item: Report, line: int, position: Option<int>)
    ensures var f := BanditFinding(item, line, position); f.file == item.rel && f.line == line && f.position == position
  {
  }

  /** The findings are those of the entries on added lines, in order. */
  ghost predicate BanditFindings(out: seq<Finding>, reports: seq<Report>, changed: map<string, FileChange>) {
    var hits := Hits(reports, changed, Some(0));
    |out| == |hits| && forall i :: 0 <= i < |out| ==> out[i] == BanditAt(hits[i], changed) && RepeatsBandit(out[i], hits[i])
  }

  lemma BanditNext(out: seq<Finding>, reports: seq<Report>, i: nat, changed: map<string, FileChange>)
    requires i < |reports| && BanditFindings(out, reports[..i], changed)
    ensures !Hit(reports[i], changed, Some(0)) ==> BanditFindings(out, reports[..i + 1], changed)
    ensures Hit(reports[i], changed, Some(0)) && RepeatsBandit(BanditAt(reports[i], changed), reports[i]) ==>
              BanditFindings(out + [BanditAt(reports[i], changed)], reports[..i + 1], changed)
  {
    hide Hit, BanditAt, RepeatsBandit;
    assert reports[..i + 1][..i] == reports[..i];
  }

  /** `_findings_from_report` of the Bandit wrapper: an entry without a line counts as
      line 0. */
  method FindingsFromReport(reports: seq<Report>, changed: map<string, FileChange>) returns (out: seq<Finding>)
    requires forall p :: p in changed ==> changed[p].path == p
    ensures BanditFindings(out, reports, changed)
    ensures forall f :: f in out ==> f.file in changed && OnAddedLine(changed[f.file], f)
  {
    hide AddedLines, AddedNumbers, FirstPosition, OnAddedLine, BanditFinding, RepeatsBandit, BanditFindings, Hits;
    assert BanditFindings([], reports[..0], changed) by { NoReports(reports, changed); }
    out := [];
    for i := 0 to |reports|
      invariant BanditFindings(out, reports[..i], changed)
      invariant forall f :: f in out ==> f.file in changed && OnAddedLine(changed[f.file], f)
    {
      var item := reports[i];
      BanditNext(out, reports, i, changed);
      if item.rel !in changed {
        continue;
      }
      var fc := changed[item.rel];
      var line := if item.line.Some? then item.line.value else 0;
      if line !in AddedNumbers(fc) {
        continue;
      }
      var position := PositionFor(fc, line);
      var f := BanditFinding(item, line, position);
      BanditPlaced(item, line, position);
      BanditRepeats(item, line, position);
      PlacedFinding(fc, f);
      out := out + [f];
    }
    assert reports[..|reports|] == reports;
  }

  // ---------------------------------------------------------------- Gitleaks

  /** One line of a temporary file: the diff line it stands for. */
  datatype TempLine = TempLine(line: int, position: Option<int>, content: string)

  function Numbered(added: seq<DiffLine>): seq<TempLine> {
    if added == [] then []
    else
      var n := |added| - 1;
      Numbered(added[..n])
      + (if added[n].newLine.Some? then [TempLine(added[n].newLine.value, added[n].position, added[n].content)] else [])
  }

  lemma {:induction false} NumberedFrom(added: seq<DiffLine>)
    ensures forall t :: t in Numbered(added) <==>
              exists ln :: ln in added && ln.newLine == Some(t.line) && ln.position == t.position && ln.content == t.content
  {
    if added != [] {
      var n := |added| - 1;
      NumberedFrom(added[..n]);
      assert added == added[..n] + [added[n]];
    }
  }

  /** When every added line has a number, the temporary lines are the added lines, in the
      order of the diff. */
  lemma {:induction false} NumberedInOrder(added: seq<DiffLine>)
    requires forall i :: 0 <= i < |added| ==> added[i].newLine.Some?
    ensures |Numbered(added)| == |added|
    ensures forall i :: 0 <= i < |added| ==>
              Numbered(added)[i] == TempLine(added[i].newLine.value, added[i].position, added[i].content)
  {
    if added != [] {
      NumberedInOrder(added[..|added| - 1]);
    }
  }

  lemma NumbersMeanLines(fc: FileChange, n: int)
    requires n in AddedNumbers(fc)
    ensures Numbered(AddedLines(fc)) != []
  {
    hide AddedLines, Numbered, AddedNumbers;
    var ln :| ln in AddedLines(fc) && ln.newLine == Some(n);
    NumberedFrom(AddedLines(fc));
    assert TempLine(n, ln.position, ln.content) in Numbered(AddedLines(fc));
  }

  ghost predicate TempFrom(files: seq<FileChange>, path: string, t: TempLine) {
    exists fc, ln :: fc in files && fc.path == path && ln in AddedLines(fc)
      && ln.newLine == Some(t.line) && ln.position == t.position && ln.content == t.content
  }

  /** The temporary files: the last file of a path that has numbered added lines. */
  function Materialized(files: seq<FileChange>): map<string, seq<TempLine>> {
    if files == [] then map[]
    else
      var n := |files| - 1;
      var before, lines := Materialized(files[..n]), Numbered(AddedLines(files[n]));
      if lines == [] then before else before[files[n].path := lines]
  }

  lemma {:induction false} MaterializedFrom(files: seq<FileChange>)
    ensures forall p :: p in Materialized(files) ==> Materialized(files)[p] != []
    ensures forall p, t :: p in Materialized(files) && t in Materialized(files)[p] ==> TempFrom(files, p, t)
    ensures forall fc, n :: fc in files && n in AddedNumbers(fc) ==> fc.path in Materialized(files)
  {
    hide AddedLines, AddedNumbers, Numbered, TempFrom;
    if files != [] {
      var k := |files| - 1;
      var init, fc := files[..k], files[k];
      MaterializedFrom(init);
      assert files == init + [fc];
      forall n | n in AddedNumbers(fc) ensures Numbered(AddedLines(fc)) != [] {
        NumbersMeanLines(fc, n);
      }
      forall p, t | TempFrom(init, p, t) ensures TempFrom(files, p, t) {
        TempFromGrows(init, files, p, t);
      }
      forall t | t in Numbered(AddedLines(fc)) ensures TempFrom(files, fc.path, t) {
        NumberedIsTemp(files, fc, t);
      }
    }
  }

  lemma TempFromGrows(was: seq<FileChange>, now: seq<FileChange>, path: string, t: TempLine)
    requires TempFrom(was, path, t) && forall fc :: fc in was ==> fc in now
    ensures TempFrom(now, path, t)
  {
    hide AddedLines;
  }

  lemma NumberedIsTemp(files: seq<FileChange>, fc: FileChange, t: TempLine)
    requires fc in files && t in Numbered(AddedLines(fc))
    ensures TempFrom(files, fc.path, t)
  {
    hide AddedLines, Numbered;
    NumberedFrom(AddedLines(fc));
  }

  /** `_materialize_added_lines`: every temporary line stands for an added line of a
      file of that path, and every file with a numbered added line has one. */
  method MaterializeAddedLines(files: seq<FileChange>) returns (out: map<string, seq<TempLine>>)
    ensures out == Materialized(files)
    ensures forall p :: p in out ==> out[p] != []
    ensures forall p, t :: p in out && t in out[p] ==> TempFrom(files, p, t)
    ensures forall fc, n :: fc in files && n in AddedNumbers(fc) ==> fc.path in out
  {
    hide AddedLines, AddedNumbers, Numbered, TempFrom;
    out := map[];
    for i := 0 to |files|
      invariant out == Materialized(files[..i])
    {
      assert files[..i + 1][..i] == files[..i];
      var lines := Numbered(AddedLines(files[i]));
      if lines != [] {
        out := out[files[i].path := lines];
      }
    }
    assert files[..|files|] == files;
    MaterializedFrom(files);
  }

  function Contents(lines: seq<TempLine>): (r: seq<string>)
    ensures |r| == |lines|
  {
    seq(|lines|, i requires 0 <= i < |lines| => lines[i].content)
  }

  /** The text of a temporary file. */
  function TempText(lines: seq<TempLine>): string {
    Join('\n', Contents(lines))
  }

  /** Line i of a temporary file is the text of the diff line behind it, for every i,
      if and only if no added line holds a line feed. */
  lemma TempLinesExactly(lines: seq<TempLine>)
    requires lines != []
    ensures Split('\n', TempText(lines)) == Contents(lines)
            <==> forall i :: 0 <= i < |lines| ==> '\n' !in lines[i].content
  {
    var texts := Contents(lines);
    if forall i :: 0 <= i < |lines| ==> '\n' !in lines[i].content {
      SplitJoin('\n', texts);
    }
    SplitFree('\n', TempText(lines));
    if Split('\n', TempText(lines)) == texts {
      forall i | 0 <= i < |lines| ensures '\n' !in lines[i].content {
        assert lines[i].content == texts[i];
      }
    }
  }

  datatype Leak = Leak(file: string, startLine: Option<int>, line: Option<int>, rule: string)

  /** `StartLine or Line or 0`. */
  function LeakLine(leak: Leak): int {
    if leak.startLine.Some? && leak.startLine.value != 0 then leak.startLine.value
    else if leak.line.Some? then leak.line.value
    else 0
  }

  /** The line map after the files of `paths`: line i of a temporary file, counted from
      1, stands for the i-th entry of its path. */
  ghost predicate MapsLines(lineMap: map<(string, int), (string, int, Option<int>)>,
                            added: map<string, seq<TempLine>>, paths: set<string>)
    requires paths <= added.Keys
  {
    && (forall p, i :: (p, i) in lineMap <==> p in paths && 1 <= i <= |added[p]|)
    && (forall p, i :: (p, i) in lineMap ==> lineMap[(p, i)] == (p, added[p][i - 1].line, added[p][i - 1].position))
  }

  /** A mapped temporary line reads as the text of the diff line it maps back to. */
  lemma MappedLineIsItsText(lineMap: map<(string, int), (string, int, Option<int>)>,
                            added: map<string, seq<TempLine>>, path: string, i: int)
    requires MapsLines(lineMap, added, added.Keys) && (path, i) in lineMap
    requires forall k :: 0 <= k < |added[path]| ==> '\n' !in added[path][k].content
    ensures |Split('\n', TempText(added[path]))| == |added[path]|
    ensures exists t :: t in added[path] && lineMap[(path, i)] == (path, t.line, t.position)
              && t.content == Split('\n', TempText(added[path]))[i - 1]
  {
    TempLinesExactly(added[path]);
    hide TempText, Split;
    var t := added[path][i - 1];
    assert t in added[path] && t.content == Contents(added[path])[i - 1];
  }

  method BuildLineMap(added: map<string, seq<TempLine>>)
    returns (lineMap: map<(string, int), (string, int, Option<int>)>)
    ensures MapsLines(lineMap, added, added.Keys)
  {
    lineMap := map[];
    var rest := added.Keys;
    while rest != {}
      invariant rest <= added.Keys && MapsLines(lineMap, added, added.Keys - rest)
      decreases |rest|
    {
      var path :| path in rest;
      var lines := added[path];
      ghost var before := lineMap;
      for i := 0 to |lines|
        invariant forall p, k :: (p, k) in lineMap <==> (p, k) in before || (p == path && 1 <= k <= i)
        invariant forall p, k :: (p, k) in before ==> lineMap[(p, k)] == before[(p, k)]
        invariant forall k :: 1 <= k <= i ==>
                    (path, k) in lineMap && lineMap[(path, k)] == (path, lines[k - 1].line, lines[k - 1].position)
      {
        lineMap := lineMap[(path, i + 1) := (path, lines[i].line, lines[i].position)];
      }
      rest := rest - {path};
    }
    assert added.Keys - {} == added.Keys;
  }

  function LeakFinding(leak: Leak, path: string, line: int, position: Option<int>): Finding {
    Finding(path, line, position, Some("CWE-798"), Some("gitleaks:" + leak.rule), Critical, 0.99, Deterministic,
            "Secret detected by Gitleaks: " + leak.rule,
            "Gitleaks detected a credential pattern on an added line.",
            Some("Anyone with repository history access can recover the committed secret."),
            Some("Remove the secret, rotate it, and load it from a secret manager or environment."), false)
  }

  /** The entry names a line of a temporary file. */
  predicate LeakHit(leak: Leak, added: map<string, seq<TempLine>>) {
    leak.file in added && 1 <= LeakLine(leak) <= |added[leak.file]|
  }

  /** The finding at the diff line behind the temporary line. */
  function LeakAt(leak: Leak, added: map<string, seq<TempLine>>): Finding
    requires LeakHit(leak, added)
  {
    var t := added[leak.file][LeakLine(leak) - 1];
    LeakFinding(leak, leak.file, t.line, t.position)
  }

  function LeakHits(report: seq<Leak>, added: map<string, seq<TempLine>>): (r: seq<Leak>)
    ensures forall i :: 0 <= i < |r| ==> LeakHit(r[i], added)
  {
    if report == [] then []
    else var n := |report| - 1; LeakHits(report[..n], added) + (if LeakHit(report[n], added) then [report[n]] else [])
  }

  /** The line the entry names: its start line, else its line; 0 names none. */
  predicate Names(leak: Leak, i: int) {
    if leak.startLine.Some? && leak.startLine.value != 0 then leak.startLine == Some(i) else leak.line == Some(i)
  }

  /** The entry names line `i` of the temporary file of its path, and `f` lies at the diff
      line behind it. */
  predicate FoundAt(f: Finding, leak: Leak, added: map<string, seq<TempLine>>, i: int) {
    && Names(leak, i) && leak.file in added && 1 <= i <= |added[leak.file]|
    && f.file == leak.file && f.line == added[leak.file][i - 1].line && f.position == added[leak.file][i - 1].position
    && f.cwe == Some("CWE-798") && f.ruleId == Some("gitleaks:" + leak.rule) && f.severity.Critical?
    && f.confidence == 0.99 && f.source == Deterministic
  }

  /** The entry names a line of the temporary file of its path. */
  ghost predicate Located(leak: Leak, added: map<string, seq<TempLine>>) {
    leak.file in added && exists i :: Names(leak, i) && 1 <= i <= |added[leak.file]|
  }

  /** The hits are the report's entries that name a line of a temporary file. */
  ghost predicate ExactlyLocated(hits: seq<Leak>, report: seq<Leak>, added: map<string, seq<TempLine>>) {
    && (forall leak :: leak in hits ==> leak in report && Located(leak, added))
    && (forall leak :: leak in report && Located(leak, added) ==> leak in hits)
  }

  lemma LeakFoundAt(leak: Leak, added: map<string, seq<TempLine>>)
    requires LeakHit(leak, added)
    ensures Found(LeakAt(leak, added), leak, added)
  {
    assert FoundAt(LeakAt(leak, added), leak, added, LeakLine(leak));
  }

  ghost predicate Found(f: Finding, leak: Leak, added: map<string, seq<TempLine>>) {
    exists i :: FoundAt(f, leak, added, i)
  }

  /** The entries that become findings are those that name a line of a temporary file. */
  lemma {:induction false} LeakHitsExactly(report: seq<Leak>, added: map<string, seq<TempLine>>, leak: Leak)
    ensures leak in LeakHits(report, added) <==>
              leak in report && Located(leak, added)
  {
    if report != [] {
      var n := |report| - 1;
      assert report == report[..n] + [report[n]];
      LeakHitsExactly(report[..n], added, leak);
      assert leak.file in added && LeakHit(leak, added) ==> Names(leak, LeakLine(leak));
    }
  }

  /** The diff line behind a finding reads as the line of the temporary file that the
      entry names. */
  lemma LeakIsItsLine(files: seq<FileChange>, leak: Leak, f: Finding, i: int)
    requires FoundAt(f, leak, Materialized(files), i)
    requires forall k :: 0 <= k < |Materialized(files)[leak.file]| ==> '\n' !in Materialized(files)[leak.file][k].content
    ensures var rows := Split('\n', TempText(Materialized(files)[leak.file]));
      && i <= |rows|
      && exists fc, ln :: fc in files && fc.path == leak.file && ln in AddedLines(fc)
           && ln.newLine == Some(f.line) && ln.position == f.position && ln.content == rows[i - 1]
  {
    hide AddedLines, TempText, Split;
    MaterializedFrom(files);
    var lines := Materialized(files)[leak.file];
    TempLinesExactly(lines);
    var t := lines[i - 1];
    assert t in lines && t.content == Contents(lines)[i - 1];
    assert TempFrom(files, leak.file, t);
  }

  /** `run_gitleaks`: one finding for each entry that names a line of a temporary file,
      at the diff line behind it; whatever the report says, each finding lies on an
      added line of a changed file and carries its position. */
  method RunGitleaks(files: seq<FileChange>, report: seq<Leak>) returns (out: seq<Finding>)
    ensures var added := Materialized(files); var hits := LeakHits(report, added);
      && |out| == |hits| && (forall i :: 0 <= i < |out| ==> out[i] == LeakAt(hits[i], added))
      && (forall i :: 0 <= i < |out| ==> Found(out[i], hits[i], added))
      && ExactlyLocated(hits, report, added)
    ensures forall f :: f in out ==> OnChange(files, f)
  {
    LeaksFound(report, Materialized(files));
    hide AddedLines, AddedNumbers, LeakFinding, LeakLine, TempFrom, OnChange, Materialized, Found, ExactlyLocated;
    var added := MaterializeAddedLines(files);
    var lineMap := BuildLineMap(added);
    out := [];
    for i := 0 to |report|
      invariant forall f :: f in out ==> OnChange(files, f)
      invariant var hits := LeakHits(report[..i], added);
        |out| == |hits| && forall j :: 0 <= j < |out| ==> out[j] == LeakAt(hits[j], added)
    {
      assert report[..i + 1][..i] == report[..i];
      var leak := report[i];
      var at := (leak.file, LeakLine(leak));
      if at !in lineMap {
        continue;
      }
      var (path, line, position) := lineMap[at];
      ghost var t := added[leak.file][LeakLine(leak) - 1];
      var f := LeakFinding(leak, path, line, position);
      LeakPlaced(files, leak, t);
      out := out + [f];
    }
    assert report[..|report|] == report;
  }

  lemma LeaksFound(report: seq<Leak>, added: map<string, seq<TempLine>>)
    ensures var hits := LeakHits(report, added);
      && (forall i :: 0 <= i < |hits| ==> Found(LeakAt(hits[i], added), hits[i], added))
      && ExactlyLocated(hits, report, added)
  {
    var hits := LeakHits(report, added);
    hide LeakAt, Found, Located, LeakHits;
    forall i | 0 <= i < |hits| ensures Found(LeakAt(hits[i], added), hits[i], added) {
      LeakFoundAt(hits[i], added);
    }
    forall leak | leak in hits || leak in report ensures leak in hits <==> leak in report && Located(leak, added) {
      LeakHitsExactly(report, added, leak);
    }
  }

  lemma LeakFields(leak: Leak, path: string, line: int, position: Option<int>)
    ensures var f := LeakFinding(leak, path, line, position); f.file == path && f.line == line && f.position == position
  {
  }

  lemma LeakPlaced(files: seq<FileChange>, leak: Leak, t: TempLine)
    requires TempFrom(files, leak.file, t)
    ensures OnChange(files, LeakFinding(leak, leak.file, t.line, t.position))
  {
    hide AddedLines;
    LeakFields(leak, leak.file, t.line, t.position);
    hide LeakFinding;
    var f := LeakFinding(leak, leak.file, t.line, t.position);
    var fc, ln :| fc in files && fc.path == leak.file && ln in AddedLines(fc)
      && ln.newLine == Some(t.line) && ln.position == t.position && ln.content == t.content;
    assert Places(ln, f);
    assert OnAddedLine(fc, f);
  }
}
