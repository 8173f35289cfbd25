/** The normalized domain models every provider and pipeline stage shares
    (aegis/schemas.py). Optional strings follow Python's `x or y`: a missing
    value and the empty string are both false. */
module Schemas {
  import opened Text

  datatype Option<+T> = None | Some(value: T)

  datatype Result<+T> = Ok(value: T) | Error

  /** Python's `x or y` for an optional string `x`. */
  function Or(x: Option<string>, y: string): string {
    if x.Some? && x.value != "" then x.value else y
  }

  /** False in Python. */
  predicate Blank(x: Option<string>) {
    x.None? || x.value == ""
  }

  datatype Severity = Info | Low | Medium | High | Critical

  datatype Source = Deterministic | LlmA | LlmB | Judge

  function SeverityName(s: Severity): string {
    match s
    case Info => "info"
    case Low => "low"
    case Medium => "medium"
    case High => "high"
    case Critical => "critical"
  }

  datatype LineKind = Add | Del | Ctx

  datatype DiffLine = DiffLine(
    kind: LineKind,
    content: string,
    newLine: Option<int>,
    oldLine: Option<int>,
    position: Option<int>)

  datatype Hunk = Hunk(
    oldStart: int,
    oldCount: int,
    newStart: int,
    newCount: int,
    header: string,
    lines: seq<DiffLine>)

  datatype FileChange = FileChange(path: string, hunks: seq<Hunk>)

  datatype Finding = Finding(
    file: string,
    line: int,
    position: Option<int>,
    cwe: Option<string>,
    ruleId: Option<string>,
    severity: Severity,
    confidence: real,
    source: Source,
    title: string,
    rationale: string,
    exploit: Option<string>,
    fix: Option<string>,
    fixIsSuggestion: bool)

  /** The SHA-1 hex digest is an arbitrary function `sha` of its basis. */
  function Fingerprint(sha: string -> string, f: Finding): string {
    sha(f.file + ":" + Decimal(f.line) + ":" + Or(f.cwe, "") + ":" + Or(f.ruleId, f.title))
  }

  function AddedIn(lines: seq<DiffLine>): (r: seq<DiffLine>)
    ensures forall ln :: ln in r <==> ln in lines && ln.kind == Add
  {
    if lines == [] then []
    else
      var rest := AddedIn(lines[1..]);
      assert lines == [lines[0]] + lines[1..];
      if lines[0].kind == Add then [lines[0]] + rest else rest
  }

  function AddedInHunks(hunks: seq<Hunk>): (r: seq<DiffLine>)
    ensures forall ln :: ln in r <==> ln.kind == Add && exists i :: 0 <= i < |hunks| && ln in hunks[i].lines
  {
    if hunks == [] then []
    else
      var rest := AddedInHunks(hunks[1..]);
      assert hunks == [hunks[0]] + hunks[1..];
      AddedIn(hunks[0].lines) + rest
  }

  /** `FileChange.added_lines`. */
  function AddedLines(fc: FileChange): (r: seq<DiffLine>)
    ensures forall ln :: ln in r <==> ln.kind == Add && exists i :: 0 <= i < |fc.hunks| && ln in fc.hunks[i].lines
  {
    AddedInHunks(fc.hunks)
  }

  lemma {:induction false} AddedInConcat(a: seq<DiffLine>, b: seq<DiffLine>)
    ensures AddedIn(a + b) == AddedIn(a) + AddedIn(b)
  {
    if a == [] {
      assert a + b == b;
    } else {
      AddedInConcat(a[1..], b);
      assert (a + b)[1..] == a[1..] + b;
    }
  }

  lemma {:induction false} AddedInHunksConcat(a: seq<Hunk>, b: seq<Hunk>)
    ensures AddedInHunks(a + b) == AddedInHunks(a) + AddedInHunks(b)
  {
    if a == [] {
      assert a + b == b;
    } else {
      AddedInHunksConcat(a[1..], b);
      assert (a + b)[1..] == a[1..] + b;
    }
  }

  /** The added lines come in the order of the diff: cutting a file's diff between two
      lines cuts its added lines, and a line counts exactly when it is an addition. */
  lemma AddedLinesInOrder(path: string, before: seq<Hunk>, after: seq<Hunk>, a: Hunk, b: Hunk, ln: DiffLine)
    ensures AddedLines(FileChange(path, before + after)) ==
            AddedLines(FileChange(path, before)) + AddedLines(FileChange(path, after))
    ensures AddedLines(FileChange(path, [a.(lines := a.lines + b.lines)])) ==
            AddedLines(FileChange(path, [a])) + AddedLines(FileChange(path, [b]))
    ensures AddedLines(FileChange(path, [a.(lines := [ln])])) == if ln.kind == Add then [ln] else []
  {
    AddedInHunksConcat(before, after);
    AddedInConcat(a.lines, b.lines);
    OneHunk(path, a);
    OneHunk(path, b);
    OneHunk(path, a.(lines := a.lines + b.lines));
    OneHunk(path, a.(lines := [ln]));
  }

  lemma OneHunk(path: string, h: Hunk)
    ensures AddedLines(FileChange(path, [h])) == AddedIn(h.lines)
    ensures |h.lines| == 1 ==> AddedIn(h.lines) == if h.lines[0].kind == Add then [h.lines[0]] else []
  {
    assert [h][1..] == [] && AddedInHunks([]) == [];
  }
}
