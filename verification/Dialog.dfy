/** Review comments: what they tell, the fingerprint read back from them, and reports. */
module Dialog {
  import opened Schemas
  import opened Text
  import opened DiffText
  import opened MergeGate

  // Comments are rendered in aegis/pipeline/render.py; their threads are read, and false
  // positives recorded, in aegis/pipeline/dialog.py.

  const MARK := "Finding fingerprint:"

  // ---------------------------------------------------------------- rendering

  function Upper(s: Severity): string {
    match s
    case Info => "INFO"
    case Low => "LOW"
    case Medium => "MEDIUM"
    case High => "HIGH"
    case Critical => "CRITICAL"
  }

  function HeadParts(f: Finding, confidence: string): seq<string> {
    ["**Aegis security finding: " + Upper(f.severity) + "**", "", "**" + f.title + "**",
     "- CWE: `" + Or(f.cwe, "n/a") + "`", "- Confidence: `" + confidence + "`", "", f.rationale]
  }

  function ExploitParts(f: Finding): seq<string> {
    if Or(f.exploit, "") == "" then [] else ["", "**Exploit scenario**", f.exploit.value]
  }

  function FixParts(f: Finding): seq<string> {
    if Or(f.fix, "") == "" then []
    else ["", "**Suggested fix**",
          "```" + (if f.fixIsSuggestion then "suggestion" else "") + "\n" + f.fix.value + "\n```"]
  }

  /** The comment without its last part; `confidence` is the formatted confidence. */
  function FrontParts(f: Finding, confidence: string): seq<string> {
    HeadParts(f, confidence) + ExploitParts(f) + FixParts(f)
  }

  function LastPart(fingerprint: string): string {
    "\n" + MARK + " `" + fingerprint + "`"
  }

  function Rendered(sha: string -> string, fmt: real -> string, f: Finding): string {
    Join('\n', FrontParts(f, fmt(f.confidence)) + [LastPart(Fingerprint(sha, f))])
  }

  /** `render_inline_comment`: the fingerprint search of a thread finds the finding's
      own fingerprint in the comment when no text field holds the mark, and in any case
      when the text before the last part does not match by itself. */
  method RenderInlineComment(sha: string -> string, fmt: real -> string, f: Finding) returns (body: string)
    ensures body == Rendered(sha, fmt, f)
    ensures IsDigest(Fingerprint(sha, f)) && FieldsFree(f, fmt(f.confidence)) ==> Search(body) == Some(Fingerprint(sha, f))
    ensures IsDigest(Fingerprint(sha, f)) && Search(Front(fmt, f)).None? ==> Search(body) == Some(Fingerprint(sha, f))
    ensures Tells(body, f, fmt(f.confidence), Fingerprint(sha, f))
    ensures FeedFree(f, fmt(f.confidence), Fingerprint(sha, f)) ==>
              Split('\n', body) == CommentRows(f, fmt(f.confidence), Fingerprint(sha, f))
  {
    RenderedTells(sha, fmt, f);
    RenderedRows(sha, fmt, f);
    hide Join, Split, Fingerprint, Search, IsDigest, FieldsFree, Tells, FeedFree, CommentRows;
    if IsDigest(Fingerprint(sha, f)) {
      ReadBackExactly(sha, fmt, f);
      if FieldsFree(f, fmt(f.confidence)) {
        FingerprintReadBack(sha, fmt, f);
      }
    }
    var parts := ["**Aegis security finding: " + Upper(f.severity) + "**", "", "**" + f.title + "**",
                  "- CWE: `" + Or(f.cwe, "n/a") + "`", "- Confidence: `" + fmt(f.confidence) + "`", "", f.rationale];
    if f.exploit.Some? && f.exploit.value != "" {
      parts := parts + ["", "**Exploit scenario**", f.exploit.value];
    }
    if f.fix.Some? && f.fix.value != "" {
      parts := parts + ["", "**Suggested fix**"];
      var fence := if f.fixIsSuggestion then "suggestion" else "";
      parts := parts + ["```" + fence + "\n" + f.fix.value + "\n```"];
    }
    assert parts == FrontParts(f, fmt(f.confidence));
    parts := parts + ["\n" + MARK + " `" + Fingerprint(sha, f) + "`"];
    body := Join('\n', parts);
  }

  // ---------------------------------------------------------------- extraction

  predicate IsHex(c: char) {
    '0' <= c <= '9' || 'a' <= c <= 'f'
  }

  /** A SHA-1 digest in lower-case hexadecimal. */
  predicate IsDigest(s: string) {
    |s| == 40 && forall c :: c in s ==> IsHex(c)
  }

  /** The digest between back quotes at the start of `t`. */
  function Quoted(t: string): Option<string> {
    if |t| >= 42 && t[0] == '`' && t[41] == '`' && IsDigest(t[1..41]) then Some(t[1..41]) else None
  }

  /** The pattern at the start of `s`: the mark, any white space, a quoted digest. */
  function MatchAt(s: string): Option<string> {
    if MARK <= s then Quoted(LStrip(s[|MARK|..])) else None
  }

  /** The regular expression search: the leftmost match. */
  function Search(s: string): Option<string> {
    if s == "" then None
    else
      match MatchAt(s)
      case Some(d) => Some(d)
      case None => Search(s[1..])
  }

  /** `_fingerprint`: the first comment that matches decides. */
  method ThreadFingerprint(comments: seq<string>) returns (fingerprint: Option<string>)
    ensures fingerprint.None? ==> forall i :: 0 <= i < |comments| ==> Search(comments[i]).None?
    ensures fingerprint.Some? ==>
              exists i :: 0 <= i < |comments| && Search(comments[i]) == fingerprint
                && forall j :: 0 <= j < i ==> Search(comments[j]).None?
  {
    for i := 0 to |comments|
      invariant forall j :: 0 <= j < i ==> Search(comments[j]).None?
    {
      var m := Search(comments[i]);
      if m.Some? {
        return m;
      }
    }
    return None;
  }

  // ---------------------------------------------------------------- where the mark can occur

  ghost predicate Occurs(m: string, s: string) {
    exists i :: 0 <= i <= |s| - |m| && At(m, s, i)
  }

  predicate At(m: string, s: string, i: int)
    requires 0 <= i <= |s| - |m|
  {
    s[i..i + |m|] == m
  }

  /** A character outside the mark separates texts: no occurrence spans it. */
  lemma SeparatedFree(m: string, a: string, c: char, b: string)
    requires c !in m && !Occurs(m, a) && !Occurs(m, b)
    ensures !Occurs(m, a + [c] + b)
  {
    var s := a + [c] + b;
    forall i | 0 <= i <= |s| - |m| ensures !At(m, s, i) {
      if i + |m| <= |a| {
        assert !At(m, a, i);
        assert s[i..i + |m|] == a[i..i + |m|];
      } else if i > |a| {
        assert !At(m, b, i - |a| - 1);
        assert s[i..i + |m|] == b[i - |a| - 1..i - |a| - 1 + |m|];
      } else {
        assert s[i..i + |m|][|a| - i] == c;
      }
    }
  }

  lemma {:induction false} JoinFree(m: string, sep: char, parts: seq<string>)
    requires sep !in m && m != "" && forall i :: 0 <= i < |parts| ==> !Occurs(m, parts[i])
    ensures !Occurs(m, Join(sep, parts))
  {
    hide Occurs;
    if |parts| == 0 {
      ShortFree(m, "");
    } else if |parts| > 1 {
      JoinFree(m, sep, parts[1..]);
      SeparatedFree(m, parts[0], sep, Join(sep, parts[1..]));
    }
  }

  lemma ShortFree(m: string, s: string)
    requires |s| < |m|
    ensures !Occurs(m, s)
  {
  }

  lemma LacksChar(m: string, s: string, c: char)
    requires c in m && c !in s
    ensures !Occurs(m, s)
  {
    var k :| 0 <= k < |m| && m[k] == c;
    forall i | 0 <= i <= |s| - |m| ensures !At(m, s, i) {
      assert s[i..i + |m|][k] == s[i + k];
      assert s[i + k] in s;
    }
  }

  /** A text between two copies of a separator. */
  lemma QuotedFree(m: string, c: char, t: string)
    requires c !in m && m != "" && !Occurs(m, t)
    ensures !Occurs(m, [c] + t + [c])
  {
    ShortFree(m, "");
    SeparatedFree(m, "", c, t);
    assert "" + [c] + t == [c] + t;
    SeparatedFree(m, [c] + t, c, "");
    assert [c] + t + [c] + "" == [c] + t + [c];
  }

  lemma MarkChars()
    ensures |MARK| == 20 && 'p' in MARK && '*' !in MARK && '`' !in MARK && '\n' !in MARK
  {
    assert MARK[14] == 'p';
    assert forall i :: 0 <= i < 20 ==> MARK[i] == ' ' || MARK[i] == ':' || 'A' <= MARK[i] <= 'Z' || 'a' <= MARK[i] <= 'z';
  }

  lemma StarredFree(t: string)
    requires !Occurs(MARK, t)
    ensures !Occurs(MARK, "**" + t + "**")
  {
    MarkChars();
    QuotedFree(MARK, '*', t);
    QuotedFree(MARK, '*', "*" + t + "*");
    assert "**" + t + "**" == ['*'] + ("*" + t + "*") + ['*'];
  }

  lemma TickedFree(front: string, t: string)
    requires !Occurs(MARK, t) && |front| < |MARK|
    ensures !Occurs(MARK, front + "`" + t + "`")
  {
    MarkChars();
    ShortFree(MARK, front);
    ShortFree(MARK, "");
    SeparatedFree(MARK, t, '`', "");
    assert t + ['`'] + "" == t + "`";
    SeparatedFree(MARK, front, '`', t + "`");
    assert front + ['`'] + (t + "`") == front + "`" + t + "`";
  }

  lemma FencedFree(fence: string, t: string)
    requires !Occurs(MARK, t) && |fence| < |MARK|
    ensures !Occurs(MARK, fence + "\n" + t + "\n```")
  {
    MarkChars();
    ShortFree(MARK, fence);
    ShortFree(MARK, "```");
    SeparatedFree(MARK, t, '\n', "```");
    assert t + ['\n'] + "```" == t + "\n```";
    SeparatedFree(MARK, fence, '\n', t + "\n```");
    assert fence + ['\n'] + (t + "\n```") == fence + "\n" + t + "\n```";
  }

  lemma HeadlineFree(s: Severity)
    ensures !Occurs(MARK, "**Aegis security finding: " + Upper(s) + "**")
  {
    var front, upper := "Aegis security finding: ", Upper(s);
    HeadlineLacksP(s);
    MarkChars();
    hide Occurs, Upper;
    LacksChar(MARK, front + upper, 'p');
    StarredFree(front + upper);
    StarsAround(front, upper);
    assert "**" + front == "**Aegis security finding: ";
  }

  lemma StarsAround(front: string, t: string)
    ensures "**" + (front + t) + "**" == "**" + front + t + "**"
  {
    assert "**" + (front + t) == "**" + front + t;
  }

  lemma HeadlineLacksP(s: Severity)
    ensures 'p' !in "Aegis security finding: " + Upper(s)
  {
    var front := "Aegis security finding: ";
    assert forall i :: 0 <= i < |front| ==> front[i] != 'p';
    assert 'p' !in Upper(s);
  }

  /** No text field of the finding holds the mark. */
  ghost predicate FieldsFree(f: Finding, confidence: string) {
    && !Occurs(MARK, f.title) && !Occurs(MARK, Or(f.cwe, "n/a")) && !Occurs(MARK, f.rationale)
    && !Occurs(MARK, Or(f.exploit, "")) && !Occurs(MARK, Or(f.fix, ""))
    && |confidence| < |MARK|
  }

  ghost predicate PartsFree(parts: seq<string>) {
    forall i :: 0 <= i < |parts| ==> !Occurs(MARK, parts[i])
  }

  lemma HeadPartsFree(f: Finding, confidence: string)
    requires FieldsFree(f, confidence)
    ensures PartsFree(HeadParts(f, confidence))
  {
    hide Occurs, Upper, Or;
    HeadlineFree(f.severity);
    ShortFree(MARK, "");
    StarredFree(f.title);
    TickedFree("- CWE: ", Or(f.cwe, "n/a"));
    ShortFree(MARK, confidence);
    TickedFree("- Confidence: ", confidence);
    assert "- CWE: " + "`" == "- CWE: `";
    assert "- Confidence: " + "`" == "- Confidence: `";
  }

  lemma ExploitPartsFree(f: Finding)
    requires !Occurs(MARK, Or(f.exploit, ""))
    ensures PartsFree(ExploitParts(f))
  {
    hide Occurs;
    ShortFree(MARK, "");
    ShortFree(MARK, "Exploit scenario");
    StarredFree("Exploit scenario");
    assert "**" + "Exploit scenario" + "**" == "**Exploit scenario**";
  }

  lemma FixPartsFree(f: Finding)
    requires !Occurs(MARK, Or(f.fix, ""))
    ensures PartsFree(FixParts(f))
  {
    hide Occurs;
    ShortFree(MARK, "");
    ShortFree(MARK, "Suggested fix");
    StarredFree("Suggested fix");
    assert "**" + "Suggested fix" + "**" == "**Suggested fix**";
    var fence := "```" + (if f.fixIsSuggestion then "suggestion" else "");
    FencedFree(fence, Or(f.fix, ""));
  }

  lemma FrontFree(f: Finding, confidence: string)
    requires FieldsFree(f, confidence)
    ensures PartsFree(FrontParts(f, confidence)) && FrontParts(f, confidence) != []
  {
    HeadPartsFree(f, confidence);
    assert HeadParts(f, confidence) != [];
    hide HeadParts, ExploitParts, FixParts, Occurs;
    ExploitPartsFree(f);
    FixPartsFree(f);
  }

  // ---------------------------------------------------------------- what a comment tells

  /** The comment holds the finding's severity, title, CWE, confidence and rationale. */
  ghost predicate TellsFinding(body: string, f: Finding, confidence: string) {
    && Occurs("**Aegis security finding: " + (match f.severity
                                              case Info => "INFO"
                                              case Low => "LOW"
                                              case Medium => "MEDIUM"
                                              case High => "HIGH"
                                              case Critical => "CRITICAL") + "**", body)
    && Occurs("**" + f.title + "**", body)
    && Occurs("- CWE: `" + (if Blank(f.cwe) then "n/a" else f.cwe.value) + "`", body)
    && Occurs("- Confidence: `" + confidence + "`", body)
    && Occurs(f.rationale, body)
  }

  /** And its exploit and its fix if there are any, the fix as a suggestion if it is one,
      and the marked fingerprint. */
  ghost predicate Tells(body: string, f: Finding, confidence: string, fingerprint: string) {
    && TellsFinding(body, f, confidence)
    && (!Blank(f.exploit) ==> Occurs("**Exploit scenario**\n" + f.exploit.value, body))
    && (!Blank(f.fix) ==>
          Occurs("**Suggested fix**\n```" + (if f.fixIsSuggestion then "suggestion" else "") + "\n" + f.fix.value + "\n```",
                 body))
    && Occurs("\nFinding fingerprint: `" + fingerprint + "`", body)
  }

  lemma OccursIn(m: string, u: string, v: string)
    ensures Occurs(m, u + m + v)
  {
    assert At(m, u + m + v, |u|);
  }

  lemma SliceOfSlice(c: string, j: nat, n: nat, i: nat, m: nat)
    requires j + n <= |c| && i + m <= n
    ensures c[j..j + n][i..i + m] == c[j + i..j + i + m]
  {
    var x, y := c[j..j + n][i..i + m], c[j + i..j + i + m];
    assert |x| == |y| && forall k :: 0 <= k < m ==> x[k] == y[k];
  }

  lemma OccursThrough(a: string, b: string, c: string)
    requires Occurs(a, b) && Occurs(b, c)
    ensures Occurs(a, c)
  {
    var i :| 0 <= i <= |b| - |a| && At(a, b, i);
    var j :| 0 <= j <= |c| - |b| && At(b, c, j);
    SliceOfSlice(c, j, |b|, i, |a|);
    assert At(a, c, j + i);
  }

  lemma {:induction false} PartOccurs(sep: char, parts: seq<string>, i: nat)
    requires i < |parts|
    ensures Occurs(parts[i], Join(sep, parts))
    ensures i + 1 < |parts| ==> Occurs(parts[i] + [sep] + parts[i + 1], Join(sep, parts))
  {
    hide Occurs;
    if |parts| == 1 {
      OccursIn(parts[0], "", "");
      assert "" + parts[0] + "" == parts[0];
    } else {
      var rest := Join(sep, parts[1..]);
      if i == 0 {
        OccursIn(parts[0], "", [sep] + rest);
        assert "" + parts[0] + ([sep] + rest) == parts[0] + [sep] + rest;
        JoinStart(sep, parts[1..]);
        var tail :| rest == parts[1] + tail;
        OccursIn(parts[0] + [sep] + parts[1], "", tail);
        assert "" + (parts[0] + [sep] + parts[1]) + tail == parts[0] + [sep] + rest;
      } else {
        PartOccurs(sep, parts[1..], i - 1);
        OccursIn(rest, parts[0] + [sep], "");
        assert parts[0] + [sep] + rest + "" == Join(sep, parts);
        OccursThrough(parts[i], rest, Join(sep, parts));
        if i + 1 < |parts| {
          OccursThrough(parts[i] + [sep] + parts[i + 1], rest, Join(sep, parts));
        }
      }
    }
  }

  lemma JoinStart(sep: char, parts: seq<string>)
    requires parts != []
    ensures exists tail :: Join(sep, parts) == parts[0] + tail
  {
    if |parts| == 1 {
      assert Join(sep, parts) == parts[0] + "";
    } else {
      assert Join(sep, parts) == parts[0] + ([sep] + Join(sep, parts[1..]));
    }
  }

  /** A part, and a part with the next one, occur in the text. */
  lemma AmongParts(before: seq<string>, part: string, after: seq<string>)
    ensures Occurs(part, Join('\n', before + [part] + after))
    ensures after != [] ==> Occurs(part + "\n" + after[0], Join('\n', before + [part] + after))
  {
    var parts := before + [part] + after;
    PartOccurs('\n', parts, |before|);
    assert parts[|before|] == part && (after != [] ==> parts[|before| + 1] == after[0]);
  }

  lemma HeadTells(f: Finding, confidence: string, rest: seq<string>)
    ensures TellsFinding(Join('\n', HeadParts(f, confidence) + rest), f, confidence)
  {
    var head := HeadParts(f, confidence);
    forall i | 0 <= i < 7 ensures Occurs(head[i], Join('\n', head + rest)) {
      AmongParts(head[..i], head[i], head[i + 1..] + rest);
      assert head[..i] + [head[i]] + (head[i + 1..] + rest) == head + rest;
    }
    hide Occurs, Join;
    assert head[0] == "**Aegis security finding: " + Upper(f.severity) + "**" && head[2] == "**" + f.title + "**";
    assert head[3] == "- CWE: `" + Or(f.cwe, "n/a") + "`" && head[4] == "- Confidence: `" + confidence + "`";
    assert head[6] == f.rationale;
  }

  lemma ExploitTells(f: Finding, before: seq<string>, after: seq<string>)
    requires !Blank(f.exploit)
    ensures Occurs("**Exploit scenario**\n" + f.exploit.value, Join('\n', before + ExploitParts(f) + after))
  {
    var title := "**Exploit scenario**";
    AmongParts(before + [""], title, [f.exploit.value] + after);
    assert before + ExploitParts(f) + after == (before + [""]) + [title] + ([f.exploit.value] + after);
    assert title + "\n" + f.exploit.value == "**Exploit scenario**\n" + f.exploit.value;
  }

  lemma FixTells(f: Finding, before: seq<string>, after: seq<string>)
    requires !Blank(f.fix)
    ensures Occurs("**Suggested fix**\n```" + (if f.fixIsSuggestion then "suggestion" else "") + "\n" + f.fix.value + "\n```",
                   Join('\n', before + FixParts(f) + after))
  {
    var title := "**Suggested fix**";
    var block := "```" + (if f.fixIsSuggestion then "suggestion" else "") + "\n" + f.fix.value + "\n```";
    AmongParts(before + [""], title, [block] + after);
    assert before + FixParts(f) + after == (before + [""]) + [title] + ([block] + after);
    assert title + "\n" + block ==
           "**Suggested fix**\n```" + (if f.fixIsSuggestion then "suggestion" else "") + "\n" + f.fix.value + "\n```";
  }

  lemma RenderedTells(sha: string -> string, fmt: real -> string, f: Finding)
    ensures Tells(Rendered(sha, fmt, f), f, fmt(f.confidence), Fingerprint(sha, f))
  {
    var confidence, last := fmt(f.confidence), LastPart(Fingerprint(sha, f));
    RenderedMark(sha, fmt, f);
    assert Rendered(sha, fmt, f) == Join('\n', HeadParts(f, confidence) + ExploitParts(f) + FixParts(f) + [last]);
    hide Occurs, Join, HeadParts, ExploitParts, FixParts, FrontParts, LastPart, Rendered, Fingerprint, TellsFinding,
      Blank;
    var head, exploit, fix := HeadParts(f, confidence), ExploitParts(f), FixParts(f);
    Regrouped(head, exploit, fix, [last]);
    HeadTells(f, confidence, exploit + fix + [last]);
    if !Blank(f.exploit) {
      ExploitTells(f, head, fix + [last]);
    }
    if !Blank(f.fix) {
      FixTells(f, head + exploit, [last]);
    }
  }

  lemma RenderedMark(sha: string -> string, fmt: real -> string, f: Finding)
    ensures Occurs("\nFinding fingerprint: `" + Fingerprint(sha, f) + "`", Rendered(sha, fmt, f))
  {
    var last := LastPart(Fingerprint(sha, f));
    assert last == "\nFinding fingerprint: `" + Fingerprint(sha, f) + "`";
    hide Occurs, Join, FrontParts, LastPart, Fingerprint;
    var front := FrontParts(f, fmt(f.confidence));
    AmongParts(front, last, []);
    assert front + [last] + [] == front + [last];
  }

  lemma Regrouped(a: seq<string>, b: seq<string>, c: seq<string>, d: seq<string>)
    ensures a + (b + c + d) == a + b + (c + d) == a + b + c + d
  {
  }

  function FindingRows(f: Finding, confidence: string): seq<string> {
    ["**Aegis security finding: " + Upper(f.severity) + "**", "", "**" + f.title + "**",
     "- CWE: `" + (if Blank(f.cwe) then "n/a" else f.cwe.value) + "`", "- Confidence: `" + confidence + "`", "", f.rationale]
  }

  function ExploitRows(f: Finding): seq<string> {
    if Blank(f.exploit) then [] else ["", "**Exploit scenario**", f.exploit.value]
  }

  function FixRows(f: Finding): seq<string> {
    if Blank(f.fix) then []
    else ["", "**Suggested fix**"] + ["```" + (if f.fixIsSuggestion then "suggestion" else ""), f.fix.value, "```"]
  }

  function MarkRows(fingerprint: string): seq<string> {
    ["", "Finding fingerprint: `" + fingerprint + "`"]
  }

  /** The lines of the comment of a finding whose texts are single lines. */
  function CommentRows(f: Finding, confidence: string, fingerprint: string): seq<string> {
    FindingRows(f, confidence) + ExploitRows(f) + FixRows(f) + MarkRows(fingerprint)
  }

  predicate FeedFree(f: Finding, confidence: string, fingerprint: string) {
    && '\n' !in f.title && '\n' !in f.rationale && '\n' !in confidence && '\n' !in fingerprint
    && (f.cwe.Some? ==> '\n' !in f.cwe.value) && (f.exploit.Some? ==> '\n' !in f.exploit.value)
    && (f.fix.Some? ==> '\n' !in f.fix.value)
  }

  /** Each further part comes after a line break. */
  function Added(parts: seq<string>): string {
    if parts == [] then "" else "\n" + parts[0] + Added(parts[1..])
  }

  lemma {:induction false} JoinAdded(parts: seq<string>, more: seq<string>)
    requires parts != []
    ensures Join('\n', parts + more) == Join('\n', parts) + Added(more)
    decreases |more|
  {
    if more == [] {
      assert parts + more == parts;
    } else {
      JoinAdded(parts + [more[0]], more[1..]);
      assert parts + [more[0]] + more[1..] == parts + more;
      JoinSnoc('\n', parts, more[0]);
      assert Join('\n', parts) + ['\n'] + more[0] + Added(more[1..]) == Join('\n', parts) + ("\n" + more[0] + Added(more[1..]));
    }
  }

  lemma {:induction false} AddedConcat(a: seq<string>, b: seq<string>)
    ensures Added(a + b) == Added(a) + Added(b)
  {
    if a == [] {
      assert a + b == b;
    } else {
      AddedConcat(a[1..], b);
      assert (a + b)[1..] == a[1..] + b;
    }
  }

  /** A part of several lines counts as its lines. */
  lemma BlockAdded(a: string, b: string, c: string)
    ensures Added([a + "\n" + b]) == Added([a, b])
    ensures Added([a + "\n" + b + "\n" + c]) == Added([a, b, c])
  {
    OneAdded(c);
    OneAdded(b);
    OneAdded(a + "\n" + b);
    OneAdded(a + "\n" + b + "\n" + c);
    assert [b, c][1..] == [c] && [a, b][1..] == [b] && [a, b, c][1..] == [b, c];
    assert Added([b, c]) == "\n" + b + ("\n" + c);
    assert Added([a, b]) == "\n" + a + ("\n" + b);
    assert Added([a, b, c]) == "\n" + a + ("\n" + b + ("\n" + c));
    hide Added;
    assert "\n" + a + ("\n" + b + ("\n" + c)) == "\n" + (a + "\n" + b + "\n" + c);
    assert "\n" + a + ("\n" + b) == "\n" + (a + "\n" + b);
  }

  lemma OneAdded(a: string)
    ensures Added([a]) == "\n" + a
  {
    assert [a][1..] == [];
    assert "\n" + a + "" == "\n" + a;
  }

  lemma FixAdded(f: Finding)
    ensures Added(FixParts(f)) == Added(FixRows(f))
  {
    if !Blank(f.fix) {
      var fence := "```" + (if f.fixIsSuggestion then "suggestion" else "");
      var block := fence + "\n" + f.fix.value + "\n" + "```";
      BlockAdded(fence, f.fix.value, "```");
      AddedConcat(["", "**Suggested fix**"], [block]);
      AddedConcat(["", "**Suggested fix**"], [fence, f.fix.value, "```"]);
      assert FixParts(f) == ["", "**Suggested fix**"] + [block] by {
        assert "\n" + "```" == "\n```";
        assert block == fence + "\n" + f.fix.value + "\n```";
      }
    }
  }

  lemma LastRows(fingerprint: string)
    ensures Added([LastPart(fingerprint)]) == Added(MarkRows(fingerprint))
  {
    BlockAdded("", "Finding fingerprint: `" + fingerprint + "`", "");
    assert LastPart(fingerprint) == "" + "\n" + ("Finding fingerprint: `" + fingerprint + "`");
  }

  lemma RenderedRows(sha: string -> string, fmt: real -> string, f: Finding)
    ensures FeedFree(f, fmt(f.confidence), Fingerprint(sha, f)) ==>
              Split('\n', Rendered(sha, fmt, f)) == CommentRows(f, fmt(f.confidence), Fingerprint(sha, f))
  {
    var confidence, digest := fmt(f.confidence), Fingerprint(sha, f);
    var head, exploit, fix := HeadParts(f, confidence), ExploitParts(f), FixParts(f);
    assert head != [];
    SameRows(f, confidence);
    hide HeadParts, FindingRows, ExploitParts, ExploitRows, FixParts, FixRows, LastPart, MarkRows, Fingerprint, Join,
      Split,
      Upper, FeedFree;
    FixAdded(f);
    LastRows(digest);
    AddedSame(exploit, fix, [LastPart(digest)], FixRows(f), MarkRows(digest));
    JoinSame(head, exploit + fix + [LastPart(digest)], exploit + FixRows(f) + MarkRows(digest));
    hide Added;
    assert FrontParts(f, confidence) + [LastPart(digest)] == head + (exploit + fix + [LastPart(digest)]);
    assert CommentRows(f, confidence, digest) == head + (exploit + FixRows(f) + MarkRows(digest));
    if FeedFree(f, confidence, digest) {
      RowsFree(f, confidence, digest);
      SplitJoin('\n', CommentRows(f, confidence, digest));
    }
  }

  lemma AddedSame(a: seq<string>, b: seq<string>, c: seq<string>, b': seq<string>, c': seq<string>)
    requires Added(b) == Added(b') && Added(c) == Added(c')
    ensures Added(a + b + c) == Added(a + b' + c')
  {
    AddedConcat(a + b, c);
    AddedConcat(a, b);
    AddedConcat(a + b', c');
    AddedConcat(a, b');
    hide Added;
  }

  lemma JoinSame(head: seq<string>, a: seq<string>, b: seq<string>)
    requires head != [] && Added(a) == Added(b)
    ensures Join('\n', head + a) == Join('\n', head + b)
  {
    JoinAdded(head, a);
    JoinAdded(head, b);
  }

  lemma SameRows(f: Finding, confidence: string)
    ensures HeadParts(f, confidence) == FindingRows(f, confidence) && ExploitParts(f) == ExploitRows(f)
  {
    hide Upper;
  }

  predicate NoFeeds(rows: seq<string>) {
    forall i :: 0 <= i < |rows| ==> '\n' !in rows[i]
  }

  lemma RowsFree(f: Finding, confidence: string, digest: string)
    requires FeedFree(f, confidence, digest)
    ensures NoFeeds(CommentRows(f, confidence, digest))
  {
    FindingFree(f, confidence);
    OtherRowsFree(f, digest);
    hide FindingRows, ExploitRows, FixRows, MarkRows;
  }

  lemma FindingFree(f: Finding, confidence: string)
    requires '\n' !in f.title && '\n' !in f.rationale && '\n' !in confidence && (f.cwe.Some? ==> '\n' !in f.cwe.value)
    ensures NoFeeds(FindingRows(f, confidence))
  {
    assert '\n' !in Upper(f.severity) && '\n' !in "n/a";
    assert '\n' !in "**Aegis security finding: " && '\n' !in "- CWE: `" && '\n' !in "- Confidence: `";
    hide Upper;
  }

  lemma OtherRowsFree(f: Finding, digest: string)
    requires '\n' !in digest && (f.exploit.Some? ==> '\n' !in f.exploit.value) && (f.fix.Some? ==> '\n' !in f.fix.value)
    ensures NoFeeds(ExploitRows(f)) && NoFeeds(FixRows(f)) && NoFeeds(MarkRows(digest))
  {
    assert '\n' !in "**Exploit scenario**" && '\n' !in "**Suggested fix**" && '\n' !in "suggestion";
    assert '\n' !in "Finding fingerprint: `";
  }

  /** The search finds nothing but digests. */
  lemma {:induction false} SearchFinds(s: string)
    ensures Search(s).Some? ==> IsDigest(Search(s).value)
  {
    if s != "" {
      hide IsDigest;
      SearchFinds(s[1..]);
    }
  }

  /** The text after a mark is read as a fingerprint if and only if it is forty digits and
      letters from a to f in lower case. */
  lemma DigestsExactly(d: string)
    ensures Search("Finding fingerprint: `" + d + "`") == Some(d) <==>
              |d| == 40 && forall i :: 0 <= i < 40 ==> '0' <= d[i] <= '9' || 'a' <= d[i] <= 'f'
  {
    DigestChars(d);
    SearchFinds("Finding fingerprint: `" + d + "`");
    hide Search, IsDigest;
    assert MARK + " `" == "Finding fingerprint: `";
    if IsDigest(d) {
      MarkMatches(d);
    }
  }

  lemma DigestChars(d: string)
    ensures IsDigest(d) <==> |d| == 40 && forall i :: 0 <= i < 40 ==> '0' <= d[i] <= '9' || 'a' <= d[i] <= 'f'
  {
    if IsDigest(d) {
      assert forall i :: 0 <= i < 40 ==> d[i] in d;
    }
  }

  // ---------------------------------------------------------------- reading it back

  /** A text that begins with a line break, and whose first character that is not white
      space is no back quote. */
  predicate Detached(t: string) {
    t != "" && t[0] == '\n' && LStrip(t) != "" && LStrip(t)[0] != '`'
  }

  lemma {:induction false} LStripConcat(u: string, t: string)
    ensures LStrip(u + t) == if LStrip(u) == "" then LStrip(t) else LStrip(u) + t
  {
    if u == "" {
      assert u + t == t;
    } else {
      assert (u + t)[1..] == u[1..] + t;
      LStripConcat(u[1..], t);
    }
  }

  lemma MarkLocal(front: string, t: string)
    requires t != "" && t[0] == '\n'
    ensures MARK <= front + t <==> MARK <= front
  {
    MarkChars();
    if |front| < |MARK| {
      assert MARK[|front|] in MARK;
      assert MARK[|front|] != (front + t)[|front|];
    }
  }

  /** A quoted digest does not extend over a line break. */
  lemma QuoteLocal(v: string, t: string)
    requires v != "" && t != "" && t[0] == '\n'
    ensures Quoted(v + t) == Quoted(v)
  {
    var s := v + t;
    assert s[|v|] == '\n';
    if |v| >= 42 {
      assert s[1..41] == v[1..41];
    } else if |v| < 41 && |s| >= 42 {
      assert s[1..41][|v| - 1] == '\n';
      assert '\n' in s[1..41] && !IsHex('\n');
    }
  }

  lemma MatchLocal(front: string, t: string)
    requires Detached(t)
    ensures MatchAt(front + t) == MatchAt(front)
  {
    MarkLocal(front, t);
    if MARK <= front {
      var u := front[|MARK|..];
      assert (front + t)[|MARK|..] == u + t;
      LStripConcat(u, t);
      if LStrip(u) != "" {
        hide Quoted;
        QuoteLocal(LStrip(u), t);
      }
    }
  }

  /** The search looks through the front first: no match extends over the break. */
  lemma {:induction false} SearchSplit(front: string, t: string)
    requires Detached(t)
    ensures Search(front + t) == if Search(front).Some? then Search(front) else Search(t)
  {
    if front == "" {
      assert front + t == t;
    } else {
      MatchLocal(front, t);
      hide MatchAt, Detached;
      assert (front + t)[1..] == front[1..] + t;
      SearchSplit(front[1..], t);
    }
  }

  lemma {:induction false} NoMark(s: string)
    requires !Occurs(MARK, s)
    ensures Search(s) == None
  {
    if s != "" {
      assert |MARK| <= |s| ==> !At(MARK, s, 0);
      TailFree(s);
      hide Occurs;
      NoMark(s[1..]);
    }
  }

  lemma TailFree(p: string)
    requires p != "" && !Occurs(MARK, p)
    ensures !Occurs(MARK, p[1..])
  {
    forall i | 0 <= i <= |p[1..]| - |MARK| ensures !At(MARK, p[1..], i) {
      assert !At(MARK, p, i + 1);
      assert p[1..][i..i + |MARK|] == p[i + 1..i + 1 + |MARK|];
    }
  }

  lemma MarkMatches(digest: string)
    requires IsDigest(digest)
    ensures Search(MARK + " `" + digest + "`") == Some(digest)
  {
    var s := MARK + " `" + digest + "`";
    var t := "`" + digest + "`";
    assert s[|MARK|..] == " " + t;
    assert (" " + t)[1..] == t;
    assert LStrip(" " + t) == LStrip(t) == t;
    assert t[1..41] == digest;
  }

  lemma {:induction false} JoinSnoc(sep: char, parts: seq<string>, last: string)
    requires parts != []
    ensures Join(sep, parts + [last]) == Join(sep, parts) + [sep] + last
  {
    var all := parts + [last];
    assert all[1..] == parts[1..] + [last];
    if |parts| > 1 {
      JoinSnoc(sep, parts[1..], last);
    }
  }

  lemma NotAtBreak(s: string)
    requires s != "" && s[0] == '\n'
    ensures Search(s) == Search(s[1..])
  {
    assert MARK[0] != '\n';
  }

  /** A marked digest on the next line, and one line further down. */
  lemma MarkedLine(digest: string)
    requires IsDigest(digest)
    ensures var t := ['\n'] + (MARK + " `" + digest + "`"); Detached(t) && Search(t) == Some(digest)
    ensures var t := ['\n'] + LastPart(digest); Detached(t) && Search(t) == Some(digest)
  {
    var tail := MARK + " `" + digest + "`";
    MarkMatches(digest);
    assert tail[0] == 'F' && LStrip(tail) == tail;
    var one := ['\n'] + tail;
    var two := ['\n'] + one;
    assert LastPart(digest) == one;
    assert one[1..] == tail && two[1..] == one;
    assert LStrip(one) == tail && LStrip(two) == LStrip(one);
    hide IsDigest, MatchAt;
    NotAtBreak(one);
    NotAtBreak(two);
  }

  /** The text of a comment before its last part. */
  function Front(fmt: real -> string, f: Finding): string {
    Join('\n', FrontParts(f, fmt(f.confidence)))
  }

  /** Exactly what reading a rendered comment gives: the finding's own fingerprint,
      unless the text before the last part already matches. */
  lemma ReadBackExactly(sha: string -> string, fmt: real -> string, f: Finding)
    requires IsDigest(Fingerprint(sha, f))
    ensures Search(Rendered(sha, fmt, f)) ==
            if Search(Front(fmt, f)).Some? then Search(Front(fmt, f)) else Some(Fingerprint(sha, f))
  {
    hide FrontParts, Fingerprint, LastPart, IsDigest, Search, Detached, Join;
    var digest, parts := Fingerprint(sha, f), FrontParts(f, fmt(f.confidence));
    SomeFront(f, fmt(f.confidence));
    JoinSnoc('\n', parts, LastPart(digest));
    MarkedLine(digest);
    SearchAfter(Join('\n', parts), LastPart(digest));
  }

  lemma SomeFront(f: Finding, confidence: string)
    ensures FrontParts(f, confidence) != []
  {
    hide ExploitParts, FixParts;
    assert |HeadParts(f, confidence)| > 0;
    hide HeadParts;
  }

  lemma SearchAfter(front: string, last: string)
    requires Detached(['\n'] + last)
    ensures Search(front + ['\n'] + last) ==
            if Search(front).Some? then Search(front) else Search(['\n'] + last)
  {
    hide Search, Detached;
    assert front + ['\n'] + last == front + (['\n'] + last);
    SearchSplit(front, ['\n'] + last);
  }

  /** Reading a rendered comment gives the finding's own fingerprint, although the
      search takes the leftmost match, whenever no text field holds the mark. */
  lemma FingerprintReadBack(sha: string -> string, fmt: real -> string, f: Finding)
    requires FieldsFree(f, fmt(f.confidence)) && IsDigest(Fingerprint(sha, f))
    ensures Search(Rendered(sha, fmt, f)) == Some(Fingerprint(sha, f))
  {
    hide FieldsFree, FrontParts, Fingerprint, Occurs, Search, Rendered, IsDigest;
    FrontFree(f, fmt(f.confidence));
    MarkChars();
    JoinFree(MARK, '\n', FrontParts(f, fmt(f.confidence)));
    NoMark(Front(fmt, f));
    ReadBackExactly(sha, fmt, f);
  }

  /** A rationale that is itself a marked digest is read back in place of the finding's
      own fingerprint. */
  lemma PlantedDigest(sha: string -> string, fmt: real -> string, f: Finding, other: string)
    requires IsDigest(Fingerprint(sha, f)) && IsDigest(other)
    requires f.rationale == MARK + " `" + other + "`" && f.exploit == None && f.fix == None
    requires !Occurs(MARK, f.title) && !Occurs(MARK, Or(f.cwe, "n/a")) && |fmt(f.confidence)| < |MARK|
    ensures Search(Rendered(sha, fmt, f)) == Some(other)
  {
    hide Rendered, Search, Occurs, IsDigest, Detached, Fingerprint, Join, HeadParts, FrontParts;
    ReadBackExactly(sha, fmt, f);
    var before := BeforeRationale(f, fmt(f.confidence));
    NoMark(before);
    MarkedLine(other);
    SearchAfter(before, f.rationale);
  }

  lemma BeforeRationale(f: Finding, confidence: string) returns (before: string)
    requires f.exploit == None && f.fix == None
    requires !Occurs(MARK, f.title) && !Occurs(MARK, Or(f.cwe, "n/a")) && |confidence| < |MARK|
    ensures !Occurs(MARK, before)
    ensures Join('\n', FrontParts(f, confidence)) == before + ['\n'] + f.rationale
  {
    var blank := f.(rationale := "", exploit := None, fix := None);
    ShortFree(MARK, "");
    HeadPartsFree(blank, confidence);
    HeadBeforeRationale(f, confidence);
    hide Occurs, HeadParts, FrontParts;
    var parts := HeadParts(blank, confidence)[..6];
    MarkChars();
    JoinFree(MARK, '\n', parts);
    JoinSnoc('\n', parts, f.rationale);
    before := Join('\n', parts);
  }

  lemma HeadBeforeRationale(f: Finding, confidence: string)
    requires f.exploit == None && f.fix == None
    ensures var parts := HeadParts(f.(rationale := "", exploit := None, fix := None), confidence);
      |parts| == 7 && FrontParts(f, confidence) == parts[..6] + [f.rationale]
  {
    hide Upper;
  }

  // ---------------------------------------------------------------- reporting a false positive

  /** `_record_feedback` with kind "false_positive", for a reply in the repository `repo`. */
  function Recorded(feedback: seq<Feedback>, repo: string, fingerprint: Option<string>): seq<Feedback> {
    if Or(fingerprint, "") == "" then feedback
    else feedback + [Feedback(repo, fingerprint.value, "false_positive")]
  }

  /** A row is added, and exactly one, whenever the thread has a fingerprint. */
  lemma RecordedExactly(feedback: seq<Feedback>, repo: string, fingerprint: Option<string>, other: string)
    ensures var after := Recorded(feedback, repo, fingerprint);
      && feedback <= after && (Blank(fingerprint) ==> after == feedback)
      && Reports(after, other) == Reports(feedback, other) + (if !Blank(fingerprint) && fingerprint == Some(other) then 1 else 0)
  {
    if !Blank(fingerprint) {
      ReportsAppend(feedback, Feedback(repo, fingerprint.value, "false_positive"), other);
    }
  }

  /** The reports of a fingerprint from one repository. */
  function ReportsFrom(feedback: seq<Feedback>, repo: string, fingerprint: string): nat {
    if feedback == [] then 0
    else (if IsReport(feedback[0], fingerprint) && feedback[0].repo == repo then 1 else 0)
         + ReportsFrom(feedback[1..], repo, fingerprint)
  }

  lemma {:induction false} ReportsAppend(feedback: seq<Feedback>, row: Feedback, fingerprint: string)
    ensures Reports(feedback + [row], fingerprint) ==
            Reports(feedback, fingerprint) + (if IsReport(row, fingerprint) then 1 else 0)
    ensures forall repo :: ReportsFrom(feedback + [row], repo, fingerprint) ==
              ReportsFrom(feedback, repo, fingerprint) + (if IsReport(row, fingerprint) && row.repo == repo then 1 else 0)
  {
    hide IsReport;
    if feedback != [] {
      assert (feedback + [row])[1..] == feedback[1..] + [row];
      ReportsAppend(feedback[1..], row, fingerprint);
    }
  }

  /** Three false-positive replies under a finding's own comment, in whatever
      repositories, suppress exactly that fingerprint, on top of what earlier feedback
      suppresses. */
  lemma ThreeReportsSuppress(sha: string -> string, fmt: real -> string, f: Finding, feedback: seq<Feedback>,
                             a: string, b: string, c: string, g: Finding)
    requires FieldsFree(f, fmt(f.confidence)) && IsDigest(Fingerprint(sha, f))
    ensures var read := Search(Rendered(sha, fmt, f));
      var after := Recorded(Recorded(Recorded(feedback, a, read), b, read), c, read);
      && IsSuppressed(after, Fingerprint(sha, f))
      && (Fingerprint(sha, g) != Fingerprint(sha, f) ==>
            (IsSuppressed(after, Fingerprint(sha, g)) <==> IsSuppressed(feedback, Fingerprint(sha, g))))
  {
    FingerprintReadBack(sha, fmt, f);
    hide FieldsFree, Rendered, Search, Fingerprint;
    var digest := Fingerprint(sha, f);
    assert digest != "";
    hide IsDigest;
    ThreeRows(feedback, a, b, c, digest, digest);
    ThreeRows(feedback, a, b, c, digest, Fingerprint(sha, g));
  }

  lemma ThreeRows(feedback: seq<Feedback>, a: string, b: string, c: string, digest: string, other: string)
    ensures var kind := "false_positive";
      var after := feedback + [Feedback(a, digest, kind)] + [Feedback(b, digest, kind)] + [Feedback(c, digest, kind)];
      && Reports(after, other) == Reports(feedback, other) + (if digest == other then 3 else 0)
      && forall repo :: repo !in {a, b, c} ==> ReportsFrom(after, repo, other) == ReportsFrom(feedback, repo, other)
  {
    var kind := "false_positive";
    var one := feedback + [Feedback(a, digest, kind)];
    var two := one + [Feedback(b, digest, kind)];
    ReportsAppend(feedback, Feedback(a, digest, kind), other);
    ReportsAppend(one, Feedback(b, digest, kind), other);
    ReportsAppend(two, Feedback(c, digest, kind), other);
    hide Reports, ReportsFrom;
  }

  /** The reply promises suppression in the reporting repository; three reports there
      suppress the fingerprint in every repository, also in one that never reported it. */
  lemma ForeignReportsSuppress(sha: string -> string, fmt: real -> string, f: Finding, feedback: seq<Feedback>,
                               there: string, here: string)
    requires FieldsFree(f, fmt(f.confidence)) && IsDigest(Fingerprint(sha, f)) && here != there
    requires ReportsFrom(feedback, here, Fingerprint(sha, f)) == 0
    ensures var read := Search(Rendered(sha, fmt, f));
      var after := Recorded(Recorded(Recorded(feedback, there, read), there, read), there, read);
      ReportsFrom(after, here, Fingerprint(sha, f)) == 0 && IsSuppressed(after, Fingerprint(sha, f))
  {
    FingerprintReadBack(sha, fmt, f);
    hide FieldsFree, Rendered, Search, Fingerprint;
    var digest := Fingerprint(sha, f);
    assert digest != "";
    hide IsDigest;
    ThreeRows(feedback, there, there, there, digest, digest);
  }

  /** A fingerprint is suppressed for a repository beyond its own reports exactly when
      the reports of the other repositories make up what is missing. */
  lemma SuppressedByOthersExactly(feedback: seq<Feedback>, here: string, fingerprint: string)
    ensures Reports(feedback, fingerprint) >= ReportsFrom(feedback, here, fingerprint)
    ensures IsSuppressed(feedback, fingerprint) && ReportsFrom(feedback, here, fingerprint) < FP_SUPPRESS_THRESHOLD <==>
            var own := ReportsFrom(feedback, here, fingerprint);
            own < FP_SUPPRESS_THRESHOLD && Elsewhere(feedback, here, fingerprint) >= FP_SUPPRESS_THRESHOLD - own
  {
    ReportsSplit(feedback, here, fingerprint);
  }

  function Elsewhere(feedback: seq<Feedback>, here: string, fingerprint: string): nat {
    if feedback == [] then 0
    else (if IsReport(feedback[0], fingerprint) && feedback[0].repo != here then 1 else 0)
         + Elsewhere(feedback[1..], here, fingerprint)
  }

  lemma {:induction false} ReportsSplit(feedback: seq<Feedback>, here: string, fingerprint: string)
    ensures Reports(feedback, fingerprint) == ReportsFrom(feedback, here, fingerprint) + Elsewhere(feedback, here, fingerprint)
  {
    hide IsReport;
    if feedback != [] {
      ReportsSplit(feedback[1..], here, fingerprint);
    }
  }
}
