/** The text of a unified diff of one file: lines, hunk headers and their numbers. */
module DiffText {
  import opened Schemas
  import opened Text

  // ---------------------------------------------------------------- str.splitlines

  predicate IsLineBreak(c: char) {
    || c == '\n' || c == '\r' || c == '\U{0B}' || c == '\U{0C}'
    || c == '\U{1C}' || c == '\U{1D}' || c == '\U{1E}'
    || c == '\U{85}' || c == '\U{2028}' || c == '\U{2029}'
  }

  predicate BreakFree(s: string) {
    forall c :: c in s ==> !IsLineBreak(c)
  }

  function FirstBreak(s: string): (n: nat)
    ensures n <= |s| && BreakFree(s[..n])
    ensures n < |s| ==> IsLineBreak(s[n])
  {
    if s == "" then 0
    else if IsLineBreak(s[0]) then 0
    else
      var n := FirstBreak(s[1..]);
      assert s[..n + 1] == [s[0]] + s[1..][..n];
      n + 1
  }

  /** Python's `text.splitlines()`; a carriage return and line feed count once. */
  function SplitLines(text: string): seq<string> {
    if text == "" then []
    else
      var n := FirstBreak(text);
      if n == |text| then [text]
      else if text[n] == '\r' && n + 1 < |text| && text[n + 1] == '\n' then
        [text[..n]] + SplitLines(text[n + 2..])
      else [text[..n]] + SplitLines(text[n + 1..])
  }

  function Unlines(lines: seq<string>): string {
    if lines == [] then "" else lines[0] + "\n" + Unlines(lines[1..])
  }

  lemma {:induction false} FirstBreakAt(a: string, rest: string)
    requires BreakFree(a)
    ensures FirstBreak(a + "\n" + rest) == |a|
  {
    var s := a + "\n" + rest;
    assert s[|a|] == '\n';
    if a != "" {
      FirstBreakAt(a[1..], rest);
      assert s[1..] == a[1..] + "\n" + rest;
      assert s[0] in a;
    }
  }

  lemma {:induction false} FirstBreakIs(s: string, n: nat)
    requires n < |s| && BreakFree(s[..n]) && IsLineBreak(s[n])
    ensures FirstBreak(s) == n
  {
    hide IsLineBreak;
    if n > 0 {
      assert s[..n][0] == s[0] && s[0] in s[..n];
      assert forall c :: c in s[1..][..n - 1] ==> c in s[..n];
      FirstBreakIs(s[1..], n - 1);
    }
  }

  lemma {:induction false} SplitUnlines(lines: seq<string>)
    requires forall i :: 0 <= i < |lines| ==> BreakFree(lines[i])
    ensures SplitLines(Unlines(lines)) == lines
  {
    if lines != [] {
      var rest := Unlines(lines[1..]);
      var text := lines[0] + "\n" + rest;
      FirstBreakAt(lines[0], rest);
      SplitUnlines(lines[1..]);
      assert text[..|lines[0]|] == lines[0] && text[|lines[0]| + 1..] == rest;
    }
  }

  lemma {:induction false} SplitBreakFree(text: string)
    ensures forall i :: 0 <= i < |SplitLines(text)| ==> BreakFree(SplitLines(text)[i])
    decreases |text|
  {
    if text != "" {
      var n := FirstBreak(text);
      if n == |text| {
        assert text[..n] == text;
      } else if text[n] == '\r' && n + 1 < |text| && text[n + 1] == '\n' {
        SplitBreakFree(text[n + 2..]);
      } else {
        SplitBreakFree(text[n + 1..]);
      }
    }
  }

  /** The characters at which `splitlines` breaks a text. */
  lemma BreaksExactly(c: char)
    ensures SplitLines("a" + [c] + "b") == ["a", "b"] <==>
              c in ['\U{0A}', '\U{0B}', '\U{0C}', '\U{0D}', '\U{1C}', '\U{1D}', '\U{1E}', '\U{85}', '\U{2028}', '\U{2029}']
  {
    var text := "a" + [c] + "b";
    assert BreakFree("a") && BreakFree("b");
    assert text[..1] == "a" && text[2..] == "b";
    assert FirstBreak("b") == 1 && SplitLines("b") == ["b"];
    if IsLineBreak(c) {
      FirstBreakIs(text, 1);
    } else {
      assert BreakFree(text);
      assert FirstBreak(text) == 3;
    }
  }

  // ---------------------------------------------------------------- str.strip and int()

  predicate IsSpace(c: char) {
    || '\U{09}' <= c <= '\U{0D}' || '\U{1C}' <= c <= '\U{20}' || c == '\U{85}' || c == '\U{A0}'
    || c == '\U{1680}' || '\U{2000}' <= c <= '\U{200A}' || c == '\U{2028}' || c == '\U{2029}'
    || c == '\U{202F}' || c == '\U{205F}' || c == '\U{3000}'
  }

  /** The characters that `strip` and `int` take for white space. */
  lemma SpacesExactly(c: char)
    ensures LStrip([c] + "7") == "7" <==>
              || c in ['\U{09}', '\U{0A}', '\U{0B}', '\U{0C}', '\U{0D}', '\U{1C}', '\U{1D}', '\U{1E}', '\U{1F}', '\U{20}']
              || c in ['\U{85}', '\U{A0}', '\U{1680}', '\U{2028}', '\U{2029}', '\U{202F}', '\U{205F}', '\U{3000}']
              || '\U{2000}' <= c <= '\U{200A}'
  {
    assert ([c] + "7")[1..] == "7" && LStrip("7") == "7";
  }

  function LStrip(s: string): string {
    if s != "" && IsSpace(s[0]) then LStrip(s[1..]) else s
  }

  function RStrip(s: string): string {
    if s != "" && IsSpace(s[|s| - 1]) then RStrip(s[..|s| - 1]) else s
  }

  function Strip(s: string): string {
    RStrip(LStrip(s))
  }

  /** Digits with single underscores between them. */
  function Digits(s: string, acc: nat, afterDigit: bool): Option<nat> {
    if s == "" then (if afterDigit then Some(acc) else None)
    else if IsDigit(s[0]) then Digits(s[1..], 10 * acc + (s[0] - '0') as nat, true)
    else if s[0] == '_' && afterDigit then Digits(s[1..], acc, false)
    else None
  }

  /** Python's `int(s)`: None where it raises ValueError. */
  function ParseInt(s: string): Option<int> {
    var t := Strip(s);
    if t == "" then None
    else if t[0] == '-' then
      (match Digits(t[1..], 0, false) case None => None case Some(n) => Some(-(n as int)))
    else
      var body := if t[0] == '+' then t[1..] else t;
      match Digits(body, 0, false) case None => None case Some(n) => Some(n as int)
  }

  predicate AllDigits(s: string) {
    forall c :: c in s ==> IsDigit(c)
  }

  /** Groups of digits, none of them empty. */
  predicate Groups(parts: seq<string>) {
    forall i :: 0 <= i < |parts| ==> parts[i] != "" && AllDigits(parts[i])
  }

  lemma GroupsCons(parts: seq<string>)
    requires parts != []
    ensures Groups(parts) <==> parts[0] != "" && AllDigits(parts[0]) && Groups(parts[1..])
  {
    assert forall i :: 0 <= i < |parts[1..]| ==> parts[1..][i] == parts[i + 1];
    assert forall i :: 0 < i < |parts| ==> parts[i] == parts[1..][i - 1];
  }

  lemma {:induction false} DigitsExactly(s: string, acc: nat, after: bool)
    ensures var parts := Split('_', s);
      Digits(s, acc, after).Some? <==> AllDigits(parts[0]) && (after || parts[0] != "") && Groups(parts[1..])
    decreases |s|
  {
    if s != "" {
      var rest := Split('_', s[1..]);
      DigitsExactly(s[1..], if IsDigit(s[0]) then 10 * acc + (s[0] - '0') as nat else acc, IsDigit(s[0]));
      GroupsCons(rest);
      if s[0] == '_' {
        assert ([""] + rest)[1..] == rest;
      } else {
        assert forall c :: c in [s[0]] + rest[0] <==> c == s[0] || c in rest[0];
        assert ([[s[0]] + rest[0]] + rest[1..])[1..] == rest[1..];
      }
    }
  }

  /** The number that is read is that of the digits alone. */
  lemma {:induction false} UnderscoresDropped(s: string, acc: nat, after: bool)
    requires Digits(s, acc, after).Some? && s != ""
    ensures Digits(Concat(Split('_', s)), acc, after) == Digits(s, acc, after)
    decreases |s|
  {
    var rest := Split('_', s[1..]);
    var next := if IsDigit(s[0]) then 10 * acc + (s[0] - '0') as nat else acc;
    if s[1..] == "" {
      assert s == [s[0]] && IsDigit(s[0]);
      SplitWhole('_', s);
      assert [s][1..] == [] && s + "" == s;
    } else {
      UnderscoresDropped(s[1..], next, IsDigit(s[0]));
      if s[0] == '_' {
        assert ([""] + rest)[1..] == rest;
        assert Concat(Split('_', s)) == Concat(rest);
        DigitsAfter(Concat(rest), acc);
      } else {
        assert ([[s[0]] + rest[0]] + rest[1..])[1..] == rest[1..];
        assert Concat(Split('_', s)) == [s[0]] + Concat(rest);
        assert ([s[0]] + Concat(rest))[1..] == Concat(rest);
      }
    }
  }

  function Concat(parts: seq<string>): string {
    if parts == [] then "" else parts[0] + Concat(parts[1..])
  }

  /** Reading on after a digit accepts what reading from the start accepts. */
  lemma DigitsAfter(s: string, acc: nat)
    requires Digits(s, acc, false).Some?
    ensures Digits(s, acc, true) == Digits(s, acc, false)
  {
  }

  /** What `int` reads: white space around an optional sign and groups of digits between
      single underscores, and nothing else. The value is that of the digits. */
  lemma IntegersExactly(s: string)
    ensures var t := Strip(s); var signed := t != "" && (t[0] == '-' || t[0] == '+');
      var parts := Split('_', if signed then t[1..] else t);
      && (ParseInt(s).Some? <==> Groups(parts))
      && (ParseInt(s).Some? ==>
            && Digits(Concat(parts), 0, false).Some?
            && var n := Digits(Concat(parts), 0, false).value as int;
               ParseInt(s).value == if signed && t[0] == '-' then -n else n)
  {
    var t := Strip(s);
    assert Split('_', "") == [""] && [""][0] == "";
    if t != "" {
      var body := if t[0] == '-' || t[0] == '+' then t[1..] else t;
      DigitsExactly(body, 0, false);
      var parts := Split('_', body);
      GroupsCons(parts);
      hide Groups, AllDigits;
      assert ParseInt(s).Some? <==> Digits(body, 0, false).Some?;
      assert Digits(body, 0, false).Some? <==> Groups(parts);
      if ParseInt(s).Some? {
        UnderscoresDropped(body, 0, false);
      }
    }
  }

  lemma {:induction false} DigitsSnoc(s: string, c: char, acc: nat, after: bool, v: nat)
    requires IsDigit(c) && Digits(s, acc, after) == Some(v)
    ensures Digits(s + [c], acc, after) == Some(10 * v + (c - '0') as nat)
    decreases |s|
  {
    if s == "" {
      assert (s + [c])[1..] == "";
    } else {
      assert (s + [c])[1..] == s[1..] + [c];
      if IsDigit(s[0]) {
        DigitsSnoc(s[1..], c, 10 * acc + (s[0] - '0') as nat, true, v);
      } else {
        DigitsSnoc(s[1..], c, acc, false, v);
      }
    }
  }

  lemma {:induction false} DigitsOfDecimal(n: nat)
    ensures Digits(Decimal(n), 0, false) == Some(n)
    decreases n
  {
    if n < 10 {
      assert Decimal(n)[1..] == "";
    } else {
      DigitsOfDecimal(n / 10);
      DigitsSnoc(Decimal(n / 10), Digit(n % 10), 0, false, n / 10);
    }
  }

  lemma StripKeeps(s: string)
    requires s != "" && !IsSpace(s[0]) && !IsSpace(s[|s| - 1])
    ensures Strip(s) == s
  {
  }

  lemma ParseDecimal(n: nat)
    ensures ParseInt(Decimal(n)) == Some(n)
  {
    var d := Decimal(n);
    DecimalDigits(n);
    assert d[0] in d && d[|d| - 1] in d;
    StripKeeps(d);
    DigitsOfDecimal(n);
  }

  /** `int` undoes `str`. */
  lemma ParseInteger(n: int)
    ensures ParseInt(Decimal(n)) == Some(n)
  {
    if n >= 0 {
      ParseDecimal(n);
    } else {
      var d := Decimal(-n);
      DecimalDigits(-n);
      assert Decimal(n) == "-" + d && d[|d| - 1] in d;
      StripKeeps("-" + d);
      DigitsOfDecimal(-n);
    }
  }

  lemma DecimalInjective(m: int, n: int)
    requires Decimal(m) == Decimal(n)
    ensures m == n
  {
    if m >= 0 && n >= 0 {
      DigitsOfDecimal(m);
      DigitsOfDecimal(n);
    } else if m < 0 && n < 0 {
      DigitsOfDecimal(-m);
      DigitsOfDecimal(-n);
      assert Decimal(-m) == Decimal(m)[1..];
      assert Decimal(-n) == Decimal(n)[1..];
    } else {
      NatHead(if m >= 0 then m else n);
    }
  }

  lemma NatHead(n: nat)
    ensures Decimal(n)[0] != '-'
  {
    DecimalDigits(n);
    assert Decimal(n)[0] in Decimal(n);
  }

  lemma {:induction false} RStripHead(s: string)
    requires s != "" && !IsSpace(s[0])
    ensures RStrip(s) != "" && RStrip(s)[0] == s[0]
  {
    if IsSpace(s[|s| - 1]) {
      RStripHead(s[..|s| - 1]);
    }
  }

  /** A text that begins with an "@" is no number. */
  lemma NoNumber(s: string)
    requires s != "" && s[0] == '@'
    ensures ParseInt(s) == None
  {
    assert LStrip(s) == s;
    RStripHead(s);
  }

  // ---------------------------------------------------------------- hunk headers

  predicate IsHeader(raw: string) {
    |raw| >= 2 && raw[0] == '@' && raw[1] == '@'
  }

  /** The text before the first "@@". */
  function BeforeMarker(s: string): string {
    if s == "" || IsHeader(s) then "" else [s[0]] + BeforeMarker(s[1..])
  }

  /** Everything before the first marker, or everything when there is none. */
  lemma {:induction false} MarkerFirst(s: string)
    ensures var p := BeforeMarker(s);
      && p <= s && (p == s || IsHeader(s[|p|..]))
      && forall i :: 0 <= i < |p| ==> !IsHeader(s[i..])
  {
    if s != "" && !IsHeader(s) {
      MarkerFirst(s[1..]);
      var p := BeforeMarker(s[1..]);
      assert s == [s[0]] + s[1..];
      assert s[1..][|p|..] == s[|p| + 1..];
      forall i | 0 <= i < |p| + 1 ensures !IsHeader(s[i..]) {
        assert i > 0 ==> s[1..][i - 1..] == s[i..];
        assert s[0..] == s;
      }
    }
  }

  /** The start lines a header names; None where the source raises ValueError: not two
      ranges, or a start that is not an integer. */
  function ParseHeader(raw: string): Option<(int, int)>
    requires IsHeader(raw)
  {
    var ranges := Split(' ', Strip(BeforeMarker(raw[2..])));
    if |ranges| != 2 then None
    else
      match (StartOf(ranges[0]), StartOf(ranges[1]))
      case (Some(o), Some(n)) => Some((o, n))
      case _ => None
  }

  function StartOf(range: string): Option<int> {
    ParseInt(Split(',', if range == "" then "" else range[1..])[0])
  }

  /** A header is readable if and only if what stands between its markers is two ranges
      around one space, and a number follows the first character of each. */
  lemma HeadersExactly(raw: string, o: int, n: int)
    requires IsHeader(raw)
    ensures ParseHeader(raw) == Some((o, n)) <==>
              exists a, b :: ' ' !in a && ' ' !in b && Strip(BeforeMarker(raw[2..])) == a + " " + b
                             && StartOf(a) == Some(o) && StartOf(b) == Some(n)
  {
    var inside := Strip(BeforeMarker(raw[2..]));
    var ranges := Split(' ', inside);
    hide Strip, StartOf, BeforeMarker;
    if ParseHeader(raw) == Some((o, n)) {
      SplitFree(' ', inside);
      SplitBack(' ', inside);
      assert ranges == [ranges[0], ranges[1]];
      assert Join(' ', ranges) == ranges[0] + [' '] + ranges[1];
      assert inside == ranges[0] + " " + ranges[1];
    }
    if a, b :| ' ' !in a && ' ' !in b && inside == a + " " + b && StartOf(a) == Some(o) && StartOf(b) == Some(n) {
      SplitFirst(' ', a, b);
      SplitWhole(' ', b);
      assert a + [' '] + b == inside;
    }
  }

  /** A range's start is the number between its first character and its first comma. */
  lemma StartsExactly(sign: char, start: string, rest: string)
    requires ',' !in start
    ensures StartOf([sign] + start) == ParseInt(start) && StartOf([sign] + start + "," + rest) == ParseInt(start)
    ensures StartOf("") == None
  {
    SplitWhole(',', start);
    SplitFirst(',', start, rest);
    assert ([sign] + start)[1..] == start;
    assert ([sign] + start + "," + rest)[1..] == start + [','] + rest;
    assert Split(',', "") == [""] && LStrip("") == "" && RStrip("") == "";
  }

  /** A range of a header: the count may be left out. */
  function Range(start: nat, count: Option<nat>): string {
    match count
    case None => Decimal(start)
    case Some(n) => Decimal(start) + "," + Decimal(n)
  }

  function HeaderText(oldStart: nat, oldCount: Option<nat>, newStart: nat, newCount: Option<nat>,
                      section: string): string
  {
    "@@ -" + Range(oldStart, oldCount) + " +" + Range(newStart, newCount) + " @@" + section
  }

  lemma {:induction false} BeforeMarkerAt(p: string, rest: string)
    requires '@' !in p
    ensures BeforeMarker(p + "@@" + rest) == p
  {
    var s := p + "@@" + rest;
    if p == "" {
      assert IsHeader(s);
    } else {
      assert s[0] == p[0] && s[0] in p;
      BeforeMarkerAt(p[1..], rest);
      assert s[1..] == p[1..] + "@@" + rest;
      assert [p[0]] + p[1..] == p;
    }
  }

  lemma RangeChars(start: nat, count: Option<nat>)
    ensures forall c :: c in Range(start, count) ==> IsDigit(c) || c == ','
    ensures |Range(start, count)| > 0
    ensures var r := Range(start, count); IsDigit(r[|r| - 1])
  {
    DecimalDigits(start);
    if count.Some? {
      DecimalDigits(count.value);
      var r := Range(start, count);
      assert r[|r| - 1] == Decimal(count.value)[|Decimal(count.value)| - 1];
      assert r[|r| - 1] in Decimal(count.value);
    } else {
      assert Decimal(start)[|Decimal(start)| - 1] in Decimal(start);
    }
  }

  lemma StartOfRange(sign: char, start: nat, count: Option<nat>)
    ensures StartOf([sign] + Range(start, count)) == Some(start)
  {
    var d := Decimal(start);
    DecimalDigits(start);
    assert ([sign] + Range(start, count))[1..] == Range(start, count);
    match count
    case None =>
      SplitWhole(',', d);
      ParseDecimal(start);
    case Some(n) =>
      assert Range(start, count) == d + [','] + Decimal(n);
      SplitFirst(',', d, Decimal(n));
      ParseDecimal(start);
  }

  lemma StripPadded(core: string)
    requires core != "" && !IsSpace(core[0]) && !IsSpace(core[|core| - 1])
    ensures Strip(" " + core + " ") == core
  {
    var s := " " + core + " ";
    assert s[1..] == core + " ";
    assert LStrip(s) == LStrip(s[1..]) == core + " ";
    assert (core + " ")[..|core|] == core;
    assert RStrip(core + " ") == RStrip(core) == core;
  }

  function Core(a: string, b: string): string {
    ['-'] + a + [' '] + (['+'] + b)
  }

  lemma HeaderShape(a: string, b: string, section: string)
    ensures "@@ -" + a + " +" + b + " @@" + section == "@@" + ((" " + Core(a, b) + " ") + "@@" + section)
  {
    var left := "@@ -" + a + " +" + b + " @@" + section;
    var right := "@@" + ((" " + Core(a, b) + " ") + "@@" + section);
    assert |left| == |right| == 9 + |a| + |b| + |section|;
    forall i | 0 <= i < |left| ensures left[i] == right[i] {
    }
  }

  lemma CoreParses(oldStart: nat, oldCount: Option<nat>, newStart: nat, newCount: Option<nat>)
    ensures var core := Core(Range(oldStart, oldCount), Range(newStart, newCount));
      && '@' !in core
      && Strip(" " + core + " ") == core
      && |Split(' ', core)| == 2
      && StartOf(Split(' ', core)[0]) == Some(oldStart) && StartOf(Split(' ', core)[1]) == Some(newStart)
  {
    var minus := ['-'] + Range(oldStart, oldCount);
    var plus := ['+'] + Range(newStart, newCount);
    var core := minus + [' '] + plus;
    RangeChars(oldStart, oldCount);
    RangeChars(newStart, newCount);
    hide Range;
    assert core[0] == '-' && core[|core| - 1] == plus[|plus| - 1];
    StripPadded(core);
    SplitFirst(' ', minus, plus);
    SplitWhole(' ', plus);
    StartOfRange('-', oldStart, oldCount);
    StartOfRange('+', newStart, newCount);
  }

  /** Reading a printed header gives its start lines back, whatever the section text. */
  lemma HeaderRoundTrip(oldStart: nat, oldCount: Option<nat>, newStart: nat, newCount: Option<nat>, section: string)
    ensures var raw := HeaderText(oldStart, oldCount, newStart, newCount, section);
      IsHeader(raw) && ParseHeader(raw) == Some((oldStart, newStart))
  {
    var core := Core(Range(oldStart, oldCount), Range(newStart, newCount));
    CoreParses(oldStart, oldCount, newStart, newCount);
    HeaderShape(Range(oldStart, oldCount), Range(newStart, newCount), section);
    hide Range, Core, StartOf, Strip, Split;
    var raw := HeaderText(oldStart, oldCount, newStart, newCount, section);
    assert raw[2..] == (" " + core + " ") + "@@" + section;
    BeforeMarkerAt(" " + core + " ", section);
  }
}
