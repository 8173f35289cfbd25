/** Strings: decimal numerals, joining, splitting.

    `Decimal` is Python's `str` of an integer; `Join` and `Split` are its `join` and
    `split` for a separator of one character. */
module Text {

  function Digit(d: nat): char
    requires d < 10
  {
    '0' + d as char
  }

  predicate IsDigit(c: char) {
    '0' <= c <= '9'
  }

  /** Python's `str` of an integer. */
  function Decimal(n: int): (s: string)
    ensures |s| > 0
    decreases n < 0, if n < 0 then -n else n
  {
    if n < 0 then "-" + Decimal(-n)
    else if n < 10 then [Digit(n)]
    else Decimal(n / 10) + [Digit(n % 10)]
  }

  /** Python's `sep.join(parts)` for a one-character separator. */
  function Join(sep: char, parts: seq<string>): string {
    if |parts| == 0 then ""
    else if |parts| == 1 then parts[0]
    else parts[0] + [sep] + Join(sep, parts[1..])
  }

  /** Python's `text.split(sep)` for a one-character separator. */
  function Split(sep: char, text: string): (r: seq<string>)
    ensures |r| > 0
  {
    if text == "" then [""]
    else
      var rest := Split(sep, text[1..]);
      if text[0] == sep then [""] + rest
      else [[text[0]] + rest[0]] + rest[1..]
  }

  // ---------------------------------------------------------------- facts

  lemma {:induction false} DecimalDigits(n: nat)
    ensures forall c :: c in Decimal(n) ==> IsDigit(c)
    decreases n
  {
    if n >= 10 {
      DecimalDigits(n / 10);
    }
  }

  lemma NoColon(n: int)
    ensures ':' !in Decimal(n)
  {
    DecimalDigits(if n >= 0 then n else -n);
    if n < 0 {
      var d := Decimal(-n);
      assert Decimal(n) == "-" + d;
      hide Decimal;
      assert forall c :: c in "-" + d ==> c == '-' || c in d;
    }
  }

  lemma {:induction false} SplitWhole(sep: char, a: string)
    requires sep !in a
    ensures Split(sep, a) == [a]
  {
    if a != "" {
      SplitWhole(sep, a[1..]);
      assert [a[0]] + a[1..] == a;
    }
  }

  lemma {:induction false} SplitFirst(sep: char, a: string, b: string)
    requires sep !in a
    ensures Split(sep, a + [sep] + b) == [a] + Split(sep, b)
  {
    var s := a + [sep] + b;
    if a == "" {
      assert s[1..] == b;
    } else {
      SplitFirst(sep, a[1..], b);
      assert s[1..] == a[1..] + [sep] + b;
      assert [a[0]] + a[1..] == a;
    }
  }

  /** Splitting what was joined gives the parts back when none holds the separator. */
  lemma {:induction false} SplitJoin(sep: char, parts: seq<string>)
    requires |parts| > 0
    requires forall i :: 0 <= i < |parts| ==> sep !in parts[i]
    ensures Split(sep, Join(sep, parts)) == parts
  {
    if |parts| == 1 {
      SplitWhole(sep, parts[0]);
    } else {
      SplitJoin(sep, parts[1..]);
      SplitFirst(sep, parts[0], Join(sep, parts[1..]));
      assert parts == [parts[0]] + parts[1..];
    }
  }

  /** No part of a split holds the separator. */
  lemma {:induction false} SplitFree(sep: char, text: string)
    ensures forall i :: 0 <= i < |Split(sep, text)| ==> sep !in Split(sep, text)[i]
  {
    if text != "" {
      SplitFree(sep, text[1..]);
    }
  }

  lemma {:induction false} SplitLast(sep: char, a: string, b: string)
    requires sep !in b
    ensures Split(sep, a + [sep] + b) == Split(sep, a) + [b]
  {
    var s := a + [sep] + b;
    if a == "" {
      assert s[1..] == b;
      SplitWhole(sep, b);
    } else {
      SplitLast(sep, a[1..], b);
      assert s[1..] == a[1..] + [sep] + b;
    }
  }

  /** A text determines what stands before its first separator. */
  lemma FirstPart(sep: char, a: string, b: string, a': string, b': string)
    requires sep !in a && sep !in a' && a + [sep] + b == a' + [sep] + b'
    ensures a == a' && b == b'
  {
    SplitFirst(sep, a, b);
    SplitFirst(sep, a', b');
    assert ([a] + Split(sep, b))[0] == a && ([a'] + Split(sep, b'))[0] == a';
    assert (a + [sep] + b)[|a| + 1..] == b && (a' + [sep] + b')[|a'| + 1..] == b';
  }

  /** A text determines what stands after its last separator. */
  lemma LastPart(sep: char, a: string, b: string, a': string, b': string)
    requires sep !in b && sep !in b' && a + [sep] + b == a' + [sep] + b'
    ensures a == a' && b == b'
  {
    SplitLast(sep, a, b);
    SplitLast(sep, a', b');
    var parts := Split(sep, a) + [b];
    assert parts == Split(sep, a') + [b'];
    assert parts[|parts| - 1] == b == b';
    assert (a + [sep] + b)[..|a|] == a && (a' + [sep] + b')[..|a'|] == a';
  }

  lemma {:induction false} SplitBack(sep: char, a: string)
    ensures Join(sep, Split(sep, a)) == a
  {
    if a != "" {
      SplitBack(sep, a[1..]);
      var rest := Split(sep, a[1..]);
      assert a == [a[0]] + a[1..];
      if a[0] == sep {
        assert ([""] + rest)[1..] == rest;
      } else {
        var r := [[a[0]] + rest[0]] + rest[1..];
        if |rest| > 1 {
          assert Join(sep, rest) == rest[0] + [sep] + Join(sep, rest[1..]);
          assert r[1..] == rest[1..];
          assert Join(sep, r) == [a[0]] + Join(sep, rest);
        }
      }
    }
  }
}
