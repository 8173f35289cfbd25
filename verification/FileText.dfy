/** The rows that `splitlines` makes of a file whose lines end in line feeds: other line
    breaks inside the lines shift and cut them.

    A file is given as its lines without the line feeds, the last line's being optional.
    A carriage return before a line feed is one break with it. */
module FileText {
  import opened DiffText

  /** A line without its trailing carriage return. */
  function Chomp(s: string): string {
    if s != "" && s[|s| - 1] == '\r' then s[..|s| - 1] else s
  }

  function ChompAll(lines: seq<string>): (r: seq<string>)
    ensures |r| == |lines|
  {
    seq(|lines|, i requires 0 <= i < |lines| => Chomp(lines[i]))
  }

  /** No line break but a trailing carriage return. */
  predicate OnePiece(s: string) {
    BreakFree(Chomp(s))
  }

  /** What `splitlines` makes of one line. */
  function Pieces(s: string): seq<string> {
    SplitLines(s + "\n")
  }

  lemma FreeLine(a: string, rest: string)
    requires BreakFree(a)
    ensures SplitLines(a + "\n" + rest) == [a] + SplitLines(rest)
  {
    FirstBreakAt(a, rest);
    var text := a + "\n" + rest;
    assert text[..|a|] == a && text[|a| + 1..] == rest && text[|a|] == '\n';
  }

  lemma FirstReturn(a: string, rest: string)
    requires BreakFree(a)
    ensures SplitLines(a + "\r" + "\n" + rest) == [a] + SplitLines(rest)
  {
    var text := a + "\r" + "\n" + rest;
    assert text[|a|] == '\r' && text[|a| + 1] == '\n';
    assert text[..|a|] == a && text[|a| + 2..] == rest;
    FirstBreakIs(text, |a|);
  }

  lemma OnePieceLine(s: string, rest: string)
    requires OnePiece(s)
    ensures SplitLines(s + "\n" + rest) == [Chomp(s)] + SplitLines(rest)
  {
    if Chomp(s) == s {
      FreeLine(s, rest);
    } else {
      FirstReturn(Chomp(s), rest);
      assert s == Chomp(s) + "\r";
    }
  }

  /** Lines with at most a trailing carriage return come back without it. */
  lemma {:induction false} SplitReturns(lines: seq<string>)
    requires forall i :: 0 <= i < |lines| ==> OnePiece(lines[i])
    ensures SplitLines(Unlines(lines)) == ChompAll(lines)
  {
    hide OnePiece, Chomp, SplitLines;
    if lines == [] {
      NoText();
    } else {
      var rest := Unlines(lines[1..]);
      OnePieceLine(lines[0], rest);
      SplitReturns(lines[1..]);
      assert Unlines(lines) == lines[0] + "\n" + rest;
      assert ChompAll(lines) == [Chomp(lines[0])] + ChompAll(lines[1..]);
    }
  }

  lemma NoText()
    ensures SplitLines("") == []
  {
  }

  // ---------------------------------------------------------------- any lines

  /** Splitting at the first break of a line that holds no line feed. */
  lemma BreakInside(a: string, rest: string, k: nat)
    requires '\n' !in a && k < |a| && k == FirstBreak(a)
    ensures SplitLines(a + "\n" + rest) ==
            [a[..k]] + if k + 1 == |a| && a[k] == '\r' then SplitLines(rest) else SplitLines(a[k + 1..] + "\n" + rest)
  {
    var text := a + "\n" + rest;
    assert text[k] == a[k] && text[..k] == a[..k];
    FirstBreakIs(text, k);
    hide FirstBreak, IsLineBreak;
    if k + 1 < |a| {
      assert text[k + 1] == a[k + 1] && a[k + 1] in a;
      assert text[k + 1..] == a[k + 1..] + "\n" + rest;
    } else {
      assert text[k + 1] == '\n';
      assert text[k + 2..] == rest && text[k + 1..] == a[k + 1..] + "\n" + rest;
    }
  }

  lemma PiecesFree(a: string)
    requires BreakFree(a)
    ensures Pieces(a) == [a]
  {
    FreeLine(a, "");
    NoText();
    hide SplitLines;
    assert a + "\n" + "" == a + "\n";
  }

  lemma PiecesInside(a: string, k: nat)
    requires '\n' !in a && k < |a| && k == FirstBreak(a)
    ensures Pieces(a) == [a[..k]] + if k + 1 == |a| && a[k] == '\r' then [] else Pieces(a[k + 1..])
  {
    BreakInside(a, "", k);
    NoText();
    hide SplitLines, FirstBreak;
    assert a + "\n" + "" == a + "\n" && a[k + 1..] + "\n" + "" == a[k + 1..] + "\n";
  }

  lemma {:induction false} SplitConcat(a: string, rest: string)
    requires '\n' !in a
    ensures SplitLines(a + "\n" + rest) == Pieces(a) + SplitLines(rest)
    decreases |a|
  {
    hide SplitLines, Pieces, FirstBreak, IsLineBreak;
    var k := FirstBreak(a);
    if k == |a| {
      assert a[..k] == a;
      FreeLine(a, rest);
      PiecesFree(a);
    } else {
      BreakInside(a, rest, k);
      PiecesInside(a, k);
      if !(k + 1 == |a| && a[k] == '\r') {
        SplitConcat(a[k + 1..], rest);
        assert [a[..k]] + (Pieces(a[k + 1..]) + SplitLines(rest)) == [a[..k]] + Pieces(a[k + 1..]) + SplitLines(rest);
      }
    }
  }

  lemma SomePieces(s: string)
    ensures Pieces(s) != []
  {
    assert s + "\n" != "";
  }

  lemma PiecesFacts(s: string)
    requires '\n' !in s
    ensures |Pieces(s)| >= 1 && Pieces(s)[0] == s[..FirstBreak(s)]
    ensures |Pieces(s)| == 1 <==> OnePiece(s)
  {
    hide SplitLines, Pieces, FirstBreak, IsLineBreak;
    var k := FirstBreak(s);
    if k == |s| {
      assert s[..k] == s;
      PiecesFree(s);
      assert forall c :: c in Chomp(s) ==> c in s;
    } else {
      PiecesInside(s, k);
      if k + 1 == |s| && s[k] == '\r' {
        assert Chomp(s) == s[..k];
      } else {
        SomePieces(s[k + 1..]);
        StillBroken(s, k);
      }
    }
  }

  lemma StillBroken(s: string, k: nat)
    requires k < |s| && IsLineBreak(s[k]) && !(k + 1 == |s| && s[k] == '\r')
    ensures !OnePiece(s)
  {
    assert k < |Chomp(s)| && Chomp(s)[k] == s[k];
    assert s[k] in Chomp(s);
  }

  /** Rows that the lines take. */
  function Rows(lines: seq<string>): nat {
    if lines == [] then 0 else |Pieces(lines[0])| + Rows(lines[1..])
  }

  function AllPieces(lines: seq<string>): (r: seq<string>)
    ensures |r| == Rows(lines)
  {
    if lines == [] then [] else Pieces(lines[0]) + AllPieces(lines[1..])
  }

  predicate FeedFree(lines: seq<string>) {
    forall i :: 0 <= i < |lines| ==> '\n' !in lines[i]
  }

  lemma Unfolded(lines: seq<string>, rest: string)
    ensures lines == [] ==> AllPieces(lines) == [] && Unlines(lines) + rest == rest
    ensures lines != [] ==>
              && AllPieces(lines) == Pieces(lines[0]) + AllPieces(lines[1..])
              && Unlines(lines) + rest == lines[0] + "\n" + (Unlines(lines[1..]) + rest)
  {
    hide Pieces;
    if lines == [] {
      assert "" + rest == rest;
    } else {
      assert AllPieces(lines) == Pieces(lines[0]) + AllPieces(lines[1..]);
      assert Unlines(lines) == lines[0] + "\n" + Unlines(lines[1..]);
      hide AllPieces, Unlines;
      Regroup(lines[0] + "\n", Unlines(lines[1..]), rest);
    }
  }

  lemma {:induction false} SplitAll(lines: seq<string>, rest: string)
    requires FeedFree(lines)
    ensures SplitLines(Unlines(lines) + rest) == AllPieces(lines) + SplitLines(rest)
  {
    hide SplitLines, Pieces, Unlines, AllPieces, Rows;
    Unfolded(lines, rest);
    if lines == [] {
      assert [] + SplitLines(rest) == SplitLines(rest);
    } else {
      SplitAll(lines[1..], rest);
      SplitConcat(lines[0], Unlines(lines[1..]) + rest);
      Regroup(Pieces(lines[0]), AllPieces(lines[1..]), SplitLines(rest));
    }
  }

  lemma Regroup<T>(a: seq<T>, b: seq<T>, c: seq<T>)
    ensures a + (b + c) == a + b + c
  {
  }

  lemma {:induction false} RowsExactly(lines: seq<string>)
    requires FeedFree(lines)
    ensures Rows(lines) >= |lines|
    ensures Rows(lines) == |lines| <==> forall i :: 0 <= i < |lines| ==> OnePiece(lines[i])
  {
    hide Pieces, OnePiece;
    if lines != [] {
      PiecesFacts(lines[0]);
      RowsExactly(lines[1..]);
      assert forall i :: 1 <= i < |lines| ==> lines[i] == lines[1..][i - 1];
      assert forall i :: 0 <= i < |lines| - 1 ==> lines[1..][i] == lines[i + 1];
    }
  }

  /** `text` is a file with the lines `lines`; the last one may lack its line feed. */
  predicate IsFile(text: string, lines: seq<string>) {
    text == Unlines(lines) || (lines != [] && lines[|lines| - 1] != "" && text + "\n" == Unlines(lines))
  }

  /** The row at which line `x` of the file begins, both counted from 1. */
  function RowOf(lines: seq<string>, x: nat): nat
    requires 1 <= x <= |lines|
  {
    Rows(lines[..x - 1]) + 1
  }

  lemma {:induction false} UnlinesConcat(a: seq<string>, b: seq<string>)
    ensures Unlines(a + b) == Unlines(a) + Unlines(b)
  {
    if a == [] {
      assert a + b == b;
    } else {
      assert (a + b)[1..] == a[1..] + b;
      UnlinesConcat(a[1..], b);
    }
  }

  /** The text from line `x` on: the line, then nothing or a line feed and the rest. */
  lemma FileFrom(text: string, lines: seq<string>, x: nat) returns (tail: string)
    requires IsFile(text, lines) && 1 <= x <= |lines|
    ensures text == Unlines(lines[..x - 1]) + (lines[x - 1] + tail)
    ensures (tail == "" && lines[x - 1] != "") || (tail != "" && tail[0] == '\n')
  {
    var front, back := lines[..x - 1], lines[x..];
    assert lines == front + ([lines[x - 1]] + back);
    UnlinesConcat(front, [lines[x - 1]] + back);
    var line := lines[x - 1];
    assert ([line] + back)[1..] == back;
    assert Unlines(lines) == Unlines(front) + (line + "\n" + Unlines(back));
    tail := "\n" + Unlines(back);
    if text == Unlines(lines) {
      assert text == Unlines(front) + (line + tail);
    } else {
      ShortTail(text, Unlines(front), line, Unlines(back));
      if back != [] {
        EndsInFeed(back);
      }
      tail := tail[..|tail| - 1];
    }
  }

  lemma ShortTail(text: string, front: string, line: string, back: string)
    requires text + "\n" == front + (line + "\n" + back)
    ensures var tail := "\n" + back; text == front + (line + tail[..|tail| - 1])
  {
    var tail := "\n" + back;
    var all := front + (line + "\n" + back);
    assert all == front + (line + tail);
    assert text == all[..|all| - 1];
  }

  lemma {:induction false} EndsInFeed(lines: seq<string>)
    requires lines != []
    ensures Unlines(lines) != "" && Unlines(lines)[|Unlines(lines)| - 1] == '\n'
  {
    if |lines| > 1 {
      EndsInFeed(lines[1..]);
    } else {
      assert lines[1..] == [];
    }
  }

  /** A line begins at its row, with the part before its first break; it is at the row
      of its own number exactly when no line before it holds a break other than a
      trailing carriage return. */
  lemma RowOfLine(text: string, lines: seq<string>, x: nat)
    requires IsFile(text, lines) && FeedFree(lines) && 1 <= x <= |lines|
    ensures x <= RowOf(lines, x) <= |SplitLines(text)|
    ensures SplitLines(text)[RowOf(lines, x) - 1] == lines[x - 1][..FirstBreak(lines[x - 1])]
    ensures RowOf(lines, x) == x <==> forall i :: 0 <= i < x - 1 ==> OnePiece(lines[i])
  {
    var front, line := lines[..x - 1], lines[x - 1];
    var tail := FileFrom(text, lines, x);
    assert FeedFree(front);
    SplitAll(front, line + tail);
    RowsExactly(front);
    FirstPiece(line, tail);
    hide SplitLines, Rows, AllPieces, OnePiece, IsFile;
    assert forall i :: 0 <= i < x - 1 ==> front[i] == lines[i];
    assert SplitLines(text)[|AllPieces(front)|] == SplitLines(line + tail)[0];
  }

  lemma FirstPiece(line: string, tail: string)
    requires '\n' !in line && ((tail == "" && line != "") || (tail != "" && tail[0] == '\n'))
    ensures SplitLines(line + tail) != [] && SplitLines(line + tail)[0] == line[..FirstBreak(line)]
  {
    if tail == "" {
      assert line + tail == line;
      assert line[..|line|] == line;
    } else {
      assert line + tail == line + "\n" + tail[1..];
      SplitConcat(line, tail[1..]);
      PiecesFacts(line);
    }
  }
}
