/**
 Ruby's String#split on a one-character separator, the join that undoes it,
 and the line framing of a newline-delimited text: its complete lines and the
 unterminated rest.
 */
module Split {

  /** Number of occurrences of `c` in `s`. */
  function Count(s: string, c: char): nat
  {
    if s == [] then 0
    else Count(s[..|s| - 1], c) + (if s[|s| - 1] == c then 1 else 0)
  }

  /** No piece contains the separator. */
  predicate AllFree(parts: seq<string>, sep: char)
  {
    forall i :: 0 <= i < |parts| ==> sep !in parts[i]
  }

  /** The pieces put back together with one `sep` between neighbours. */
  function Join(parts: seq<string>, sep: char): string
  {
    if |parts| == 0 then []
    else if |parts| == 1 then parts[0]
    else Join(parts[..|parts| - 1], sep) + [sep] + parts[|parts| - 1]
  }

  lemma JoinExtendLast(parts: seq<string>, sep: char, x: string)
    requires |parts| > 0
    ensures Join(parts[..|parts| - 1] + [parts[|parts| - 1] + x], sep) == Join(parts, sep) + x
  {
    var n := |parts|;
    var q := parts[..n - 1] + [parts[n - 1] + x];
    assert q[..n - 1] == parts[..n - 1];
  }

  /** Every piece of `s` between occurrences of `sep`, empty ones included, and the piece after the last `sep`. */
  function Pieces(s: string, sep: char): (r: seq<string>)
    ensures |r| >= 1
  {
    if s == [] then [[]]
    else
      var t := Pieces(s[..|s| - 1], sep);
      var c := s[|s| - 1];
      if c == sep then t + [[]] else t[..|t| - 1] + [t[|t| - 1] + [c]]
  }

  lemma {:induction false} PiecesCount(s: string, sep: char)
    ensures |Pieces(s, sep)| == Count(s, sep) + 1
  {
    if s != [] {
      PiecesCount(s[..|s| - 1], sep);
    }
  }

  lemma {:induction false} PiecesSepFree(s: string, sep: char)
    ensures AllFree(Pieces(s, sep), sep)
  {
    if s != [] {
      var init, c := s[..|s| - 1], s[|s| - 1];
      PiecesSepFree(init, sep);
      var t := Pieces(init, sep);
      if c != sep {
        var r := t[..|t| - 1] + [t[|t| - 1] + [c]];
        assert Pieces(s, sep) == r;
        forall i | 0 <= i < |r| ensures sep !in r[i] {
          if i < |t| - 1 { assert r[i] == t[i]; } else { assert r[i] == t[|t| - 1] + [c]; }
        }
      }
    }
  }

  lemma {:induction false} PiecesJoin(s: string, sep: char)
    ensures Join(Pieces(s, sep), sep) == s
  {
    if s != [] {
      var init, c := s[..|s| - 1], s[|s| - 1];
      PiecesJoin(init, sep);
      var t := Pieces(init, sep);
      assert s == init + [c];
      if c == sep {
        assert (t + [[]])[..|t|] == t;
      } else {
        JoinExtendLast(t, sep, [c]);
      }
    }
  }

  /**
   The pieces of `s`: one more than there are separators, none holding a
   separator, and joining them gives `s` back.
   */
  lemma PiecesProps(s: string, sep: char)
    ensures |Pieces(s, sep)| == Count(s, sep) + 1
    ensures AllFree(Pieces(s, sep), sep)
    ensures Join(Pieces(s, sep), sep) == s
  {
    PiecesCount(s, sep);
    PiecesSepFree(s, sep);
    PiecesJoin(s, sep);
  }

  /** Ruby's `s.split(sep, -1)`: nothing at all for the empty string, every piece otherwise. */
  function SplitKeep(s: string, sep: char): (r: seq<string>)
    ensures |r| == if s == [] then 0 else Count(s, sep) + 1
    ensures AllFree(r, sep)
    ensures Join(r, sep) == s
  {
    if s == [] then [] else PiecesProps(s, sep); Pieces(s, sep)
  }

  /** `parts` without its trailing run of empty strings. */
  function DropTrailingEmpty(parts: seq<string>): (r: seq<string>)
    ensures r <= parts
    ensures forall i :: |r| <= i < |parts| ==> parts[i] == []
    ensures r == [] || r[|r| - 1] != []
  {
    if parts == [] || parts[|parts| - 1] != [] then parts
    else DropTrailingEmpty(parts[..|parts| - 1])
  }

  /** Ruby's `s.split(sep)`: the pieces of `s`, trailing empty pieces removed. */
  function SplitDrop(s: string, sep: char): (r: seq<string>)
    ensures AllFree(r, sep)
    ensures r <= SplitKeep(s, sep)
    ensures forall i :: |r| <= i < |SplitKeep(s, sep)| ==> SplitKeep(s, sep)[i] == []
    ensures r == [] || r[|r| - 1] != []
  {
    DropTrailingEmpty(SplitKeep(s, sep))
  }

  lemma {:induction false} PiecesFree(s: string, sep: char)
    requires sep !in s
    ensures Pieces(s, sep) == [s]
  {
    if s != [] {
      PiecesFree(s[..|s| - 1], sep);
      assert s == s[..|s| - 1] + [s[|s| - 1]];
    }
  }

  lemma {:induction false} PiecesAppend(x: string, sep: char, y: string)
    requires sep !in y
    ensures Pieces(x + [sep] + y, sep) == Pieces(x, sep) + [y]
    decreases |y|
  {
    var s := x + [sep] + y;
    if y == [] {
      assert s[..|s| - 1] == x && s[|s| - 1] == sep;
    } else {
      var y', c := y[..|y| - 1], y[|y| - 1];
      assert s[..|s| - 1] == x + [sep] + y' && s[|s| - 1] == c;
      assert sep !in y' by { assert forall i :: 0 <= i < |y'| ==> y'[i] == y[i]; }
      PiecesAppend(x, sep, y');
      var p := Pieces(x, sep);
      var t := Pieces(x + [sep] + y', sep);
      assert t == p + [y'];
      assert t[..|t| - 1] == p && t[|t| - 1] == y';
      assert c != sep;
      assert y' + [c] == y;
    }
  }

  /** Pieces inverts Join on separator-free pieces. */
  lemma {:induction false} PiecesOfJoin(parts: seq<string>, sep: char)
    requires |parts| >= 1 && AllFree(parts, sep)
    ensures Pieces(Join(parts, sep), sep) == parts
  {
    var n := |parts|;
    if n == 1 {
      assert sep !in parts[0];
      PiecesFree(parts[0], sep);
    } else {
      var init, last := parts[..n - 1], parts[n - 1];
      assert AllFree(init, sep) by {
        forall i | 0 <= i < n - 1 ensures sep !in init[i] { assert init[i] == parts[i]; }
      }
      assert sep !in last;
      PiecesOfJoin(init, sep);
      assert Join(parts, sep) == Join(init, sep) + [sep] + last;
      PiecesAppend(Join(init, sep), sep, last);
      assert init + [last] == parts;
    }
  }

  /** The complete lines of `s`: the pieces that a newline closes. */
  function Lines(s: string): seq<string>
  {
    var p := Pieces(s, '\n');
    p[..|p| - 1]
  }

  /** The unterminated tail of `s`, after its last newline. */
  function Rest(s: string): string
  {
    var p := Pieces(s, '\n');
    p[|p| - 1]
  }

  /** Each line followed by a newline, all concatenated. */
  function Terminated(lines: seq<string>): string
  {
    if lines == [] then []
    else Terminated(lines[..|lines| - 1]) + lines[|lines| - 1] + "\n"
  }

  lemma {:induction false} TerminatedJoin(lines: seq<string>, rest: string)
    ensures Terminated(lines) + rest == Join(lines + [rest], '\n')
  {
    if lines != [] {
      var n := |lines|;
      TerminatedJoin(lines[..n - 1], lines[n - 1]);
      assert (lines[..n - 1] + [lines[n - 1]]) == lines;
      assert (lines + [rest])[..n] == lines;
    }
  }

  lemma {:induction false} TerminatedConcat(a: seq<string>, b: seq<string>)
    ensures Terminated(a + b) == Terminated(a) + Terminated(b)
  {
    if b != [] {
      var n := |b|;
      var b', x := b[..n - 1], b[n - 1];
      TerminatedConcat(a, b');
      assert (a + b)[..|a + b| - 1] == a + b';
      assert (a + b)[|a + b| - 1] == x;
      var ta, tb' := Terminated(a), Terminated(b');
      assert Terminated(a + b) == ta + tb' + x + "\n";
      assert Terminated(b) == tb' + x + "\n";
      assert ta + tb' + x + "\n" == ta + (tb' + x + "\n");
    } else {
      assert a + b == a;
    }
  }

  /**
   The framing of `s`: its complete lines, each newline-free, followed by
   newlines, then its newline-free rest, give `s` back; there are as many
   complete lines as newlines in `s`.
   */
  lemma LinesAndRest(s: string)
    ensures Terminated(Lines(s)) + Rest(s) == s
    ensures AllFree(Lines(s), '\n') && '\n' !in Rest(s)
    ensures |Lines(s)| == Count(s, '\n')
  {
    var p := Pieces(s, '\n');
    PiecesProps(s, '\n');
    assert p == Lines(s) + [Rest(s)];
    TerminatedJoin(Lines(s), Rest(s));
  }

  /** The framing is unique: any newline-free lines and rest that rebuild `s` are its Lines and Rest. */
  lemma LinesUnique(lines: seq<string>, rest: string, s: string)
    requires AllFree(lines, '\n') && '\n' !in rest
    requires Terminated(lines) + rest == s
    ensures lines == Lines(s) && rest == Rest(s)
  {
    TerminatedJoin(lines, rest);
    PiecesOfJoin(lines + [rest], '\n');
    assert (lines + [rest])[..|lines|] == lines;
  }

  /**
   Chunking invariance of the framing: the lines of `b + c1 + c2` are the
   lines of `b + c1` followed by the lines of that text's rest plus `c2`.
   */
  lemma LinesConcat(b: string, c1: string, c2: string)
    ensures Lines(b + c1 + c2) == Lines(b + c1) + Lines(Rest(b + c1) + c2)
    ensures Rest(b + c1 + c2) == Rest(Rest(b + c1) + c2)
  {
    var l1, r1 := Lines(b + c1), Rest(b + c1);
    var l2, r2 := Lines(r1 + c2), Rest(r1 + c2);
    LinesAndRest(b + c1);
    LinesAndRest(r1 + c2);
    TerminatedConcat(l1, l2);
    assert AllFree(l1 + l2, '\n') by {
      forall i | 0 <= i < |l1 + l2| ensures '\n' !in (l1 + l2)[i] {
        if i < |l1| { assert (l1 + l2)[i] == l1[i]; } else { assert (l1 + l2)[i] == l2[i - |l1|]; }
      }
    }
    calc {
      Terminated(l1 + l2) + r2;
      Terminated(l1) + Terminated(l2) + r2;
      Terminated(l1) + (Terminated(l2) + r2);
      Terminated(l1) + (r1 + c2);
      Terminated(l1) + r1 + c2;
      b + c1 + c2;
    }
    LinesUnique(l1 + l2, r2, b + c1 + c2);
  }

  /** The chunks concatenated, in order. */
  function Concat(chunks: seq<string>): string
  {
    if chunks == [] then [] else Concat(chunks[..|chunks| - 1]) + chunks[|chunks| - 1]
  }

  lemma ConcatSnoc(chunks: seq<string>, x: string)
    ensures Concat(chunks + [x]) == Concat(chunks) + x
  {
    assert (chunks + [x])[..|chunks|] == chunks;
  }

  lemma TerminatedSnoc(lines: seq<string>, x: string)
    ensures Terminated(lines + [x]) == Terminated(lines) + x + "\n"
  {
    assert (lines + [x])[..|lines|] == lines;
  }

  lemma JoinPrependFirst(b: string, parts: seq<string>, sep: char)
    requires |parts| >= 1
    ensures Join([b + parts[0]] + parts[1..], sep) == b + Join(parts, sep)
    decreases |parts|
  {
    var q := [b + parts[0]] + parts[1..];
    if |parts| > 1 {
      var n := |parts|;
      JoinPrependFirst(b, parts[..n - 1], sep);
      assert q[..n - 1] == [b + parts[0]] + parts[..n - 1][1..];
      assert q[n - 1] == parts[n - 1];
    }
  }

  /** Gluing a newline-free `b` onto the first of newline-free pieces leaves them newline-free. */
  lemma GluedFree(b: string, parts: seq<string>)
    requires '\n' !in b && |parts| >= 1 && AllFree(parts, '\n')
    ensures AllFree([b + parts[0]] + parts[1..], '\n')
  {
    var q := [b + parts[0]] + parts[1..];
    assert '\n' !in parts[0];
    assert '\n' !in q[0];
    forall i | 1 <= i < |q| ensures '\n' !in q[i] {
      assert q[i] == parts[i];
    }
  }

  /** Newline-free pieces that join to `s` are its complete lines followed by its rest. */
  lemma FramingOf(q: seq<string>, s: string)
    requires |q| >= 1 && AllFree(q, '\n') && Join(q, '\n') == s
    ensures Lines(s) + [Rest(s)] == q
  {
    PiecesOfJoin(q, '\n');
    assert q == q[..|q| - 1] + [q[|q| - 1]];
  }

  /**
   One call's framing as the decoder loop performs it: with a newline-free
   pending text `b`, an empty chunk completes nothing and keeps `b`; any
   other chunk's first piece is glued onto `b` to form the first line, the
   pieces in between are lines of their own, and the last piece is the new
   rest. So a call completes exactly as many lines as the chunk has newlines.
   */
  lemma StepFraming(b: string, c: string)
    requires '\n' !in b
    ensures c == [] ==> Lines(b + c) == [] && Rest(b + c) == b
    ensures c != [] ==> Lines(b + c) + [Rest(b + c)] == [b + SplitKeep(c, '\n')[0]] + SplitKeep(c, '\n')[1..]
    ensures |Lines(b + c)| == Count(c, '\n')
  {
    if c == [] {
      assert b + c == b;
      LinesUnique([], b, b);
    } else {
      var p := SplitKeep(c, '\n');
      var q := [b + p[0]] + p[1..];
      JoinPrependFirst(b, p, '\n');
      GluedFree(b, p);
      FramingOf(q, b + c);
      assert |Lines(b + c)| + 1 == |p|;
    }
  }

  lemma TerminatedNonEmpty(lines: seq<string>)
    requires |lines| > 0
    ensures Terminated(lines) != []
  {
    var n := |lines|;
    assert lines[..n - 1] + [lines[n - 1]] == lines;
    TerminatedSnoc(lines[..n - 1], lines[n - 1]);
  }

  lemma AllFreeSnoc(lines: seq<string>, x: string)
    requires AllFree(lines, '\n') && '\n' !in x
    ensures AllFree(lines + [x], '\n')
  {
    forall i | 0 <= i < |lines| + 1 ensures '\n' !in (lines + [x])[i] {
      if i < |lines| { assert (lines + [x])[i] == lines[i]; }
    }
  }

  /** Whole lines ending with a newline split into those lines and one empty piece. */
  lemma SplitKeepWholeLines(lines: seq<string>)
    requires |lines| > 0 && AllFree(lines, '\n')
    ensures SplitKeep(Terminated(lines), '\n') == lines + [[]]
  {
    var text := Terminated(lines);
    TerminatedNonEmpty(lines);
    AllFreeSnoc(lines, []);
    TerminatedJoin(lines, []);
    assert text + [] == text;
    PiecesOfJoin(lines + [[]], '\n');
  }

  /**
   Text made of whole lines, the last one not empty: both splits give those
   lines back, `split("\n")` because it drops the empty piece after the
   final newline, and the framing has them as its complete lines.
   */
  lemma WholeLinesFraming(lines: seq<string>)
    requires |lines| > 0 && lines[|lines| - 1] != [] && AllFree(lines, '\n')
    ensures SplitDrop(Terminated(lines), '\n') == lines
    ensures Lines(Terminated(lines)) == lines && Rest(Terminated(lines)) == []
  {
    var text := Terminated(lines);
    SplitKeepWholeLines(lines);
    var keep := lines + [[]];
    assert keep[..|lines|] == lines;
    assert DropTrailingEmpty(keep) == DropTrailingEmpty(lines) == lines;
    assert text + [] == text;
    LinesUnique(lines, [], text);
  }
}
