/**
  Line breaks as the fuser counts them: the pattern \r\n|[\n\r\u0085\u2028\u2029],
  matched left to right, so that "\r\n" is one break and each of the five
  characters is one break on its own.
 */
module LineBreaks {

  predicate IsBreakChar(ch: char) {
    ch == '\n' || ch == '\r' || ch == '\U{85}' || ch == '\U{2028}' || ch == '\U{2029}'
  }

  /** No character of s is a line break. */
  predicate NoBreaks(s: string) {
    forall i | 0 <= i < |s| :: !IsBreakChar(s[i])
  }

  predicate EndsWithCR(s: string) {
    |s| > 0 && s[|s| - 1] == '\r'
  }

  /** The length of the break the pattern matches at the start of s (0 when none). */
  function BreakLength(s: string): (n: nat)
    ensures n <= |s|
  {
    if |s| >= 2 && s[0] == '\r' && s[1] == '\n' then 2
    else if |s| >= 1 && IsBreakChar(s[0]) then 1
    else 0
  }

  /** The pieces between the breaks, as the pattern splits s. */
  function SplitLines(s: string): (lines: seq<string>)
    ensures |lines| >= 1
    ensures s == "" ==> lines == [""]
    decreases |s|
  {
    if |s| == 0 then [""]
    else if BreakLength(s) > 0 then [""] + SplitLines(s[BreakLength(s)..])
    else
      var rest := SplitLines(s[1..]);
      [[s[0]] + rest[0]] + rest[1..]
  }

  /** The breaks themselves, in the order the pattern matches them. */
  function Breaks(s: string): (breaks: seq<string>)
    ensures |breaks| <= |s|
    ensures forall i | 0 <= i < |breaks| :: breaks[i] == "\r\n" || (|breaks[i]| == 1 && IsBreakChar(breaks[i][0]))
    decreases |s|
  {
    if |s| == 0 then []
    else if BreakLength(s) > 0 then [s[..BreakLength(s)]] + Breaks(s[BreakLength(s)..])
    else Breaks(s[1..])
  }

  /** Puts the separators back between the pieces. */
  function Interleave(lines: seq<string>, seps: seq<string>): string
    requires |lines| == |seps| + 1
    decreases |seps|
  {
    if |seps| == 0 then lines[0]
    else lines[0] + seps[0] + Interleave(lines[1..], seps[1..])
  }

  /** Joins the last line of x with the first line of y: the lines of a + b from those of a and b. */
  function Glue(x: seq<string>, y: seq<string>): (z: seq<string>)
    requires |x| >= 1 && |y| >= 1
    ensures |z| == |x| + |y| - 1
  {
    x[..|x| - 1] + [x[|x| - 1] + y[0]] + y[1..]
  }

  /** Splitting yields one more piece than there are breaks. */
  lemma {:induction false} SplitLinesCount(s: string)
    ensures |SplitLines(s)| == |Breaks(s)| + 1
    decreases |s|
  {
    if |s| > 0 {
      if BreakLength(s) > 0 {
        SplitLinesCount(s[BreakLength(s)..]);
      } else {
        SplitLinesCount(s[1..]);
      }
    }
  }

  /** Prepending one character to the first piece prepends it to the joined text. */
  lemma InterleaveHead(c: char, lines: seq<string>, seps: seq<string>)
    requires |lines| == |seps| + 1
    ensures Interleave([[c] + lines[0]] + lines[1..], seps) == [c] + Interleave(lines, seps)
  {
    var moved := [[c] + lines[0]] + lines[1..];
    assert moved[1..] == lines[1..];
  }

  /** A leading piece is followed by its separator. */
  lemma InterleaveCons(e: string, t: string, lines: seq<string>, seps: seq<string>)
    requires |lines| == |seps| + 1
    ensures Interleave([e] + lines, [t] + seps) == e + t + Interleave(lines, seps)
  {
    assert ([e] + lines)[1..] == lines;
    assert ([t] + seps)[1..] == seps;
  }

  /** The two recursion equations of SplitLines and Breaks at a break. */
  lemma UnfoldAtBreak(s: string)
    requires |s| > 0 && BreakLength(s) > 0
    ensures SplitLines(s) == [""] + SplitLines(s[BreakLength(s)..])
    ensures Breaks(s) == [s[..BreakLength(s)]] + Breaks(s[BreakLength(s)..])
  {
  }

  /** The two recursion equations of SplitLines and Breaks at an ordinary character. */
  lemma UnfoldAtChar(s: string)
    requires |s| > 0 && BreakLength(s) == 0
    ensures SplitLines(s) == [[s[0]] + SplitLines(s[1..])[0]] + SplitLines(s[1..])[1..]
    ensures Breaks(s) == Breaks(s[1..])
  {
  }

  /** Putting the breaks back between the pieces gives the original text. */
  lemma {:induction false} SplitLinesRoundTrip(s: string)
    ensures |SplitLines(s)| == |Breaks(s)| + 1
    ensures Interleave(SplitLines(s), Breaks(s)) == s
    decreases |s|
  {
    SplitLinesCount(s);
    if |s| > 0 {
      var n := BreakLength(s);
      if n > 0 {
        SplitLinesRoundTrip(s[n..]);
        UnfoldAtBreak(s);
        SplitLinesCount(s[n..]);
        InterleaveCons([], s[..n], SplitLines(s[n..]), Breaks(s[n..]));
        assert s == [] + s[..n] + s[n..];
      } else {
        SplitLinesRoundTrip(s[1..]);
        UnfoldAtChar(s);
        InterleaveHead(s[0], SplitLines(s[1..]), Breaks(s[1..]));
        assert s == [s[0]] + s[1..];
      }
    }
  }

  /** No piece contains a break character: every piece is one line. */
  lemma {:induction false} SplitLinesHaveNoBreaks(s: string)
    ensures forall k | 0 <= k < |SplitLines(s)| :: NoBreaks(SplitLines(s)[k])
    decreases |s|
  {
    if |s| > 0 {
      var n := BreakLength(s);
      if n > 0 {
        SplitLinesHaveNoBreaks(s[n..]);
      } else {
        SplitLinesHaveNoBreaks(s[1..]);
        var rest := SplitLines(s[1..]);
        assert NoBreaks([s[0]] + rest[0]) by {
          assert NoBreaks(rest[0]);
        }
      }
    }
  }

  /** Text without a break is a single line. */
  lemma {:induction false} SingleLine(s: string)
    requires NoBreaks(s)
    ensures SplitLines(s) == [s]
    decreases |s|
  {
    if |s| > 0 {
      SingleLine(s[1..]);
      assert [s[0]] + s[1..] == s;
    }
  }

  /** A break at the start of a is a break at the start of a + b, of the same length. */
  lemma BreakLengthAppend(a: string, b: string)
    requires |a| > 0
    requires !(EndsWithCR(a) && |b| > 0 && b[0] == '\n')
    ensures BreakLength(a + b) == BreakLength(a)
  {
    assert (a + b)[0] == a[0];
    if |a| >= 2 {
      assert (a + b)[1] == a[1];
    }
  }

  lemma GlueHead(e: string, x: seq<string>, y: seq<string>)
    requires |x| >= 1 && |y| >= 1
    ensures Glue([e] + x, y) == [e] + Glue(x, y)
  {
  }

  lemma GlueCharHead(c: char, x: seq<string>, y: seq<string>)
    requires |x| >= 1 && |y| >= 1
    ensures var r := Glue(x, y); Glue([[c] + x[0]] + x[1..], y) == [[c] + r[0]] + r[1..]
  {
    var r := Glue(x, y);
    var lhs := Glue([[c] + x[0]] + x[1..], y);
    var rhs := [[c] + r[0]] + r[1..];
    assert |lhs| == |rhs|;
    forall i | 0 <= i < |lhs| ensures lhs[i] == rhs[i] {
      if i == 0 && |x| == 1 {
        assert r[0] == x[0] + y[0];
        assert lhs[0] == [c] + x[0] + y[0];
      }
    }
  }

  /** The recursion equation of SplitLines at a break of a that is also a break of a + b. */
  lemma SplitAfterBreak(a: string, b: string, n: nat)
    requires 0 < n <= |a| && n == BreakLength(a + b)
    ensures SplitLines(a + b) == [[]] + SplitLines(a[n..] + b)
  {
    assert (a + b)[n..] == a[n..] + b;
    UnfoldAtBreak(a + b);
  }

  lemma SplitAppendBreakStep(a: string, b: string, n: nat)
    requires 0 < n <= |a| && n == BreakLength(a) && n == BreakLength(a + b)
    requires SplitLines(a[n..] + b) == Glue(SplitLines(a[n..]), SplitLines(b))
    ensures SplitLines(a + b) == Glue(SplitLines(a), SplitLines(b))
  {
    var x, sb := SplitLines(a[n..]), SplitLines(b);
    SplitAfterBreak(a, b, n);
    UnfoldAtBreak(a);
    GlueHead([], x, sb);
  }

  /** The recursion equation of SplitLines at an ordinary first character of a + b. */
  lemma SplitAfterChar(a: string, b: string)
    requires |a| > 0 && BreakLength(a + b) == 0
    ensures var r := SplitLines(a[1..] + b); SplitLines(a + b) == [[a[0]] + r[0]] + r[1..]
  {
    assert (a + b)[1..] == a[1..] + b;
    assert (a + b)[0] == a[0];
    UnfoldAtChar(a + b);
  }

  lemma SplitAppendCharStep(a: string, b: string)
    requires |a| > 0 && BreakLength(a) == 0 && BreakLength(a + b) == 0
    requires SplitLines(a[1..] + b) == Glue(SplitLines(a[1..]), SplitLines(b))
    ensures SplitLines(a + b) == Glue(SplitLines(a), SplitLines(b))
  {
    SplitAfterChar(a, b);
    UnfoldAtChar(a);
    GlueCharHead(a[0], SplitLines(a[1..]), SplitLines(b));
  }

  /**
    The lines of a + b are those of a and of b, the last line of a joined with
    the first of b, unless a ends in '\r' and b starts with '\n' (the two then
    form one "\r\n" break).
   */
  lemma {:induction false} SplitAppend(a: string, b: string)
    requires !(EndsWithCR(a) && |b| > 0 && b[0] == '\n')
    ensures SplitLines(a + b) == Glue(SplitLines(a), SplitLines(b))
    decreases |a|
  {
    if |a| == 0 {
      var sb := SplitLines(b);
      assert a + b == b;
      assert SplitLines(a) == [""];
      assert "" + sb[0] == sb[0];
      assert [sb[0]] + sb[1..] == sb;
    } else {
      BreakLengthAppend(a, b);
      var n := BreakLength(a);
      if n > 0 {
        assert EndsWithCR(a[n..]) ==> EndsWithCR(a);
        SplitAppend(a[n..], b);
        SplitAppendBreakStep(a, b, n);
      } else {
        assert EndsWithCR(a[1..]) ==> EndsWithCR(a);
        SplitAppend(a[1..], b);
        SplitAppendCharStep(a, b);
      }
    }
  }

  /** Index facts about Glue. */
  lemma GlueAt(x: seq<string>, y: seq<string>)
    requires |x| >= 1 && |y| >= 1
    ensures forall i | 0 <= i < |x| - 1 :: Glue(x, y)[i] == x[i]
    ensures forall j | 1 <= j < |y| :: Glue(x, y)[|x| - 1 + j] == y[j]
    ensures Glue(x, y)[|x| - 1] == x[|x| - 1] + y[0]
  {
  }

  /** Breaks in a concatenation are the breaks of its parts. */
  lemma NoBreaksAppend(a: string, b: string)
    ensures NoBreaks(a + b) <==> NoBreaks(a) && NoBreaks(b)
  {
    if NoBreaks(a) && NoBreaks(b) {
      forall i | 0 <= i < |a + b| ensures !IsBreakChar((a + b)[i]) {
        if i >= |a| {
          assert (a + b)[i] == b[i - |a|];
        }
      }
    }
    if NoBreaks(a + b) {
      forall i | 0 <= i < |b| ensures !IsBreakChar(b[i]) {
        assert (a + b)[|a| + i] == b[i];
      }
      forall i | 0 <= i < |a| ensures !IsBreakChar(a[i]) {
        assert (a + b)[i] == a[i];
      }
    }
  }

  /** Two line feeds make two empty lines and start a third. */
  lemma TwoLineFeeds()
    ensures SplitLines("\n\n") == ["", "", ""]
  {
    var s := "\n\n";
    UnfoldAtBreak(s);
    assert s[1..] == "\n";
    UnfoldAtBreak(s[1..]);
    assert s[1..][1..] == "";
  }

  /** One line feed ends a line and starts an empty one. */
  lemma OneLineFeed()
    ensures SplitLines("\n") == ["", ""]
  {
    UnfoldAtBreak("\n");
    assert "\n"[1..] == "";
  }

  /** Appending a line that has no break to text that ends in a break. */
  lemma AppendLine(a: string, line: string)
    requires NoBreaks(line)
    ensures SplitLines(a + line) == Glue(SplitLines(a), [line])
  {
    SingleLine(line);
    if |line| > 0 {
      assert !IsBreakChar(line[0]);
    }
    SplitAppend(a, line);
  }

  /** Two line feeds after text that does not end in '\r' add two empty lines. */
  lemma AppendTwoLineFeeds(a: string)
    requires !EndsWithCR(a)
    ensures SplitLines(a + "\n\n") == SplitLines(a) + ["", ""]
  {
    var x := SplitLines(a);
    TwoLineFeeds();
    SplitAppend(a, "\n\n");
    assert x[|x| - 1] + "" == x[|x| - 1];
    assert x[..|x| - 1] + [x[|x| - 1]] == x;
  }

  /** A line without breaks after text whose last line is empty becomes that last line. */
  lemma AppendLineAfterBreak(a: string, line: string)
    requires NoBreaks(line)
    requires SplitLines(a)[|SplitLines(a)| - 1] == ""
    ensures SplitLines(a + line) == SplitLines(a)[..|SplitLines(a)| - 1] + [line]
  {
    AppendLine(a, line);
    assert "" + line == line;
  }

  /** Text after a break that is not a lone '\r' waiting for its '\n': its lines follow the finished ones. */
  lemma AppendAfterBreak(a: string, b: string)
    requires !EndsWithCR(a)
    requires SplitLines(a)[|SplitLines(a)| - 1] == ""
    ensures SplitLines(a + b) == SplitLines(a)[..|SplitLines(a)| - 1] + SplitLines(b)
  {
    var x := SplitLines(a);
    var y := SplitLines(b);
    SplitAppend(a, b);
    assert "" + y[0] == y[0];
    assert [y[0]] + y[1..] == y;
  }
}
