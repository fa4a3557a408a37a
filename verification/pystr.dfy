/**
  The two Python `str` methods the formatter relies on: `lstrip` and
  `splitlines`, each with a declarative characterisation.
 */
module PyStr {
  import opened Unicode

  /** Every character of `s` satisfies `f`. */
  predicate All(s: string, f: char -> bool) {
    forall k :: 0 <= k < |s| ==> f(s[k])
  }

  predicate NoLineBreak(s: string) {
    forall k :: 0 <= k < |s| ==> !IsLineBreak(s[k])
  }

  // ---------------------------------------------------------------------
  // str.lstrip

  /** `s.lstrip(chars)` for the character set `strip`: the result is a suffix
      of `s`, everything removed is in the set, and the result does not start
      with a character of the set. */
  function LStrip(s: string, strip: char -> bool): (t: string)
    ensures |t| <= |s| && t == s[|s| - |t|..]
    ensures All(s[..|s| - |t|], strip)
    ensures t == [] || !strip(t[0])
  {
    if s != [] && strip(s[0]) then
      var t := LStrip(s[1..], strip);
      LStripStep(s, t, strip);
      t
    else
      s
  }

  /** Stripping one more character of the set keeps the characterisation. */
  lemma LStripStep(s: string, t: string, strip: char -> bool)
    requires s != [] && strip(s[0])
    requires |t| <= |s| - 1 && t == s[1..][|s| - 1 - |t|..]
    requires All(s[1..][..|s| - 1 - |t|], strip)
    ensures t == s[|s| - |t|..]
    ensures All(s[..|s| - |t|], strip)
  {
    assert s[..|s| - |t|] == [s[0]] + s[1..][..|s| - 1 - |t|];
  }

  /** The characterisation above fixes the result: a prefix drawn from the
      set, followed by text that does not start with the set, strips to
      exactly that text. */
  lemma {:induction false} LStripUnique(p: string, t: string, strip: char -> bool)
    requires All(p, strip)
    requires t == [] || !strip(t[0])
    ensures LStrip(p + t, strip) == t
  {
    if p == [] {
      assert p + t == t;
    } else {
      assert (p + t)[0] == p[0];
      assert (p + t)[1..] == p[1..] + t;
      LStripUnique(p[1..], t, strip);
    }
  }

  /** Stripping skips a prefix drawn from the set. */
  lemma {:induction false} LStripSkip(p: string, t: string, strip: char -> bool)
    requires All(p, strip)
    ensures LStrip(p + t, strip) == LStrip(t, strip)
  {
    if p != [] {
      assert (p + t)[0] == p[0];
      assert (p + t)[1..] == p[1..] + t;
      LStripSkip(p[1..], t, strip);
    } else {
      assert p + t == t;
    }
  }

  /** One element of `s.splitlines(keepends=True)`: the line's text and the
      terminator that ended it (empty only for an unterminated last line). */
  datatype Line = Line(text: string, ending: string)

  /** A single line terminator: CR LF, or one line-break character. */
  predicate IsTerminator(e: string) {
    e == "\r\n" || (|e| == 1 && IsLineBreak(e[0]))
  }

  /** The text the lines were cut from. */
  function Join(r: seq<Line>): string {
    if r == [] then [] else r[0].text + r[0].ending + Join(r[1..])
  }

  function Texts(r: seq<Line>): (lines: seq<string>)
    ensures |lines| == |r|
    ensures forall k :: 0 <= k < |r| ==> lines[k] == r[k].text
  {
    seq(|r|, k requires 0 <= k < |r| => r[k].text)
  }

  /** What makes a cut of a string into lines the `splitlines` cut: no line
      contains a break, every line but the last ends with a terminator, the
      last ends with a terminator or is non-empty and unterminated, and a CR
      is never separated from an LF that follows it. */
  ghost predicate WellSplit(r: seq<Line>) {
    && (forall k :: 0 <= k < |r| ==> NoLineBreak(r[k].text))
    && (forall k :: 0 <= k < |r| - 1 ==> IsTerminator(r[k].ending))
    && (r != [] ==> IsTerminator(r[|r| - 1].ending)
                    || (r[|r| - 1].ending == [] && r[|r| - 1].text != []))
    && (forall k :: 1 <= k < |r| && r[k - 1].ending == "\r" ==>
          r[k].text != [] || r[k].ending != "\n")
  }

  /** Index of the first line-break character of `s`, or `|s|`. */
  function LineBreakAt(s: string): (i: nat)
    ensures i <= |s|
    ensures NoLineBreak(s[..i])
    ensures i < |s| ==> IsLineBreak(s[i])
  {
    if s == [] || IsLineBreak(s[0]) then 0
    else
      var i := 1 + LineBreakAt(s[1..]);
      assert s[..i] == [s[0]] + s[1..][..i - 1];
      i
  }

  /** `s.splitlines(keepends=True)`. */
  function SplitLinesKeepEnds(s: string): (r: seq<Line>)
    ensures Join(r) == s
    ensures WellSplit(r)
    decreases |s|
  {
    if s == [] then []
    else
      var i := LineBreakAt(s);
      if i == |s| then
        assert Join([Line(s, [])]) == s + [] + Join([]);
        [Line(s, [])]
      else
        var n := TerminatorLength(s, i);
        var rest := SplitLinesKeepEnds(s[i + n..]);
        ConsCut(s, i, n, rest);
        [Line(s[..i], s[i..i + n])] + rest
  }

  /** The first line up to its terminator, followed by a well-formed cut of
      what comes after, is a well-formed cut of the whole. */
  lemma ConsCut(s: string, i: nat, n: nat, rest: seq<Line>)
    requires i < |s| && NoLineBreak(s[..i]) && IsLineBreak(s[i])
    requires n == TerminatorLength(s, i)
    requires Join(rest) == s[i + n..] && WellSplit(rest)
    ensures Join([Line(s[..i], s[i..i + n])] + rest) == s
    ensures WellSplit([Line(s[..i], s[i..i + n])] + rest)
  {
    var head := Line(s[..i], s[i..i + n]);
    assert ([head] + rest)[1..] == rest;
    assert s == s[..i] + s[i..i + n] + s[i + n..];
    JoinFirst(rest);
    WellSplitCons(head, rest);
  }

  /** Length of the terminator that starts at the line break `s[i]`:
      CR LF counts as one terminator. */
  function TerminatorLength(s: string, i: nat): (n: nat)
    requires i < |s| && IsLineBreak(s[i])
    ensures i + n <= |s| && IsTerminator(s[i..i + n])
    ensures n == 1 && s[i] == '\r' ==> i + 1 == |s| || s[i + 1] != '\n'
  {
    if s[i] == '\r' && i + 1 < |s| && s[i + 1] == '\n' then 2 else 1
  }

  /** The first character of a joined cut. */
  lemma JoinFirst(r: seq<Line>)
    ensures r != [] && r[0].text == [] ==> Join(r) == r[0].ending + Join(r[1..])
  {
  }

  lemma WellSplitCons(head: Line, rest: seq<Line>)
    requires NoLineBreak(head.text) && IsTerminator(head.ending)
    requires WellSplit(rest)
    requires head.ending == "\r" && rest != [] ==> rest[0].text != [] || rest[0].ending != "\n"
    ensures WellSplit([head] + rest)
  {
    var r := [head] + rest;
    forall k | 0 <= k < |r| ensures NoLineBreak(r[k].text) {
      if k > 0 { assert r[k] == rest[k - 1]; }
    }
    forall k | 0 <= k < |r| - 1 ensures IsTerminator(r[k].ending) {
      if k > 0 { assert r[k] == rest[k - 1]; }
    }
    forall k | 1 <= k < |r| && r[k - 1].ending == "\r"
      ensures r[k].text != [] || r[k].ending != "\n"
    {
      assert r[k] == rest[k - 1];
      if k > 1 { assert r[k - 1] == rest[k - 2]; }
    }
    assert r[|r| - 1] == if rest == [] then head else rest[|rest| - 1];
  }

  /** `s.splitlines()`: the texts of the keep-ends cut. */
  function SplitLines(s: string): (lines: seq<string>)
    ensures forall k :: 0 <= k < |lines| ==> NoLineBreak(lines[k])
    ensures lines == [] <==> s == []
  {
    var r := SplitLinesKeepEnds(s);
    assert r == [] ==> Join(r) == [];
    assert r != [] ==> |Join(r)| >= |r[0].text| + |r[0].ending| > 0;
    Texts(r)
  }

  lemma WellSplitTail(r: seq<Line>)
    requires WellSplit(r) && r != []
    ensures WellSplit(r[1..])
  {
    var t := r[1..];
    forall k | 1 <= k < |t| && t[k - 1].ending == "\r"
      ensures t[k].text != [] || t[k].ending != "\n"
    {
      assert t[k - 1] == r[k] && t[k] == r[k + 1];
    }
  }

  /** The first break of `p + q` is where `q` starts, when `p` has none and
      `q` starts with one (or is empty). */
  lemma {:induction false} LineBreakAtJoin(p: string, q: string)
    requires NoLineBreak(p)
    requires q == [] || IsLineBreak(q[0])
    ensures LineBreakAt(p + q) == |p|
  {
    if p != [] {
      assert (p + q)[0] == p[0];
      assert (p + q)[1..] == p[1..] + q;
      LineBreakAtJoin(p[1..], q);
    } else {
      assert p + q == q;
    }
  }

  /** A terminator `e` written after `p` is read back whole, provided a lone
      CR is not followed by an LF. */
  lemma TerminatorLengthJoin(p: string, e: string, u: string)
    requires IsTerminator(e)
    requires e == "\r" && u != [] ==> u[0] != '\n'
    ensures |p| < |p + e + u| && IsLineBreak((p + e + u)[|p|])
    ensures TerminatorLength(p + e + u, |p|) == |e|
  {
    var s := p + e + u;
    assert s[|p|] == e[0];
    if e == "\r\n" {
      assert s[|p| + 1] == '\n';
    } else if e == "\r" && u != [] {
      assert s[|p| + 1] == u[0];
    }
  }

  /** A well-formed cut whose first line is not an empty line ended by a lone
      LF does not start with an LF. */
  lemma JoinStart(r: seq<Line>)
    requires WellSplit(r) && r != []
    requires r[0].text != [] || r[0].ending != "\n"
    ensures Join(r) != [] && Join(r)[0] != '\n'
  {
    assert NoLineBreak(r[0].text);
    if r[0].text != [] {
      assert Join(r)[0] == r[0].text[0];
    } else {
      assert |r| > 1 ==> IsTerminator(r[0].ending);
      assert Join(r)[0] == r[0].ending[0];
    }
  }

  /** The `splitlines` cut is the only well-formed cut: any cut of `s` that
      satisfies `WellSplit` is the one `SplitLinesKeepEnds` returns. */
  lemma {:induction false} SplitLinesKeepEndsUnique(s: string, r: seq<Line>)
    requires WellSplit(r) && Join(r) == s
    ensures SplitLinesKeepEnds(s) == r
    decreases |r|
  {
    if r != [] {
      WellSplitTail(r);
      if r[0].ending == [] {
        UniqueUnterminated(s, r);
      } else {
        HeadOfTerminated(s, r);
        SplitLinesKeepEndsUnique(Join(r[1..]), r[1..]);
        assert r == [r[0]] + r[1..];
      }
    }
  }

  /** A cut whose first line is unterminated has that line alone. */
  lemma UniqueUnterminated(s: string, r: seq<Line>)
    requires WellSplit(r) && Join(r) == s
    requires r != [] && r[0].ending == []
    ensures SplitLinesKeepEnds(s) == r
  {
    var head := r[0];
    assert |r| > 1 ==> IsTerminator(r[0].ending);
    assert r[1..] == [];
    assert s == head.text + [];
    LineBreakAtJoin(head.text, []);
  }

  /** A cut whose first line is terminated: the `splitlines` scan finds
      that line's break, reads its terminator whole, and goes on with the
      rest of the cut. */
  lemma HeadOfTerminated(s: string, r: seq<Line>)
    requires WellSplit(r) && Join(r) == s
    requires r != [] && r[0].ending != []
    ensures LineBreakAt(s) == |r[0].text| < |s|
    ensures TerminatorLength(s, |r[0].text|) == |r[0].ending|
    ensures s[..|r[0].text|] == r[0].text
    ensures s[|r[0].text|..|r[0].text| + |r[0].ending|] == r[0].ending
    ensures s[|r[0].text| + |r[0].ending|..] == Join(r[1..])
  {
    var head := r[0];
    var rest := r[1..];
    var u := Join(rest);
    assert s == head.text + head.ending + u;
    assert IsTerminator(head.ending);
    assert head.text + head.ending + u == head.text + (head.ending + u);
    LineBreakAtJoin(head.text, head.ending + u);
    if head.ending == "\r" && rest != [] {
      assert r[1].text != [] || r[1].ending != "\n";
      JoinStart(rest);
    }
    TerminatorLengthJoin(head.text, head.ending, u);
  }

  /** Any well-formed cut of `s` gives its lines. */
  lemma SplitLinesOfCut(s: string, r: seq<Line>)
    requires WellSplit(r) && Join(r) == s
    ensures SplitLines(s) == Texts(r)
  {
    SplitLinesKeepEndsUnique(s, r);
  }

  /** Every character of `s` that is not a line break satisfies `f`. */
  predicate AllButBreaks(s: string, f: char -> bool) {
    forall k :: 0 <= k < |s| && !IsLineBreak(s[k]) ==> f(s[k])
  }

  lemma AllButBreaksConcat(a: string, b: string, f: char -> bool)
    ensures AllButBreaks(a + b, f) <==> AllButBreaks(a, f) && AllButBreaks(b, f)
  {
    if AllButBreaks(a + b, f) {
      forall k | 0 <= k < |a| && !IsLineBreak(a[k])
        ensures f(a[k])
      {
        assert (a + b)[k] == a[k];
      }
    }
    if AllButBreaks(a, f) && AllButBreaks(b, f) {
      forall k | 0 <= k < |a + b| && !IsLineBreak((a + b)[k])
        ensures f((a + b)[k])
      {
        if k >= |a| {
          assert (a + b)[k] == b[k - |a|];
        }
      }
    }
    if AllButBreaks(a + b, f) {
      forall k | 0 <= k < |b| && !IsLineBreak(b[k])
        ensures f(b[k])
      {
        assert (a + b)[|a| + k] == b[k];
      }
    }
  }

  /** The texts of a well-formed cut hold exactly the characters of the
      string that are not line breaks: a property of every such character
      is one of every line. */
  lemma {:induction false} CutKeepsCharacters(r: seq<Line>, f: char -> bool)
    requires WellSplit(r)
    ensures AllButBreaks(Join(r), f) <==> forall i :: 0 <= i < |r| ==> All(r[i].text, f)
    decreases |r|
  {
    if r != [] {
      var head := r[0];
      WellSplitTail(r);
      CutKeepsCharacters(r[1..], f);
      assert Join(r) == (head.text + head.ending) + Join(r[1..]);
      AllButBreaksConcat(head.text + head.ending, Join(r[1..]), f);
      AllButBreaksConcat(head.text, head.ending, f);
      assert NoLineBreak(head.text);
      assert |r| > 1 ==> IsTerminator(head.ending);
      assert forall k :: 0 <= k < |head.ending| ==> IsLineBreak(head.ending[k]);
      assert AllButBreaks(head.text, f) <==> All(head.text, f);
      assert (forall i :: 0 <= i < |r| ==> All(r[i].text, f)) <==>
        All(head.text, f) && forall i :: 0 <= i < |r[1..]| ==> All(r[1..][i].text, f);
    }
  }

  /** `s.splitlines()` keeps every character but the line breaks: a
      property holds of every character of every line exactly when it holds
      of every character of `s` that is not a line break. */
  lemma SplitLinesKeepsCharacters(s: string, f: char -> bool)
    ensures (forall i :: 0 <= i < |SplitLines(s)| ==> All(SplitLines(s)[i], f)) <==> AllButBreaks(s, f)
  {
    var r := SplitLinesKeepEnds(s);
    var lines := SplitLines(s);
    assert lines == Texts(r);
    CutKeepsCharacters(r, f);
    assert forall i :: 0 <= i < |lines| ==> lines[i] == r[i].text;
  }

  /** Joining two cuts joins their texts. */
  lemma {:induction false} JoinAppend(a: seq<Line>, b: seq<Line>)
    ensures Join(a + b) == Join(a) + Join(b)
  {
    if a == [] {
      assert a + b == b;
    } else {
      assert (a + b)[0] == a[0];
      assert (a + b)[1..] == a[1..] + b;
      JoinAppend(a[1..], b);
    }
  }

  lemma JoinSingle(l: Line)
    ensures Join([l]) == l.text + l.ending
  {
    assert [l][1..] == [];
  }

  /** A non-empty string without line breaks is a single line. */
  lemma SplitLinesSingle(s: string)
    requires s != [] && NoLineBreak(s)
    ensures SplitLines(s) == [s]
  {
    JoinSingle(Line(s, []));
    assert s + [] == s;
    SplitLinesOfCut(s, [Line(s, [])]);
  }

  /** Each line followed by a line feed. */
  function Terminated(lines: seq<string>): (r: seq<Line>)
    ensures |r| == |lines|
    ensures forall k :: 0 <= k < |r| ==> r[k] == Line(lines[k], "\n")
  {
    seq(|lines|, k requires 0 <= k < |lines| => Line(lines[k], "\n"))
  }

  /** Round trip: writing break-free lines out, each followed by a line
      feed, and splitting the result gives the lines back, blank ones
      included. */
  lemma SplitLinesOfTerminated(lines: seq<string>)
    requires forall k :: 0 <= k < |lines| ==> NoLineBreak(lines[k])
    ensures SplitLines(Join(Terminated(lines))) == lines
  {
    var r := Terminated(lines);
    assert WellSplit(r);
    SplitLinesKeepEndsUnique(Join(r), r);
  }

  /** Replacing the empty ending of an unterminated last line by a
      terminator keeps a cut well-formed. */
  lemma WellSplitTerminateLast(r: seq<Line>, t: string)
    requires WellSplit(r) && r != [] && r[|r| - 1].ending == []
    requires IsTerminator(t)
    ensures WellSplit(r[..|r| - 1] + [Line(r[|r| - 1].text, t)])
  {
    var r' := r[..|r| - 1] + [Line(r[|r| - 1].text, t)];
    assert |r'| == |r|;
    assert forall k :: 0 <= k < |r'| - 1 ==> r'[k] == r[k];
    assert r'[|r| - 1].text == r[|r| - 1].text;
    forall k | 1 <= k < |r'| && r'[k - 1].ending == "\r"
      ensures r'[k].text != [] || r'[k].ending != "\n"
    {
      assert r'[k - 1] == r[k - 1];
    }
  }

  /** In a well-formed cut of a string that does not end with a line break,
      the last line is unterminated. */
  lemma LastLineUnterminated(s: string, r: seq<Line>)
    requires s != [] && !IsLineBreak(s[|s| - 1])
    requires WellSplit(r) && Join(r) == s
    ensures r != [] && r[|r| - 1].ending == []
  {
    assert r != [];
    JoinLast(r);
    var e := r[|r| - 1].ending;
    LastOfConcat(Join(r[..|r| - 1]) + r[|r| - 1].text, e);
    TerminatorEndsInBreak(e);
  }

  lemma LastOfConcat(a: string, b: string)
    ensures b != [] ==> (a + b)[|a + b| - 1] == b[|b| - 1]
  {
  }

  lemma TerminatorEndsInBreak(e: string)
    ensures IsTerminator(e) ==> e != [] && IsLineBreak(e[|e| - 1])
  {
  }

  lemma JoinSnoc(init: seq<Line>, l: Line)
    ensures Join(init + [l]) == Join(init) + (l.text + l.ending)
  {
    JoinAppend(init, [l]);
    JoinSingle(l);
  }

  /** Joining a cut is joining all but its last line, then the last line. */
  lemma JoinLast(r: seq<Line>)
    requires r != []
    ensures Join(r) == Join(r[..|r| - 1]) + (r[|r| - 1].text + r[|r| - 1].ending)
  {
    InitLast(r);
    JoinSnoc(r[..|r| - 1], r[|r| - 1]);
  }

  lemma InitLast<T>(r: seq<T>)
    requires r != []
    ensures r == r[..|r| - 1] + [r[|r| - 1]]
  {
  }

  /** Terminating the unterminated last line of a well-formed cut of `s`
      gives a well-formed cut of `s + t`. */
  lemma TerminateLastLine(s: string, t: string, r: seq<Line>)
    requires s != [] && !IsLineBreak(s[|s| - 1])
    requires IsTerminator(t)
    requires WellSplit(r) && Join(r) == s
    ensures r != []
    ensures var r' := r[..|r| - 1] + [Line(r[|r| - 1].text, t)];
      WellSplit(r') && Join(r') == s + t
  {
    LastLineUnterminated(s, r);
    var init := r[..|r| - 1];
    var text := r[|r| - 1].text;
    JoinLast(r);
    assert Join(init) + text == s;
    JoinSnoc(init, Line(text, t));
    WellSplitTerminateLast(r, t);
  }

  /** A final terminator does not add a line: `s + t` splits like `s` when
      `s` is non-empty and does not already end with a line break. */
  lemma SplitLinesTrailingTerminator(s: string, t: string)
    requires s != [] && !IsLineBreak(s[|s| - 1])
    requires IsTerminator(t)
    ensures SplitLines(s + t) == SplitLines(s)
  {
    var r := SplitLinesKeepEnds(s);
    TerminateLastLine(s, t, r);
    var r' := r[..|r| - 1] + [Line(r[|r| - 1].text, t)];
    SplitLinesKeepEndsUnique(s + t, r');
    TextsTerminateLast(r, t);
  }

  lemma TextsTerminateLast(r: seq<Line>, t: string)
    requires r != []
    ensures Texts(r[..|r| - 1] + [Line(r[|r| - 1].text, t)]) == Texts(r)
  {
  }
}
