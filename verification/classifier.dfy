/**
  The line classifier: `is_bullet` and `is_num`.  Both look at a line after
  two strips: first any run of right-to-left marks and spaces, then any
  whitespace.  The model states, for each, the exact set of lines it accepts.
 */
module Classifier {
  import opened Unicode
  import opened PyStr

  /** The character set `"\u200f "` of the first strip. */
  predicate IsMarkOrSpace(c: char) {
    c == Rlm || c == ' '
  }

  /** `s.lstrip("\u200f ").lstrip()` */
  function Trimmed(s: string): string {
    LStrip(LStrip(s, IsMarkOrSpace), IsSpace)
  }

  /** A prefix the two strips can remove: marks and spaces, then whitespace. */
  ghost predicate Strippable(p: string) {
    exists i :: 0 <= i <= |p| && All(p[..i], IsMarkOrSpace) && All(p[i..], IsSpace)
  }

  /** The trimmed line is what is left after a strippable prefix. */
  lemma TrimmedSuffix(s: string)
    ensures var j := |s| - |Trimmed(s)|;
      0 <= j <= |s| && Trimmed(s) == s[j..] && Strippable(s[..j])
  {
    TrimmedIsSuffix(s);
    TrimmedPrefixStrippable(s);
  }

  lemma TrimmedIsSuffix(s: string)
    ensures |Trimmed(s)| <= |s| && Trimmed(s) == s[|s| - |Trimmed(s)|..]
  {
    var t1 := LStrip(s, IsMarkOrSpace);
    assert t1 == s[|s| - |t1|..];
  }

  lemma TrimmedPrefixStrippable(s: string)
    ensures |Trimmed(s)| <= |s| && Strippable(s[..|s| - |Trimmed(s)|])
  {
    var t1 := LStrip(s, IsMarkOrSpace);
    var t2 := LStrip(t1, IsSpace);
    assert Trimmed(s) == t2;
    StrippableCut(s, t1, t2);
  }

  /** `s` less a prefix of marks and spaces is `t1`; `t1` less a prefix of
      whitespace is `t2`: what lies before `t2` in `s` is strippable. */
  lemma StrippableCut(s: string, t1: string, t2: string)
    requires |t1| <= |s| && t1 == s[|s| - |t1|..] && All(s[..|s| - |t1|], IsMarkOrSpace)
    requires |t2| <= |t1| && All(t1[..|t1| - |t2|], IsSpace)
    ensures Strippable(s[..|s| - |t2|])
  {
    var i := |s| - |t1|;
    var j := |s| - |t2|;
    assert s[..j][..i] == s[..i];
    assert s[..j][i..] == t1[..|t1| - |t2|];
  }

  /** Whitespace followed by text that neither strip removes trims to
      that text, whichever of the whitespace the first strip takes. */
  lemma {:induction false} TrimmedAfterSpace(b: string, c: string)
    requires All(b, IsSpace)
    requires c == [] || (c[0] != Rlm && !IsSpace(c[0]))
    ensures Trimmed(b + c) == c
  {
    if b == [] {
      assert b + c == c;
      LStripUnique([], c, IsMarkOrSpace);
      LStripUnique([], c, IsSpace);
    } else if IsMarkOrSpace(b[0]) {
      assert b + c == [b[0]] + (b[1..] + c);
      LStripSkip([b[0]], b[1..] + c, IsMarkOrSpace);
      TrimmedAfterSpace(b[1..], c);
    } else {
      LStripUnique([], b + c, IsMarkOrSpace);
      LStripUnique(b, c, IsSpace);
    }
  }

  /** Marks and spaces, then whitespace, then text that neither strip
      removes: the line trims to that text. */
  lemma TrimmedOf(a: string, b: string, c: string)
    requires All(a, IsMarkOrSpace) && All(b, IsSpace)
    requires c == [] || (c[0] != Rlm && !IsSpace(c[0]))
    ensures Trimmed(a + b + c) == c
  {
    assert a + b + c == a + (b + c);
    LStripSkip(a, b + c, IsMarkOrSpace);
    TrimmedAfterSpace(b, c);
  }

  /** Conversely, whatever follows a strippable prefix is the trimmed line,
      provided it does not itself start with a character either strip
      removes. */
  lemma TrimmedAt(s: string, j: int)
    requires 0 <= j <= |s| && Strippable(s[..j])
    requires j < |s| ==> s[j] != Rlm && !IsSpace(s[j])
    ensures Trimmed(s) == s[j..]
  {
    var p := s[..j];
    var i :| 0 <= i <= |p| && All(p[..i], IsMarkOrSpace) && All(p[i..], IsSpace);
    assert p[..i] + p[i..] == p;
    assert s == p + s[j..];
    TrimmedOf(p[..i], p[i..], s[j..]);
  }

  /** A line that is all strippable trims to nothing. */
  lemma TrimmedBlank(s: string)
    requires Strippable(s)
    ensures Trimmed(s) == []
  {
    assert s[..|s|] == s;
    TrimmedAt(s, |s|);
  }

  // ---------------------------------------------------------------------
  // is_bullet

  predicate IsBulletGlyph(c: char) {
    c == BulletGlyph || c == SquareGlyph
  }

  /** `is_bullet(s)` */
  predicate IsBullet(s: string) {
    var t := Trimmed(s);
    t != [] && IsBulletGlyph(t[0])
  }

  /** A line is a bullet exactly when a bullet glyph follows a strippable
      prefix. */
  lemma BulletIff(s: string)
    ensures IsBullet(s) <==>
      exists j :: 0 <= j < |s| && Strippable(s[..j]) && IsBulletGlyph(s[j])
  {
    if IsBullet(s) {
      BulletWitness(s);
    }
    if exists j :: 0 <= j < |s| && Strippable(s[..j]) && IsBulletGlyph(s[j]) {
      var j :| 0 <= j < |s| && Strippable(s[..j]) && IsBulletGlyph(s[j]);
      TrimmedAt(s, j);
    }
  }

  lemma BulletWitness(s: string)
    requires IsBullet(s)
    ensures exists j :: 0 <= j < |s| && Strippable(s[..j]) && IsBulletGlyph(s[j])
  {
    var j := TrimmedStart(s);
  }

  /** Where a non-empty trimmed line starts in the line. */
  lemma TrimmedStart(s: string) returns (j: int)
    requires Trimmed(s) != []
    ensures 0 <= j < |s| && Strippable(s[..j]) && Trimmed(s) == s[j..] && s[j] == Trimmed(s)[0]
  {
    TrimmedSuffix(s);
    j := |s| - |Trimmed(s)|;
  }

  // ---------------------------------------------------------------------
  // is_num

  predicate IsSeparator(c: char) {
    c == '.' || c == ')'
  }

  /** `re.match(r"^D+[.)]\s", t)` for the digit class `digit`: the run of
      leading digits is non-empty and is followed by a separator and a
      whitespace character. */
  predicate MatchNumbered(t: string, digit: char -> bool) {
    var rest := LStrip(t, digit);
    |rest| < |t| && 2 <= |rest| && IsSeparator(rest[0]) && IsSpace(rest[1])
  }

  /** The pattern holds at `k` digits. */
  ghost predicate NumberedAt(t: string, digit: char -> bool, k: int) {
    1 <= k && k + 1 < |t| && All(t[..k], digit) && IsSeparator(t[k]) && IsSpace(t[k + 1])
  }

  /** The shape the pattern describes: one or more digits, a separator,
      a whitespace character. */
  ghost predicate NumberedPrefix(t: string, digit: char -> bool) {
    exists k :: NumberedAt(t, digit, k)
  }

  /** The scan finds the pattern where the digit run ends. */
  lemma MatchNumberedWitness(t: string, digit: char -> bool)
    requires MatchNumbered(t, digit)
    ensures NumberedAt(t, digit, |t| - |LStrip(t, digit)|)
  {
    var rest := LStrip(t, digit);
    var k := |t| - |rest|;
    assert t[k] == rest[0];
    assert t[k + 1] == rest[1];
  }

  /** Wherever the pattern holds, the scan finds it. */
  lemma MatchNumberedFromWitness(t: string, digit: char -> bool, k: int)
    requires !digit('.') && !digit(')')
    requires NumberedAt(t, digit, k)
    ensures MatchNumbered(t, digit)
  {
    assert t == t[..k] + t[k..];
    LStripUnique(t[..k], t[k..], digit);
    assert LStrip(t, digit) == t[k..];
  }

  /** The leftmost-longest scan agrees with the pattern when the separators
      are not digits themselves. */
  lemma MatchNumberedIff(t: string, digit: char -> bool)
    requires !digit('.') && !digit(')')
    ensures MatchNumbered(t, digit) <==> NumberedPrefix(t, digit)
  {
    if MatchNumbered(t, digit) {
      MatchNumberedWitness(t, digit);
    }
    if NumberedPrefix(t, digit) {
      var k :| NumberedAt(t, digit, k);
      MatchNumberedFromWitness(t, digit, k);
    }
  }

  /** `is_num(s)`: either pattern, `\d` or the explicit Persian range. */
  predicate IsNum(s: string, isDigit: char -> bool) {
    var t := Trimmed(s);
    MatchNumbered(t, isDigit) || MatchNumbered(t, IsPersianDigit)
  }

  /** The Persian alternative adds nothing: `\d` already contains it, so a
      line is numbered exactly when the trimmed line has the `\d` shape. */
  lemma NumTrimmedIff(s: string, isDigit: char -> bool)
    requires IsDigitClass(isDigit)
    ensures IsNum(s, isDigit) <==> NumberedPrefix(Trimmed(s), isDigit)
  {
    var t := Trimmed(s);
    MatchNumberedIff(t, isDigit);
    MatchNumberedIff(t, IsPersianDigit);
    if NumberedPrefix(t, IsPersianDigit) {
      var k :| NumberedAt(t, IsPersianDigit, k);
      assert All(t[..k], isDigit);
      assert NumberedAt(t, isDigit, k);
    }
  }

  /** A line is numbered exactly when a numbered prefix (digits, separator,
      whitespace) follows a strippable prefix. */
  lemma NumIff(s: string, isDigit: char -> bool)
    requires IsDigitClass(isDigit)
    ensures IsNum(s, isDigit) <==>
      exists j :: 0 <= j < |s| && Strippable(s[..j]) && NumberedPrefix(s[j..], isDigit)
  {
    NumTrimmedIff(s, isDigit);
    if IsNum(s, isDigit) {
      var j := TrimmedStart(s);
    }
    if exists j :: 0 <= j < |s| && Strippable(s[..j]) && NumberedPrefix(s[j..], isDigit) {
      var j :| 0 <= j < |s| && Strippable(s[..j]) && NumberedPrefix(s[j..], isDigit);
      var k :| NumberedAt(s[j..], isDigit, k);
      assert isDigit(s[j..][..k][0]);
      TrimmedAt(s, j);
    }
  }

  // ---------------------------------------------------------------------
  // Consequences

  /** Empty and blank lines are neither bullets nor numbered. */
  lemma BlankLineIsPlain(s: string, isDigit: char -> bool)
    requires Strippable(s)
    ensures !IsBullet(s) && !IsNum(s, isDigit)
  {
    TrimmedBlank(s);
  }

  /** The marks are only stripped before any other whitespace: a mark after
      a tab survives both strips, so the line is not a list item. */
  lemma MarkAfterTabSurvives(rest: string, isDigit: char -> bool)
    requires IsDigitClass(isDigit)
    ensures Trimmed(['\t', Rlm] + rest) == [Rlm] + rest
    ensures !IsBullet(['\t', Rlm] + rest) && !IsNum(['\t', Rlm] + rest, isDigit)
  {
    var s := ['\t', Rlm] + rest;
    assert LStrip(s, IsMarkOrSpace) == s;
    assert s == ['\t'] + ([Rlm] + rest);
    LStripUnique(['\t'], [Rlm] + rest, IsSpace);
    NumTrimmedIff(s, isDigit);
  }

  /** Without a separator the pattern cannot match. */
  lemma NoSeparatorNoMatch(t: string, digit: char -> bool)
    requires forall k :: 0 <= k < |t| ==> !IsSeparator(t[k])
    ensures !MatchNumbered(t, digit)
  {
  }

  /** A line with no `.` and no `)` is never numbered, whatever `\d` is. */
  lemma NoSeparatorNotNum(s: string, isDigit: char -> bool)
    requires forall k :: 0 <= k < |s| ==> !IsSeparator(s[k])
    ensures !IsNum(s, isDigit)
  {
    var t := Trimmed(s);
    var j := |s| - |t|;
    assert t == s[j..];
    forall k | 0 <= k < |t|
      ensures !IsSeparator(t[k])
    {
      assert t[k] == s[j + k];
    }
    NoSeparatorNoMatch(t, isDigit);
    NoSeparatorNoMatch(t, IsPersianDigit);
  }

  /** After marks, spaces and whitespace, the first other character alone
      decides whether the line is a bullet. */
  lemma BulletShape(a: string, b: string, c: char, rest: string)
    requires All(a, IsMarkOrSpace) && All(b, IsSpace)
    requires c != Rlm && !IsSpace(c)
    ensures IsBullet(a + b + [c] + rest) <==> IsBulletGlyph(c)
  {
    assert a + b + [c] + rest == a + b + ([c] + rest);
    TrimmedOf(a, b, [c] + rest);
  }

  /** A line that opens with a bullet glyph is a bullet. */
  lemma LeadingGlyphIsBullet(line: string)
    requires line != [] && IsBulletGlyph(line[0])
    ensures IsBullet(line)
  {
    TrimmedUnchanged(line);
  }

  /** A line that opens with any other character that neither strip
      removes is not a bullet. */
  lemma LeadingTextIsNotBullet(line: string)
    requires line != [] && line[0] != Rlm && !IsSpace(line[0]) && !IsBulletGlyph(line[0])
    ensures !IsBullet(line)
  {
    TrimmedUnchanged(line);
  }

  /** A line that starts with neither strip's characters is its own
      trimmed line. */
  lemma TrimmedUnchanged(s: string)
    requires s == [] || (s[0] != Rlm && !IsSpace(s[0]))
    ensures Trimmed(s) == s
  {
    assert [] + s == s;
    LStripUnique([], s, IsMarkOrSpace);
    LStripUnique([], s, IsSpace);
  }

  /** A line that opens with a digit is numbered exactly when the `\d`
      pattern matches it as it stands. */
  lemma NumFromDigit(s: string, isDigit: char -> bool)
    requires IsDigitClass(isDigit)
    requires s != [] && isDigit(s[0])
    ensures IsNum(s, isDigit) <==> MatchNumbered(s, isDigit)
  {
    TrimmedUnchanged(s);
    NumTrimmedIff(s, isDigit);
    MatchNumberedIff(s, isDigit);
  }

  /** A line that opens with digits is numbered exactly when the first
      character after them is a separator followed by whitespace. */
  lemma NumberedShape(digits: string, c: char, rest: string, isDigit: char -> bool)
    requires IsDigitClass(isDigit)
    requires digits != [] && All(digits, isDigit) && !isDigit(c)
    ensures IsNum(digits + [c] + rest, isDigit) <==> IsSeparator(c) && rest != [] && IsSpace(rest[0])
  {
    var t := [c] + rest;
    var s := digits + t;
    assert digits + [c] + rest == s;
    LStripUnique(digits, t, isDigit);
    assert t[0] == c && (|t| >= 2 ==> t[1] == rest[0]);
    assert s[0] == digits[0];
    NumFromDigit(s, isDigit);
  }
}
