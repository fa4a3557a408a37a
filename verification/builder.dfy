/**
  `build_docx(raw)`: a fresh document whose sections get 1.5 cm margins and
  a double page border, whose "Normal" style is Arial 12 pt, and which holds
  one right-to-left paragraph per line of `raw`, list items (bullets and
  numbered lines) with a hanging indent.
 */
module Builder {
  import opened Unicode
  import opened PyStr
  import opened Classifier
  import opened WordML
  import opened Formatting

  /** The document `Docx()` opens: the default template's single section
      (1.25 in left and right margins, 1 in top and bottom, no page border),
      a "Normal" style without run properties, and an empty body. */
  const DefaultTemplate: Document :=
    Document([Section(1143000, 1143000, 914400, 914400, [])], Style("Normal", EmptyRunProps), [])

  // ---------------------------------------------------------------------
  // Page set-up

  /** The page policy every section ends with: 1.5 cm, as whole twips, on
      all four margins, and the last page border the double border
      `add_border` writes. */
  predicate PagePolicy(sec: Section) {
    var m := TwipsLength(PageMargin);
    && sec.leftMargin == m && sec.rightMargin == m
    && sec.topMargin == m && sec.bottomMargin == m
    && sec.pgBorders != [] && IsPageBorder(sec.pgBorders[|sec.pgBorders| - 1])
  }

  /** One turn of the section loop: the four margins, then `add_border`.
      The section meets the page policy and its earlier borders stay. */
  function SetupSection(sec: Section): (r: Section)
    ensures PagePolicy(r)
    ensures |r.pgBorders| == |sec.pgBorders| + 1 && r.pgBorders[..|sec.pgBorders|] == sec.pgBorders
  {
    var m := TwipsLength(PageMargin);
    AddBorder(sec.(leftMargin := m, rightMargin := m, topMargin := m, bottomMargin := m))
  }

  /** The section loop: every section is set up, none is added or lost. */
  function SetupSections(secs: seq<Section>): (r: seq<Section>)
    ensures |r| == |secs|
    ensures forall i :: 0 <= i < |r| ==> PagePolicy(r[i])
    ensures forall i :: 0 <= i < |r| ==>
      |r[i].pgBorders| == |secs[i].pgBorders| + 1 && r[i].pgBorders[..|secs[i].pgBorders|] == secs[i].pgBorders
  {
    seq(|secs|, i requires 0 <= i < |secs| => SetupSection(secs[i]))
  }

  // ---------------------------------------------------------------------
  // Body paragraphs

  /** The condition of the hanging indent: `is_bullet(line) or is_num(line)`. */
  predicate IsListItem(line: string, isDigit: char -> bool) {
    IsBullet(line) || IsNum(line, isDigit)
  }

  /** The shape of the paragraph written for one line: right-aligned,
      no spacing, single line spacing, one `w:rtl`; a hanging indent
      (0.75 cm right, -0.5 cm first line) exactly for list items; and a
      single Arial 12 pt right-to-left run holding the line. */
  predicate LineFormatted(p: Paragraph, line: string, listItem: bool) {
    && p.pPr.alignment == Some(AlignRight)
    && p.pPr.spaceBefore == Some(0) && p.pPr.spaceAfter == Some(0)
    && p.pPr.lineSpacing == Some(SingleSpacing)
    && p.pPr.rtlMarks == 1
    && (listItem ==> p.pPr.rightIndent == Some(TwipsLength(ListRightIndent)) && p.pPr.firstLineIndent == Some(TwipsLength(-ListHanging)))
    && (!listItem ==> p.pPr.rightIndent == None && p.pPr.firstLineIndent == None)
    && |p.runs| == 1
    && p.runs[0].text == line
    && FontName(p.runs[0].rPr) == Some(FontFamily)
    && p.runs[0].rPr.size == Some(FontSize)
    && p.runs[0].rPr.rtlMarks == 1
  }

  /** One turn of the line loop: `add_paragraph`, `rtl_para(p, "right")`,
      the hanging indent for a list item, then `add_run(line)` with the
      font, the size and a `w:rtl`. */
  function LineParagraph(line: string, isDigit: char -> bool): (p: Paragraph)
    ensures LineFormatted(p, line, IsListItem(line, isDigit))
    ensures ParagraphText(p) == line
  {
    var p := RtlPara(Paragraph(EmptyParaProps, []), "right");
    var p := if IsListItem(line, isDigit)
      then p.(pPr := p.pPr.(rightIndent := Some(TwipsLength(ListRightIndent)), firstLineIndent := Some(TwipsLength(-ListHanging))))
      else p;
    var rPr := SetFontName(EmptyRunProps, FontFamily).(size := Some(FontSize));
    var run := Run(line, rPr.(rtlMarks := rPr.rtlMarks + 1));
    assert p.runs + [run] == [run];
    assert RunsText([run]) == line + RunsText([]);
    p.(runs := [run])
  }

  /** The paragraphs the line loop appends for `lines`: one per line,
      in order. */
  function LinesParagraphs(lines: seq<string>, isDigit: char -> bool): (ps: seq<Paragraph>)
    ensures |ps| == |lines|
    ensures forall i :: 0 <= i < |lines| ==> ps[i] == LineParagraph(lines[i], isDigit)
    ensures forall i :: 0 <= i < |lines| ==> LineFormatted(ps[i], lines[i], IsListItem(lines[i], isDigit))
    ensures forall i :: 0 <= i < |lines| ==> ParagraphText(ps[i]) == lines[i]
  {
    seq(|lines|, i requires 0 <= i < |lines| => LineParagraph(lines[i], isDigit))
  }

  /** What `force_normal` as written leaves in the template's "Normal"
      style: it reads back as Arial at 12 pt, and of its two `w:rFonts` the
      second names Arial in all four slots while the first, the one
      `font.name` wrote, names no complex-script or East Asian font. */
  predicate NormalPolicy(style: Style) {
    && style.name == "Normal"
    && FontName(style.rPr) == Some(FontFamily)
    && style.rPr.size == Some(FontSize)
    && |style.rPr.rFonts| == 2
    && NamesInAllSlots(style.rPr.rFonts[1], FontFamily)
    && Slot(style.rPr.rFonts[0], Cs) == None && Slot(style.rPr.rFonts[0], EastAsia) == None
  }

  /** The template with its sections set up, before `force_normal`. */
  function Framed(): (doc: Document)
    ensures |doc.sections| == |DefaultTemplate.sections|
    ensures forall i :: 0 <= i < |doc.sections| ==> PagePolicy(doc.sections[i]) && |doc.sections[i].pgBorders| == 1
    ensures doc.normal == DefaultTemplate.normal && doc.paragraphs == []
  {
    DefaultTemplate.(sections := SetupSections(DefaultTemplate.sections))
  }

  /** The document the template becomes once the sections are set up and
      `force_normal` has run, before any line is added. */
  function Styled(): (doc: Document)
    ensures |doc.sections| == |DefaultTemplate.sections|
    ensures forall i :: 0 <= i < |doc.sections| ==> PagePolicy(doc.sections[i]) && |doc.sections[i].pgBorders| == 1
    ensures NormalPolicy(doc.normal)
    ensures doc.paragraphs == []
  {
    ForceNormalSplitsFonts(Framed());
    ForceNormalAsWritten(Framed())
  }

  /** The same with `force_normal` as evidently intended: the "Normal"
      style holds a single `w:rFonts`, naming Arial in all four slots. */
  function StyledCorrected(): (doc: Document)
    ensures doc.sections == Styled().sections && doc.paragraphs == []
    ensures FontName(doc.normal.rPr) == Some(FontFamily) && doc.normal.rPr.size == Some(FontSize)
    ensures |doc.normal.rPr.rFonts| == 1 && NamesInAllSlots(doc.normal.rPr.rFonts[0], FontFamily)
  {
    ForceNormal(Framed())
  }

  /** How `build_docx` ends: with the document, or with the `ValueError`
      lxml raises when a line given to `add_run` holds a C0 control
      character other than tab, line feed and carriage return. */
  datatype Outcome = Built(doc: Document) | NotXmlText

  /** `add_run(line)` accepts the line. */
  predicate IsXmlText(line: string) {
    All(line, IsXmlChar)
  }

  /** Every line is accepted by `add_run`. */
  predicate AllXmlText(lines: seq<string>) {
    forall i :: 0 <= i < |lines| ==> IsXmlText(lines[i])
  }

  /** The document `build_docx` produces for `lines`: every section of the
      template meets the page policy with a single page border, the
      "Normal" style meets its policy, and the body is exactly one
      formatted paragraph per line, in order. */
  predicate DocumentPolicy(d: Document, lines: seq<string>, isDigit: char -> bool) {
    && |d.sections| == |DefaultTemplate.sections|
    && (forall i :: 0 <= i < |d.sections| ==> PagePolicy(d.sections[i]) && |d.sections[i].pgBorders| == 1)
    && NormalPolicy(d.normal)
    && |d.paragraphs| == |lines|
    && (forall i :: 0 <= i < |lines| ==> LineFormatted(d.paragraphs[i], lines[i], IsListItem(lines[i], isDigit)))
  }

  /** `build_docx(raw)` up to the serialisation.  It fails exactly when
      `raw` holds a C0 control character other than tab that `splitlines`
      does not consume as a line break (U+0000 to U+0008, U+000E to U+001B,
      U+001F); otherwise the
      document follows the policy for the lines of `raw`, and it has no
      paragraph exactly when `raw` is empty. */
  function BuildDocx(raw: string, isDigit: char -> bool): (r: Outcome)
    ensures r.NotXmlText? <==> !AllButBreaks(raw, IsXmlChar)
    ensures r.Built? ==> DocumentPolicy(r.doc, SplitLines(raw), isDigit)
    ensures r.Built? ==> (r.doc.paragraphs == [] <==> raw == [])
  {
    var lines := SplitLines(raw);
    SplitLinesKeepsCharacters(raw, IsXmlChar);
    if AllXmlText(lines) then
      Built(Styled().(paragraphs := LinesParagraphs(lines, isDigit)))
    else
      NotXmlText
  }

  /** The texts of the body paragraphs, in order. */
  function BodyText(d: Document): (texts: seq<string>)
    ensures |texts| == |d.paragraphs|
    ensures forall i :: 0 <= i < |texts| ==> texts[i] == ParagraphText(d.paragraphs[i])
  {
    seq(|d.paragraphs|, i requires 0 <= i < |d.paragraphs| => ParagraphText(d.paragraphs[i]))
  }

  // ---------------------------------------------------------------------
  // Properties of the whole build

  /** The body reads back as the lines of the input. */
  lemma BodyIsLines(raw: string, isDigit: char -> bool)
    requires BuildDocx(raw, isDigit).Built?
    ensures BodyText(BuildDocx(raw, isDigit).doc) == SplitLines(raw)
  {
    assert BuildDocx(raw, isDigit).doc.paragraphs == LinesParagraphs(SplitLines(raw), isDigit);
  }

  /** Lines without breaks or control characters, each ended by a newline,
      come back as one paragraph each, with their text unchanged. */
  lemma BuildDocxRoundTrip(lines: seq<string>, isDigit: char -> bool)
    requires forall k :: 0 <= k < |lines| ==> NoLineBreak(lines[k]) && IsXmlText(lines[k])
    ensures BuildDocx(Join(Terminated(lines)), isDigit).Built?
    ensures BodyText(BuildDocx(Join(Terminated(lines)), isDigit).doc) == lines
  {
    SplitLinesOfTerminated(lines);
    BodyIsLines(Join(Terminated(lines)), isDigit);
  }

  /** One trailing line terminator changes nothing: the outcome is the same
      with or without it. */
  lemma TrailingTerminatorAddsNothing(s: string, t: string, isDigit: char -> bool)
    requires s != [] && !IsLineBreak(s[|s| - 1])
    requires IsTerminator(t)
    ensures BuildDocx(s + t, isDigit) == BuildDocx(s, isDigit)
  {
    SplitLinesTrailingTerminator(s, t);
  }

  /** The page set-up and the "Normal" style do not depend on the input. */
  lemma LayoutIndependentOfInput(a: string, b: string, isDigit: char -> bool)
    requires BuildDocx(a, isDigit).Built? && BuildDocx(b, isDigit).Built?
    ensures BuildDocx(a, isDigit).doc.sections == BuildDocx(b, isDigit).doc.sections
    ensures BuildDocx(a, isDigit).doc.normal == BuildDocx(b, isDigit).doc.normal
  {
  }

  /** A paragraph gets the hanging indent exactly when its line, after a
      strippable prefix, starts with a bullet glyph or with digits, a
      separator and a whitespace character. */
  lemma HangingIndentIff(raw: string, isDigit: char -> bool, i: int)
    requires IsDigitClass(isDigit)
    requires BuildDocx(raw, isDigit).Built? && 0 <= i < |BuildDocx(raw, isDigit).doc.paragraphs|
    ensures var p := BuildDocx(raw, isDigit).doc.paragraphs[i];
      var line := SplitLines(raw)[i];
      p.pPr.firstLineIndent == Some(TwipsLength(-ListHanging)) <==>
        exists j :: 0 <= j < |line| && Strippable(line[..j]) && (IsBulletGlyph(line[j]) || NumberedPrefix(line[j..], isDigit))
  {
    var line := SplitLines(raw)[i];
    BulletIff(line);
    NumIff(line, isDigit);
  }

  // ---------------------------------------------------------------------
  // Scenarios

  /** Input whose lines are all XML text is built, one paragraph per line. */
  lemma BuiltOfLines(raw: string, lines: seq<string>, isDigit: char -> bool)
    requires SplitLines(raw) == lines && AllXmlText(lines)
    ensures BuildDocx(raw, isDigit) == Built(Styled().(paragraphs := LinesParagraphs(lines, isDigit)))
  {
  }

  /** A line without breaks or control characters gives exactly one
      paragraph, built from that line. */
  lemma SingleLineDocument(line: string, isDigit: char -> bool)
    requires line != [] && NoLineBreak(line) && IsXmlText(line)
    ensures var r := BuildDocx(line, isDigit);
      r.Built? && r.doc.paragraphs == [LineParagraph(line, isDigit)]
  {
    SplitLinesSingle(line);
    assert AllXmlText([line]);
    BuiltOfLines(line, [line], isDigit);
  }

  /** A single line of ordinary text, such as "سلام": one right-aligned
      paragraph holding the text, without a hanging indent. */
  lemma PlainLineScenario(line: string, isDigit: char -> bool)
    requires line != [] && NoLineBreak(line) && IsXmlText(line)
    requires line[0] != Rlm && !IsSpace(line[0]) && !IsBulletGlyph(line[0])
    requires forall k :: 0 <= k < |line| ==> !IsSeparator(line[k])
    ensures var r := BuildDocx(line, isDigit);
      r.Built? && |r.doc.paragraphs| == 1 && LineFormatted(r.doc.paragraphs[0], line, false)
  {
    SingleLineDocument(line, isDigit);
    LeadingTextIsNotBullet(line);
    NoSeparatorNotNum(line, isDigit);
  }

  /** Two lines joined by a line feed, the second non-empty, split back
      into those two lines. */
  lemma TwoLines(first: string, second: string)
    requires NoLineBreak(first) && NoLineBreak(second) && second != []
    ensures SplitLines(first + "\n" + second) == [first, second]
  {
    var r := [Line(first, "\n"), Line(second, [])];
    assert r[1..] == [Line(second, [])];
    JoinSingle(Line(second, []));
    assert Join(r) == first + "\n" + (second + []);
    assert second + [] == second;
    assert WellSplit(r);
    SplitLinesOfCut(first + "\n" + second, r);
  }

  /** Two lines joined by a line feed give two paragraphs, one per line. */
  lemma TwoLinesDocument(first: string, second: string, isDigit: char -> bool)
    requires NoLineBreak(first) && NoLineBreak(second) && second != []
    requires IsXmlText(first) && IsXmlText(second)
    ensures var r := BuildDocx(first + "\n" + second, isDigit);
      r.Built? && r.doc.paragraphs == [LineParagraph(first, isDigit), LineParagraph(second, isDigit)]
  {
    TwoLines(first, second);
    assert AllXmlText([first, second]);
    BuiltOfLines(first + "\n" + second, [first, second], isDigit);
    LinesParagraphsPair(first, second, isDigit);
  }

  /** The paragraphs of two lines, one per line. */
  lemma LinesParagraphsPair(first: string, second: string, isDigit: char -> bool)
    ensures LinesParagraphs([first, second], isDigit) == [LineParagraph(first, isDigit), LineParagraph(second, isDigit)]
  {
  }

  /** Two bullet lines separated by a line feed, as in "• مورد اول\n• مورد دوم":
      two paragraphs, both with the hanging indent. */
  lemma TwoBulletsScenario(first: string, second: string, isDigit: char -> bool)
    requires NoLineBreak(first) && NoLineBreak(second)
    requires IsXmlText(first) && IsXmlText(second)
    requires first != [] && first[0] == BulletGlyph
    requires second != [] && second[0] == BulletGlyph
    ensures var r := BuildDocx(first + "\n" + second, isDigit);
      && r.Built?
      && |r.doc.paragraphs| == 2
      && LineFormatted(r.doc.paragraphs[0], first, true)
      && LineFormatted(r.doc.paragraphs[1], second, true)
  {
    TwoLinesDocument(first, second, isDigit);
    LeadingGlyphIsBullet(first);
    LeadingGlyphIsBullet(second);
  }

  /** The characters of a numbered line "digits. rest". */
  lemma NumberedLineCharacters(digits: string, rest: string)
    requires All(digits, IsPersianDigit)
    requires NoLineBreak(rest) && IsXmlText(rest)
    ensures NoLineBreak(digits + ". " + rest) && IsXmlText(digits + ". " + rest)
    ensures digits + ". " + rest == digits + ['.'] + ([' '] + rest)
  {
    var line := digits + ". " + rest;
    assert forall k :: 0 <= k < |digits| ==> line[k] == digits[k];
    assert forall k :: 0 <= k < |rest| ==> line[|digits| + 2 + k] == rest[k];
  }

  /** A line numbered with Persian digits, such as "۱. مورد اول": one
      paragraph with the hanging indent. */
  lemma PersianNumberScenario(digits: string, rest: string, isDigit: char -> bool)
    requires IsDigitClass(isDigit)
    requires digits != [] && All(digits, IsPersianDigit)
    requires NoLineBreak(rest) && IsXmlText(rest)
    ensures var r := BuildDocx(digits + ". " + rest, isDigit);
      r.Built? && |r.doc.paragraphs| == 1 && LineFormatted(r.doc.paragraphs[0], digits + ". " + rest, true)
  {
    var line := digits + ". " + rest;
    NumberedLineCharacters(digits, rest);
    SingleLineDocument(line, isDigit);
    NumberedShape(digits, '.', [' '] + rest, isDigit);
  }
}
