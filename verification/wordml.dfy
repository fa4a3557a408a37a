/**
  The part of a WordprocessingML document (ECMA-376 Part 1) that the
  formatter touches, as immutable values, together with the python-docx
  property setters it uses.  Paragraph and run properties are those of
  clause 17.3, section properties and `w:pgBorders` those of clause 17.6.
  Lengths are python-docx's integer English Metric Units (EMU).
 */
module WordML {

  datatype Option<T> = None | Some(value: T)

  type Emu = int

  const EmuPerPt: int := 12700
  const EmuPerCm: int := 360000

  /** `Pt(n)` */
  function Pt(n: int): Emu {
    n * EmuPerPt
  }

  /** `Cm(h / 100)`: a length given in hundredths of a centimetre. */
  function CentiCm(h: int): Emu {
    h * (EmuPerCm / 100)
  }

  /** EMU in a twip, a twentieth of a point. */
  const EmuPerTwip: int := 635

  /** python-docx's `Length.twips`: the length rounded to the nearest whole
      twip.  635 is odd, so no whole number of EMU lies halfway between two
      twips and Python's round-half-even never meets a tie. */
  function ToTwips(e: Emu): (t: int)
    ensures -EmuPerTwip < 2 * (e - t * EmuPerTwip) < EmuPerTwip
  {
    var q := e / EmuPerTwip;
    if 2 * (e % EmuPerTwip) < EmuPerTwip then q else q + 1
  }

  /** The nearest twip is the only one within half a twip. */
  lemma ToTwipsUnique(e: Emu, t: int)
    requires -EmuPerTwip < 2 * (e - t * EmuPerTwip) < EmuPerTwip
    ensures ToTwips(e) == t
  {
  }

  /** A length assigned to a twips attribute (page margins, indents,
      spacing): python-docx writes it as whole twips, so it reads back as a
      multiple of 635 EMU within half a twip of what was assigned. */
  function TwipsLength(e: Emu): (s: Emu)
    ensures s % EmuPerTwip == 0
    ensures -EmuPerTwip < 2 * (e - s) < EmuPerTwip
  {
    ToTwips(e) * EmuPerTwip
  }

  /** `WD_ALIGN_PARAGRAPH.RIGHT` and `.CENTER`, the two values used. */
  datatype Alignment = AlignRight | AlignCenter

  /** `WD_LINE_SPACING.SINGLE`, the one value used. */
  datatype LineSpacingRule = SingleSpacing

  /** The four script slots of `w:rFonts`: `w:ascii`, `w:hAnsi`, `w:cs`,
      `w:eastAsia`. */
  datatype FontSlot = Ascii | HAnsi | Cs | EastAsia

  /** A `w:rFonts` element: the font named in each slot it sets. */
  datatype RFonts = RFonts(slots: map<FontSlot, string>)

  /** `w:rPr`: its `w:rFonts` children in document order, the size set
      through `font.size`, and the number of `w:rtl` children appended. */
  datatype RunProps = RunProps(rFonts: seq<RFonts>, size: Option<Emu>, rtlMarks: nat)

  datatype Run = Run(text: string, rPr: RunProps)

  /** `w:pPr` as python-docx's paragraph format sees it, plus the number of
      `w:rtl` children appended to it directly. */
  datatype ParaProps = ParaProps(
    alignment: Option<Alignment>,
    spaceBefore: Option<Emu>,
    spaceAfter: Option<Emu>,
    lineSpacing: Option<LineSpacingRule>,
    rightIndent: Option<Emu>,
    firstLineIndent: Option<Emu>,
    rtlMarks: nat)

  datatype Paragraph = Paragraph(pPr: ParaProps, runs: seq<Run>)

  datatype Side = Top | Left | Bottom | Right

  /** One edge of `w:pgBorders`, its attributes as the strings written. */
  datatype BorderEdge = BorderEdge(side: Side, val: string, sz: string, space: string, color: string)

  datatype PageBorders = PageBorders(offsetFrom: string, edges: seq<BorderEdge>)

  /** A section: its four page margins and the `w:pgBorders` elements
      appended to its `w:sectPr`. */
  datatype Section = Section(
    leftMargin: Emu,
    rightMargin: Emu,
    topMargin: Emu,
    bottomMargin: Emu,
    pgBorders: seq<PageBorders>)

  datatype Style = Style(name: string, rPr: RunProps)

  /** A document: its sections, its "Normal" style and its body paragraphs. */
  datatype Document = Document(sections: seq<Section>, normal: Style, paragraphs: seq<Paragraph>)

  const EmptyRunProps := RunProps([], None, 0)

  const EmptyParaProps := ParaProps(None, None, None, None, None, None, 0)

  // ---------------------------------------------------------------------
  // python-docx accessors

  /** The font an `w:rFonts` element names for a slot, if any. */
  function Slot(rf: RFonts, k: FontSlot): Option<string> {
    if k in rf.slots then Some(rf.slots[k]) else None
  }

  /** The first `w:rFonts` child, or a fresh empty one when there is none
      (what python-docx's `get_or_add_rFonts` starts from). */
  function FirstRFonts(rPr: RunProps): RFonts {
    if rPr.rFonts == [] then RFonts(map[]) else rPr.rFonts[0]
  }

  /** `font.name` read back: the `w:ascii` slot of the first `w:rFonts`. */
  function FontName(rPr: RunProps): Option<string> {
    if rPr.rFonts == [] then None else Slot(rPr.rFonts[0], Ascii)
  }

  /** `font.name = name`: get or add the first `w:rFonts` and set its
      `w:ascii` and `w:hAnsi` slots.  The font reads back as `name`; the
      high-ANSI slot agrees; other slots, other `w:rFonts` elements and the
      rest of the properties are untouched. */
  function SetFontName(rPr: RunProps, name: string): (r: RunProps)
    ensures FontName(r) == Some(name)
    ensures r.rFonts != [] && Slot(r.rFonts[0], HAnsi) == Some(name)
    ensures forall k :: k != Ascii && k != HAnsi ==> Slot(r.rFonts[0], k) == Slot(FirstRFonts(rPr), k)
    ensures |r.rFonts| == if rPr.rFonts == [] then 1 else |rPr.rFonts|
    ensures rPr.rFonts != [] ==> r.rFonts[1..] == rPr.rFonts[1..]
    ensures r.size == rPr.size && r.rtlMarks == rPr.rtlMarks
  {
    var first := FirstRFonts(rPr);
    var rest := if rPr.rFonts == [] then [] else rPr.rFonts[1..];
    var named := RFonts(first.slots[Ascii := name][HAnsi := name]);
    rPr.(rFonts := [named] + rest)
  }

  /** `rf.set(slot, value)` for each slot in turn: the listed slots name
      `value`, the others keep what they had. */
  function SetSlots(rf: RFonts, slots: seq<FontSlot>, value: string): (r: RFonts)
    ensures forall k :: Slot(r, k) == if k in slots then Some(value) else Slot(rf, k)
    decreases |slots|
  {
    if slots == [] then rf
    else SetSlots(RFonts(rf.slots[slots[0] := value]), slots[1..], value)
  }

  /** `paragraph.text`: the texts of its runs, in order. */
  function ParagraphText(p: Paragraph): string {
    RunsText(p.runs)
  }

  function RunsText(runs: seq<Run>): string {
    if runs == [] then [] else runs[0].text + RunsText(runs[1..])
  }
}
