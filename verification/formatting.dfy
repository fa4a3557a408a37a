/**
  The formatting helpers of the webhook module: `rtl_para`, `force_normal`
  and `add_border`, and the policy constants they and the builder share.
 */
module Formatting {
  import opened WordML

  const FontFamily: string := "Arial"
  /** `Pt(12)`, 152400 EMU */
  const FontSize: Emu := Pt(12)
  /** `Cm(1.5)`, 540000 EMU, on all four page margins */
  const PageMargin: Emu := CentiCm(150)
  /** `Cm(0.75)`, 270000 EMU, the right indent of a list item */
  const ListRightIndent: Emu := CentiCm(75)
  /** `Cm(0.5)`, 180000 EMU; a list item's first-line indent is its negation */
  const ListHanging: Emu := CentiCm(50)

  /** What the document holds once these lengths are assigned: 850 twips
      of margin, 425 twips of right indent and -283 twips of first-line
      indent. */
  lemma StoredLengths()
    ensures TwipsLength(PageMargin) == 539750
    ensures TwipsLength(ListRightIndent) == 269875
    ensures TwipsLength(-ListHanging) == -179705
  {
  }

  /** The slots `force_normal` sets, in its order. */
  const AllSlots: seq<FontSlot> := [Ascii, HAnsi, Cs, EastAsia]
  /** The page edges `add_border` writes, in its order. */
  const BorderSides: seq<Side> := [Top, Left, Bottom, Right]

  // ---------------------------------------------------------------------
  // rtl_para

  /** `rtl_para(p, align)`: alignment is centred exactly when `align` is
      "center" and right otherwise; spacing before and after is zero and
      line spacing single; one more `w:rtl` is appended to `w:pPr`; indents
      and runs are left as they were. */
  function RtlPara(p: Paragraph, align: string): (q: Paragraph)
    ensures q.pPr.alignment == Some(AlignCenter) <==> align == "center"
    ensures q.pPr.alignment.Some?
    ensures q.pPr.spaceBefore == Some(0) && q.pPr.spaceAfter == Some(0)
    ensures q.pPr.lineSpacing == Some(SingleSpacing)
    ensures q.pPr.rtlMarks == p.pPr.rtlMarks + 1
    ensures q.pPr.rightIndent == p.pPr.rightIndent && q.pPr.firstLineIndent == p.pPr.firstLineIndent
    ensures q.runs == p.runs
  {
    var alignment := if align == "center" then AlignCenter else AlignRight;
    var pPr := p.pPr.(alignment := Some(alignment),
                      spaceBefore := Some(TwipsLength(Pt(0))), spaceAfter := Some(TwipsLength(Pt(0))),
                      lineSpacing := Some(SingleSpacing));
    p.(pPr := pPr.(rtlMarks := pPr.rtlMarks + 1))
  }

  // ---------------------------------------------------------------------
  // force_normal

  /** True when an `w:rFonts` element names `font` in all four slots. */
  predicate NamesInAllSlots(rf: RFonts, font: string) {
    forall k: FontSlot :: Slot(rf, k) == Some(font)
  }

  /** `force_normal(doc)` as written.  The font of the "Normal" style reads
      back as Arial at 12 pt, and a `w:rFonts` naming Arial in all four
      slots is appended after the existing ones.  Sections and paragraphs
      are untouched.

      The lookup `rPr.find(qn("w:rFonts")) or OxmlElement("w:rFonts")` never
      keeps the element it finds: an lxml element without children is
      false, and a `w:rFonts` has attributes only.  So a fresh `w:rFonts` is
      always created, it is never already in `rPr`, and it is appended after
      the one `font.name` wrote. */
  function ForceNormalAsWritten(doc: Document): (d: Document)
    ensures d.sections == doc.sections && d.paragraphs == doc.paragraphs
    ensures d.normal.name == doc.normal.name
    ensures FontName(d.normal.rPr) == Some(FontFamily)
    ensures d.normal.rPr.size == Some(FontSize)
    ensures |d.normal.rPr.rFonts| == if doc.normal.rPr.rFonts == [] then 2 else |doc.normal.rPr.rFonts| + 1
    ensures NamesInAllSlots(d.normal.rPr.rFonts[|d.normal.rPr.rFonts| - 1], FontFamily)
    ensures doc.normal.rPr.rFonts != [] ==>
      d.normal.rPr.rFonts[1..|doc.normal.rPr.rFonts|] == doc.normal.rPr.rFonts[1..]
    ensures d.normal.rPr.rtlMarks == doc.normal.rPr.rtlMarks
  {
    var style := doc.normal;
    var rPr := SetFontName(style.rPr, FontFamily).(size := Some(FontSize));
    var rf := SetSlots(RFonts(map[]), AllSlots, FontFamily);
    EverySlotListed();
    doc.(normal := style.(rPr := rPr.(rFonts := rPr.rFonts + [rf])))
  }

  /** `force_normal(doc)` as evidently intended: the slot loop writes into
      the `w:rFonts` that `font.name` got or added, so the one element the
      style has names Arial in all four slots. */
  function ForceNormal(doc: Document): (d: Document)
    ensures d.sections == doc.sections && d.paragraphs == doc.paragraphs
    ensures d.normal.name == doc.normal.name
    ensures FontName(d.normal.rPr) == Some(FontFamily)
    ensures d.normal.rPr.size == Some(FontSize)
    ensures |d.normal.rPr.rFonts| == if doc.normal.rPr.rFonts == [] then 1 else |doc.normal.rPr.rFonts|
    ensures NamesInAllSlots(d.normal.rPr.rFonts[0], FontFamily)
    ensures doc.normal.rPr.rFonts != [] ==> d.normal.rPr.rFonts[1..] == doc.normal.rPr.rFonts[1..]
    ensures d.normal.rPr.rtlMarks == doc.normal.rPr.rtlMarks
  {
    var style := doc.normal;
    var rPr := SetFontName(style.rPr, FontFamily).(size := Some(FontSize));
    var first := SetSlots(rPr.rFonts[0], AllSlots, FontFamily);
    EverySlotListed();
    doc.(normal := style.(rPr := rPr.(rFonts := [first] + rPr.rFonts[1..])))
  }

  lemma EverySlotListed()
    ensures forall k: FontSlot :: k in AllSlots
  {
    forall k: FontSlot ensures k in AllSlots {
      var i := match k case Ascii => 0 case HAnsi => 1 case Cs => 2 case EastAsia => 3;
      assert AllSlots[i] == k;
    }
  }

  /** What the code as written misses: the complex-script and East Asian
      slots land on a second `w:rFonts`, while the first one, which
      `font.name` reads and writes, keeps whatever those slots held before.
      On a style without run fonts, such as the default template's "Normal",
      the first element names no complex-script font at all, where the
      intended code names Arial. */
  lemma ForceNormalSplitsFonts(doc: Document)
    ensures var w := ForceNormalAsWritten(doc).normal.rPr.rFonts;
      var c := ForceNormal(doc).normal.rPr.rFonts;
      && |w| == |c| + 1
      && Slot(w[0], Cs) == Slot(FirstRFonts(doc.normal.rPr), Cs)
      && Slot(w[0], EastAsia) == Slot(FirstRFonts(doc.normal.rPr), EastAsia)
      && Slot(c[0], Cs) == Some(FontFamily)
    ensures doc.normal.rPr.rFonts == [] ==>
      Slot(ForceNormalAsWritten(doc).normal.rPr.rFonts[0], Cs) == None
  {
    var rPr := SetFontName(doc.normal.rPr, FontFamily);
    assert ForceNormalAsWritten(doc).normal.rPr.rFonts[0] == rPr.rFonts[0];
  }

  // ---------------------------------------------------------------------
  // add_border

  /** One page edge as `add_border` writes it. */
  predicate IsDoubleAutoEdge(e: BorderEdge) {
    e.val == "double" && e.sz == "12" && e.space == "12" && e.color == "auto"
  }

  /** The border `add_border` appends: offset from the page, and exactly
      one double 12/12 auto edge per side, in the order top, left, bottom,
      right. */
  predicate IsPageBorder(b: PageBorders) {
    && b.offsetFrom == "page"
    && |b.edges| == |BorderSides|
    && (forall k :: 0 <= k < |b.edges| ==> b.edges[k].side == BorderSides[k] && IsDoubleAutoEdge(b.edges[k]))
  }

  /** The border has an edge on `side`. */
  ghost predicate HasEdge(b: PageBorders, side: Side) {
    exists k :: 0 <= k < |b.edges| && b.edges[k].side == side
  }

  /** Such a border draws every side of the page, each exactly once. */
  lemma PageBorderSidesOnce(b: PageBorders)
    requires IsPageBorder(b)
    ensures forall side: Side :: HasEdge(b, side)
    ensures forall i, j :: 0 <= i < j < |b.edges| ==> b.edges[i].side != b.edges[j].side
  {
    forall side: Side
      ensures HasEdge(b, side)
    {
      var k := match side case Top => 0 case Left => 1 case Bottom => 2 case Right => 3;
      assert b.edges[k].side == side;
    }
  }

  /** `add_border(section)`: appends one page border to the section
      properties and changes nothing else. */
  function AddBorder(sec: Section): (r: Section)
    ensures |r.pgBorders| == |sec.pgBorders| + 1
    ensures r.pgBorders[..|sec.pgBorders|] == sec.pgBorders
    ensures IsPageBorder(r.pgBorders[|sec.pgBorders|])
    ensures r.(pgBorders := sec.pgBorders) == sec
  {
    var edges := seq(|BorderSides|, k requires 0 <= k < |BorderSides| =>
      BorderEdge(BorderSides[k], "double", "12", "12", "auto"));
    var b := PageBorders("page", edges);
    sec.(pgBorders := sec.pgBorders + [b])
  }
}
