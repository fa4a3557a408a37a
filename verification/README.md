# Right-to-left DOCX formatting of a Telegram message, in Dafny

`vercel-telegram-docx` is a Telegram bot that turns a text message into a
Word document. The document is right-to-left and set in Arial. This project
models the formatting core of `api/webhook.py` and proves properties of it:

- **the line classifier** `is_bullet` / `is_num`. Each first strips a
  leading run of U+200F RIGHT-TO-LEFT MARK and spaces, then leading
  whitespace. It then tests for a bullet glyph (`•`, `▪`), or for digits
  followed by `.` or `)` and a whitespace character;
- **the formatting helpers**:
  - `rtl_para`: paragraph alignment, spacing and a `w:rtl` mark;
  - `force_normal`: the "Normal" style in Arial 12 pt;
  - `add_border`: a double page border on a section;
- **`build_docx`** up to the serialisation. It sets up every section of the
  default template and forces the "Normal" style. It then writes one
  paragraph per element of `raw.splitlines()`. List items get a hanging
  indent.

The document is an immutable value shaped like the WordprocessingML tree of
ECMA-376 Part 1. Clause 17.3 covers paragraph and run properties; clause 17.6
covers section properties and `w:pgBorders`. Lengths are python-docx's
integer EMU. Margins, indents and paragraph spacing are twips attributes.
python-docx rounds such a length to the nearest whole twip (635 EMU) when
it is assigned, so the document holds the rounded value
(`WordML.TwipsLength`). The font size is a half-point attribute, and
12 pt is exactly 24 half-points:

| length | assigned EMU | held in the document |
|---|---|---|
| `Cm(1.5)`, page margins | 540000 | 850 twips, 539750 EMU |
| `Cm(0.75)`, right indent | 270000 | 425 twips, 269875 EMU |
| `-Cm(0.5)`, first-line indent | -180000 | -283 twips, -179705 EMU |
| `Pt(0)`, spacing | 0 | 0 |
| `Pt(12)`, font size | 152400 | 24 half-points, 152400 EMU |

The modules follow the program's layers:

| file | module | contents |
|---|---|---|
| `unicode.dfy` | `Unicode` | the Python character classes used |
| `pystr.dfy` | `PyStr` | `str.lstrip(chars)` and `str.splitlines()` |
| `classifier.dfy` | `Classifier` | `is_bullet`, `is_num` |
| `wordml.dfy` | `WordML` | the document tree and the python-docx setters used |
| `formatting.dfy` | `Formatting` | `rtl_para`, `force_normal`, `add_border` |
| `builder.dfy` | `Builder` | `build_docx` |

Python's `\d` is Unicode category Nd. Each classifier and builder member
takes it as a parameter `isDigit`. The lemmas assume only `IsDigitClass`:

- ASCII, Arabic-Indic and Persian digits belong to it;
- no digit is whitespace, U+200F, `.` or `)`.

`str.isspace` and the line boundaries of `str.splitlines` are small fixed
tables, and they are written out in full.

`build_docx` can fail. `add_run(line)` hands the line to lxml, and lxml
raises `ValueError` on C0 control characters other than tab, line feed and
carriage return. `Builder.BuildDocx` therefore returns
`Built(doc) | NotXmlText`. It fails exactly when the input holds such a
character that `splitlines` does not consume as a line break: U+0000 to
U+0008, U+000E to U+001B or U+001F. A tab becomes a `w:tab`; DEL and the
C1 controls are accepted.

Behaviour a quick reading of the code can miss:

- **Leading marks.** The code does not strip just one optional leading
  U+200F. It strips any run of U+200F and spaces, then all leading
  whitespace. So a mark that follows a tab survives
  (`Classifier.MarkAfterTabSurvives`).
- **Line breaks.** Lines end at every `str.splitlines` boundary, not only at
  `\n`. These are `\r\n`, `\r`, `\v`, `\f`, U+001C to U+001E, U+0085, U+2028
  and U+2029.
- **Empty input.** `build_docx("")` gives a document with no paragraph, not
  one with a single empty paragraph. The handler never passes it an empty
  string (`api/webhook.py`, line 75).
- **`force_normal`.** It does not leave a single `w:rFonts` naming Arial in
  every slot. The builder composes it as written, so the "Normal" style
  ends with two `w:rFonts`. Only the second names Arial in all four slots.
  See Findings.

## Model

| member | source | states |
|---|---|---|
| PyStr.LStrip | vercel-telegram-docx/api/webhook.py:41 | `lstrip(chars)` removes a prefix drawn from the set: the result is a suffix of the input, everything removed is in the set, and the result does not start with a character of the set |
| PyStr.LStripUnique | vercel-telegram-docx/api/webhook.py:41 | partner of `LStrip`: for any split into a prefix from the set and a rest not starting with one, `lstrip` returns exactly that rest |
| PyStr.LStripSkip | vercel-telegram-docx/api/webhook.py:41 | stripping ignores any prefix drawn from the set |
| PyStr.SplitLinesKeepEnds | vercel-telegram-docx/api/webhook.py:58 | `splitlines(keepends=True)` cuts the string into lines that join back to it, no line text holds a break, every ending but an unterminated last line's is one terminator (`\r\n` counted once) |
| PyStr.SplitLinesKeepEndsUnique | vercel-telegram-docx/api/webhook.py:58 | partner of the scan: any well-formed cut of a string is the `splitlines` cut, so the declarative cut and the scan agree on every input |
| PyStr.SplitLines | vercel-telegram-docx/api/webhook.py:58 | no line holds a line break, and there are no lines exactly when the string is empty |
| PyStr.SplitLinesOfCut | vercel-telegram-docx/api/webhook.py:58 | the lines of any well-formed cut of `s` are `s.splitlines()` |
| PyStr.SplitLinesSingle | vercel-telegram-docx/api/webhook.py:58 | a non-empty string without line breaks is one line |
| PyStr.SplitLinesOfTerminated | vercel-telegram-docx/api/webhook.py:58 | round trip: break-free lines each followed by `\n` split back into the same lines, blank ones included |
| PyStr.SplitLinesTrailingTerminator | vercel-telegram-docx/api/webhook.py:58 | a trailing terminator after a last unterminated line adds no line |
| PyStr.SplitLinesKeepsCharacters | vercel-telegram-docx/api/webhook.py:58 | the lines hold exactly the characters of the string other than line breaks: every line satisfies a character property exactly when every non-break character does |
| PyStr.CutKeepsCharacters | vercel-telegram-docx/api/webhook.py:58 | the same for any well-formed cut, by induction over its lines |
| Classifier.Trimmed | vercel-telegram-docx/api/webhook.py:41 | `s.lstrip("\u200f ").lstrip()`, shared by both classifiers; characterised by `Classifier.TrimmedSuffix` and `Classifier.TrimmedAt` |
| Classifier.TrimmedSuffix | vercel-telegram-docx/api/webhook.py:41 | the two-stage strip removes a prefix of marks and spaces followed by whitespace, and leaves the rest of the line |
| Classifier.TrimmedAt | vercel-telegram-docx/api/webhook.py:41 | conversely, after such a prefix, text that starts with neither a mark nor whitespace is exactly what the strip leaves |
| Classifier.TrimmedOf | vercel-telegram-docx/api/webhook.py:41 | marks and spaces, then whitespace, then other text trims to that text |
| Classifier.IsBullet | vercel-telegram-docx/api/webhook.py:40-42 | `is_bullet(s)`: the trimmed line starts with `•` or `▪`; characterised by `Classifier.BulletIff` |
| Classifier.BulletIff | vercel-telegram-docx/api/webhook.py:40-42 | `is_bullet(s)` holds exactly when `•` or `▪` follows a strippable prefix of `s` |
| Classifier.BulletShape | vercel-telegram-docx/api/webhook.py:40-42 | once the marks and whitespace are past, the first other character alone decides `is_bullet`; a glyph later in the line does not count |
| Classifier.LeadingGlyphIsBullet | vercel-telegram-docx/api/webhook.py:40-42 | a line that opens with a bullet glyph is a bullet |
| Classifier.LeadingTextIsNotBullet | vercel-telegram-docx/api/webhook.py:40-42 | a line that opens with any other character that neither strip removes is not a bullet |
| Classifier.MatchNumbered | vercel-telegram-docx/api/webhook.py:46 | `re.match(r"^D+[.)]\s", t)` for a digit class `D`: the longest digit run is non-empty and is followed by a separator and a whitespace character; characterised by `Classifier.MatchNumberedIff` |
| Classifier.MatchNumberedIff | vercel-telegram-docx/api/webhook.py:46 | the regular expression `^D+[.)]\s` matches exactly when the text is one or more digits, a separator, then whitespace |
| Classifier.IsNum | vercel-telegram-docx/api/webhook.py:44-46 | `is_num(s)`: either pattern matches the trimmed line, with `\d` or with `[۰-۹]`; characterised by `Classifier.NumTrimmedIff` and `Classifier.NumIff` |
| Classifier.NumTrimmedIff | vercel-telegram-docx/api/webhook.py:44-46 | `is_num(s)` holds exactly when the stripped text has a numbered prefix; the Persian pattern adds nothing beyond `\d` |
| Classifier.NumIff | vercel-telegram-docx/api/webhook.py:44-46 | `is_num(s)` holds exactly when a numbered prefix follows a strippable prefix of `s` |
| Classifier.NumberedShape | vercel-telegram-docx/api/webhook.py:44-46 | a line opening with a digit run of any length is numbered exactly when the next character is `.` or `)` and is followed by whitespace (`"1."`, `"1.x"`, `"1 ."` are not) |
| Classifier.NoSeparatorNotNum | vercel-telegram-docx/api/webhook.py:44-46 | a line without `.` or `)` is never numbered, whatever `\d` contains |
| Classifier.BlankLineIsPlain | vercel-telegram-docx/api/webhook.py:40-46 | empty and all-whitespace lines are neither bullets nor numbered |
| Classifier.MarkAfterTabSurvives | vercel-telegram-docx/api/webhook.py:41 | a mark after a tab survives the strip, so `"\t\u200f"` followed by anything is neither a bullet nor numbered |
| WordML.SetFontName | vercel-telegram-docx/api/webhook.py:25 | `font.name = name` makes the first `w:rFonts` name it in the ASCII and high-ANSI slots and changes nothing else |
| WordML.ToTwips | vercel-telegram-docx/api/webhook.py:55 | python-docx's twips conversion: the result is within half a twip of the length |
| WordML.ToTwipsUnique | vercel-telegram-docx/api/webhook.py:55 | partner of `ToTwips`: the twip within half a twip of a length is unique, so the conversion is round-to-nearest |
| WordML.TwipsLength | vercel-telegram-docx/api/webhook.py:55 | a length assigned to a twips attribute reads back as a whole number of twips, within half a twip of what was assigned |
| Formatting.StoredLengths | vercel-telegram-docx/api/webhook.py:55-61 | the document holds the margins as 539750 EMU, the right indent as 269875 EMU and the first-line indent as -179705 EMU |
| WordML.SetSlots | vercel-telegram-docx/api/webhook.py:29 | setting a list of slots names the value in exactly those slots and keeps the others |
| Formatting.RtlPara | vercel-telegram-docx/api/webhook.py:17-22 | centred exactly when `align` is "center", right otherwise; zero spacing, single line spacing, one more `w:rtl`; indents and runs kept |
| Formatting.ForceNormalAsWritten | vercel-telegram-docx/api/webhook.py:24-29 | the code as written: the style reads back as Arial 12 pt and one more `w:rFonts`, naming Arial in all four slots, is appended after the existing ones, which are kept; the `w:rtl` count is kept |
| Formatting.ForceNormal | vercel-telegram-docx/api/webhook.py:24-29 | as intended: the first `w:rFonts` names Arial in all four slots, and no element is added |
| Formatting.ForceNormalSplitsFonts | vercel-telegram-docx/api/webhook.py:27-29 | the as-written version leaves one extra element, and its first `w:rFonts` keeps the old complex-script and East Asian slots, none at all on a fresh style |
| Formatting.AddBorder | vercel-telegram-docx/api/webhook.py:31-38 | one `w:pgBorders` is appended, offset from the page, with one double 12/12 auto edge per side in the order top, left, bottom, right; nothing else in the section changes |
| Formatting.PageBorderSidesOnce | vercel-telegram-docx/api/webhook.py:34-37 | that border draws every side of the page exactly once |
| Builder.SetupSection | vercel-telegram-docx/api/webhook.py:55-56 | one section gets 1.5 cm margins, as whole twips, and the page border, keeping its earlier borders |
| Builder.SetupSections | vercel-telegram-docx/api/webhook.py:54-56 | every section is set up and none is added or lost |
| Builder.DefaultTemplate | vercel-telegram-docx/api/webhook.py:53 | the document `Docx()` is assumed to open: one section with 1.25 in left and right margins, 1 in top and bottom margins and no page border, a "Normal" style with no run properties, and an empty body |
| Builder.Framed | vercel-telegram-docx/api/webhook.py:53-56 | the template's sections, none added or lost, all meet the page policy with one border; the style and body are untouched |
| Builder.Styled | vercel-telegram-docx/api/webhook.py:53-57 | before any line is added, every template section meets the page policy with one border. "Normal" reads back as Arial 12 pt. It has two `w:rFonts`: the second names Arial in all four slots, and the first names no complex-script or East Asian font |
| Builder.StyledCorrected | vercel-telegram-docx/api/webhook.py:53-57 | the same with the corrected `force_normal`: "Normal" has a single `w:rFonts` naming Arial in all four slots |
| Builder.IsListItem | vercel-telegram-docx/api/webhook.py:60 | the hanging-indent condition `is_bullet(line) or is_num(line)`; characterised by `Builder.HangingIndentIff` |
| Builder.LineParagraph | vercel-telegram-docx/api/webhook.py:59-63 | a line's paragraph is right-aligned with zero spacing, single line spacing and one `w:rtl`. It has the hanging indent exactly for list items, held as whole twips. Its one Arial 12 pt run with one `w:rtl` holds the line verbatim |
| Builder.LinesParagraphs | vercel-telegram-docx/api/webhook.py:58-63 | one such paragraph per line, in order |
| Builder.BuildDocx | vercel-telegram-docx/api/webhook.py:52-63 | fails exactly when the input holds a C0 control character other than tab that `splitlines` does not consume (U+0000 to U+0008, U+000E to U+001B, U+001F). Otherwise every section meets the page policy, and "Normal" is what `force_normal` as written leaves. There is one formatted paragraph per line of `raw.splitlines()`, and none exactly when the input is empty |
| Builder.BodyIsLines | vercel-telegram-docx/api/webhook.py:58-62 | the paragraph texts read back as `raw.splitlines()` |
| Builder.BuildDocxRoundTrip | vercel-telegram-docx/api/webhook.py:58-62 | break-free lines of XML text, each followed by `\n`, come back as the paragraph texts |
| Builder.LayoutIndependentOfInput | vercel-telegram-docx/api/webhook.py:53-57 | whatever the input, built documents have the same sections and the same "Normal" style |
| Builder.TrailingTerminatorAddsNothing | vercel-telegram-docx/api/webhook.py:58 | a terminator added after a non-empty last line that has none does not change the outcome |
| Builder.HangingIndentIff | vercel-telegram-docx/api/webhook.py:60-61 | a paragraph has the hanging indent exactly when its line has a bullet glyph or a numbered prefix after a strippable prefix |
| Builder.SingleLineDocument | vercel-telegram-docx/api/webhook.py:58-63 | a single line gives exactly one paragraph, built from that line |
| Builder.PlainLineScenario | vercel-telegram-docx/api/webhook.py:58-63 | plain text without separators gives one paragraph without a hanging indent |
| Builder.TwoLines | vercel-telegram-docx/api/webhook.py:58 | two lines joined by `\n` split back into the two lines |
| Builder.TwoLinesDocument | vercel-telegram-docx/api/webhook.py:58-63 | two lines joined by `\n` give their two paragraphs, in order |
| Builder.TwoBulletsScenario | vercel-telegram-docx/api/webhook.py:58-63 | two bullet lines give two paragraphs, both with the hanging indent |
| Builder.PersianNumberScenario | vercel-telegram-docx/api/webhook.py:44-46 | a line numbered with Persian digits, such as `"۱. x"`, gives one paragraph with the hanging indent |

## Left out

- The FastAPI application, `/health`, the `/webhook` handler, the Telegram
  calls through `httpx` and the `TELEGRAM_TOKEN` environment variable
  (lines 12-15, 48-50, 66-83) are network and I/O.
- `doc.save` into a `BytesIO` (line 64) and python-docx's ZIP and XML
  serialisation are left out. The document is an abstract value, not bytes.
  So schema order and the schema validity of `w:rtl` inside `w:pPr` are not
  modelled. The rounding to whole twips happens when a length is assigned,
  not on save, and it is modelled.
- `add_run` turns a tab into a `w:tab` element. The model keeps the tab in
  the run's text, since the paragraph text reads back the same.
- The full Unicode table of `\d`. It is a parameter constrained by
  `IsDigitClass`.
- The default template is modelled only by what the code touches: its one
  section's margins and borders, and an empty "Normal" style. Its other
  styles, settings and parts are left out.
- Builder.BuildDocx: "fails exactly when" is stated for lxml releases that
  refuse, in text, only the C0 control characters other than tab, line
  feed and carriage return (`Unicode.IsXmlChar`). Releases that also refuse
  other characters XML 1.0 excludes, such as U+FFFE and U+FFFF, fail on
  more inputs.
- Lone surrogates. A Dafny `char` is a Unicode scalar value, so strings
  that Python could hold but not encode are outside the model.

## Findings

| source | as written | input that shows it | evidently intended | confidence | as-written member | corrected member |
|---|---|---|---|---|---|---|
| vercel-telegram-docx/api/webhook.py:27-28 | `rPr.find(qn("w:rFonts")) or OxmlElement("w:rFonts")` discards the element it finds. An lxml element without children is false, and `w:rFonts` has attributes only. A fresh `w:rFonts` is always appended, so "Normal" ends with two of them. The first one, which `font.name` reads and writes, gets no complex-script or East Asian font | the default template: after `force_normal` the first `w:rFonts` of "Normal" has no `w:cs`, and Arial is named in `w:cs` only on a second `w:rFonts` | write the four slots into the `w:rFonts` that `font.name` got or added, leaving one element that names Arial everywhere | medium, not executed | Formatting.ForceNormalAsWritten (shown by Formatting.ForceNormalSplitsFonts; the builder composes it) | Formatting.ForceNormal (built into a document by Builder.StyledCorrected) |
