/** The in-memory word-processing document the validator reads: paragraphs
    with their runs, layout sections with margins and a header, and tables.
    Lengths are in EMU (914400 per inch, 12700 per point); an unset property
    of the file is `None`. */
module DocModel {
  import opened Wrappers
  import opened Text

  const EmuPerInch: int := 914400
  const EmuPerPoint: int := 12700
  const TwelvePoints: int := 12 * EmuPerPoint
  const HalfInch: int := EmuPerInch / 2

  datatype Alignment = Unset | Left | Center | Right | Justify

  /** A paragraph's line spacing: inherited (`None`), a multiple of single
      spacing given by the file in 240ths of a line, or an exact or minimum
      height given as a length. */
  datatype LineSpacing = Inherited | Multiple(lines240: int) | Exact(emu: int)

  datatype Run = Run(
    text: string,
    fontName: Option<string>,
    size: Option<int>,
    bold: Option<bool>,
    italic: Option<bool>)

  /** `bold` and `italic` are the paragraph-level flags the main-text check
      reads; they are independent of the runs' own flags. */
  datatype Paragraph = Paragraph(
    text: string,
    style: string,
    alignment: Alignment,
    lineSpacing: LineSpacing,
    spaceBefore: Option<int>,
    spaceAfter: Option<int>,
    firstLineIndent: Option<int>,
    leftIndent: Option<int>,
    bold: Option<bool>,
    italic: Option<bool>,
    runs: seq<Run>)

  datatype Section = Section(
    leftMargin: Option<int>,
    rightMargin: Option<int>,
    topMargin: Option<int>,
    bottomMargin: Option<int>,
    header: seq<Paragraph>)

  /** `hasVAlign` says whether the cell's XML carries a vertical-alignment element. */
  datatype Cell = Cell(paragraphs: seq<Paragraph>, hasVAlign: bool)

  /** `text` is the row text the loader reports, quoted by the border issue. */
  datatype Row = Row(cells: seq<Cell>, text: string)

  datatype Table = Table(rows: seq<Row>)

  datatype Document = Document(
    paragraphs: seq<Paragraph>,
    sections: seq<Section>,
    tables: seq<Table>)

  /** Python truthiness of a tri-state formatting flag. */
  predicate IsOn(flag: Option<bool>) {
    flag == Some(true)
  }

  predicate IsCentered(p: Paragraph) {
    p.alignment == Center
  }

  predicate AnyRunBold(p: Paragraph) {
    exists i | 0 <= i < |p.runs| :: IsOn(p.runs[i].bold)
  }

  predicate AnyRunItalic(p: Paragraph) {
    exists i | 0 <= i < |p.runs| :: IsOn(p.runs[i].italic)
  }

  predicate AnyRunDigits(p: Paragraph) {
    exists i | 0 <= i < |p.runs| :: IsDigits(p.runs[i].text)
  }

  /** `line_spacing == 2`: a multiple of 480/240, or (as Python compares a
      length with the number 2) an exact height of 2 EMU. */
  predicate DoubleSpaced(ls: LineSpacing) {
    match ls
    case Inherited => false
    case Multiple(n) => n == 480
    case Exact(e) => e == 2
  }

  /** `length is not None and length > 0` */
  predicate Positive(length: Option<int>) {
    length.Some? && length.value > 0
  }

  /** A cell's text: its paragraphs' texts joined by line feeds. */
  function CellText(c: Cell): string {
    if c.paragraphs == [] then [] else Join(ParagraphTexts(c.paragraphs), '\n')
  }

  function ParagraphTexts(ps: seq<Paragraph>): seq<string> {
    seq(|ps|, i requires 0 <= i < |ps| => ps[i].text)
  }

  /** The regular expressions the validator applies, given as what they decide:
      `citationGroups` is `re.findall` of the citation pattern (the captured
      groups, in order); `quotePage` is the search for a parenthesised page
      number inside a citation; `figureNumber` and `captionTail` are the two
      figure searches; `book`, `journal`, `website` and `doi` are the anchored
      reference-entry patterns. */
  datatype Patterns = Patterns(
    citationGroups: string -> seq<string>,
    quotePage: string -> bool,
    figureNumber: string -> bool,
    captionTail: string -> bool,
    book: string -> bool,
    journal: string -> bool,
    website: string -> bool,
    doi: string -> bool)
}
