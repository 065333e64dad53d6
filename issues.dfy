/** What the validator reports: one `Issue` per detected deviation, in the
    order the checks run, and the Python exception that can cut a run short. */
module Issues {
  import opened Wrappers

  /** One constructor per message the validator can append; those that quote
      the document carry the quoted text. */
  datatype Issue =
    // font
    | NotTimesNewRoman(text: string)
    | FontSizeNot12(text: string)
    // margins
    | MarginsNotOneInch
    // line spacing
    | NotDoubleSpaced(text: string)
    | ExtraSpace(text: string)
    // document structure
    | MissingSections(missing: set<string>)
    // title page
    | TitleNotTitleCase
    | TitleNotCentered
    | TitleNotBold
    | TitleNotFound
    | AuthorInfoNotCentered
    | AuthorInfoNotFound
    | AuthorNoteNotCentered
    | AuthorNoteNotBold
    | AuthorNoteNotFound
    // abstract
    | AbstractNotCentered
    | AbstractNotBold
    | AbstractTooLong
    | AbstractNotFound
    // keywords
    | KeywordsLabelMissing
    | KeywordsNotItalic
    | KeywordsNotIndented
    | KeywordsNotLowercase
    | KeywordsNotCommaSeparated
    | KeywordsContentNotFound
    | KeywordsNotFound
    // main text
    | NewPageAfterKeywords
    | TitleNotRepeated
    | TooManyAuthorsNamed
    | EtAlFormat
    | QuotePageMissing
    | Level1Heading(text: string)
    | Level2Heading(text: string)
    | Level3Heading(text: string)
    | Level4Heading(text: string)
    | Level5Heading(text: string)
    | TableTitleNotLeft
    | TableHeadingBold
    | TableVerticalBorders(text: string)
    | TableNumbering
    | FigureNumbering
    | FigureCaption(text: string)
    // references
    | ReferencesTitleNotCentered
    | ReferencesTitleNotBold
    | ReferenceNotDoubleSpaced
    | ReferenceFormat(text: string)
    | ReferenceIndent
    | ReferencesNotFound
    // header
    | RunningHeadNotUppercase
    | PageNumberIncorrect
    | RunningHeadMissing
    | PageNumberMissing

  /** The Python exception that ends a run: an unset margin has no `.inches`
      (AttributeError); the others are IndexErrors at the named subscript. */
  datatype Fault =
    | MarginUnset          // section.<side>_margin.inches on None
    | NoParagraphs         // doc.paragraphs[0]
    | EmptyHeadingText     // paragraph.text[-1] of a level 4 or 5 heading
    | RowWithoutCells      // row.cells[0]
    | CellWithoutParagraphs // cell.paragraphs[0]
    | ParagraphWithoutRuns // cell.paragraphs[0].runs[0]
    | TableWithoutRows     // table.rows[0]

  /** The issues appended so far and, if an exception was raised, which. */
  datatype Checked = Checked(issues: seq<Issue>, crash: Option<Fault>)

  function Pass(issues: seq<Issue>): Checked {
    Checked(issues, None)
  }

  /** Run `b` after `a`, unless `a` raised. */
  function Then(a: Checked, b: Checked): Checked {
    if a.crash.Some? then a else Checked(a.issues + b.issues, b.crash)
  }

  /** The ten checks, in the order the validator runs them. */
  datatype Check =
    | FontCheck | MarginsCheck | SpacingCheck | StructureCheck | TitlePageCheck
    | AbstractCheck | KeywordsCheck | MainTextCheck | ReferencesCheck | HeaderCheck

  function Rank(c: Check): nat {
    match c
    case FontCheck => 0
    case MarginsCheck => 1
    case SpacingCheck => 2
    case StructureCheck => 3
    case TitlePageCheck => 4
    case AbstractCheck => 5
    case KeywordsCheck => 6
    case MainTextCheck => 7
    case ReferencesCheck => 8
    case HeaderCheck => 9
  }

  /** The check that appends a given issue. */
  function CheckOf(x: Issue): Check {
    match x
    case NotTimesNewRoman(_) | FontSizeNot12(_) => FontCheck
    case MarginsNotOneInch => MarginsCheck
    case NotDoubleSpaced(_) | ExtraSpace(_) => SpacingCheck
    case MissingSections(_) => StructureCheck
    case TitleNotTitleCase | TitleNotCentered | TitleNotBold | TitleNotFound
      | AuthorInfoNotCentered | AuthorInfoNotFound
      | AuthorNoteNotCentered | AuthorNoteNotBold | AuthorNoteNotFound => TitlePageCheck
    case AbstractNotCentered | AbstractNotBold | AbstractTooLong | AbstractNotFound => AbstractCheck
    case KeywordsLabelMissing | KeywordsNotItalic | KeywordsNotIndented | KeywordsNotLowercase
      | KeywordsNotCommaSeparated | KeywordsContentNotFound | KeywordsNotFound => KeywordsCheck
    case NewPageAfterKeywords | TitleNotRepeated | TooManyAuthorsNamed | EtAlFormat | QuotePageMissing
      | Level1Heading(_) | Level2Heading(_) | Level3Heading(_) | Level4Heading(_) | Level5Heading(_)
      | TableTitleNotLeft | TableHeadingBold | TableVerticalBorders(_) | TableNumbering
      | FigureNumbering | FigureCaption(_) => MainTextCheck
    case ReferencesTitleNotCentered | ReferencesTitleNotBold | ReferenceNotDoubleSpaced
      | ReferenceFormat(_) | ReferenceIndent | ReferencesNotFound => ReferencesCheck
    case RunningHeadNotUppercase | PageNumberIncorrect | RunningHeadMissing | PageNumberMissing => HeaderCheck
  }

  /** Every issue in `xs` comes from check `c`. */
  predicate AllFrom(xs: seq<Issue>, c: Check) {
    forall x | x in xs :: CheckOf(x) == c
  }

  lemma AllFromAppend(a: seq<Issue>, b: seq<Issue>, c: Check)
    requires AllFrom(a, c) && AllFrom(b, c)
    ensures AllFrom(a + b, c)
  {
  }

  /** A list of issues reported only when `b` holds. */
  lemma FlagFrom(b: bool, xs: seq<Issue>, c: Check)
    requires AllFrom(xs, c)
    ensures AllFrom(if b then xs else [], c)
  {
  }

  const RequiredSections: seq<string> := ["Title Page", "Abstract", "Keywords", "References"]

  /** The names of the missing sections, comma-separated. The list is rendered
      in the order the sections are required; Python renders its set in hash order. */
  function MissingList(missing: set<string>, names: seq<string>): string
    decreases |names|
  {
    if names == [] then []
    else if names[0] !in missing then MissingList(missing, names[1..])
    else
      var rest := MissingList(missing, names[1..]);
      names[0] + (if rest == [] then [] else ", " + rest)
  }

  function Quoted(t: string): string {
    "'" + t + "'"
  }

  /** The string table: the exact text the validator appends for each issue.
      The checks and their lemmas work on `Issue` values; this function fixes
      which message each constructor stands for, and is used by no proof. */
  function Message(x: Issue): string {
    match x
    case NotTimesNewRoman(t) => "Font is not Times New Roman: " + Quoted(t)
    case FontSizeNot12(t) => "Font size is not 12pt: " + Quoted(t)
    case MarginsNotOneInch => "Margins are not set to 1 inch on all sides"
    case NotDoubleSpaced(t) => "Text is not double-spaced: " + Quoted(t)
    case ExtraSpace(t) => "Extra space found between paragraphs: " + Quoted(t)
    case MissingSections(m) => "Missing required sections: " + MissingList(m, RequiredSections)
    case TitleNotTitleCase => "Title is not in title case"
    case TitleNotCentered => "Title is not centered"
    case TitleNotBold => "Title is not bolded"
    case TitleNotFound => "Title not found in upper half of first page"
    case AuthorInfoNotCentered => "Author information is not centered"
    case AuthorInfoNotFound => "Author information not found"
    case AuthorNoteNotCentered => "Author Note is not centered"
    case AuthorNoteNotBold => "Author Note heading is not bolded"
    case AuthorNoteNotFound => "Author Note not found"
    case AbstractNotCentered => "Abstract heading is not centered"
    case AbstractNotBold => "Abstract heading is not bolded"
    case AbstractTooLong => "Abstract exceeds 250 words"
    case AbstractNotFound => "Abstract section not found"
    case KeywordsLabelMissing => "Keywords heading should begin with 'Keywords:'"
    case KeywordsNotItalic => "Keywords heading is not italicized"
    case KeywordsNotIndented => "Keywords heading is not indented 0.5 inches"
    case KeywordsNotLowercase => "Keywords should be listed in lowercase"
    case KeywordsNotCommaSeparated => "Keywords should be separated by commas"
    case KeywordsContentNotFound => "Keywords content not found below 'Keywords:'"
    case KeywordsNotFound => "Keywords section not found"
    case NewPageAfterKeywords => "Main text should start on a new page after 'Keywords'."
    case TitleNotRepeated =>
      "The title should be repeated in bold and centered at the top of the first page of the main text."
    case TooManyAuthorsNamed => "More than two authors in citation should be in the form of 'Smith et al.'"
    case EtAlFormat => "Correct citation format for multiple authors should be '(Smith et al., 2020)'"
    case QuotePageMissing => "Direct quotes should include page number, e.g., '(Smith, 2020, p. 15)'."
    case Level1Heading(t) => "First Level 1 heading should be centered and bold: " + t
    case Level2Heading(t) => "Level 2 heading should be flush left and bold: " + t
    case Level3Heading(t) => "Level 3 heading should be flush left, bold, and italic: " + t
    case Level4Heading(t) => "Level 4 heading should be flush left, bold, ending with a period: " + t
    case Level5Heading(t) => "Level 5 heading should be flush left, bold, italic, ending with a period: " + t
    case TableTitleNotLeft => "Table title should be flush left above the table"
    case TableHeadingBold => "Table heading should be in bold"
    case TableVerticalBorders(t) => "Table should not have vertical borders: " + t
    case TableNumbering => "Tables should be numbered consecutively starting with 'Table 1'"
    case FigureNumbering => "Figures should be numbered sequentially, e.g., 'Figure 1'."
    case FigureCaption(t) => "Figure caption should be brief and italicized: " + t
    case ReferencesTitleNotCentered => "References title should be centered"
    case ReferencesTitleNotBold => "References title should be bold"
    case ReferenceNotDoubleSpaced => "References should be double-spaced"
    case ReferenceFormat(t) => "Reference format incorrect: " + Quoted(t)
    case ReferenceIndent => "References should have a hanging indent of 0.5 inches"
    case ReferencesNotFound => "References section not found"
    case RunningHeadNotUppercase => "Running head should be in all uppercase letters"
    case PageNumberIncorrect => "Page number is missing or not correct"
    case RunningHeadMissing =>
      "Running head is missing or not properly formatted (should be on the left side of the header)"
    case PageNumberMissing =>
      "Page number is missing or not properly formatted (should be on the right side of the header)"
  }
}
