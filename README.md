# APA format validator, modelled in Dafny

This project models `APAValidator`, the rule engine of an APA-style document
linter (`app/utils/helper_apa.py`). The validator takes an in-memory
word-processing document: paragraphs with their runs, layout sections with
margins and a page header, and tables. It runs ten checks in a fixed order:

1. font
2. margins
3. line spacing
4. document structure
5. title page
6. abstract
7. keywords
8. main text
9. references
10. header

Every check appends human-readable issues to one list, `self.issues`.

The model has three layers.

- **Specification functions.** There is one function per check, built from a
  small set of traversal shapes: "first element that matches", "issues of every
  element, in order", and the same with an exception that stops the loop. They
  live in `LayoutRules`, `FrontMatterRules`, `MainTextRules` and
  `BackMatterRules`. `Validation.Validate` chains the ten checks.
- **The validator class.** `Validator.APAValidator` holds the `issues` list as a
  field. There is one method per `_check_*` routine, with the same loops,
  latches and `break`s as the source. Each method is proved to append exactly
  what its specification function gives. `ValidateDocument` clears the list and
  runs the ten methods. It is proved to leave exactly `Validate(doc).issues`.
- **Lemmas.** They state what each check promises: the iff conditions under
  which each issue is reported, at-most-once and first-match rules, which
  inputs make the run raise, and the order of the issues in the final list.

Issues are values of an `Issue` datatype, with one constructor per message.
`Issues.Message` gives the exact text the source appends. Python exceptions
that the source can raise part-way are `Fault` values:

- an unset margin has no `.inches`;
- `doc.paragraphs[0]` on an empty document;
- `text[-1]` on an empty level 4 or 5 heading;
- `row.cells[0]`, `cell.paragraphs[0]`, `paragraphs[0].runs[0]` and
  `table.rows[0]`.

A check's outcome is `Checked(issues, crash)`. `Then` runs the next check only
if no exception was raised. An exception ends the whole run with the issues
found so far.

Lengths are integers in EMU: 914400 per inch, 12700 per point. Line spacing is
`Inherited`, `Multiple(n)` in 240ths of a line, or `Exact(emu)`.
`line_spacing == 2` is `Multiple(480)` or an exact height of 2 EMU, because
Python compares a length object with the number 2.

Some behaviours of the code are easy to misread. The model keeps each of them
as the code has it:

- **Exceptions.** Validation can raise part-way, at the sites listed above,
  and the run stops there. `ValidateFaultRule` states exactly when this
  happens.
- **Empty document.** An empty document does not reach the references check,
  because it raises at the main text's first paragraph. So "References section
  not found" is not reported (`EmptyDocument`).
- **Unset font name.** It is flagged, because `None != 'Times New Roman'`.
- **Author information.** It is looked for from the second paragraph on,
  wherever the title is.
- **Citations listing authors with commas.** The citation pattern allows no
  comma among the authors. So `(Smith, Jones & Lee, 2020)` is not matched at
  all, and no check runs on it. Only ampersand-joined lists such as
  `(Smith & Jones & Lee, 2020)` are reported (`AmpersandListReported`).
- **References title.** Every paragraph that mentions "references" gets the
  title checks, not only the first one. Such paragraphs are never checked as
  entries.
- **Running head.** Every left-aligned header paragraph gets the upper-case
  test, not only one.

## Model

| member | source | states |
|---|---|---|
| Validator.APAValidator.constructor | app/utils/helper_apa.py:9-10 | A new validator starts with an empty issue list. |
| Validator.APAValidator.ValidateDocument | app/utils/helper_apa.py:12-29 | Whatever the list held before, it ends as exactly the issues of the ten checks run in order on a fresh list. The returned exception is the one the run raised, if any. Two calls on the same document therefore leave equal lists. |
| Validator.APAValidator.ValidateFrontChecks | app/utils/helper_apa.py:15-24 | After clearing the list, the font to keywords checks leave the run's first seven stages. If the margin check raised, the list and the exception are those of the whole run. |
| Validator.APAValidator.CheckFont | app/utils/helper_apa.py:31-37 | Appends the font issues of every run of every paragraph, in document order, and nothing else. |
| Validator.APAValidator.CheckParagraphFont | app/utils/helper_apa.py:33-37 | Appends one paragraph's run issues in run order. |
| LayoutRules.FontIssuesBound | app/utils/helper_apa.py:31-37 | The font check reports at most two issues per run. |
| LayoutRules.RunsFontBound | app/utils/helper_apa.py:33-37 | A paragraph with `n` runs yields at most `2n` font issues. |
| LayoutRules.FontIssueMember | app/utils/helper_apa.py:31-37 | An issue is in the font check's output exactly when some run of some paragraph reports it. |
| LayoutRules.FontNameRule | app/utils/helper_apa.py:34-35 | The "not Times New Roman" issue quoting `t` is reported iff some run with text `t` has a name other than Times New Roman, an unset name included. |
| LayoutRules.FontSizeRule | app/utils/helper_apa.py:36-37 | The size issue quoting `t` is reported iff some run with text `t` has a set, non-zero size other than 12pt. |
| Validator.APAValidator.CheckMargins | app/utils/helper_apa.py:39-46 | Appends one issue per section whose margins are not all one inch. It returns the exception of the first section that reaches an unset margin, and stops there. |
| LayoutRules.MarginRule | app/utils/helper_apa.py:39-46 | With all margins set, the check does not raise. It reports exactly one issue per failing section and nothing else. It reports nothing iff every section has one inch on all four sides. |
| LayoutRules.MarginFault | app/utils/helper_apa.py:42-45 | The margin check raises iff some section reaches an unset margin before any margin that differs. |
| Validator.APAValidator.CheckLineSpacing | app/utils/helper_apa.py:48-58 | Appends the spacing issues of every paragraph in order. |
| LayoutRules.BlankParagraphsSilent | app/utils/helper_apa.py:49-50 | A document of whitespace-only paragraphs gets no spacing issue. |
| LayoutRules.DoubleSpacingRule | app/utils/helper_apa.py:50-52 | "Not double-spaced" quoting `t` is reported iff some non-blank paragraph with text `t` does not have line spacing 2. |
| LayoutRules.ExtraSpaceRule | app/utils/helper_apa.py:54-58 | "Extra space" quoting `t` is reported iff some non-blank paragraph with text `t` has a positive space before or after it, whatever its line spacing. |
| Validator.APAValidator.CheckDocumentStructure | app/utils/helper_apa.py:60-71 | Appends the single missing-sections issue iff some required name was not found, and nothing otherwise. |
| Validator.APAValidator.AddFoundNames | app/utils/helper_apa.py:65-67 | The names found grow by exactly the required names that the paragraph's lower-cased text contains. |
| LayoutRules.FoundSectionsIff | app/utils/helper_apa.py:64-67 | A name is found iff it is required and some paragraph's lower-cased text contains its lower-cased form. |
| LayoutRules.StructureRule | app/utils/helper_apa.py:60-71 | At most one issue. A name is listed iff it is required and mentioned by no paragraph. No issue iff every required name is mentioned. |
| Validator.APAValidator.CheckTitlePage | app/utils/helper_apa.py:73-112 | Appends the title, author-information and Author Note issues of the first ten paragraphs, in that order. |
| Validator.APAValidator.IsTitleCase | app/utils/helper_apa.py:310-315 | The early-return loop answers "every whitespace-separated word starts with an upper-case letter". |
| Validator.APAValidator.CheckTitle | app/utils/helper_apa.py:75-88 | The loop with `break` appends exactly the issues of the first `Title`-styled paragraph, or "not found". |
| Validator.APAValidator.CheckAuthorInfo | app/utils/helper_apa.py:90-99 | The loop over `first_page[1:]` appends the issues of the first non-blank paragraph after the first, or "not found". |
| Validator.APAValidator.CheckAuthorNote | app/utils/helper_apa.py:101-112 | The loop appends the issues of the first paragraph containing "Author Note", or "not found". |
| FrontMatterRules.TitlePageLocal | app/utils/helper_apa.py:74 | Two documents that agree on their first ten paragraphs get the same title-page issues. |
| FrontMatterRules.TitleMissingRule | app/utils/helper_apa.py:76-88 | "Title not found" is reported iff none of the first ten paragraphs is `Title`-styled. It then comes alone. |
| FrontMatterRules.TitleFoundRule | app/utils/helper_apa.py:76-85 | When paragraph `k` is the first `Title`-styled one, "not found" is absent. The centring, bold and title-case issues are each reported iff their test fails on paragraph `k`. |
| FrontMatterRules.AuthorInfoMissingRule | app/utils/helper_apa.py:90-99 | "Author information not found" is reported iff paragraphs 1 to 9 are all blank, wherever the title is. |
| FrontMatterRules.AuthorInfoFoundRule | app/utils/helper_apa.py:91-96 | When paragraph `k >= 1` is the first non-blank one after the first, the check reports exactly "not centred" if that paragraph is not centred, and nothing otherwise. |
| FrontMatterRules.AuthorNoteRule | app/utils/helper_apa.py:101-112 | "Author Note not found" is reported iff no paragraph among the first ten contains "Author Note", case-sensitively. It then comes alone. |
| FrontMatterRules.AuthorNoteFoundRule | app/utils/helper_apa.py:101-110 | When paragraph `k` is the first of the first ten containing "Author Note", only its own issues can be reported: "not centred" iff it is not centred, and "not bold" iff it has no bold run. |
| Validator.APAValidator.CheckAbstract | app/utils/helper_apa.py:114-129 | The loop with `break` appends exactly the issues of the first paragraph mentioning "abstract", or "not found". |
| FrontMatterRules.AbstractParagraphRule | app/utils/helper_apa.py:119-125 | The inspected paragraph gets at most three issues and never "not found". Centring, bold and more than 250 words are each reported iff their test fails. |
| FrontMatterRules.AbstractRule | app/utils/helper_apa.py:114-129 | At most three issues. "Not found" iff no paragraph mentions "abstract". Otherwise only the first such paragraph is judged. |
| Validator.APAValidator.CheckKeywords | app/utils/helper_apa.py:131-162 | Appends the heading and content issues for the first paragraph mentioning "keywords", or "not found". |
| Validator.APAValidator.CheckKeywordsHeading | app/utils/helper_apa.py:137-143 | Appends the label, italic and indent issues of the keywords paragraph. |
| Validator.APAValidator.CheckKeywordsContent | app/utils/helper_apa.py:145-157 | The inner loop appends the case and comma issues of the first paragraph containing "keywords:", or "content not found". |
| FrontMatterRules.LabelHasColon | app/utils/helper_apa.py:147-148 | A paragraph whose lower-cased text has "keywords:" splits at colons into at least two parts, so `split(":")[1]` never raises. |
| FrontMatterRules.LabelNotBeforeHeading | app/utils/helper_apa.py:134-147 | The first "keywords:" paragraph never comes before the first "keywords" paragraph. |
| FrontMatterRules.KeywordsMissingRule | app/utils/helper_apa.py:161-162 | "Keywords section not found" is reported iff no paragraph mentions "keywords". |
| FrontMatterRules.KeywordsContentRule | app/utils/helper_apa.py:145-157 | "Content not found" is reported iff some paragraph mentions "keywords" and none contains "keywords:". |
| FrontMatterRules.KeywordsContentFound | app/utils/helper_apa.py:145-157 | Once some paragraph contains "keywords:", the content part does not report "content not found". |
| FrontMatterRules.KeywordsListRule | app/utils/helper_apa.py:145-157 | When paragraph `k` is the first containing "keywords:", only the list tests can fire on the text after its first colon: "not lower-case" iff `islower()` fails, and "not comma-separated" iff it has no comma. |
| FrontMatterRules.KeywordsHeadingRule | app/utils/helper_apa.py:137-157 | A keywords paragraph that starts with "keywords:" gets neither the label issue nor "content not found". |
| Validator.APAValidator.CheckMainText | app/utils/helper_apa.py:164-248 | Appends the issues of the six main-text rules in order: page break, repeated title, citations, headings, tables, figures. It returns the exception of the first rule that raises and runs nothing after it. |
| Validator.APAValidator.CheckPageBreak | app/utils/helper_apa.py:165-174 | The page-break loop, with its index-0 blank-paragraph test, appends what the page-break rule gives, which is nothing: its latch never holds at index 0. |
| MainTextRules.PageBreakRuleInert | app/utils/helper_apa.py:165-174 | The page-break rule reports nothing on any document. |
| Validator.APAValidator.CheckRepeatedTitle | app/utils/helper_apa.py:176-182 | Appends the repeated-title issue iff the first paragraph is not both centred and flagged bold at paragraph level. |
| MainTextRules.MainTextWithoutParagraphs | app/utils/helper_apa.py:165-177 | A document without paragraphs raises at `doc.paragraphs[0]` with no main-text issue. |
| Validator.APAValidator.CheckCitations | app/utils/helper_apa.py:185-198 | Appends the citation issues of every paragraph in order. |
| Validator.APAValidator.CheckParagraphCitations | app/utils/helper_apa.py:186-198 | Appends the issues of every citation group the pattern finds, in order. |
| Validator.APAValidator.CheckCitation | app/utils/helper_apa.py:189-198 | Appends the author-count, "et al." and page-number issues of one group. |
| MainTextRules.TooManyAuthorsRule | app/utils/helper_apa.py:189-191 | The "more than two authors" issue fires iff the author part, before the first comma, has at least two ampersands. |
| MainTextRules.QuotePageRule | app/utils/helper_apa.py:192-198 | The page-number issue comes iff the "et al." issue does, the group has "p." and the page search fails. The "et al." issue comes iff the group has "et al." and a one-word author part. |
| MainTextRules.AuthorsBeforeComma | app/utils/helper_apa.py:189 | An unpadded, comma-free text before the first comma is exactly the author part. |
| MainTextRules.AmpersandListAuthors | app/utils/helper_apa.py:189 | The author part of "Smith & Jones & Lee, 2020" is "Smith & Jones & Lee". |
| MainTextRules.AmpersandCount | app/utils/helper_apa.py:190 | "Smith & Jones & Lee" has two ampersands. |
| MainTextRules.AmpersandListReported | app/utils/helper_apa.py:189-191 | "Smith & Jones & Lee, 2020" is reported as naming too many authors. |
| Validator.APAValidator.CheckHeadings | app/utils/helper_apa.py:200-226 | The latched loop appends exactly the heading issues. It returns the exception of the first empty level 4 or 5 heading that passes its other tests, and stops there. |
| Validator.APAValidator.CheckHeadingAt | app/utils/helper_apa.py:201-226 | One pass of the loop keeps the list and the latch equal to those of the loop over the prefix. |
| Validator.APAValidator.CheckHeading | app/utils/helper_apa.py:202-226 | One paragraph: appends its level issue, returns the exception of `text[-1]` on empty text, and sets the latch iff the paragraph is a level 1 heading that is not passed over. |
| MainTextRules.HeadingRuleShape | app/utils/helper_apa.py:202-226 | One paragraph yields at most one issue, and only its own level's issue. It raises iff it is a level 4 or 5 heading with empty text that passes the earlier tests. |
| MainTextRules.HeadingCheckLatch | app/utils/helper_apa.py:200-209 | The heading loop is the latched run of the per-paragraph rule. The latch is set by the first level 1 heading that is not passed over. |
| MainTextRules.HeadingIssueSource | app/utils/helper_apa.py:200-226 | Every heading issue names a paragraph with that heading style that does not mention "abstract" or "references". |
| MainTextRules.HeadingReported | app/utils/helper_apa.py:201-226 | When the loop does not raise, each level 2 to 5 heading that is not passed over and fails its level's test is reported, naming its text. |
| MainTextRules.LowerLevelReported | app/utils/helper_apa.py:202-226 | One paragraph: a level 2 to 5 heading that is not passed over and fails its test is reported, unless its text test raises. |
| MainTextRules.FirstLevel1Rule | app/utils/helper_apa.py:200-209 | Only the first level 1 heading that is not passed over is judged. When the loop does not raise, its issue is reported iff it is not centred or not bold. |
| MainTextRules.Level1Reported | app/utils/helper_apa.py:202-209 | One paragraph: while the latch is off, a level 1 heading that is not passed over is reported iff it is not centred or not bold. |
| MainTextRules.HeadingRuleLevel1 | app/utils/helper_apa.py:205-209 | A level 1 issue comes only from a level 1 heading that is not passed over, and only while the latch is off. |
| MainTextRules.Level1AtMostOnce | app/utils/helper_apa.py:200-209 | At most one "first level 1 heading" issue is reported. One is reported only if such a heading exists. |
| MainTextRules.HeadingCheckStops | app/utils/helper_apa.py:200-226 | Once the heading loop has raised on a prefix, later paragraphs change neither its issues nor its exception. |
| MainTextRules.HeadingFaultIff | app/utils/helper_apa.py:218-226 | The heading loop raises iff some paragraph is a level 4 or 5 heading with empty text that passes the earlier tests. The exception is the `text[-1]` one. |
| Validator.APAValidator.CheckTables | app/utils/helper_apa.py:228-240 | Appends the issues of every table in order, and stops at the first table that raises. |
| Validator.APAValidator.CheckTable | app/utils/helper_apa.py:229-240 | One table: the row loop, then the border loop, then the numbering test, with each exception where the source indexes. |
| Validator.APAValidator.CheckRowFormat | app/utils/helper_apa.py:230-234 | Appends the flush-left issue and the lazy `any` bold issue of one row, or returns the first indexing exception. |
| Validator.APAValidator.CheckRowBorders | app/utils/helper_apa.py:236-238 | Appends one vertical-border issue, quoting the row text, per cell that carries a vertical-alignment element. |
| Validator.APAValidator.CheckNumbering | app/utils/helper_apa.py:239-240 | Appends the numbering issue from the first cell of the first row, or raises when either is missing. |
| MainTextRules.AnyFirstRunBoldRule | app/utils/helper_apa.py:233 | On cells that all have a first run, the lazy `any` does not raise and answers whether some first run is bold. |
| MainTextRules.HeadingBoldRule | app/utils/helper_apa.py:233-234 | On a well-formed row, the bold issue is reported iff some cell's first run is bold: presence of bold is flagged. |
| MainTextRules.TableNumberingRule | app/utils/helper_apa.py:239-240 | The numbering issue is reported unless the first cell's stripped text is exactly "table", ignoring case. |
| MainTextRules.TableOneReported | app/utils/helper_apa.py:239-240 | A table labelled "Table 1" is reported as not numbered. |
| MainTextRules.TableFaultRule | app/utils/helper_apa.py:228-240 | A table without rows raises at `table.rows[0]` after reporting nothing. A well-formed table never raises. |
| Validator.APAValidator.CheckFigures | app/utils/helper_apa.py:242-248 | Appends the numbering and caption issues of every paragraph mentioning "figure", in order. |
| MainTextRules.FigureCaptionRule | app/utils/helper_apa.py:242-248 | The caption issue quoting `t` is reported iff some paragraph with text `t` mentions "figure" and fails the caption pattern. |
| MainTextRules.MainTextFaultRule | app/utils/helper_apa.py:164-248 | The main-text check raises iff the document has no paragraph, some heading raises, or some table raises. |
| Validator.APAValidator.CheckReferences | app/utils/helper_apa.py:250-283 | Appends the title and entry issues paragraph by paragraph, then "not found" iff no paragraph mentions "references". |
| Validator.APAValidator.CheckReferencesTitle | app/utils/helper_apa.py:262-265 | Appends the centring and bold issues of a references title. |
| Validator.APAValidator.CheckReferenceEntry | app/utils/helper_apa.py:270-280 | Appends the spacing, pattern and indent issues of a non-blank entry, and nothing for a blank one. |
| BackMatterRules.ReferencesBodyLatch | app/utils/helper_apa.py:259-280 | The references loop is the latched concatenation of the per-paragraph rule. The latch is set by the first "references" paragraph. |
| BackMatterRules.ReferencesBodyMember | app/utils/helper_apa.py:259-280 | An issue of the loop comes from one paragraph, judged by whether an earlier paragraph was a title. |
| BackMatterRules.TitleSeenIff | app/utils/helper_apa.py:260-269 | The entry mode is on before paragraph `i` iff an earlier paragraph mentions "references". |
| BackMatterRules.ReferencesNotFoundRule | app/utils/helper_apa.py:282-283 | "Not found" is reported iff no paragraph mentions "references". It is then the check's only issue. |
| BackMatterRules.ReferenceFormatRule | app/utils/helper_apa.py:259-277 | The format issue quoting `t` is reported iff some non-blank, non-title paragraph after a title has stripped text `t` and matches none of the four patterns. |
| BackMatterRules.ReferencesTitleBoldRule | app/utils/helper_apa.py:259-265 | "Title should be bold" is reported iff some paragraph mentioning "references" has no bold run. |
| BackMatterRules.ReferenceIndentRule | app/utils/helper_apa.py:259-280 | The hanging-indent issue is reported iff some non-blank, non-title paragraph after a title does not indent its first line by minus half an inch. |
| BackMatterRules.ReferenceSpacingRule | app/utils/helper_apa.py:259-272 | The spacing issue is reported iff some non-blank, non-title paragraph after a title is not double-spaced. |
| BackMatterRules.ReferencesTitleCenteredRule | app/utils/helper_apa.py:259-263 | "Title should be centred" is reported iff some paragraph mentioning "references" is not centred. |
| BackMatterRules.NoTitleSilent | app/utils/helper_apa.py:259-280 | Before any paragraph mentions "references", the loop reports nothing: no entry is checked until a title is seen. |
| BackMatterRules.BodyWithoutNotFound | app/utils/helper_apa.py:259-283 | The paragraph loop never reports "not found" itself; only the final test does. |
| BackMatterRules.ParagraphFormatRule | app/utils/helper_apa.py:269-277 | One paragraph's share of the format rule. |
| BackMatterRules.ParagraphIndentRule | app/utils/helper_apa.py:269-280 | One paragraph's share of the indent rule. |
| BackMatterRules.ParagraphSpacingRule | app/utils/helper_apa.py:260-272 | One paragraph's share of the spacing rule. |
| BackMatterRules.ParagraphTitleCenteredRule | app/utils/helper_apa.py:260-263 | One paragraph's share of the centred-title rule. |
| BackMatterRules.ParagraphTitleBoldRule | app/utils/helper_apa.py:260-265 | One paragraph's share of the bold-title rule. |
| Validator.APAValidator.CheckHeader | app/utils/helper_apa.py:285-308 | Appends the header issues of every section in order. |
| Validator.APAValidator.CheckSectionHeader | app/utils/helper_apa.py:286-308 | Appends every header paragraph's issues, then "running head missing" iff no paragraph is left-aligned, then "page number missing" iff no right-aligned paragraph mentions "page". |
| Validator.APAValidator.CheckHeaderParagraph | app/utils/helper_apa.py:291-300 | Appends one header paragraph's issues and says whether it counts as running head and as page number. |
| BackMatterRules.RunningHeadMissingRule | app/utils/helper_apa.py:302-304 | Within one section, "running head missing" iff no header paragraph is left-aligned. |
| BackMatterRules.PageNumberMissingRule | app/utils/helper_apa.py:306-308 | Within one section, "page number missing" iff no right-aligned header paragraph mentions "page". |
| BackMatterRules.RunningHeadCaseRule | app/utils/helper_apa.py:292-295 | The upper-case issue is reported iff some left-aligned header paragraph changes under `upper()`. |
| BackMatterRules.PageNumberDigitsRule | app/utils/helper_apa.py:297-300 | The page-number issue is reported iff some right-aligned header paragraph that mentions "page" has no all-digit run. |
| BackMatterRules.HeaderRule | app/utils/helper_apa.py:286-308 | Each section is judged on its own: an issue is reported iff some section's header reports it. |
| BackMatterRules.CapitalRunningHeadPasses | app/utils/helper_apa.py:294-295 | A running head with no lower-case letter, for example one with no letters at all, passes the upper-case test. |
| BackMatterRules.EmptyHeaderRule | app/utils/helper_apa.py:286-308 | A section with an empty header gets both "missing" issues and nothing else. |
| Text.UpperFixedIff | app/utils/helper_apa.py:294 | `text == text.upper()` iff the text has no lower-case letter. |
| Text.StripEmptyIffBlank | app/utils/helper_apa.py:50 | `strip()` is empty iff the text is all whitespace, which is the truthiness test the checks use. |
| Text.WordsEmptyIffBlank | app/utils/helper_apa.py:123 | `split()` gives no word iff the text is all whitespace. |
| Text.CountPositive | app/utils/helper_apa.py:190 | A character occurs in a text iff its count there is at least one. |
| Text.JoinSplit | app/utils/helper_apa.py:189-190 | Joining the parts of `split(sep)` gives the text back. |
| Text.SplitShape | app/utils/helper_apa.py:190 | `split(sep)` has one part more than there are separators, and no part contains one. |
| Validation.Stages | app/utils/helper_apa.py:17-27 | The run has ten stages, the checks in their fixed order. |
| Validation.RunAllCrash | app/utils/helper_apa.py:12-29 | A run raises iff one of its stages raises. It then raises what the first raising stage raises. |
| Validation.StageCrash | app/utils/helper_apa.py:17-27 | Only the margin check and the main-text check can raise. |
| Validation.ValidateFaultRule | app/utils/helper_apa.py:12-29 | Validation raises iff some section reaches an unset margin, the document has no paragraph, some level 4 or 5 heading with empty text passes its other tests, or some table raises. |
| Validation.RunAllStops | app/utils/helper_apa.py:12-29 | Once a stage has raised, the stages after it add nothing to the run. |
| Validation.ValidateFaultStages | app/utils/helper_apa.py:17-27 | Validation raises iff the margin stage or the main-text stage raises. |
| Validation.EmptyDocument | app/utils/helper_apa.py:12-29 | An empty document gets exactly the missing-sections, three title-page, abstract and keywords "not found" issues, then raises at `doc.paragraphs[0]`. |
| Ordering.ValidateOrdered | app/utils/helper_apa.py:12-29 | The final list holds the font issues first, then the margin issues, and so on through the header issues, wherever in the document they arise. |
| Ordering.RunAllOrdered | app/utils/helper_apa.py:17-27 | Running stages whose issues each belong to the check at their position yields a list grouped in check order. |
| Scans.FirstIndex | app/utils/helper_apa.py:76-85 | The "first match" search: the index it returns matches and nothing before it does, and it finds none iff nothing matches. |
| Scans.LatchThenCrash | app/utils/helper_apa.py:200-226 | A latched loop that can raise raises iff one element's step raises, given the latch before that element. |
| Scans.LatchThenOnce | app/utils/helper_apa.py:205-209 | An issue a step reports only while its latch is off, and only for an element that sets the latch, is reported at most once. |

## Left out

- Document loading (`docx.Document(doc_path)`) is file I/O and a foreign
  parser. The model takes the document as a value.
- The regular expressions are given as what they decide, in a `Patterns`
  record:
  - the citation `findall`;
  - the nested page-number search;
  - the two figure searches;
  - the four anchored reference-entry patterns.

  Their languages are not modelled, so nothing is proved about which texts
  they accept.
- `citationGroups` is unconstrained. It may return groups that the real
  citation pattern never produces, such as one with a comma among the authors.
  The citation lemmas hold for every group, so they also cover those.
- Floating point. `.inches`, `.pt` and `line_spacing` are compared as integers
  in EMU or 240ths of a line. A margin is one inch iff it is exactly 914400
  EMU.
- Python's Unicode case mapping, `isspace`, `isdigit`, `islower` and `isupper`
  are restricted to ASCII.
- The order of the names in the missing-sections message. Python renders a
  set in hash order. `Issues.Message` lists the names in the order they are
  required, and the `Issue` value keeps the set itself.
- The paragraph-level `bold` and `italic` flags, the row text and the
  `vAlign` XPath test are taken as fields the loader provides. How
  python-docx derives them is not modelled.
- Header sections "linked to previous" and style inheritance are the loader's
  concern. Each section carries the header paragraphs it reports.
- Persistence and HTTP: the database layer, the routers, the ORM models and
  their test are not part of this model.
- `Validator.APAValidator.ValidateFrontChecks`,
  `Validator.APAValidator.CheckHeadingAt` and
  `Validator.APAValidator.CheckHeaderParagraph` split the bodies of
  `validate_document` and two loops into smaller methods. The statements and
  their order are those of the source.
