/** The main-text check: six sub-rules run one after the other over the whole
    document. They cover the page break after the keywords, the repeated title,
    citations, heading levels, tables and figures. Two of them can raise an
    IndexError part-way: the heading rule and the table rule. The check also
    raises if the document has no paragraph. */
module MainTextRules {
  import opened Wrappers
  import opened Text
  import opened DocModel
  import opened Issues
  import opened Scans

  // ---------------------------------------------------------------- page break

  /** The page-break loop from paragraph `i` on, with its "main text started"
      latch. It stops at a "references" paragraph seen after the latch is set.
      After the latch is set, it reports a blank paragraph only when that
      paragraph is at index 0. */
  function PageBreakScan(ps: seq<Paragraph>, i: nat, started: bool): seq<Issue>
    decreases |ps| - i
  {
    if i >= |ps| then []
    else
      var low := Lower(ps[i].text);
      if Contains(low, "keywords") then PageBreakScan(ps, i + 1, true)
      else if Contains(low, "references") && started then []
      else if started && i == 0 && Blank(ps[i].text) then [NewPageAfterKeywords] + PageBreakScan(ps, i + 1, started)
      else PageBreakScan(ps, i + 1, started)
  }

  /** The latch is set only by a paragraph at an earlier index, so it is never
      set at index 0. The page-break rule therefore never reports anything. */
  lemma {:induction false} PageBreakRuleInert(ps: seq<Paragraph>, i: nat, started: bool)
    requires started ==> i > 0
    ensures PageBreakScan(ps, i, started) == []
    decreases |ps| - i
  {
    if i < |ps| {
      var low := Lower(ps[i].text);
      if Contains(low, "keywords") {
        PageBreakRuleInert(ps, i + 1, true);
      } else if !(Contains(low, "references") && started) {
        PageBreakRuleInert(ps, i + 1, started);
      }
    }
  }

  // ---------------------------------------------------------------- repeated title

  /** The first paragraph must be centred and carry the paragraph-level bold flag. */
  function RepeatedTitleIssues(first: Paragraph): seq<Issue> {
    if first.alignment == Center && IsOn(first.bold) then [] else [TitleNotRepeated]
  }

  // ---------------------------------------------------------------- citations

  /** The author part of a citation group: the text before its first comma, stripped. */
  function Authors(group: string): string {
    Strip(Split(group, ',')[0])
  }

  function CitationIssues(group: string, pat: Patterns): seq<Issue> {
    var authors := Authors(group);
    (if '&' in authors && |Split(authors, '&')| > 2 then [TooManyAuthorsNamed] else [])
    + (if Contains(group, "et al.") && |Words(authors)| == 1 then
         [EtAlFormat] + (if Contains(group, "p.") && !pat.quotePage(group) then [QuotePageMissing] else [])
       else [])
  }

  function GroupsIssues(groups: seq<string>, pat: Patterns): seq<Issue>
    decreases |groups|
  {
    if groups == [] then []
    else GroupsIssues(groups[..|groups| - 1], pat) + CitationIssues(groups[|groups| - 1], pat)
  }

  function ParagraphCitationIssues(p: Paragraph, pat: Patterns): seq<Issue> {
    var groups := pat.citationGroups(p.text);
    if |groups| > 0 then GroupsIssues(groups, pat) else []
  }

  function CitationsIssues(ps: seq<Paragraph>, pat: Patterns): seq<Issue>
    decreases |ps|
  {
    if ps == [] then []
    else CitationsIssues(ps[..|ps| - 1], pat) + ParagraphCitationIssues(ps[|ps| - 1], pat)
  }

  /** The "more than two authors" issue fires exactly when the author part,
      the text before the group's first comma, has at least two ampersands. */
  lemma TooManyAuthorsRule(group: string, pat: Patterns)
    ensures TooManyAuthorsNamed in CitationIssues(group, pat) <==> Count(Authors(group), '&') >= 2
  {
    CountPositive(Authors(group), '&');
    SplitShape(Authors(group), '&');
  }

  /** The issue about a missing page number comes only together with the
      "et al." format issue: it needs the group to contain "et al.", a one-word
      author part and "p.". */
  lemma QuotePageRule(group: string, pat: Patterns)
    ensures QuotePageMissing in CitationIssues(group, pat) <==>
      EtAlFormat in CitationIssues(group, pat) && Contains(group, "p.") && !pat.quotePage(group)
    ensures EtAlFormat in CitationIssues(group, pat) <==>
      Contains(group, "et al.") && |Words(Authors(group))| == 1
  {
  }

  /** The author part of a group that has an unpadded, comma-free text before
      its first comma is exactly that text. */
  lemma AuthorsBeforeComma(authors: string, rest: string)
    requires ',' !in authors
    requires authors != [] ==> !IsSpace(authors[0]) && !IsSpace(authors[|authors| - 1])
    ensures Authors(authors + [','] + rest) == authors
  {
    SplitAfterSeparatorFree(authors, rest, ',');
    StripUnpadded(authors);
  }

  lemma AmpersandListAuthors(group: string)
    requires group == "Smith & Jones & Lee, 2020"
    ensures Authors(group) == "Smith & Jones & Lee"
  {
    assert group == "Smith & Jones & Lee" + [','] + " 2020";
    AuthorsBeforeComma("Smith & Jones & Lee", " 2020");
  }

  lemma AmpersandCount(authors: string)
    requires authors == "Smith & Jones & Lee"
    ensures Count(authors, '&') == 2
  {
    var parts := ["Smith ", " Jones ", " Lee"];
    assert Join(parts, '&') == authors;
    SplitJoin(parts, '&');
    SplitShape(authors, '&');
  }

  /** Three names joined by two ampersands are reported. */
  lemma AmpersandListReported(group: string, pat: Patterns)
    requires group == "Smith & Jones & Lee, 2020"
    ensures TooManyAuthorsNamed in CitationIssues(group, pat)
  {
    AmpersandListAuthors(group);
    AmpersandCount(Authors(group));
    TooManyAuthorsRule(group, pat);
  }

  // ---------------------------------------------------------------- headings

  /** Paragraphs mentioning "abstract" or "references" are passed over. */
  predicate HeadingSkipped(p: Paragraph) {
    Contains(Lower(p.text), "abstract") || Contains(Lower(p.text), "references")
  }

  predicate IsHeadingStyle(style: string) {
    style == "Heading 1" || style == "Heading 2" || style == "Heading 3"
    || style == "Heading 4" || style == "Heading 5"
  }

  predicate CheckedLevel1(p: Paragraph) {
    !HeadingSkipped(p) && p.style == "Heading 1"
  }

  /** The issue reported for a badly formatted heading of the paragraph's level. */
  function LevelIssue(p: Paragraph): Issue
    requires IsHeadingStyle(p.style)
  {
    if p.style == "Heading 1" then Level1Heading(p.text)
    else if p.style == "Heading 2" then Level2Heading(p.text)
    else if p.style == "Heading 3" then Level3Heading(p.text)
    else if p.style == "Heading 4" then Level4Heading(p.text)
    else Level5Heading(p.text)
  }

  /** The text's last character is tested only after the alignment, bold and
      (level 5) italic tests pass. On an empty text the test raises. */
  predicate HeadingFaults(p: Paragraph) {
    && !HeadingSkipped(p)
    && p.text == []
    && p.alignment == Left && IsOn(p.bold)
    && (p.style == "Heading 4" || (p.style == "Heading 5" && IsOn(p.italic)))
  }

  /** The checks for one paragraph. `firstLevel1` says that no level 1 heading
      has been checked yet. */
  function HeadingRule(p: Paragraph, firstLevel1: bool): Checked {
    if HeadingSkipped(p) then Pass([])
    else if p.style == "Heading 1" then
      Pass(if firstLevel1 && (p.alignment != Center || !IsOn(p.bold)) then [LevelIssue(p)] else [])
    else if p.style == "Heading 2" then
      Pass(if p.alignment != Left || !IsOn(p.bold) then [LevelIssue(p)] else [])
    else if p.style == "Heading 3" then
      Pass(if p.alignment != Left || !IsOn(p.bold) || !IsOn(p.italic) then [LevelIssue(p)] else [])
    else if p.style == "Heading 4" then
      if p.alignment != Left || !IsOn(p.bold) then Pass([LevelIssue(p)])
      else if p.text == [] then Checked([], Some(EmptyHeadingText))
      else Pass(if p.text[|p.text| - 1] != '.' then [LevelIssue(p)] else [])
    else if p.style == "Heading 5" then
      if p.alignment != Left || !IsOn(p.bold) || !IsOn(p.italic) then Pass([LevelIssue(p)])
      else if p.text == [] then Checked([], Some(EmptyHeadingText))
      else Pass(if p.text[|p.text| - 1] != '.' then [LevelIssue(p)] else [])
    else Pass([])
  }

  /** The heading loop over all paragraphs. Its latch is on from the first
      level 1 heading that is not passed over. */
  function HeadingCheck(ps: seq<Paragraph>): Checked
    decreases |ps|
  {
    if ps == [] then Pass([])
    else
      var init := ps[..|ps| - 1];
      Then(HeadingCheck(init), HeadingRule(ps[|ps| - 1], FirstIndex(init, CheckedLevel1).None?))
  }

  /** `x` is the issue a badly formatted heading `p` reports. */
  predicate ReportsHeading(p: Paragraph, x: Issue) {
    !HeadingSkipped(p) && IsHeadingStyle(p.style) && x == LevelIssue(p)
  }

  /** Once the heading loop has raised on a prefix, later paragraphs change nothing. */
  lemma {:induction false} HeadingCheckStops(ps: seq<Paragraph>, k: nat)
    requires k <= |ps|
    requires HeadingCheck(ps[..k]).crash.Some?
    ensures HeadingCheck(ps) == HeadingCheck(ps[..k])
    decreases |ps|
  {
    if |ps| > k {
      var init := ps[..|ps| - 1];
      assert init[..k] == ps[..k];
      HeadingCheckStops(init, k);
    } else {
      assert ps[..k] == ps;
    }
  }

  lemma HeadingRuleShape(p: Paragraph, firstLevel1: bool)
    ensures |HeadingRule(p, firstLevel1).issues| <= 1
    ensures forall x | x in HeadingRule(p, firstLevel1).issues :: ReportsHeading(p, x)
    ensures HeadingRule(p, firstLevel1).crash.Some? <==> HeadingFaults(p)
    ensures HeadingRule(p, firstLevel1).crash.Some? ==> HeadingRule(p, firstLevel1) == Checked([], Some(EmptyHeadingText))
  {
  }

  /** The heading rule as a step of a latched run: the latch is on once a
      level 1 heading that is not passed over has been seen. */
  function LatchedHeadingRule(): (Paragraph, bool) -> Checked {
    (p: Paragraph, seen: bool) => HeadingRule(p, !seen)
  }

  lemma {:induction false} HeadingCheckLatch(ps: seq<Paragraph>)
    ensures HeadingCheck(ps) == LatchThen(LatchedHeadingRule(), CheckedLevel1, ps)
    decreases |ps|
  {
    if ps != [] {
      HeadingCheckLatch(ps[..|ps| - 1]);
    }
  }

  /** Every heading issue names a paragraph that was not passed over and has
      that heading level. */
  lemma HeadingIssueSource(ps: seq<Paragraph>)
    ensures forall x | x in HeadingCheck(ps).issues :: exists i | 0 <= i < |ps| :: ReportsHeading(ps[i], x)
  {
    HeadingCheckLatch(ps);
    forall x | x in HeadingCheck(ps).issues
      ensures exists i | 0 <= i < |ps| :: ReportsHeading(ps[i], x)
    {
      LatchThenMember(LatchedHeadingRule(), CheckedLevel1, ps, x);
      var i :| 0 <= i < |ps| && x in LatchedHeadingRule()(ps[i], FirstIndex(ps[..i], CheckedLevel1).Some?).issues;
      HeadingRuleShape(ps[i], !FirstIndex(ps[..i], CheckedLevel1).Some?);
    }
  }

  /** A level 1 issue is reported only for a level 1 heading that is not passed
      over, and only while the latch is off. */
  lemma HeadingRuleLevel1(p: Paragraph, firstLevel1: bool, y: Issue)
    requires y in HeadingRule(p, firstLevel1).issues && y.Level1Heading?
    ensures firstLevel1 && CheckedLevel1(p)
  {
  }

  predicate IsLevel1Issue(x: Issue) {
    x.Level1Heading?
  }

  /** At most one "first level 1 heading" issue is reported. If one is reported,
      the document has a level 1 heading that is not passed over. */
  lemma Level1AtMostOnce(ps: seq<Paragraph>)
    ensures forall i, j | 0 <= i < j < |HeadingCheck(ps).issues| ::
      !(HeadingCheck(ps).issues[i].Level1Heading? && HeadingCheck(ps).issues[j].Level1Heading?)
    ensures (exists i | 0 <= i < |HeadingCheck(ps).issues| :: HeadingCheck(ps).issues[i].Level1Heading?) ==>
      FirstIndex(ps, CheckedLevel1).Some?
  {
    HeadingCheckLatch(ps);
    forall i | 0 <= i < |ps|
      ensures |LatchedHeadingRule()(ps[i], FirstIndex(ps[..i], CheckedLevel1).Some?).issues| <= 1
    {
      HeadingRuleShape(ps[i], !FirstIndex(ps[..i], CheckedLevel1).Some?);
    }
    forall i, y | 0 <= i < |ps| && y in LatchedHeadingRule()(ps[i], FirstIndex(ps[..i], CheckedLevel1).Some?).issues && IsLevel1Issue(y)
      ensures FirstIndex(ps[..i], CheckedLevel1).None? && CheckedLevel1(ps[i])
    {
      HeadingRuleLevel1(ps[i], !FirstIndex(ps[..i], CheckedLevel1).Some?, y);
    }
    LatchThenOnce(LatchedHeadingRule(), CheckedLevel1, ps, IsLevel1Issue);
  }

  /** A level 2 to 5 heading fails its level's test: the alignment, bold and
      italic tests of its level, and for levels 4 and 5 a last character other
      than a period. */
  predicate LowerLevelFails(p: Paragraph) {
    var leftBold := p.alignment == Left && IsOn(p.bold);
    var period := p.text != [] && p.text[|p.text| - 1] == '.';
    if p.style == "Heading 2" then !leftBold
    else if p.style == "Heading 3" then !leftBold || !IsOn(p.italic)
    else if p.style == "Heading 4" then !leftBold || (p.text != [] && !period)
    else if p.style == "Heading 5" then !leftBold || !IsOn(p.italic) || (p.text != [] && !period)
    else false
  }

  /** One paragraph: a level 2 to 5 heading that is not passed over and fails
      its test is reported, unless its text check raises. */
  lemma LowerLevelReported(p: Paragraph, firstLevel1: bool)
    requires !HeadingSkipped(p) && LowerLevelFails(p)
    ensures IsHeadingStyle(p.style)
    ensures HeadingRule(p, firstLevel1).crash.None? ==> LevelIssue(p) in HeadingRule(p, firstLevel1).issues
  {
  }

  /** One paragraph: a level 1 heading that is not passed over is reported
      while the latch is off exactly when it is not centred or not bold. */
  lemma Level1Reported(p: Paragraph)
    requires CheckedLevel1(p)
    ensures Level1Heading(p.text) in HeadingRule(p, true).issues <==> p.alignment != Center || !IsOn(p.bold)
  {
  }

  /** When the heading loop does not raise, every level 2 to 5 heading that is
      not passed over and fails its test is reported, naming its text. */
  lemma HeadingReported(ps: seq<Paragraph>, i: nat)
    requires HeadingCheck(ps).crash.None?
    requires i < |ps| && !HeadingSkipped(ps[i]) && LowerLevelFails(ps[i])
    ensures IsHeadingStyle(ps[i].style) && LevelIssue(ps[i]) in HeadingCheck(ps).issues
  {
    HeadingCheckLatch(ps);
    var f := LatchedHeadingRule();
    var seen := FirstIndex(ps[..i], CheckedLevel1).Some?;
    LatchThenCrash(f, CheckedLevel1, ps);
    LowerLevelReported(ps[i], !seen);
    LatchThenIn(f, CheckedLevel1, ps, i, LevelIssue(ps[i]));
  }

  /** Only the first level 1 heading that is not passed over is judged: when the
      loop does not raise, its issue is reported exactly when it is not centred
      or not bold. */
  lemma FirstLevel1Rule(ps: seq<Paragraph>, k: nat)
    requires HeadingCheck(ps).crash.None?
    requires FirstIndex(ps, CheckedLevel1) == Some(k)
    ensures Level1Heading(ps[k].text) in HeadingCheck(ps).issues <==>
      ps[k].alignment != Center || !IsOn(ps[k].bold)
  {
    HeadingCheckLatch(ps);
    var f := LatchedHeadingRule();
    var x := Level1Heading(ps[k].text);
    FirstIndexBefore(ps, CheckedLevel1, k);
    Level1Reported(ps[k]);
    if ps[k].alignment != Center || !IsOn(ps[k].bold) {
      LatchThenIn(f, CheckedLevel1, ps, k, x);
    } else if x in LatchThen(f, CheckedLevel1, ps).issues {
      LatchThenMember(f, CheckedLevel1, ps, x);
      var i :| 0 <= i < |ps| && x in f(ps[i], FirstIndex(ps[..i], CheckedLevel1).Some?).issues;
      HeadingRuleLevel1(ps[i], !FirstIndex(ps[..i], CheckedLevel1).Some?, x);
      FirstIndexUnique(ps, CheckedLevel1, i, k);
    }
  }

  /** The heading loop raises exactly when some paragraph is a level 4 or 5
      heading with empty text that passes the earlier tests. */
  lemma HeadingFaultIff(ps: seq<Paragraph>)
    ensures HeadingCheck(ps).crash.Some? <==> exists i | 0 <= i < |ps| :: HeadingFaults(ps[i])
    ensures HeadingCheck(ps).crash.Some? ==> HeadingCheck(ps).crash == Some(EmptyHeadingText)
  {
    HeadingCheckLatch(ps);
    LatchThenCrash(LatchedHeadingRule(), CheckedLevel1, ps);
    forall i | 0 <= i < |ps|
      ensures LatchedHeadingRule()(ps[i], FirstIndex(ps[..i], CheckedLevel1).Some?).crash.Some? <==> HeadingFaults(ps[i])
    {
      HeadingRuleShape(ps[i], !FirstIndex(ps[..i], CheckedLevel1).Some?);
    }
    if HeadingCheck(ps).crash.Some? {
      LatchThenCrashFrom(LatchedHeadingRule(), CheckedLevel1, ps);
      var i :| 0 <= i < |ps| && HeadingCheck(ps).crash == LatchedHeadingRule()(ps[i], FirstIndex(ps[..i], CheckedLevel1).Some?).crash;
      HeadingRuleShape(ps[i], !FirstIndex(ps[..i], CheckedLevel1).Some?);
    }
  }

  // ---------------------------------------------------------------- tables

  /** Whether the first run of the first paragraph of some cell is bold. The cells
      are tested left to right and the scan stops at the first bold one. A cell
      with no paragraph, or whose first paragraph has no run, raises when it is
      reached. */
  function AnyFirstRunBold(cells: seq<Cell>): Result<bool, Fault>
    decreases |cells|
  {
    if cells == [] then Success(false)
    else
      var c := cells[0];
      if c.paragraphs == [] then Failure(CellWithoutParagraphs)
      else if c.paragraphs[0].runs == [] then Failure(ParagraphWithoutRuns)
      else if IsOn(c.paragraphs[0].runs[0].bold) then Success(true)
      else AnyFirstRunBold(cells[1..])
  }

  /** The title test on the first cell and the bold test on all cells of one row. */
  function RowFormat(row: Row): Checked {
    if row.cells == [] then Checked([], Some(RowWithoutCells))
    else
      var head := row.cells[0];
      if head.paragraphs == [] then Checked([], Some(CellWithoutParagraphs))
      else
        var title :=
          if !Blank(head.paragraphs[0].text) && head.paragraphs[0].alignment != Left then [TableTitleNotLeft] else [];
        match AnyFirstRunBold(row.cells)
        case Failure(f) => Checked(title, Some(f))
        case Success(bold) => Pass(title + if bold then [TableHeadingBold] else [])
  }

  function CellBorderIssues(cells: seq<Cell>, rowText: string): seq<Issue>
    decreases |cells|
  {
    if cells == [] then []
    else
      CellBorderIssues(cells[..|cells| - 1], rowText)
      + if cells[|cells| - 1].hasVAlign then [TableVerticalBorders(rowText)] else []
  }

  function RowBorderIssues(row: Row): seq<Issue> {
    CellBorderIssues(row.cells, row.text)
  }

  /** The numbering test: the first six characters of the first cell's stripped
      text, lower-cased, must read "table". */
  function NumberingCheck(t: Table): Checked {
    if t.rows == [] then Checked([], Some(TableWithoutRows))
    else if t.rows[0].cells == [] then Checked([], Some(RowWithoutCells))
    else Pass(if Lower(Take(Strip(CellText(t.rows[0].cells[0])), 6)) != "table" then [TableNumbering] else [])
  }

  /** One table: the row loop, then the border loop, then the numbering test. */
  function TableCheck(t: Table): Checked {
    Then(Then(Collect(RowFormat, t.rows), Pass(ConcatMap(RowBorderIssues, t.rows))), NumberingCheck(t))
  }

  function TablesCheck(ts: seq<Table>): Checked {
    Collect(TableCheck, ts)
  }

  /** The numbering issue is reported unless the first cell's stripped text is
      exactly "table", ignoring case. A label such as "Table 1" is reported. */
  lemma TableNumberingRule(t: Table)
    requires t.rows != [] && t.rows[0].cells != []
    ensures NumberingCheck(t).crash.None?
    ensures NumberingCheck(t).issues ==
      if Lower(Strip(CellText(t.rows[0].cells[0]))) == "table" then [] else [TableNumbering]
  {
    var s := Strip(CellText(t.rows[0].cells[0]));
    if |s| >= 6 {
      assert |Lower(Take(s, 6))| == 6;
      assert |Lower(s)| >= 6;
    } else {
      assert Take(s, 6) == s;
    }
  }

  /** A table whose first cell holds the single paragraph "Table 1" is reported
      as not numbered: the check compares six characters with the five of "table". */
  lemma TableOneReported(t: Table)
    requires t.rows != [] && t.rows[0].cells != []
    requires |t.rows[0].cells[0].paragraphs| == 1 && t.rows[0].cells[0].paragraphs[0].text == "Table 1"
    ensures NumberingCheck(t) == Pass([TableNumbering])
  {
    var c := t.rows[0].cells[0];
    assert CellText(c) == "Table 1";
    StripUnpadded("Table 1");
    assert |Lower(Take(Strip(CellText(c)), 6))| == 6;
  }

  /** Every cell has a paragraph and every cell's first paragraph has a run. */
  predicate WellFormedRow(row: Row) {
    row.cells != []
    && forall i | 0 <= i < |row.cells| :: row.cells[i].paragraphs != [] && row.cells[i].paragraphs[0].runs != []
  }

  lemma {:induction false} AnyFirstRunBoldRule(cells: seq<Cell>)
    requires forall i | 0 <= i < |cells| :: cells[i].paragraphs != [] && cells[i].paragraphs[0].runs != []
    ensures AnyFirstRunBold(cells) ==
      Success(exists i | 0 <= i < |cells| :: IsOn(cells[i].paragraphs[0].runs[0].bold))
    decreases |cells|
  {
    if cells != [] {
      AnyFirstRunBoldRule(cells[1..]);
      assert forall i | 1 <= i < |cells| :: cells[i] == cells[1..][i - 1];
    }
  }

  /** On a well-formed row the bold test does not raise. It reports the row
      exactly when some cell's first run is bold. It flags bold where bold is
      present, not where it is missing. */
  lemma HeadingBoldRule(row: Row)
    requires WellFormedRow(row)
    ensures RowFormat(row).crash.None?
    ensures TableHeadingBold in RowFormat(row).issues <==>
      exists i | 0 <= i < |row.cells| :: IsOn(row.cells[i].paragraphs[0].runs[0].bold)
  {
    AnyFirstRunBoldRule(row.cells);
  }

  predicate WellFormedTable(t: Table) {
    t.rows != [] && forall i | 0 <= i < |t.rows| :: WellFormedRow(t.rows[i])
  }

  /** A table with no row raises at the numbering test, after its two loops
      found nothing. A well-formed table never raises. */
  lemma TableFaultRule(t: Table)
    ensures t.rows == [] ==> TableCheck(t) == Checked([], Some(TableWithoutRows))
    ensures WellFormedTable(t) ==> TableCheck(t).crash.None?
  {
    if WellFormedTable(t) {
      forall i | 0 <= i < |t.rows| ensures RowFormat(t.rows[i]).crash.None? {
        HeadingBoldRule(t.rows[i]);
      }
      CollectCrashIff(RowFormat, t.rows);
    }
  }

  // ---------------------------------------------------------------- figures

  predicate MentionsFigure(p: Paragraph) { Contains(Lower(p.text), "figure") }

  function FigureParagraphIssues(p: Paragraph, pat: Patterns): seq<Issue> {
    if MentionsFigure(p) then
      (if !pat.figureNumber(p.text) then [FigureNumbering] else [])
      + (if !pat.captionTail(p.text) then [FigureCaption(p.text)] else [])
    else []
  }

  function FigureIssues(ps: seq<Paragraph>, pat: Patterns): seq<Issue>
    decreases |ps|
  {
    if ps == [] then []
    else FigureIssues(ps[..|ps| - 1], pat) + FigureParagraphIssues(ps[|ps| - 1], pat)
  }

  /** The caption issue quoting `t` is reported exactly when a paragraph with
      text `t` mentions "figure" and fails the caption pattern. */
  lemma {:induction false} FigureCaptionRule(ps: seq<Paragraph>, pat: Patterns, t: string)
    ensures FigureCaption(t) in FigureIssues(ps, pat) <==>
      exists i | 0 <= i < |ps| :: ps[i].text == t && MentionsFigure(ps[i]) && !pat.captionTail(t)
    decreases |ps|
  {
    if ps != [] {
      var init := ps[..|ps| - 1];
      FigureCaptionRule(init, pat, t);
      assert forall i | 0 <= i < |init| :: init[i] == ps[i];
    }
  }

  // ---------------------------------------------------------------- the check

  function MainTextResult(doc: Document, pat: Patterns): Checked {
    var ps := doc.paragraphs;
    var pageBreak := PageBreakScan(ps, 0, false);
    if ps == [] then Checked(pageBreak, Some(NoParagraphs))
    else
      Then(Then(Then(Pass(pageBreak + RepeatedTitleIssues(ps[0]) + CitationsIssues(ps, pat)),
                     HeadingCheck(ps)),
                TablesCheck(doc.tables)),
           Pass(FigureIssues(ps, pat)))
  }

  /** A document without paragraphs raises at its first paragraph before any
      main-text issue is reported. */
  lemma MainTextWithoutParagraphs(doc: Document, pat: Patterns)
    requires doc.paragraphs == []
    ensures MainTextResult(doc, pat) == Checked([], Some(NoParagraphs))
  {
  }

  /** The main-text check raises only at the sites named by the faults: no
      paragraph, an empty level 4 or 5 heading, or a badly formed table. */
  lemma MainTextFaultRule(doc: Document, pat: Patterns)
    ensures MainTextResult(doc, pat).crash.Some? <==>
      doc.paragraphs == []
      || (exists i | 0 <= i < |doc.paragraphs| :: HeadingFaults(doc.paragraphs[i]))
      || (exists i | 0 <= i < |doc.tables| :: TableCheck(doc.tables[i]).crash.Some?)
  {
    HeadingFaultIff(doc.paragraphs);
    CollectCrashIff(TableCheck, doc.tables);
  }

  // ---------------------------------------------------------------- loop steps

  /* One step of each loop of the check: the issues after element `k` are the
     issues before it followed by that element's issues. The class methods
     keep their lists in this form. */

  lemma CitationsStep(ps: seq<Paragraph>, pat: Patterns, i: nat, base: seq<Issue>, before: seq<Issue>, after: seq<Issue>)
    requires i < |ps|
    requires before == base + CitationsIssues(ps[..i], pat)
    requires after == before + ParagraphCitationIssues(ps[i], pat)
    ensures after == base + CitationsIssues(ps[..i + 1], pat)
  {
    assert ps[..i + 1][..i] == ps[..i];
    AppendAssoc(base, CitationsIssues(ps[..i], pat), ParagraphCitationIssues(ps[i], pat));
  }

  lemma GroupsStep(groups: seq<string>, pat: Patterns, k: nat, base: seq<Issue>, before: seq<Issue>, after: seq<Issue>)
    requires k < |groups|
    requires before == base + GroupsIssues(groups[..k], pat)
    requires after == before + CitationIssues(groups[k], pat)
    ensures after == base + GroupsIssues(groups[..k + 1], pat)
  {
    assert groups[..k + 1][..k] == groups[..k];
    AppendAssoc(base, GroupsIssues(groups[..k], pat), CitationIssues(groups[k], pat));
  }

  lemma HeadingStep(ps: seq<Paragraph>, i: nat, base: seq<Issue>, before: seq<Issue>, after: seq<Issue>, fault: Option<Fault>)
    requires i < |ps|
    requires before == base + HeadingCheck(ps[..i]).issues && HeadingCheck(ps[..i]).crash.None?
    requires after == before + HeadingRule(ps[i], FirstIndex(ps[..i], CheckedLevel1).None?).issues
    requires fault == HeadingRule(ps[i], FirstIndex(ps[..i], CheckedLevel1).None?).crash
    ensures fault.None? ==> after == base + HeadingCheck(ps[..i + 1]).issues && HeadingCheck(ps[..i + 1]).crash.None?
    ensures fault.Some? ==> after == base + HeadingCheck(ps).issues && fault == HeadingCheck(ps).crash
  {
    var rule := HeadingRule(ps[i], FirstIndex(ps[..i], CheckedLevel1).None?);
    HeadingCheckAt(ps, i);
    ThenStep(HeadingCheck(ps[..i]), rule, base, before, after, fault);
    if fault.Some? {
      HeadingCheckStops(ps, i + 1);
    }
  }

  lemma HeadingCheckAt(ps: seq<Paragraph>, i: nat)
    requires i < |ps|
    ensures HeadingCheck(ps[..i + 1]) ==
      Then(HeadingCheck(ps[..i]), HeadingRule(ps[i], FirstIndex(ps[..i], CheckedLevel1).None?))
  {
    HeadingCheckLatch(ps[..i + 1]);
    HeadingCheckLatch(ps[..i]);
    LatchThenAt(LatchedHeadingRule(), CheckedLevel1, ps, i);
  }

  lemma CellBordersStep(cells: seq<Cell>, rowText: string, c: nat, base: seq<Issue>, before: seq<Issue>, after: seq<Issue>)
    requires c < |cells|
    requires before == base + CellBorderIssues(cells[..c], rowText)
    requires after == before + if cells[c].hasVAlign then [TableVerticalBorders(rowText)] else []
    ensures after == base + CellBorderIssues(cells[..c + 1], rowText)
  {
    assert cells[..c + 1][..c] == cells[..c];
    AppendAssoc(base, CellBorderIssues(cells[..c], rowText), if cells[c].hasVAlign then [TableVerticalBorders(rowText)] else []);
  }

  lemma FiguresStep(ps: seq<Paragraph>, pat: Patterns, i: nat, base: seq<Issue>, before: seq<Issue>, after: seq<Issue>)
    requires i < |ps|
    requires before == base + FigureIssues(ps[..i], pat)
    requires after == before + FigureParagraphIssues(ps[i], pat)
    ensures after == base + FigureIssues(ps[..i + 1], pat)
  {
    assert ps[..i + 1][..i] == ps[..i];
    AppendAssoc(base, FigureIssues(ps[..i], pat), FigureParagraphIssues(ps[i], pat));
  }

  /** The check on a document with paragraphs, as the four stages the class
      method runs one after the other. */
  lemma MainTextStages(doc: Document, pat: Patterns)
    requires doc.paragraphs != []
    ensures MainTextResult(doc, pat) ==
      Then(Then(Then(Pass(PageBreakScan(doc.paragraphs, 0, false) + RepeatedTitleIssues(doc.paragraphs[0])
                          + CitationsIssues(doc.paragraphs, pat)),
                     HeadingCheck(doc.paragraphs)),
                TablesCheck(doc.tables)),
           Pass(FigureIssues(doc.paragraphs, pat)))
  {
  }
}
