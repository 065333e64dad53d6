/** The order of the reported issues: all font issues come first, then all
    margin issues, and so on, in the order the checks run. */
module Ordering {
  import opened Wrappers
  import opened Text
  import opened DocModel
  import opened Issues
  import opened Scans
  import opened LayoutRules
  import opened FrontMatterRules
  import opened MainTextRules
  import opened BackMatterRules
  import opened Validation

  /** The checks, in the order they run. */
  const CheckOrder: seq<Check> :=
    [ FontCheck, MarginsCheck, SpacingCheck, StructureCheck, TitlePageCheck,
      AbstractCheck, KeywordsCheck, MainTextCheck, ReferencesCheck, HeaderCheck ]

  /** The issues are grouped by check, in the order the checks run. */
  predicate Ordered(xs: seq<Issue>) {
    forall i, j | 0 <= i < j < |xs| :: Rank(CheckOf(xs[i])) <= Rank(CheckOf(xs[j]))
  }

  predicate RanksBelow(xs: seq<Issue>, n: nat) {
    forall x | x in xs :: Rank(CheckOf(x)) < n
  }

  // Which check each rule's issues belong to. A "From" lemma states it for one
  // rule; where the rule's list is built in several steps, a membership lemma
  // first names the constructors it can append.

  lemma CitationFrom(group: string, pat: Patterns)
    ensures AllFrom(CitationIssues(group, pat), MainTextCheck)
  {
    var authors := Authors(group);
    var quote := Contains(group, "p.") && !pat.quotePage(group);
    FlagFrom(quote, [QuotePageMissing], MainTextCheck);
    AllFromAppend([EtAlFormat], if quote then [QuotePageMissing] else [], MainTextCheck);
    FlagFrom(Contains(group, "et al.") && |Words(authors)| == 1,
      [EtAlFormat] + (if quote then [QuotePageMissing] else []), MainTextCheck);
    FlagFrom('&' in authors && |Split(authors, '&')| > 2, [TooManyAuthorsNamed], MainTextCheck);
  }

  lemma {:induction false} GroupsFrom(groups: seq<string>, pat: Patterns)
    ensures AllFrom(GroupsIssues(groups, pat), MainTextCheck)
    decreases |groups|
  {
    if groups != [] {
      var init := groups[..|groups| - 1];
      var last := groups[|groups| - 1];
      GroupsFrom(init, pat);
      CitationFrom(last, pat);
      AllFromAppend(GroupsIssues(init, pat), CitationIssues(last, pat), MainTextCheck);
    }
  }

  lemma {:induction false} CitationsFrom(ps: seq<Paragraph>, pat: Patterns)
    ensures AllFrom(CitationsIssues(ps, pat), MainTextCheck)
    decreases |ps|
  {
    if ps != [] {
      var init := ps[..|ps| - 1];
      var last := ps[|ps| - 1];
      CitationsFrom(init, pat);
      GroupsFrom(pat.citationGroups(last.text), pat);
      AllFromAppend(CitationsIssues(init, pat), ParagraphCitationIssues(last, pat), MainTextCheck);
    }
  }

  lemma HeadingRuleFrom(p: Paragraph, firstLevel1: bool)
    ensures AllFrom(HeadingRule(p, firstLevel1).issues, MainTextCheck)
  {
    HeadingRuleShape(p, firstLevel1);
    forall x | x in HeadingRule(p, firstLevel1).issues ensures CheckOf(x) == MainTextCheck {
      assert ReportsHeading(p, x);
    }
  }

  lemma {:induction false} HeadingsFrom(ps: seq<Paragraph>)
    ensures AllFrom(HeadingCheck(ps).issues, MainTextCheck)
    decreases |ps|
  {
    if ps != [] {
      var init := ps[..|ps| - 1];
      HeadingsFrom(init);
      HeadingRuleFrom(ps[|ps| - 1], FirstIndex(init, CheckedLevel1).None?);
      ThenFrom(HeadingCheck(init), HeadingRule(ps[|ps| - 1], FirstIndex(init, CheckedLevel1).None?), MainTextCheck);
    }
  }

  lemma ThenFrom(a: Checked, b: Checked, c: Check)
    requires AllFrom(a.issues, c) && AllFrom(b.issues, c)
    ensures AllFrom(Then(a, b).issues, c)
  {
    AllFromAppend(a.issues, b.issues, c);
  }

  lemma RowFormatMembers(row: Row, x: Issue)
    requires x in RowFormat(row).issues
    ensures x == TableTitleNotLeft || x == TableHeadingBold
  {
  }

  lemma RowFormatFrom(row: Row)
    ensures AllFrom(RowFormat(row).issues, MainTextCheck)
  {
    forall x | x in RowFormat(row).issues ensures CheckOf(x) == MainTextCheck {
      RowFormatMembers(row, x);
    }
  }

  lemma {:induction false} CellBordersMembers(cells: seq<Cell>, rowText: string, x: Issue)
    requires x in CellBorderIssues(cells, rowText)
    ensures x == TableVerticalBorders(rowText)
    decreases |cells|
  {
    if x in CellBorderIssues(cells[..|cells| - 1], rowText) {
      CellBordersMembers(cells[..|cells| - 1], rowText, x);
    }
  }

  lemma RowBordersFrom(row: Row)
    ensures AllFrom(RowBorderIssues(row), MainTextCheck)
  {
    forall x | x in RowBorderIssues(row) ensures CheckOf(x) == MainTextCheck {
      CellBordersMembers(row.cells, row.text, x);
    }
  }

  lemma NumberingFrom(t: Table)
    ensures AllFrom(NumberingCheck(t).issues, MainTextCheck)
  {
  }

  lemma TableFrom(t: Table)
    ensures AllFrom(TableCheck(t).issues, MainTextCheck)
  {
    forall row: Row ensures AllFrom(RowFormat(row).issues, MainTextCheck) {
      RowFormatFrom(row);
    }
    forall row: Row ensures AllFrom(RowBorderIssues(row), MainTextCheck) {
      RowBordersFrom(row);
    }
    CollectFrom(RowFormat, t.rows, MainTextCheck);
    ConcatMapFrom(RowBorderIssues, t.rows, MainTextCheck);
    var rows := Collect(RowFormat, t.rows);
    var borders := Pass(ConcatMap(RowBorderIssues, t.rows));
    ThenFrom(rows, borders, MainTextCheck);
    NumberingFrom(t);
    ThenFrom(Then(rows, borders), NumberingCheck(t), MainTextCheck);
  }

  lemma FigureMembers(p: Paragraph, pat: Patterns, x: Issue)
    requires x in FigureParagraphIssues(p, pat)
    ensures x == FigureNumbering || x == FigureCaption(p.text)
  {
  }

  lemma FigureFrom(p: Paragraph, pat: Patterns)
    ensures AllFrom(FigureParagraphIssues(p, pat), MainTextCheck)
  {
    forall x | x in FigureParagraphIssues(p, pat) ensures CheckOf(x) == MainTextCheck {
      FigureMembers(p, pat, x);
    }
  }

  lemma {:induction false} FiguresFrom(ps: seq<Paragraph>, pat: Patterns)
    ensures AllFrom(FigureIssues(ps, pat), MainTextCheck)
    decreases |ps|
  {
    if ps != [] {
      var init := ps[..|ps| - 1];
      FiguresFrom(init, pat);
      FigureFrom(ps[|ps| - 1], pat);
      AllFromAppend(FigureIssues(init, pat), FigureParagraphIssues(ps[|ps| - 1], pat), MainTextCheck);
    }
  }

  lemma CitationPartFrom(ps: seq<Paragraph>, pat: Patterns)
    requires ps != []
    ensures AllFrom(PageBreakScan(ps, 0, false) + RepeatedTitleIssues(ps[0]) + CitationsIssues(ps, pat), MainTextCheck)
  {
    PageBreakRuleInert(ps, 0, false);
    CitationsFrom(ps, pat);
    RepeatedTitleFrom(ps[0]);
    AllFromAppend(RepeatedTitleIssues(ps[0]), CitationsIssues(ps, pat), MainTextCheck);
    AllFromAppend([], RepeatedTitleIssues(ps[0]) + CitationsIssues(ps, pat), MainTextCheck);
  }

  lemma RepeatedTitleFrom(p: Paragraph)
    ensures AllFrom(RepeatedTitleIssues(p), MainTextCheck)
  {
  }

  lemma TablesFrom(ts: seq<Table>)
    ensures AllFrom(TablesCheck(ts).issues, MainTextCheck)
  {
    forall t: Table ensures AllFrom(TableCheck(t).issues, MainTextCheck) {
      TableFrom(t);
    }
    CollectFrom(TableCheck, ts, MainTextCheck);
  }

  lemma MainTextFrom(doc: Document, pat: Patterns)
    ensures AllFrom(MainTextResult(doc, pat).issues, MainTextCheck)
  {
    var ps := doc.paragraphs;
    if ps == [] {
      PageBreakRuleInert(ps, 0, false);
    } else {
      var a := Pass(PageBreakScan(ps, 0, false) + RepeatedTitleIssues(ps[0]) + CitationsIssues(ps, pat));
      CitationPartFrom(ps, pat);
      HeadingsFrom(ps);
      ThenFrom(a, HeadingCheck(ps), MainTextCheck);
      TablesFrom(doc.tables);
      ThenFrom(Then(a, HeadingCheck(ps)), TablesCheck(doc.tables), MainTextCheck);
      FiguresFrom(ps, pat);
      ThenFrom(Then(Then(a, HeadingCheck(ps)), TablesCheck(doc.tables)), Pass(FigureIssues(ps, pat)), MainTextCheck);
    }
  }

  lemma TitleFormatFrom(p: Paragraph)
    ensures AllFrom(TitleFormatIssues(p), ReferencesCheck)
  {
  }

  lemma EntryFrom(p: Paragraph, pat: Patterns)
    ensures AllFrom(EntryIssues(p, pat), ReferencesCheck)
  {
    if !Blank(p.text) {
      var text := Strip(p.text);
      FlagFrom(!DoubleSpaced(p.lineSpacing), [ReferenceNotDoubleSpaced], ReferencesCheck);
      FlagFrom(!MatchesReferencePattern(text, pat), [ReferenceFormat(text)], ReferencesCheck);
      FlagFrom(p.firstLineIndent != Some(-HalfInch), [ReferenceIndent], ReferencesCheck);
    }
  }

  lemma ReferenceParagraphFrom(p: Paragraph, afterTitle: bool, pat: Patterns)
    ensures AllFrom(ReferenceParagraphIssues(p, afterTitle, pat), ReferencesCheck)
  {
    TitleFormatFrom(p);
    EntryFrom(p, pat);
  }

  lemma {:induction false} ReferencesBodyFrom(ps: seq<Paragraph>, pat: Patterns)
    ensures AllFrom(ReferencesBody(ps, pat), ReferencesCheck)
    decreases |ps|
  {
    if ps != [] {
      var init := ps[..|ps| - 1];
      var last := ps[|ps| - 1];
      ReferencesBodyFrom(init, pat);
      ReferenceParagraphFrom(last, TitleSeen(init), pat);
      AllFromAppend(ReferencesBody(init, pat), ReferenceParagraphIssues(last, TitleSeen(init), pat), ReferencesCheck);
    }
  }

  lemma ReferencesFrom(ps: seq<Paragraph>, pat: Patterns)
    ensures AllFrom(ReferenceIssues(ps, pat), ReferencesCheck)
  {
    ReferencesBodyFrom(ps, pat);
    var tail: seq<Issue> := if TitleSeen(ps) then [] else [ReferencesNotFound];
    assert AllFrom(tail, ReferencesCheck);
    AllFromAppend(ReferencesBody(ps, pat), tail, ReferencesCheck);
  }

  lemma HeaderParagraphFrom(p: Paragraph)
    ensures AllFrom(HeaderParagraphIssues(p), HeaderCheck)
  {
  }

  lemma HeaderParagraphsFrom(header: seq<Paragraph>)
    ensures AllFrom(ConcatMap(HeaderParagraphIssues, header), HeaderCheck)
  {
    forall p: Paragraph ensures AllFrom(HeaderParagraphIssues(p), HeaderCheck) {
      HeaderParagraphFrom(p);
    }
    ConcatMapFrom(HeaderParagraphIssues, header, HeaderCheck);
  }

  lemma SectionHeaderFrom(s: Section)
    ensures AllFrom(SectionHeaderIssues(s), HeaderCheck)
  {
    HeaderParagraphsFrom(s.header);
  }

  lemma HeaderFrom(ss: seq<Section>)
    ensures AllFrom(HeaderIssues(ss), HeaderCheck)
  {
    forall s: Section ensures AllFrom(SectionHeaderIssues(s), HeaderCheck) {
      SectionHeaderFrom(s);
    }
    ConcatMapFrom(SectionHeaderIssues, ss, HeaderCheck);
  }

  lemma FontFrom(ps: seq<Paragraph>)
    ensures AllFrom(FontIssues(ps), FontCheck)
  {
    forall r: Run ensures AllFrom(RunFontIssues(r), FontCheck) { }
    forall p: Paragraph ensures AllFrom(ParagraphFontIssues(p), FontCheck) {
      ConcatMapFrom(RunFontIssues, p.runs, FontCheck);
    }
    ConcatMapFrom(ParagraphFontIssues, ps, FontCheck);
  }

  lemma MarginsFrom(ss: seq<Section>)
    ensures AllFrom(MarginCheck(ss).issues, MarginsCheck)
  {
    forall s: Section ensures AllFrom(SectionMargins(s).issues, MarginsCheck) { }
    CollectFrom(SectionMargins, ss, MarginsCheck);
  }

  lemma SpacingFrom(ps: seq<Paragraph>)
    ensures AllFrom(SpacingIssues(ps), SpacingCheck)
  {
    forall p: Paragraph ensures AllFrom(ParagraphSpacingIssues(p), SpacingCheck) { }
    ConcatMapFrom(ParagraphSpacingIssues, ps, SpacingCheck);
  }

  lemma StructureFrom(ps: seq<Paragraph>)
    ensures AllFrom(StructureIssues(ps), StructureCheck)
  {
  }

  lemma TitleFrom(first: seq<Paragraph>)
    ensures AllFrom(TitleIssues(first), TitlePageCheck)
  {
  }

  lemma AuthorInfoFrom(first: seq<Paragraph>)
    ensures AllFrom(AuthorInfoIssues(first), TitlePageCheck)
  {
  }

  lemma AuthorNoteFrom(first: seq<Paragraph>)
    ensures AllFrom(AuthorNoteIssues(first), TitlePageCheck)
  {
  }

  lemma TitlePageFrom(ps: seq<Paragraph>)
    ensures AllFrom(TitlePageIssues(ps), TitlePageCheck)
  {
    var first := FirstPage(ps);
    TitleFrom(first);
    AuthorInfoFrom(first);
    AuthorNoteFrom(first);
    AllFromAppend(TitleIssues(first), AuthorInfoIssues(first), TitlePageCheck);
    AllFromAppend(TitleIssues(first) + AuthorInfoIssues(first), AuthorNoteIssues(first), TitlePageCheck);
  }

  lemma AbstractParagraphFrom(p: Paragraph)
    ensures AllFrom(AbstractParagraphIssues(p), AbstractCheck)
  {
  }

  lemma AbstractFrom(ps: seq<Paragraph>)
    ensures AllFrom(AbstractIssues(ps), AbstractCheck)
  {
    match FirstIndex(ps, MentionsAbstract)
    case None =>
    case Some(k) => AbstractParagraphFrom(ps[k]);
  }

  lemma KeywordsHeadingFrom(p: Paragraph)
    ensures AllFrom(KeywordsHeadingIssues(p), KeywordsCheck)
  {
  }

  lemma KeywordsContentFrom(ps: seq<Paragraph>)
    ensures AllFrom(KeywordsContentIssues(ps), KeywordsCheck)
  {
  }

  lemma KeywordsFrom(ps: seq<Paragraph>)
    ensures AllFrom(KeywordsIssues(ps), KeywordsCheck)
  {
    match FirstIndex(ps, MentionsKeywords)
    case None =>
    case Some(k) =>
      KeywordsHeadingFrom(ps[k]);
      KeywordsContentFrom(ps);
      AllFromAppend(KeywordsHeadingIssues(ps[k]), KeywordsContentIssues(ps), KeywordsCheck);
  }

  /** Each of the first seven checks appends only issues of its own kind. */
  lemma FrontStagesFrom(doc: Document, pat: Patterns)
    ensures AllFrom(Stages(doc, pat)[0].issues, CheckOrder[0])
    ensures AllFrom(Stages(doc, pat)[1].issues, CheckOrder[1])
    ensures AllFrom(Stages(doc, pat)[2].issues, CheckOrder[2])
    ensures AllFrom(Stages(doc, pat)[3].issues, CheckOrder[3])
    ensures AllFrom(Stages(doc, pat)[4].issues, CheckOrder[4])
    ensures AllFrom(Stages(doc, pat)[5].issues, CheckOrder[5])
    ensures AllFrom(Stages(doc, pat)[6].issues, CheckOrder[6])
  {
    LayoutStagesFrom(doc, pat);
    FrontMatterStagesFrom(doc, pat);
  }

  lemma LayoutStagesFrom(doc: Document, pat: Patterns)
    ensures AllFrom(Stages(doc, pat)[0].issues, CheckOrder[0])
    ensures AllFrom(Stages(doc, pat)[1].issues, CheckOrder[1])
    ensures AllFrom(Stages(doc, pat)[2].issues, CheckOrder[2])
    ensures AllFrom(Stages(doc, pat)[3].issues, CheckOrder[3])
  {
    FrontStages(doc, pat);
    FontFrom(doc.paragraphs);
    MarginsFrom(doc.sections);
    SpacingFrom(doc.paragraphs);
    StructureFrom(doc.paragraphs);
  }

  lemma FrontMatterStagesFrom(doc: Document, pat: Patterns)
    ensures AllFrom(Stages(doc, pat)[4].issues, CheckOrder[4])
    ensures AllFrom(Stages(doc, pat)[5].issues, CheckOrder[5])
    ensures AllFrom(Stages(doc, pat)[6].issues, CheckOrder[6])
  {
    FrontStages(doc, pat);
    TitlePageFrom(doc.paragraphs);
    AbstractFrom(doc.paragraphs);
    KeywordsFrom(doc.paragraphs);
  }

  /** Each of the last three checks appends only issues of its own kind. */
  lemma BackStagesFrom(doc: Document, pat: Patterns)
    ensures AllFrom(Stages(doc, pat)[7].issues, CheckOrder[7])
    ensures AllFrom(Stages(doc, pat)[8].issues, CheckOrder[8])
    ensures AllFrom(Stages(doc, pat)[9].issues, CheckOrder[9])
  {
    MainTextStage(doc, pat);
    BackStages(doc, pat);
    MainTextFrom(doc, pat);
    ReferencesFrom(doc.paragraphs, pat);
    HeaderFrom(doc.sections);
  }

  /** Appending the issues of the check at position `n` to an ordered list of
      issues from earlier checks keeps it ordered. */
  lemma OrderedThen(a: Checked, b: Checked, n: nat)
    requires n < |CheckOrder|
    requires Ordered(a.issues) && RanksBelow(a.issues, n)
    requires AllFrom(b.issues, CheckOrder[n])
    ensures Ordered(Then(a, b).issues) && RanksBelow(Then(a, b).issues, n + 1)
  {
    assert Rank(CheckOrder[n]) == n;
    if a.crash.None? {
      var xs := a.issues + b.issues;
      forall i, j | 0 <= i < j < |xs| ensures Rank(CheckOf(xs[i])) <= Rank(CheckOf(xs[j])) {
        if j >= |a.issues| {
          assert xs[j] in b.issues;
          if i < |a.issues| {
            assert xs[i] in a.issues;
          } else {
            assert xs[i] in b.issues;
          }
        }
      }
    }
  }

  lemma {:induction false} RunAllOrdered(stages: seq<Checked>)
    requires |stages| <= |CheckOrder|
    requires forall i | 0 <= i < |stages| :: AllFrom(stages[i].issues, CheckOrder[i])
    ensures Ordered(RunAll(stages).issues) && RanksBelow(RunAll(stages).issues, |stages|)
    decreases |stages|
  {
    if stages != [] {
      var n := |stages| - 1;
      var init := stages[..n];
      assert forall i | 0 <= i < |init| :: init[i] == stages[i];
      RunAllOrdered(init);
      OrderedThen(RunAll(init), stages[n], n);
    }
  }

  /** The validator reports the font issues first, then the margin issues, and
      so on through the header issues: the checks run one after another on the
      same list. */
  lemma ValidateOrdered(doc: Document, pat: Patterns)
    ensures Ordered(Validate(doc, pat).issues)
  {
    var st := Stages(doc, pat);
    FrontStagesFrom(doc, pat);
    BackStagesFrom(doc, pat);
    RunAllOrdered(st);
  }
}
