/** The validator object. Its one field is the list of issues, which every
    check appends to in place. Each method follows its check's loops
    statement by statement. Its contract ties the new list to the old one and
    to the specification function of that check. A check that can raise
    returns the exception it raised, and stops where the source would stop. */
module Validator {
  import opened Wrappers
  import opened Text
  import opened DocModel
  import opened Issues
  import opened Scans
  import opened LayoutRules
  import opened FrontMatterRules
  import opened MainTextRules
  import opened BackMatterRules
  import opened Validation

  class APAValidator {
    var issues: seq<Issue>

    constructor()
      ensures issues == []
    {
      issues := [];
    }

    // ---------------------------------------------------------------- font

    method CheckFont(doc: Document)
      modifies this
      ensures issues == old(issues) + FontIssues(doc.paragraphs)
    {
      var ps := doc.paragraphs;
      for i := 0 to |ps|
        invariant issues == old(issues) + ConcatMap(ParagraphFontIssues, ps[..i])
      {
        ghost var before := issues;
        CheckParagraphFont(ps[i]);
        ConcatMapStep(ParagraphFontIssues, ps, i, old(issues), before, issues);
      }
      assert ps[..|ps|] == ps;
    }

    /** The inner loop of the font check, over one paragraph's runs. */
    method CheckParagraphFont(p: Paragraph)
      modifies this
      ensures issues == old(issues) + ParagraphFontIssues(p)
    {
      var runs := p.runs;
      for j := 0 to |runs|
        invariant issues == old(issues) + ConcatMap(RunFontIssues, runs[..j])
      {
        ghost var before := issues;
        var r := runs[j];
        var added: seq<Issue> := [];
        if r.fontName != Some(TimesNewRoman) {
          added := added + [NotTimesNewRoman(r.text)];
        }
        if r.size.Some? && r.size.value != 0 && r.size.value != TwelvePoints {
          added := added + [FontSizeNot12(r.text)];
        }
        issues := issues + added;
        ConcatMapStep(RunFontIssues, runs, j, old(issues), before, issues);
      }
      assert runs[..|runs|] == runs;
    }

    // ---------------------------------------------------------------- margins

    /** Reading the size of an unset margin raises; the `or` chain reads the
        margins left, right, top, bottom and stops at the first that differs. */
    method CheckMargins(doc: Document) returns (fault: Option<Fault>)
      modifies this
      ensures issues == old(issues) + MarginCheck(doc.sections).issues
      ensures fault == MarginCheck(doc.sections).crash
    {
      var ss := doc.sections;
      for i := 0 to |ss|
        invariant issues == old(issues) + MarginCheck(ss[..i]).issues
        invariant MarginCheck(ss[..i]).crash.None?
      {
        var s := ss[i];
        var raised := false;
        var differs := false;
        if s.leftMargin.None? { raised := true; }
        else if s.leftMargin.value != EmuPerInch { differs := true; }
        else if s.rightMargin.None? { raised := true; }
        else if s.rightMargin.value != EmuPerInch { differs := true; }
        else if s.topMargin.None? { raised := true; }
        else if s.topMargin.value != EmuPerInch { differs := true; }
        else if s.bottomMargin.None? { raised := true; }
        else if s.bottomMargin.value != EmuPerInch { differs := true; }
        assert ss[..i + 1] == ss[..i] + [s];
        CollectSnoc(SectionMargins, ss[..i], s);
        if raised {
          CollectStops(SectionMargins, ss, i + 1);
          return Some(MarginUnset);
        }
        if differs {
          issues := issues + [MarginsNotOneInch];
        }
      }
      assert ss[..|ss|] == ss;
      return None;
    }

    // ---------------------------------------------------------------- line spacing

    method CheckLineSpacing(doc: Document)
      modifies this
      ensures issues == old(issues) + SpacingIssues(doc.paragraphs)
    {
      var ps := doc.paragraphs;
      for i := 0 to |ps|
        invariant issues == old(issues) + ConcatMap(ParagraphSpacingIssues, ps[..i])
      {
        ghost var before := issues;
        var p := ps[i];
        var added: seq<Issue> := [];
        if !Blank(p.text) {
          if !DoubleSpaced(p.lineSpacing) {
            added := added + [NotDoubleSpaced(p.text)];
          }
          if (p.spaceAfter.Some? && p.spaceAfter.value > 0) || (p.spaceBefore.Some? && p.spaceBefore.value > 0) {
            added := added + [ExtraSpace(p.text)];
          }
        }
        issues := issues + added;
        ConcatMapStep(ParagraphSpacingIssues, ps, i, old(issues), before, issues);
      }
      assert ps[..|ps|] == ps;
    }

    // ---------------------------------------------------------------- structure

    method CheckDocumentStructure(doc: Document)
      modifies this
      ensures issues == old(issues) + StructureIssues(doc.paragraphs)
    {
      var ps := doc.paragraphs;
      var found: seq<string> := [];
      for i := 0 to |ps|
        invariant (set m | m in found) == FoundSections(ps[..i])
        invariant issues == old(issues)
      {
        found := AddFoundNames(ps[i], found);
        FoundSectionsAt(ps, i);
      }
      assert ps[..|ps|] == ps;
      var missing := (set m | m in RequiredSections) - (set m | m in found);
      if missing != {} {
        issues := issues + [MissingSections(missing)];
      }
    }

    /** The inner loop of the structure check: the required names that one
        paragraph mentions, ignoring case, appended to the names found so far. */
    method AddFoundNames(p: Paragraph, found: seq<string>) returns (found': seq<string>)
      ensures (set m | m in found') == (set m | m in found) + NamesIn(p)
    {
      found' := found;
      var low := Lower(p.text);
      for j := 0 to |RequiredSections|
        invariant (set m | m in found') ==
          (set m | m in found) + (set m | m in RequiredSections[..j] && Contains(low, Lower(m)))
      {
        var name := RequiredSections[j];
        ghost var before := set m | m in found';
        if Contains(low, Lower(name)) {
          found' := found' + [name];
          assert (set m | m in found') == before + {name};
        }
        assert RequiredSections[..j + 1] == RequiredSections[..j] + [name];
        assert (set m | m in RequiredSections[..j + 1] && Contains(low, Lower(m))) ==
          (set m | m in RequiredSections[..j] && Contains(low, Lower(m)))
          + (if Contains(low, Lower(name)) then {name} else {});
      }
      assert RequiredSections[..|RequiredSections|] == RequiredSections;
    }

    // ---------------------------------------------------------------- title page

    /** Every whitespace-separated word starts with an upper-case letter. */
    method IsTitleCase(text: string) returns (b: bool)
      ensures b == TitleCase(text)
    {
      var words := Words(text);
      for k := 0 to |words|
        invariant forall j | 0 <= j < k :: IsUpperLetter(words[j][0])
      {
        if !IsUpperLetter(words[k][0]) {
          return false;
        }
      }
      return true;
    }

    /** Three scans of the first ten paragraphs, one after the other. Each
        stops at the first paragraph that matches. */
    method CheckTitlePage(doc: Document)
      modifies this
      ensures issues == old(issues) + TitlePageIssues(doc.paragraphs)
    {
      var first := FirstPage(doc.paragraphs);
      CheckTitle(first);
      CheckAuthorInfo(first);
      CheckAuthorNote(first);
    }

    method CheckTitle(first: seq<Paragraph>)
      modifies this
      ensures issues == old(issues) + TitleIssues(first)
    {
      var foundTitle := false;
      for i := 0 to |first|
        invariant !foundTitle && issues == old(issues)
        invariant forall j | 0 <= j < i :: !IsTitleStyled(first[j])
      {
        var p := first[i];
        if p.style == "Title" {
          foundTitle := true;
          FirstIndexAt(first, IsTitleStyled, i);
          var titleCase := IsTitleCase(p.text);
          if !titleCase {
            issues := issues + [TitleNotTitleCase];
          }
          if !IsCentered(p) {
            issues := issues + [TitleNotCentered];
          }
          if !AnyRunBold(p) {
            issues := issues + [TitleNotBold];
          }
          break;
        }
      }
      if !foundTitle {
        issues := issues + [TitleNotFound];
      }
    }

    /** The scan for author information skips the first paragraph. */
    method CheckAuthorInfo(first: seq<Paragraph>)
      modifies this
      ensures issues == old(issues) + AuthorInfoIssues(first)
    {
      var rest := AfterFirst(first);
      var authorInfoFound := false;
      for i := 0 to |rest|
        invariant !authorInfoFound && issues == old(issues)
        invariant forall j | 0 <= j < i :: !NonBlank(rest[j])
      {
        var p := rest[i];
        if !Blank(p.text) {
          authorInfoFound := true;
          FirstIndexAt(rest, NonBlank, i);
          if !IsCentered(p) {
            issues := issues + [AuthorInfoNotCentered];
          }
          break;
        }
      }
      if !authorInfoFound {
        issues := issues + [AuthorInfoNotFound];
      }
    }

    method CheckAuthorNote(first: seq<Paragraph>)
      modifies this
      ensures issues == old(issues) + AuthorNoteIssues(first)
    {
      var authorNoteFound := false;
      for i := 0 to |first|
        invariant !authorNoteFound && issues == old(issues)
        invariant forall j | 0 <= j < i :: !MentionsAuthorNote(first[j])
      {
        var p := first[i];
        if Contains(p.text, "Author Note") {
          authorNoteFound := true;
          FirstIndexAt(first, MentionsAuthorNote, i);
          if p.alignment != Center {
            issues := issues + [AuthorNoteNotCentered];
          }
          if !AnyRunBold(p) {
            issues := issues + [AuthorNoteNotBold];
          }
          break;
        }
      }
      if !authorNoteFound {
        issues := issues + [AuthorNoteNotFound];
      }
    }

    // ---------------------------------------------------------------- abstract

    method CheckAbstract(doc: Document)
      modifies this
      ensures issues == old(issues) + AbstractIssues(doc.paragraphs)
    {
      var ps := doc.paragraphs;
      var abstractFound := false;
      for i := 0 to |ps|
        invariant !abstractFound && issues == old(issues)
        invariant forall j | 0 <= j < i :: !MentionsAbstract(ps[j])
      {
        var p := ps[i];
        if Contains(Lower(p.text), "abstract") {
          abstractFound := true;
          FirstIndexAt(ps, MentionsAbstract, i);
          if !IsCentered(p) {
            issues := issues + [AbstractNotCentered];
          }
          if !AnyRunBold(p) {
            issues := issues + [AbstractNotBold];
          }
          var words := |Words(p.text)|;
          if words > AbstractWordLimit {
            issues := issues + [AbstractTooLong];
          }
          break;
        }
      }
      if !abstractFound {
        issues := issues + [AbstractNotFound];
      }
    }

    // ---------------------------------------------------------------- keywords

    method CheckKeywords(doc: Document)
      modifies this
      ensures issues == old(issues) + KeywordsIssues(doc.paragraphs)
    {
      var ps := doc.paragraphs;
      var keywordsFound := false;
      for i := 0 to |ps|
        invariant !keywordsFound && issues == old(issues)
        invariant forall j | 0 <= j < i :: !MentionsKeywords(ps[j])
      {
        var p := ps[i];
        if Contains(Lower(p.text), "keywords") {
          keywordsFound := true;
          FirstIndexAt(ps, MentionsKeywords, i);
          CheckKeywordsHeading(p);
          CheckKeywordsContent(ps);
          AppendAssoc(old(issues), KeywordsHeadingIssues(p), KeywordsContentIssues(ps));
          break;
        }
      }
      if !keywordsFound {
        issues := issues + [KeywordsNotFound];
      }
    }

    method CheckKeywordsHeading(p: Paragraph)
      modifies this
      ensures issues == old(issues) + KeywordsHeadingIssues(p)
    {
      if !StartsWith(Lower(p.text), "keywords:") {
        issues := issues + [KeywordsLabelMissing];
      }
      if !AnyRunItalic(p) {
        issues := issues + [KeywordsNotItalic];
      }
      if p.leftIndent != Some(HalfInch) {
        issues := issues + [KeywordsNotIndented];
      }
    }

    /** The inner scan for the first paragraph containing "keywords:". */
    method CheckKeywordsContent(ps: seq<Paragraph>)
      modifies this
      ensures issues == old(issues) + KeywordsContentIssues(ps)
    {
      var contentFound := false;
      for c := 0 to |ps|
        invariant !contentFound && issues == old(issues)
        invariant forall j | 0 <= j < c :: !HasKeywordsLabel(ps[j])
      {
        var q := ps[c];
        if Contains(Lower(q.text), "keywords:") {
          FirstIndexAt(ps, HasKeywordsLabel, c);
          LabelHasColon(q);
          var keywords := Strip(Split(q.text, ':')[1]);
          if !IsLowercased(keywords) {
            issues := issues + [KeywordsNotLowercase];
          }
          if ',' !in keywords {
            issues := issues + [KeywordsNotCommaSeparated];
          }
          contentFound := true;
          break;
        }
      }
      if !contentFound {
        issues := issues + [KeywordsContentNotFound];
      }
    }

    // ---------------------------------------------------------------- main text

    /** The six sub-checks of the main text, in order. The first paragraph is
        read after the page-break loop, so an empty document raises there. */
    method CheckMainText(doc: Document, pat: Patterns) returns (fault: Option<Fault>)
      modifies this
      ensures issues == old(issues) + MainTextResult(doc, pat).issues
      ensures fault == MainTextResult(doc, pat).crash
    {
      var ps := doc.paragraphs;
      CheckPageBreak(ps);
      if ps == [] {
        return Some(NoParagraphs);
      }
      MainTextStages(doc, pat);
      ghost var pageBreak := PageBreakScan(ps, 0, false);
      CheckRepeatedTitle(ps[0]);
      AppendAssoc(old(issues), pageBreak, RepeatedTitleIssues(ps[0]));
      CheckCitations(ps, pat);
      AppendAssoc(old(issues), pageBreak + RepeatedTitleIssues(ps[0]), CitationsIssues(ps, pat));
      ghost var front := Pass(pageBreak + RepeatedTitleIssues(ps[0]) + CitationsIssues(ps, pat));
      ghost var before := issues;
      fault := CheckHeadings(ps);
      ThenStep(front, HeadingCheck(ps), old(issues), before, issues, fault);
      ghost var headings := Then(front, HeadingCheck(ps));
      if fault.Some? {
        ThenStops(headings, TablesCheck(doc.tables));
        ThenStops(headings, Pass(FigureIssues(ps, pat)));
        return;
      }
      before := issues;
      fault := CheckTables(doc.tables);
      ThenStep(headings, TablesCheck(doc.tables), old(issues), before, issues, fault);
      ghost var tables := Then(headings, TablesCheck(doc.tables));
      if fault.Some? {
        ThenStops(tables, Pass(FigureIssues(ps, pat)));
        return;
      }
      before := issues;
      CheckFigures(ps, pat);
      ThenStep(tables, Pass(FigureIssues(ps, pat)), old(issues), before, issues, fault);
    }

    /** The first paragraph must be centred and bold. */
    method CheckRepeatedTitle(first: Paragraph)
      modifies this
      ensures issues == old(issues) + RepeatedTitleIssues(first)
    {
      var titleFound := false;
      if first.alignment == Center && IsOn(first.bold) {
        titleFound := true;
      }
      if !titleFound {
        issues := issues + [TitleNotRepeated];
      }
    }

    /** The page-break loop. Its latch is set by a "keywords" paragraph and is
        read only at later indices, so its index-0 test never succeeds and the
        loop appends nothing. */
    method CheckPageBreak(ps: seq<Paragraph>)
      modifies this
      ensures issues == old(issues) + PageBreakScan(ps, 0, false)
      ensures issues == old(issues)
    {
      var mainTextStarted := false;
      for i := 0 to |ps|
        invariant issues + PageBreakScan(ps, i, mainTextStarted) == old(issues) + PageBreakScan(ps, 0, false)
      {
        var low := Lower(ps[i].text);
        if Contains(low, "keywords") {
          mainTextStarted := true;
        } else if Contains(low, "references") && mainTextStarted {
          break;
        } else if mainTextStarted {
          if i == 0 {
            if Blank(ps[i].text) {
              issues := issues + [NewPageAfterKeywords];
            }
          }
        }
      }
      PageBreakRuleInert(ps, 0, false);
    }

    method CheckCitations(ps: seq<Paragraph>, pat: Patterns)
      modifies this
      ensures issues == old(issues) + CitationsIssues(ps, pat)
    {
      for i := 0 to |ps|
        invariant issues == old(issues) + CitationsIssues(ps[..i], pat)
      {
        ghost var before := issues;
        CheckParagraphCitations(ps[i], pat);
        CitationsStep(ps, pat, i, old(issues), before, issues);
      }
      assert ps[..|ps|] == ps;
    }

    /** The citation groups of one paragraph, found by the citation pattern. */
    method CheckParagraphCitations(p: Paragraph, pat: Patterns)
      modifies this
      ensures issues == old(issues) + ParagraphCitationIssues(p, pat)
    {
      var groups := pat.citationGroups(p.text);
      if |groups| > 0 {
        for k := 0 to |groups|
          invariant issues == old(issues) + GroupsIssues(groups[..k], pat)
        {
          ghost var before := issues;
          CheckCitation(groups[k], pat);
          GroupsStep(groups, pat, k, old(issues), before, issues);
        }
        assert groups[..|groups|] == groups;
      }
    }

    method CheckCitation(group: string, pat: Patterns)
      modifies this
      ensures issues == old(issues) + CitationIssues(group, pat)
    {
      var authors := Strip(Split(group, ',')[0]);
      var added: seq<Issue> := [];
      if '&' in authors && |Split(authors, '&')| > 2 {
        added := added + [TooManyAuthorsNamed];
      }
      if Contains(group, "et al.") && |Words(authors)| == 1 {
        added := added + [EtAlFormat];
        if Contains(group, "p.") {
          if !pat.quotePage(group) {
            added := added + [QuotePageMissing];
          }
        }
      }
      issues := issues + added;
    }

    /** The heading loop. Only the first level 1 heading is checked; a level 4
        or 5 heading with an empty text raises when its last character is read. */
    method CheckHeadings(ps: seq<Paragraph>) returns (fault: Option<Fault>)
      modifies this
      ensures issues == old(issues) + HeadingCheck(ps).issues
      ensures fault == HeadingCheck(ps).crash
    {
      var firstHeadingChecked := false;
      for i := 0 to |ps|
        invariant issues == old(issues) + HeadingCheck(ps[..i]).issues
        invariant HeadingCheck(ps[..i]).crash.None?
        invariant firstHeadingChecked == FirstIndex(ps[..i], CheckedLevel1).Some?
      {
        var f;
        firstHeadingChecked, f := CheckHeadingAt(ps, i, firstHeadingChecked, old(issues));
        if f.Some? {
          return f;
        }
      }
      assert ps[..|ps|] == ps;
      return None;
    }

    /** One pass of the heading loop, stated against the loop over the prefix. */
    method CheckHeadingAt(ps: seq<Paragraph>, i: nat, firstHeadingChecked: bool, ghost base: seq<Issue>)
      returns (checked: bool, fault: Option<Fault>)
      requires i < |ps|
      requires issues == base + HeadingCheck(ps[..i]).issues && HeadingCheck(ps[..i]).crash.None?
      requires firstHeadingChecked == FirstIndex(ps[..i], CheckedLevel1).Some?
      modifies this
      ensures fault.None? ==> issues == base + HeadingCheck(ps[..i + 1]).issues && HeadingCheck(ps[..i + 1]).crash.None?
      ensures fault.None? ==> checked == FirstIndex(ps[..i + 1], CheckedLevel1).Some?
      ensures fault.Some? ==> issues == base + HeadingCheck(ps).issues && fault == HeadingCheck(ps).crash
    {
      ghost var before := issues;
      checked, fault := CheckHeading(ps[i], firstHeadingChecked);
      HeadingStep(ps, i, base, before, issues, fault);
      FirstIndexPrefixStep(ps, CheckedLevel1, i);
    }

    /** The body of the heading loop for one paragraph. It takes and returns
        the loop's "first level 1 heading checked" latch. */
    method CheckHeading(p: Paragraph, firstHeadingChecked: bool) returns (checked: bool, fault: Option<Fault>)
      modifies this
      ensures issues == old(issues) + HeadingRule(p, !firstHeadingChecked).issues
      ensures fault == HeadingRule(p, !firstHeadingChecked).crash
      ensures checked == (firstHeadingChecked || CheckedLevel1(p))
    {
      checked := firstHeadingChecked;
      fault := None;
      var low := Lower(p.text);
      if Contains(low, "abstract") || Contains(low, "references") {
        return;
      }
      var bad := false;
      if p.style == "Heading 1" {
        if !checked {
          bad := p.alignment != Center || !IsOn(p.bold);
          checked := true;
        }
      } else if p.style == "Heading 2" {
        bad := p.alignment != Left || !IsOn(p.bold);
      } else if p.style == "Heading 3" {
        bad := p.alignment != Left || !IsOn(p.bold) || !IsOn(p.italic);
      } else if p.style == "Heading 4" || p.style == "Heading 5" {
        bad := p.alignment != Left || !IsOn(p.bold) || (p.style == "Heading 5" && !IsOn(p.italic));
        if !bad {
          if p.text == [] {
            return checked, Some(EmptyHeadingText);
          }
          bad := p.text[|p.text| - 1] != '.';
        }
      }
      if bad {
        issues := issues + [LevelIssue(p)];
      }
    }

    method CheckTables(ts: seq<Table>) returns (fault: Option<Fault>)
      modifies this
      ensures issues == old(issues) + TablesCheck(ts).issues
      ensures fault == TablesCheck(ts).crash
    {
      for k := 0 to |ts|
        invariant issues == old(issues) + Collect(TableCheck, ts[..k]).issues
        invariant Collect(TableCheck, ts[..k]).crash.None?
      {
        ghost var before := issues;
        var f := CheckTable(ts[k]);
        CollectStep(TableCheck, ts, k, old(issues), before, issues, f);
        if f.Some? {
          return f;
        }
      }
      assert ts[..|ts|] == ts;
      return None;
    }

    /** One table: the title and bold tests row by row, then the border test
        cell by cell, then the numbering test on the first cell. */
    method CheckTable(t: Table) returns (fault: Option<Fault>)
      modifies this
      ensures issues == old(issues) + TableCheck(t).issues
      ensures fault == TableCheck(t).crash
    {
      var rows := t.rows;
      for r := 0 to |rows|
        invariant issues == old(issues) + Collect(RowFormat, rows[..r]).issues
        invariant Collect(RowFormat, rows[..r]).crash.None?
      {
        ghost var before := issues;
        var f := CheckRowFormat(rows[r]);
        CollectStep(RowFormat, rows, r, old(issues), before, issues, f);
        if f.Some? {
          return f;
        }
      }
      assert rows[..|rows|] == rows;
      ghost var format := Collect(RowFormat, rows);
      ghost var afterFormat := issues;
      for r := 0 to |rows|
        invariant issues == afterFormat + ConcatMap(RowBorderIssues, rows[..r])
      {
        ghost var before := issues;
        CheckRowBorders(rows[r]);
        ConcatMapStep(RowBorderIssues, rows, r, afterFormat, before, issues);
      }
      assert rows[..|rows|] == rows;
      ThenStep(format, Pass(ConcatMap(RowBorderIssues, rows)), old(issues), afterFormat, issues, None);
      ghost var afterBorders := issues;
      fault := CheckNumbering(t);
      ThenStep(Then(format, Pass(ConcatMap(RowBorderIssues, rows))), NumberingCheck(t),
               old(issues), afterBorders, issues, fault);
    }

    /** The title test on a row's first cell, then the lazy `any` over its
        cells' first runs. */
    method CheckRowFormat(row: Row) returns (fault: Option<Fault>)
      modifies this
      ensures issues == old(issues) + RowFormat(row).issues
      ensures fault == RowFormat(row).crash
    {
      if row.cells == [] {
        return Some(RowWithoutCells);
      }
      var head := row.cells[0];
      if head.paragraphs == [] {
        return Some(CellWithoutParagraphs);
      }
      if !Blank(head.paragraphs[0].text) {
        if head.paragraphs[0].alignment != Left {
          issues := issues + [TableTitleNotLeft];
        }
      }
      var cells := row.cells;
      var anyBold := false;
      for c := 0 to |cells|
        invariant AnyFirstRunBold(cells) == AnyFirstRunBold(cells[c..])
      {
        var cell := cells[c];
        assert cells[c..][1..] == cells[c + 1..];
        if cell.paragraphs == [] {
          return Some(CellWithoutParagraphs);
        }
        if cell.paragraphs[0].runs == [] {
          return Some(ParagraphWithoutRuns);
        }
        if IsOn(cell.paragraphs[0].runs[0].bold) {
          anyBold := true;
          break;
        }
      }
      if anyBold {
        issues := issues + [TableHeadingBold];
      }
      return None;
    }

    method CheckRowBorders(row: Row)
      modifies this
      ensures issues == old(issues) + RowBorderIssues(row)
    {
      var cells := row.cells;
      for c := 0 to |cells|
        invariant issues == old(issues) + CellBorderIssues(cells[..c], row.text)
      {
        ghost var before := issues;
        if cells[c].hasVAlign {
          issues := issues + [TableVerticalBorders(row.text)];
        }
        CellBordersStep(cells, row.text, c, old(issues), before, issues);
      }
      assert cells[..|cells|] == cells;
    }

    /** Reading the first cell of the first row raises when either is missing. */
    method CheckNumbering(t: Table) returns (fault: Option<Fault>)
      modifies this
      ensures issues == old(issues) + NumberingCheck(t).issues
      ensures fault == NumberingCheck(t).crash
    {
      if t.rows == [] {
        return Some(TableWithoutRows);
      }
      if t.rows[0].cells == [] {
        return Some(RowWithoutCells);
      }
      if Lower(Take(Strip(CellText(t.rows[0].cells[0])), 6)) != "table" {
        issues := issues + [TableNumbering];
      }
      return None;
    }

    method CheckFigures(ps: seq<Paragraph>, pat: Patterns)
      modifies this
      ensures issues == old(issues) + FigureIssues(ps, pat)
    {
      for i := 0 to |ps|
        invariant issues == old(issues) + FigureIssues(ps[..i], pat)
      {
        ghost var before := issues;
        var p := ps[i];
        if Contains(Lower(p.text), "figure") {
          if !pat.figureNumber(p.text) {
            issues := issues + [FigureNumbering];
          }
          if !pat.captionTail(p.text) {
            issues := issues + [FigureCaption(p.text)];
          }
        }
        FiguresStep(ps, pat, i, old(issues), before, issues);
      }
      assert ps[..|ps|] == ps;
    }

    // ---------------------------------------------------------------- references

    /** Every paragraph mentioning "references" is taken as the title and
        checked as one; the paragraphs after the first such title are checked
        as entries. */
    method CheckReferences(doc: Document, pat: Patterns)
      modifies this
      ensures issues == old(issues) + ReferenceIssues(doc.paragraphs, pat)
    {
      var ps := doc.paragraphs;
      var referencesFound := false;
      var checkReferences := false;
      for i := 0 to |ps|
        invariant issues == old(issues) + ReferencesBody(ps[..i], pat)
        invariant referencesFound == checkReferences == TitleSeen(ps[..i])
      {
        ghost var before := issues;
        var p := ps[i];
        if Contains(Lower(p.text), "references") {
          referencesFound := true;
          CheckReferencesTitle(p);
          checkReferences := true;
        } else if checkReferences {
          CheckReferenceEntry(p, pat);
        }
        ReferencesStep(ps, pat, i, old(issues), before, issues);
      }
      assert ps[..|ps|] == ps;
      if !referencesFound {
        issues := issues + [ReferencesNotFound];
      }
    }

    method CheckReferencesTitle(p: Paragraph)
      modifies this
      ensures issues == old(issues) + TitleFormatIssues(p)
    {
      if !IsCentered(p) {
        issues := issues + [ReferencesTitleNotCentered];
      }
      if !AnyRunBold(p) {
        issues := issues + [ReferencesTitleNotBold];
      }
    }

    /** A non-blank entry is tested for spacing, for the four reference
        patterns on its stripped text and for the hanging indent. */
    method CheckReferenceEntry(p: Paragraph, pat: Patterns)
      modifies this
      ensures issues == old(issues) + EntryIssues(p, pat)
    {
      if !Blank(p.text) {
        if !DoubleSpaced(p.lineSpacing) {
          issues := issues + [ReferenceNotDoubleSpaced];
        }
        var text := Strip(p.text);
        if !(pat.book(text) || pat.journal(text) || pat.website(text) || pat.doi(text)) {
          issues := issues + [ReferenceFormat(text)];
        }
        if p.firstLineIndent != Some(-HalfInch) {
          issues := issues + [ReferenceIndent];
        }
      }
    }

    // ---------------------------------------------------------------- header

    method CheckHeader(doc: Document)
      modifies this
      ensures issues == old(issues) + HeaderIssues(doc.sections)
    {
      var ss := doc.sections;
      for k := 0 to |ss|
        invariant issues == old(issues) + ConcatMap(SectionHeaderIssues, ss[..k])
      {
        ghost var before := issues;
        CheckSectionHeader(ss[k]);
        ConcatMapStep(SectionHeaderIssues, ss, k, old(issues), before, issues);
      }
      assert ss[..|ss|] == ss;
    }

    /** One section's header: every paragraph is tested as a running head and
        as a page number, then the two missing-part issues follow. */
    method CheckSectionHeader(s: Section)
      modifies this
      ensures issues == old(issues) + SectionHeaderIssues(s)
    {
      var header := s.header;
      var runningHeadFound := false;
      var pageNumberFound := false;
      for j := 0 to |header|
        invariant issues == old(issues) + ConcatMap(HeaderParagraphIssues, header[..j])
        invariant runningHeadFound == FirstIndex(header[..j], IsRunningHead).Some?
        invariant pageNumberFound == FirstIndex(header[..j], IsPageNumber).Some?
      {
        ghost var before := issues;
        var runningHead, pageNumber := CheckHeaderParagraph(header[j]);
        runningHeadFound := runningHeadFound || runningHead;
        pageNumberFound := pageNumberFound || pageNumber;
        ConcatMapStep(HeaderParagraphIssues, header, j, old(issues), before, issues);
        FirstIndexPrefixStep(header, IsRunningHead, j);
        FirstIndexPrefixStep(header, IsPageNumber, j);
      }
      assert header[..|header|] == header;
      ghost var paragraphs := ConcatMap(HeaderParagraphIssues, header);
      ghost var runningHead := if !runningHeadFound then [RunningHeadMissing] else [];
      ghost var pageNumber := if !pageNumberFound then [PageNumberMissing] else [];
      if !runningHeadFound {
        issues := issues + [RunningHeadMissing];
      }
      AppendAssoc(old(issues), paragraphs, runningHead);
      if !pageNumberFound {
        issues := issues + [PageNumberMissing];
      }
      AppendAssoc(old(issues), paragraphs + runningHead, pageNumber);
    }

    /** One header paragraph, tested as a running head and as a page number;
        the results say which of the two it is. */
    method CheckHeaderParagraph(p: Paragraph) returns (runningHead: bool, pageNumber: bool)
      modifies this
      ensures issues == old(issues) + HeaderParagraphIssues(p)
      ensures runningHead == IsRunningHead(p) && pageNumber == IsPageNumber(p)
    {
      runningHead := false;
      pageNumber := false;
      if p.alignment == Left {
        runningHead := true;
        if p.text != Upper(p.text) {
          issues := issues + [RunningHeadNotUppercase];
        }
      }
      if p.alignment == Right && Contains(Lower(p.text), "page") {
        pageNumber := true;
        if !AnyRunDigits(p) {
          issues := issues + [PageNumberIncorrect];
        }
      }
    }

    // ---------------------------------------------------------------- validation

    /** The first seven checks of a run, from font to keywords, on a fresh
        list of issues. */
    method ValidateFrontChecks(doc: Document, pat: Patterns) returns (fault: Option<Fault>)
      modifies this
      ensures fault.None? ==> issues == RunAll(Stages(doc, pat)[..7]).issues && RunAll(Stages(doc, pat)[..7]).crash.None?
      ensures fault.Some? ==> issues == Validate(doc, pat).issues && fault == Validate(doc, pat).crash
    {
      ghost var st := Stages(doc, pat);
      FrontStages(doc, pat);
      issues := [];
      assert st[..0] == [];
      ghost var before := issues;
      CheckFont(doc);
      RunAllStep(st, 0, before, issues, None);
      before := issues;
      fault := CheckMargins(doc);
      RunAllStep(st, 1, before, issues, fault);
      if fault.Some? {
        return;
      }
      before := issues;
      CheckLineSpacing(doc);
      RunAllStep(st, 2, before, issues, None);
      before := issues;
      CheckDocumentStructure(doc);
      RunAllStep(st, 3, before, issues, None);
      before := issues;
      CheckTitlePage(doc);
      RunAllStep(st, 4, before, issues, None);
      before := issues;
      CheckAbstract(doc);
      RunAllStep(st, 5, before, issues, None);
      before := issues;
      CheckKeywords(doc);
      RunAllStep(st, 6, before, issues, None);
    }

    /** Clears the list, then runs the ten checks in order. A check that
        raises ends the run; the exception is returned and the issues found
        so far stay in the list. */
    method ValidateDocument(doc: Document, pat: Patterns) returns (fault: Option<Fault>)
      modifies this
      ensures issues == Validate(doc, pat).issues
      ensures fault == Validate(doc, pat).crash
    {
      ghost var st := Stages(doc, pat);
      MainTextStage(doc, pat);
      BackStages(doc, pat);
      fault := ValidateFrontChecks(doc, pat);
      if fault.Some? {
        return;
      }
      ghost var before := issues;
      fault := CheckMainText(doc, pat);
      RunAllStep(st, 7, before, issues, fault);
      if fault.Some? {
        return;
      }
      before := issues;
      CheckReferences(doc, pat);
      RunAllStep(st, 8, before, issues, None);
      before := issues;
      CheckHeader(doc);
      RunAllStep(st, 9, before, issues, None);
      assert st[..CheckCount] == st;
    }
  }
}
