/** The references check and the page-header check. */
module BackMatterRules {
  import opened Wrappers
  import opened Text
  import opened DocModel
  import opened Issues
  import opened Scans

  // ---------------------------------------------------------------- references

  /** Any paragraph mentioning "references" is taken as the references title. */
  predicate IsReferencesHeading(p: Paragraph) {
    Contains(Lower(p.text), "references")
  }

  /** A reference entry is accepted when it matches the book, journal, website
      or DOI pattern. */
  predicate MatchesReferencePattern(text: string, pat: Patterns) {
    pat.book(text) || pat.journal(text) || pat.website(text) || pat.doi(text)
  }

  /** The title must be centred and have at least one bold run. */
  function TitleFormatIssues(p: Paragraph): seq<Issue> {
    (if !IsCentered(p) then [ReferencesTitleNotCentered] else [])
    + (if !AnyRunBold(p) then [ReferencesTitleNotBold] else [])
  }

  /** A non-blank entry must be double-spaced, match a pattern once stripped and
      hang by half an inch. */
  function EntryIssues(p: Paragraph, pat: Patterns): seq<Issue> {
    if Blank(p.text) then []
    else
      var text := Strip(p.text);
      (if !DoubleSpaced(p.lineSpacing) then [ReferenceNotDoubleSpaced] else [])
      + (if !MatchesReferencePattern(text, pat) then [ReferenceFormat(text)] else [])
      + (if p.firstLineIndent != Some(-HalfInch) then [ReferenceIndent] else [])
  }

  /** One paragraph of the loop. `afterTitle` says that an earlier paragraph was
      a references title. */
  function ReferenceParagraphIssues(p: Paragraph, afterTitle: bool, pat: Patterns): seq<Issue> {
    if IsReferencesHeading(p) then TitleFormatIssues(p)
    else if afterTitle then EntryIssues(p, pat)
    else []
  }

  function TitleSeen(ps: seq<Paragraph>): bool {
    FirstIndex(ps, IsReferencesHeading).Some?
  }

  /** The issues of the references loop, paragraph by paragraph. */
  function ReferencesBody(ps: seq<Paragraph>, pat: Patterns): seq<Issue>
    decreases |ps|
  {
    if ps == [] then []
    else
      var init := ps[..|ps| - 1];
      ReferencesBody(init, pat) + ReferenceParagraphIssues(ps[|ps| - 1], TitleSeen(init), pat)
  }

  function ReferenceIssues(ps: seq<Paragraph>, pat: Patterns): seq<Issue> {
    ReferencesBody(ps, pat) + if TitleSeen(ps) then [] else [ReferencesNotFound]
  }

  /** The per-paragraph rule of the references loop, as a function value. */
  function ParagraphRule(pat: Patterns): (Paragraph, bool) -> seq<Issue> {
    (p: Paragraph, afterTitle: bool) => ReferenceParagraphIssues(p, afterTitle, pat)
  }

  lemma {:induction false} ReferencesBodyLatch(ps: seq<Paragraph>, pat: Patterns)
    ensures ReferencesBody(ps, pat) == LatchConcat(ParagraphRule(pat), IsReferencesHeading, ps)
    decreases |ps|
  {
    if ps != [] {
      ReferencesBodyLatch(ps[..|ps| - 1], pat);
    }
  }

  /** An issue of the loop comes from one paragraph, judged by whether some
      paragraph before it is a references title. */
  lemma ReferencesBodyMember(ps: seq<Paragraph>, pat: Patterns, x: Issue)
    ensures x in ReferencesBody(ps, pat) <==>
      exists i | 0 <= i < |ps| :: x in ReferenceParagraphIssues(ps[i], TitleSeen(ps[..i]), pat)
  {
    ReferencesBodyLatch(ps, pat);
    LatchConcatMember(ParagraphRule(pat), IsReferencesHeading, ps, x);
  }

  /** The title has been seen before paragraph `i` exactly when a paragraph
      before `i` mentions "references". */
  lemma TitleSeenIff(ps: seq<Paragraph>, i: nat)
    requires i <= |ps|
    ensures TitleSeen(ps[..i]) <==> exists j | 0 <= j < i :: IsReferencesHeading(ps[j])
  {
    assert forall j | 0 <= j < i :: ps[..i][j] == ps[j];
  }

  lemma BodyWithoutNotFound(ps: seq<Paragraph>, pat: Patterns)
    ensures ReferencesNotFound !in ReferencesBody(ps, pat)
  {
    ReferencesBodyMember(ps, pat, ReferencesNotFound);
    forall i | 0 <= i < |ps| ensures ReferencesNotFound !in ReferenceParagraphIssues(ps[i], TitleSeen(ps[..i]), pat) {
      ParagraphWithoutNotFound(ps[i], TitleSeen(ps[..i]), pat);
    }
  }

  lemma ParagraphWithoutNotFound(p: Paragraph, afterTitle: bool, pat: Patterns)
    ensures ReferencesNotFound !in ReferenceParagraphIssues(p, afterTitle, pat)
  {
  }

  /** A document without a references title gets exactly one issue from this
      check: that the section was not found. The "not found" issue comes exactly
      when no paragraph mentions "references". */
  lemma ReferencesNotFoundRule(ps: seq<Paragraph>, pat: Patterns)
    ensures !TitleSeen(ps) ==> ReferenceIssues(ps, pat) == [ReferencesNotFound]
    ensures ReferencesNotFound in ReferenceIssues(ps, pat) <==> forall i | 0 <= i < |ps| :: !IsReferencesHeading(ps[i])
  {
    BodyWithoutNotFound(ps, pat);
    if !TitleSeen(ps) {
      NoTitleSilent(ps, pat);
    }
  }

  lemma {:induction false} NoTitleSilent(ps: seq<Paragraph>, pat: Patterns)
    requires !TitleSeen(ps)
    ensures ReferencesBody(ps, pat) == []
    decreases |ps|
  {
    if ps != [] {
      var init := ps[..|ps| - 1];
      assert forall i | 0 <= i < |init| :: init[i] == ps[i];
      NoTitleSilent(init, pat);
    }
  }

  /** One paragraph's share of the format rule. */
  lemma ParagraphFormatRule(p: Paragraph, afterTitle: bool, pat: Patterns, t: string)
    ensures ReferenceFormat(t) in ReferenceParagraphIssues(p, afterTitle, pat) <==>
      afterTitle && !IsReferencesHeading(p) && !Blank(p.text) && Strip(p.text) == t && !MatchesReferencePattern(t, pat)
  {
  }

  /** One paragraph's share of the indent rule. */
  lemma ParagraphIndentRule(p: Paragraph, afterTitle: bool, pat: Patterns)
    ensures ReferenceIndent in ReferenceParagraphIssues(p, afterTitle, pat) <==>
      afterTitle && !IsReferencesHeading(p) && !Blank(p.text) && p.firstLineIndent != Some(-HalfInch)
  {
  }

  /** One paragraph's share of the spacing rule. */
  lemma ParagraphSpacingRule(p: Paragraph, afterTitle: bool, pat: Patterns)
    ensures ReferenceNotDoubleSpaced in ReferenceParagraphIssues(p, afterTitle, pat) <==>
      afterTitle && !IsReferencesHeading(p) && !Blank(p.text) && !DoubleSpaced(p.lineSpacing)
  {
  }

  /** One paragraph's share of the centred-title rule. */
  lemma ParagraphTitleCenteredRule(p: Paragraph, afterTitle: bool, pat: Patterns)
    ensures ReferencesTitleNotCentered in ReferenceParagraphIssues(p, afterTitle, pat) <==>
      IsReferencesHeading(p) && !IsCentered(p)
  {
  }

  /** One paragraph's share of the bold-title rule. */
  lemma ParagraphTitleBoldRule(p: Paragraph, afterTitle: bool, pat: Patterns)
    ensures ReferencesTitleNotBold in ReferenceParagraphIssues(p, afterTitle, pat) <==>
      IsReferencesHeading(p) && !AnyRunBold(p)
  {
  }

  /** An entry is reported as badly formatted, quoting its stripped text `t`,
      exactly when it is not blank, comes after a references title, is not a
      title itself, and matches none of the four patterns. */
  lemma ReferenceFormatRule(ps: seq<Paragraph>, pat: Patterns, t: string)
    ensures ReferenceFormat(t) in ReferenceIssues(ps, pat) <==>
      exists i, j | 0 <= j < i < |ps| ::
        IsReferencesHeading(ps[j]) && !IsReferencesHeading(ps[i]) && !Blank(ps[i].text)
        && Strip(ps[i].text) == t && !MatchesReferencePattern(t, pat)
  {
    ReferencesBodyMember(ps, pat, ReferenceFormat(t));
    forall i | 0 <= i < |ps|
      ensures TitleSeen(ps[..i]) <==> exists j | 0 <= j < i :: IsReferencesHeading(ps[j])
    {
      TitleSeenIff(ps, i);
    }
    forall i | 0 <= i < |ps| {
      ParagraphFormatRule(ps[i], TitleSeen(ps[..i]), pat, t);
    }
  }

  /** The "not bold" issue comes exactly when some paragraph mentioning
      "references" has no bold run. */
  lemma ReferencesTitleBoldRule(ps: seq<Paragraph>, pat: Patterns)
    ensures ReferencesTitleNotBold in ReferenceIssues(ps, pat) <==>
      exists i | 0 <= i < |ps| :: IsReferencesHeading(ps[i]) && !AnyRunBold(ps[i])
  {
    ReferencesBodyMember(ps, pat, ReferencesTitleNotBold);
    forall i | 0 <= i < |ps| {
      ParagraphTitleBoldRule(ps[i], TitleSeen(ps[..i]), pat);
    }
  }

  /** The spacing issue comes exactly when some non-blank entry after a title
      is not double-spaced. */
  lemma ReferenceSpacingRule(ps: seq<Paragraph>, pat: Patterns)
    ensures ReferenceNotDoubleSpaced in ReferenceIssues(ps, pat) <==>
      exists i, j | 0 <= j < i < |ps| ::
        IsReferencesHeading(ps[j]) && !IsReferencesHeading(ps[i]) && !Blank(ps[i].text)
        && !DoubleSpaced(ps[i].lineSpacing)
  {
    ReferencesBodyMember(ps, pat, ReferenceNotDoubleSpaced);
    forall i | 0 <= i < |ps|
      ensures TitleSeen(ps[..i]) <==> exists j | 0 <= j < i :: IsReferencesHeading(ps[j])
    {
      TitleSeenIff(ps, i);
    }
    forall i | 0 <= i < |ps| {
      ParagraphSpacingRule(ps[i], TitleSeen(ps[..i]), pat);
    }
  }

  /** The "not centred" issue comes exactly when some paragraph mentioning
      "references" is not centred. */
  lemma ReferencesTitleCenteredRule(ps: seq<Paragraph>, pat: Patterns)
    ensures ReferencesTitleNotCentered in ReferenceIssues(ps, pat) <==>
      exists i | 0 <= i < |ps| :: IsReferencesHeading(ps[i]) && !IsCentered(ps[i])
  {
    ReferencesBodyMember(ps, pat, ReferencesTitleNotCentered);
    forall i | 0 <= i < |ps| {
      ParagraphTitleCenteredRule(ps[i], TitleSeen(ps[..i]), pat);
    }
  }

  /** The indent issue comes exactly when some non-blank entry after a title
      does not have a first-line indent of minus half an inch. */
  lemma ReferenceIndentRule(ps: seq<Paragraph>, pat: Patterns)
    ensures ReferenceIndent in ReferenceIssues(ps, pat) <==>
      exists i, j | 0 <= j < i < |ps| ::
        IsReferencesHeading(ps[j]) && !IsReferencesHeading(ps[i]) && !Blank(ps[i].text)
        && ps[i].firstLineIndent != Some(-HalfInch)
  {
    ReferencesBodyMember(ps, pat, ReferenceIndent);
    forall i | 0 <= i < |ps|
      ensures TitleSeen(ps[..i]) <==> exists j | 0 <= j < i :: IsReferencesHeading(ps[j])
    {
      TitleSeenIff(ps, i);
    }
    forall i | 0 <= i < |ps| {
      ParagraphIndentRule(ps[i], TitleSeen(ps[..i]), pat);
    }
  }

  // ---------------------------------------------------------------- header

  predicate IsRunningHead(p: Paragraph) { p.alignment == Left }

  predicate IsPageNumber(p: Paragraph) {
    p.alignment == Right && Contains(Lower(p.text), "page")
  }

  function HeaderParagraphIssues(p: Paragraph): seq<Issue> {
    (if IsRunningHead(p) && p.text != Upper(p.text) then [RunningHeadNotUppercase] else [])
    + (if IsPageNumber(p) && !AnyRunDigits(p) then [PageNumberIncorrect] else [])
  }

  function SectionHeaderIssues(s: Section): seq<Issue> {
    ConcatMap(HeaderParagraphIssues, s.header)
    + (if FirstIndex(s.header, IsRunningHead).None? then [RunningHeadMissing] else [])
    + (if FirstIndex(s.header, IsPageNumber).None? then [PageNumberMissing] else [])
  }

  function HeaderIssues(ss: seq<Section>): seq<Issue> {
    ConcatMap(SectionHeaderIssues, ss)
  }

  /** Within one section's header, the running head is missing exactly when no
      paragraph is left-aligned. */
  lemma RunningHeadMissingRule(s: Section)
    ensures RunningHeadMissing in SectionHeaderIssues(s) <==>
      forall i | 0 <= i < |s.header| :: !IsRunningHead(s.header[i])
  {
    ConcatMapMember(HeaderParagraphIssues, s.header, RunningHeadMissing);
  }

  /** The page number is missing exactly when no right-aligned paragraph
      mentions "page". */
  lemma PageNumberMissingRule(s: Section)
    ensures PageNumberMissing in SectionHeaderIssues(s) <==>
      forall i | 0 <= i < |s.header| :: !IsPageNumber(s.header[i])
  {
    ConcatMapMember(HeaderParagraphIssues, s.header, PageNumberMissing);
  }

  /** A left-aligned paragraph that upper-casing would change is reported. */
  lemma RunningHeadCaseRule(s: Section)
    ensures RunningHeadNotUppercase in SectionHeaderIssues(s) <==>
      exists i | 0 <= i < |s.header| :: IsRunningHead(s.header[i]) && s.header[i].text != Upper(s.header[i].text)
  {
    ConcatMapMember(HeaderParagraphIssues, s.header, RunningHeadNotUppercase);
  }

  /** A page line none of whose runs is all digits is reported. */
  lemma PageNumberDigitsRule(s: Section)
    ensures PageNumberIncorrect in SectionHeaderIssues(s) <==>
      exists i | 0 <= i < |s.header| :: IsPageNumber(s.header[i]) && !AnyRunDigits(s.header[i])
  {
    ConcatMapMember(HeaderParagraphIssues, s.header, PageNumberIncorrect);
  }

  /** Every section is checked on its own: an issue is reported for the
      document exactly when some section's header has it. */
  lemma HeaderRule(ss: seq<Section>, x: Issue)
    ensures x in HeaderIssues(ss) <==> exists i | 0 <= i < |ss| :: x in SectionHeaderIssues(ss[i])
  {
    ConcatMapMember(SectionHeaderIssues, ss, x);
  }

  /** A running head with no lower-case letter, such as one made of capitals,
      digits and punctuation, is not reported as lower case. */
  lemma CapitalRunningHeadPasses(p: Paragraph)
    requires forall i | 0 <= i < |p.text| :: !IsLowerLetter(p.text[i])
    ensures RunningHeadNotUppercase !in HeaderParagraphIssues(p)
  {
    UpperFixedIff(p.text);
  }

  /** A section with an empty header gets both "missing" issues and nothing else. */
  lemma EmptyHeaderRule(s: Section)
    requires s.header == []
    ensures SectionHeaderIssues(s) == [RunningHeadMissing, PageNumberMissing]
  {
  }

  // ---------------------------------------------------------------- loop steps

  /** One step of the references loop, in the form the class method keeps its
      list in. */
  lemma ReferencesStep(ps: seq<Paragraph>, pat: Patterns, i: nat, base: seq<Issue>, before: seq<Issue>, after: seq<Issue>)
    requires i < |ps|
    requires before == base + ReferencesBody(ps[..i], pat)
    requires after == before + ReferenceParagraphIssues(ps[i], TitleSeen(ps[..i]), pat)
    ensures after == base + ReferencesBody(ps[..i + 1], pat)
    ensures TitleSeen(ps[..i + 1]) <==> TitleSeen(ps[..i]) || IsReferencesHeading(ps[i])
  {
    assert ps[..i + 1][..i] == ps[..i];
    FirstIndexPrefixStep(ps, IsReferencesHeading, i);
    AppendAssoc(base, ReferencesBody(ps[..i], pat), ReferenceParagraphIssues(ps[i], TitleSeen(ps[..i]), pat));
  }
}
