/** The title-page, abstract and keywords checks. Each looks for the first
    paragraph that matches a test and checks only that one. */
module FrontMatterRules {
  import opened Wrappers
  import opened Text
  import opened DocModel
  import opened Issues
  import opened Scans

  /** The title page is taken to be the first ten paragraphs. */
  const TitlePageLength: nat := 10

  function FirstPage(ps: seq<Paragraph>): seq<Paragraph> {
    Take'(ps, TitlePageLength)
  }

  /** `xs[:n]` */
  function Take'(ps: seq<Paragraph>, n: nat): seq<Paragraph> {
    if n <= |ps| then ps[..n] else ps
  }

  /** `xs[1:]`, which is empty for an empty list. */
  function AfterFirst(ps: seq<Paragraph>): seq<Paragraph> {
    if ps == [] then [] else ps[1..]
  }

  /** Every whitespace-separated word starts with an upper-case letter. */
  predicate TitleCase(text: string) {
    var ws := Words(text);
    forall k | 0 <= k < |ws| :: IsUpperLetter(ws[k][0])
  }

  predicate IsTitleStyled(p: Paragraph) { p.style == "Title" }

  predicate NonBlank(p: Paragraph) { !Blank(p.text) }

  predicate MentionsAuthorNote(p: Paragraph) { Contains(p.text, "Author Note") }

  function TitleIssues(first: seq<Paragraph>): seq<Issue> {
    match FirstIndex(first, IsTitleStyled)
    case None => [TitleNotFound]
    case Some(k) =>
      var p := first[k];
      (if !TitleCase(p.text) then [TitleNotTitleCase] else [])
      + (if !IsCentered(p) then [TitleNotCentered] else [])
      + (if !AnyRunBold(p) then [TitleNotBold] else [])
  }

  function AuthorInfoIssues(first: seq<Paragraph>): seq<Issue> {
    var rest := AfterFirst(first);
    match FirstIndex(rest, NonBlank)
    case None => [AuthorInfoNotFound]
    case Some(k) => if !IsCentered(rest[k]) then [AuthorInfoNotCentered] else []
  }

  function AuthorNoteIssues(first: seq<Paragraph>): seq<Issue> {
    match FirstIndex(first, MentionsAuthorNote)
    case None => [AuthorNoteNotFound]
    case Some(k) =>
      var p := first[k];
      (if p.alignment != Center then [AuthorNoteNotCentered] else [])
      + (if !AnyRunBold(p) then [AuthorNoteNotBold] else [])
  }

  function TitlePageIssues(ps: seq<Paragraph>): seq<Issue> {
    var first := FirstPage(ps);
    TitleIssues(first) + AuthorInfoIssues(first) + AuthorNoteIssues(first)
  }

  /** The title page check reads nothing after the tenth paragraph. */
  lemma TitlePageLocal(ps: seq<Paragraph>, qs: seq<Paragraph>)
    requires |ps| >= TitlePageLength && |qs| >= TitlePageLength
    requires ps[..TitlePageLength] == qs[..TitlePageLength]
    ensures TitlePageIssues(ps) == TitlePageIssues(qs)
  {
  }

  /** The title is the first `Title`-styled paragraph among the first ten: it is
      reported missing exactly when there is none, and then no format issue of
      a title is reported. */
  lemma TitleMissingRule(ps: seq<Paragraph>)
    ensures TitleNotFound in TitleIssues(FirstPage(ps)) <==>
      forall i | 0 <= i < |FirstPage(ps)| :: !IsTitleStyled(ps[i])
    ensures TitleNotFound in TitleIssues(FirstPage(ps)) ==> TitleIssues(FirstPage(ps)) == [TitleNotFound]
  {
    var first := FirstPage(ps);
    assert forall i | 0 <= i < |first| :: first[i] == ps[i];
    match FirstIndex(first, IsTitleStyled)
    case None =>
    case Some(k) =>
      assert TitleNotFound !in TitleIssues(first);
  }

  /** When paragraph `k` is the title, exactly its own format failures are reported. */
  lemma TitleFoundRule(ps: seq<Paragraph>, k: nat)
    requires k < |FirstPage(ps)| && IsTitleStyled(ps[k])
    requires forall j | 0 <= j < k :: !IsTitleStyled(ps[j])
    ensures TitleNotFound !in TitleIssues(FirstPage(ps))
    ensures TitleNotCentered in TitleIssues(FirstPage(ps)) <==> !IsCentered(ps[k])
    ensures TitleNotBold in TitleIssues(FirstPage(ps)) <==> !AnyRunBold(ps[k])
    ensures TitleNotTitleCase in TitleIssues(FirstPage(ps)) <==> !TitleCase(ps[k].text)
  {
    var first := FirstPage(ps);
    assert first[k] == ps[k];
    assert forall j | 0 <= j < k :: first[j] == ps[j];
    assert FirstIndex(first, IsTitleStyled) == Some(k);
  }

  /** The author information is looked for from the second paragraph on,
      wherever the title is: it is reported missing exactly when paragraphs 1 to
      9 are all blank. */
  lemma AuthorInfoMissingRule(ps: seq<Paragraph>)
    ensures AuthorInfoNotFound in AuthorInfoIssues(FirstPage(ps)) <==>
      forall i | 1 <= i < |FirstPage(ps)| :: Blank(ps[i].text)
  {
    var first := FirstPage(ps);
    var rest := AfterFirst(first);
    assert forall i | 0 <= i < |rest| :: rest[i] == ps[i + 1];
    match FirstIndex(rest, NonBlank)
    case None =>
      forall i | 1 <= i < |first| ensures Blank(ps[i].text) {
        assert !NonBlank(rest[i - 1]);
      }
    case Some(k) =>
      assert NonBlank(ps[k + 1]);
  }

  /** When paragraph `k` (at least 1) is the first non-blank one after the
      first, it is the author information and is reported only if not centred. */
  lemma AuthorInfoFoundRule(ps: seq<Paragraph>, k: nat)
    requires 1 <= k < |FirstPage(ps)| && NonBlank(ps[k])
    requires forall j | 1 <= j < k :: Blank(ps[j].text)
    ensures AuthorInfoIssues(FirstPage(ps)) == if IsCentered(ps[k]) then [] else [AuthorInfoNotCentered]
  {
    var first := FirstPage(ps);
    var rest := AfterFirst(first);
    assert forall i | 0 <= i < |rest| :: rest[i] == ps[i + 1];
    assert forall j | 0 <= j < k - 1 :: !NonBlank(rest[j]);
    assert FirstIndex(rest, NonBlank) == Some(k - 1);
  }

  /** The Author Note is the first paragraph among the first ten whose text has
      "Author Note", case-sensitively: reported missing exactly when there is
      none, and then nothing else about it is reported. */
  lemma AuthorNoteRule(ps: seq<Paragraph>)
    ensures AuthorNoteNotFound in AuthorNoteIssues(FirstPage(ps)) <==>
      forall i | 0 <= i < |FirstPage(ps)| :: !MentionsAuthorNote(ps[i])
    ensures AuthorNoteNotFound in AuthorNoteIssues(FirstPage(ps)) ==>
      AuthorNoteIssues(FirstPage(ps)) == [AuthorNoteNotFound]
  {
    var first := FirstPage(ps);
    assert forall i | 0 <= i < |first| :: first[i] == ps[i];
    match FirstIndex(first, MentionsAuthorNote)
    case None =>
    case Some(k) =>
      assert AuthorNoteNotFound !in AuthorNoteIssues(first);
  }

  /** When paragraph `k` is the Author Note, exactly its own centring and bold
      failures are reported, and nothing else. */
  lemma AuthorNoteFoundRule(ps: seq<Paragraph>, k: nat)
    requires k < |FirstPage(ps)| && MentionsAuthorNote(ps[k])
    requires forall j | 0 <= j < k :: !MentionsAuthorNote(ps[j])
    ensures forall x | x in AuthorNoteIssues(FirstPage(ps)) :: x == AuthorNoteNotCentered || x == AuthorNoteNotBold
    ensures AuthorNoteNotCentered in AuthorNoteIssues(FirstPage(ps)) <==> ps[k].alignment != Center
    ensures AuthorNoteNotBold in AuthorNoteIssues(FirstPage(ps)) <==> !AnyRunBold(ps[k])
  {
    var first := FirstPage(ps);
    assert first[k] == ps[k];
    assert forall j | 0 <= j < k :: first[j] == ps[j];
    assert FirstIndex(first, MentionsAuthorNote) == Some(k);
  }

  // ---------------------------------------------------------------- abstract

  const AbstractWordLimit: nat := 250

  predicate MentionsAbstract(p: Paragraph) { Contains(Lower(p.text), "abstract") }

  /** What the abstract check reports about the paragraph it inspects. */
  function AbstractParagraphIssues(p: Paragraph): seq<Issue> {
    (if !IsCentered(p) then [AbstractNotCentered] else [])
    + (if !AnyRunBold(p) then [AbstractNotBold] else [])
    + (if |Words(p.text)| > AbstractWordLimit then [AbstractTooLong] else [])
  }

  function AbstractIssues(ps: seq<Paragraph>): seq<Issue> {
    match FirstIndex(ps, MentionsAbstract)
    case None => [AbstractNotFound]
    case Some(k) => AbstractParagraphIssues(ps[k])
  }

  /** The inspected paragraph gets the centring, bold and length issues, each
      exactly when its test fails, and never "not found". */
  lemma AbstractParagraphRule(p: Paragraph)
    ensures |AbstractParagraphIssues(p)| <= 3
    ensures AbstractNotFound !in AbstractParagraphIssues(p)
    ensures AbstractNotCentered in AbstractParagraphIssues(p) <==> !IsCentered(p)
    ensures AbstractNotBold in AbstractParagraphIssues(p) <==> !AnyRunBold(p)
    ensures AbstractTooLong in AbstractParagraphIssues(p) <==> |Words(p.text)| > AbstractWordLimit
  {
  }

  /** Only the first paragraph mentioning "abstract" is inspected, and "not
      found" is reported exactly when there is none. */
  lemma AbstractRule(ps: seq<Paragraph>)
    ensures |AbstractIssues(ps)| <= 3
    ensures AbstractNotFound in AbstractIssues(ps) <==> forall i | 0 <= i < |ps| :: !MentionsAbstract(ps[i])
    ensures forall k | 0 <= k < |ps| && MentionsAbstract(ps[k]) && (forall j | 0 <= j < k :: !MentionsAbstract(ps[j])) ::
      AbstractIssues(ps) == AbstractParagraphIssues(ps[k])
  {
    match FirstIndex(ps, MentionsAbstract)
    case None =>
    case Some(k) => AbstractParagraphRule(ps[k]);
    forall k | 0 <= k < |ps| && MentionsAbstract(ps[k]) && (forall j | 0 <= j < k :: !MentionsAbstract(ps[j]))
      ensures AbstractIssues(ps) == AbstractParagraphIssues(ps[k])
    {
      FirstIndexAt(ps, MentionsAbstract, k);
    }
  }

  // ---------------------------------------------------------------- keywords

  predicate MentionsKeywords(p: Paragraph) { Contains(Lower(p.text), "keywords") }

  predicate HasKeywordsLabel(p: Paragraph) { Contains(Lower(p.text), "keywords:") }

  /** A paragraph whose lower-cased text has "keywords:" has a colon, so splitting
      its text at colons gives at least two parts. */
  lemma LabelHasColon(p: Paragraph)
    requires HasKeywordsLabel(p)
    ensures |Split(p.text, ':')| >= 2
  {
    ColonSurvivesLower(p.text, "keywords:");
    CountPositive(p.text, ':');
    SplitShape(p.text, ':');
  }

  /** The text after the first colon, stripped. */
  function KeywordList(p: Paragraph): string
    requires HasKeywordsLabel(p)
  {
    LabelHasColon(p);
    Strip(Split(p.text, ':')[1])
  }

  function KeywordsContentIssues(ps: seq<Paragraph>): seq<Issue> {
    match FirstIndex(ps, HasKeywordsLabel)
    case None => [KeywordsContentNotFound]
    case Some(c) =>
      var list := KeywordList(ps[c]);
      (if !IsLowercased(list) then [KeywordsNotLowercase] else [])
      + (if ',' !in list then [KeywordsNotCommaSeparated] else [])
  }

  /** The label, italic and indent tests on the first paragraph mentioning keywords. */
  function KeywordsHeadingIssues(p: Paragraph): seq<Issue> {
    (if !StartsWith(Lower(p.text), "keywords:") then [KeywordsLabelMissing] else [])
    + (if !AnyRunItalic(p) then [KeywordsNotItalic] else [])
    + (if p.leftIndent != Some(HalfInch) then [KeywordsNotIndented] else [])
  }

  function KeywordsIssues(ps: seq<Paragraph>): seq<Issue> {
    match FirstIndex(ps, MentionsKeywords)
    case None => [KeywordsNotFound]
    case Some(k) => KeywordsHeadingIssues(ps[k]) + KeywordsContentIssues(ps)
  }

  /** A paragraph with "keywords:" also has "keywords", so the content paragraph
      never comes before the heading paragraph. */
  lemma LabelNotBeforeHeading(ps: seq<Paragraph>)
    ensures FirstIndex(ps, HasKeywordsLabel).Some? ==>
      FirstIndex(ps, MentionsKeywords).Some?
      && FirstIndex(ps, MentionsKeywords).value <= FirstIndex(ps, HasKeywordsLabel).value
  {
    if FirstIndex(ps, HasKeywordsLabel).Some? {
      var c := FirstIndex(ps, HasKeywordsLabel).value;
      ContainsPrefix(Lower(ps[c].text), "keywords:", "keywords");
      assert MentionsKeywords(ps[c]);
    }
  }

  /** "Keywords section not found" is reported exactly when no paragraph
      mentions keywords. */
  lemma KeywordsMissingRule(ps: seq<Paragraph>)
    ensures KeywordsNotFound in KeywordsIssues(ps) <==> forall i | 0 <= i < |ps| :: !MentionsKeywords(ps[i])
  {
    match FirstIndex(ps, MentionsKeywords)
    case None =>
    case Some(k) =>
      var content := KeywordsContentIssues(ps);
      assert KeywordsNotFound !in content;
  }

  /** "Keywords content not found" is reported exactly when some paragraph
      mentions keywords and none has "keywords:". */
  lemma KeywordsContentRule(ps: seq<Paragraph>)
    ensures KeywordsContentNotFound in KeywordsIssues(ps) <==>
      (exists i | 0 <= i < |ps| :: MentionsKeywords(ps[i]))
      && forall i | 0 <= i < |ps| :: !HasKeywordsLabel(ps[i])
  {
    match FirstIndex(ps, MentionsKeywords)
    case None =>
    case Some(k) =>
      assert KeywordsContentNotFound in KeywordsIssues(ps) <==> KeywordsContentNotFound in KeywordsContentIssues(ps);
  }

  /** Once some paragraph has "keywords:", the content part does not report
      "content not found". */
  lemma KeywordsContentFound(ps: seq<Paragraph>, k: nat)
    requires k < |ps| && HasKeywordsLabel(ps[k])
    ensures KeywordsContentNotFound !in KeywordsContentIssues(ps)
  {
    assert FirstIndex(ps, HasKeywordsLabel).Some?;
  }

  /** When paragraph `k` is the first with "keywords:", the list after its first
      colon is judged: reported as not lower-case exactly when `islower()`
      fails on it, and as not comma-separated exactly when it has no comma. */
  lemma KeywordsListRule(ps: seq<Paragraph>, k: nat)
    requires k < |ps| && HasKeywordsLabel(ps[k])
    requires forall j | 0 <= j < k :: !HasKeywordsLabel(ps[j])
    ensures forall x | x in KeywordsContentIssues(ps) :: x == KeywordsNotLowercase || x == KeywordsNotCommaSeparated
    ensures KeywordsNotLowercase in KeywordsContentIssues(ps) <==> !IsLowercased(KeywordList(ps[k]))
    ensures KeywordsNotCommaSeparated in KeywordsContentIssues(ps) <==> ',' !in KeywordList(ps[k])
  {
    FirstIndexAt(ps, HasKeywordsLabel, k);
  }

  /** A keywords heading that starts with "keywords:" is itself a content
      paragraph, so neither the label issue nor "content not found" is reported. */
  lemma KeywordsHeadingRule(ps: seq<Paragraph>, k: nat)
    requires k < |ps| && MentionsKeywords(ps[k]) && forall j | 0 <= j < k :: !MentionsKeywords(ps[j])
    requires StartsWith(Lower(ps[k].text), "keywords:")
    ensures KeywordsContentNotFound !in KeywordsIssues(ps) && KeywordsLabelMissing !in KeywordsIssues(ps)
  {
    assert HasKeywordsLabel(ps[k]);
    FirstIndexAt(ps, MentionsKeywords, k);
    KeywordsContentFound(ps, k);
    assert KeywordsLabelMissing !in KeywordsHeadingIssues(ps[k]);
  }
}
