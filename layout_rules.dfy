/** The four document-wide checks: font of every run, margins of every layout
    section, spacing of every non-blank paragraph, and presence of the four
    required section names. Each function gives the issues its check appends. */
module LayoutRules {
  import opened Wrappers
  import opened Text
  import opened DocModel
  import opened Issues
  import opened Scans

  const TimesNewRoman: string := "Times New Roman"

  // ---------------------------------------------------------------- font

  /** An explicit size that is not 12pt. A size of zero is false in Python, so
      it counts as unset. */
  predicate WrongSize(r: Run) {
    r.size.Some? && r.size.value != 0 && r.size.value != TwelvePoints
  }

  function RunFontIssues(r: Run): seq<Issue> {
    (if r.fontName != Some(TimesNewRoman) then [NotTimesNewRoman(r.text)] else [])
    + (if WrongSize(r) then [FontSizeNot12(r.text)] else [])
  }

  function ParagraphFontIssues(p: Paragraph): seq<Issue> {
    ConcatMap(RunFontIssues, p.runs)
  }

  function FontIssues(ps: seq<Paragraph>): seq<Issue> {
    ConcatMap(ParagraphFontIssues, ps)
  }

  function RunCount(ps: seq<Paragraph>): nat
    decreases |ps|
  {
    if ps == [] then 0 else RunCount(ps[..|ps| - 1]) + |ps[|ps| - 1].runs|
  }

  lemma {:induction false} RunsFontBound(rs: seq<Run>)
    ensures |ConcatMap(RunFontIssues, rs)| <= 2 * |rs|
    decreases |rs|
  {
    if rs != [] {
      RunsFontBound(rs[..|rs| - 1]);
    }
  }

  /** Each run yields at most two issues. */
  lemma {:induction false} FontIssuesBound(ps: seq<Paragraph>)
    ensures |FontIssues(ps)| <= 2 * RunCount(ps)
    decreases |ps|
  {
    if ps != [] {
      FontIssuesBound(ps[..|ps| - 1]);
      RunsFontBound(ps[|ps| - 1].runs);
    }
  }

  /** Something is reported about a run exactly when some run of some paragraph
      reports it. */
  lemma FontIssueMember(ps: seq<Paragraph>, x: Issue)
    ensures x in FontIssues(ps) <==>
      exists i, j | 0 <= i < |ps| && 0 <= j < |ps[i].runs| :: x in RunFontIssues(ps[i].runs[j])
  {
    ConcatMapMember(ParagraphFontIssues, ps, x);
    forall i | 0 <= i < |ps| {
      ConcatMapMember(RunFontIssues, ps[i].runs, x);
    }
  }

  /** The font-name issue quoting `t` is reported exactly when some run with
      text `t` does not name Times New Roman; an unset name is reported. */
  lemma FontNameRule(ps: seq<Paragraph>, t: string)
    ensures NotTimesNewRoman(t) in FontIssues(ps) <==>
      exists i, j | 0 <= i < |ps| && 0 <= j < |ps[i].runs| ::
        ps[i].runs[j].text == t && ps[i].runs[j].fontName != Some(TimesNewRoman)
  {
    FontIssueMember(ps, NotTimesNewRoman(t));
  }

  /** The font-size issue quoting `t` is reported exactly when some run with
      text `t` has a set, non-zero size other than 12pt. */
  lemma FontSizeRule(ps: seq<Paragraph>, t: string)
    ensures FontSizeNot12(t) in FontIssues(ps) <==>
      exists i, j | 0 <= i < |ps| && 0 <= j < |ps[i].runs| ::
        ps[i].runs[j].text == t && WrongSize(ps[i].runs[j])
  {
    FontIssueMember(ps, FontSizeNot12(t));
  }

  // ---------------------------------------------------------------- margins

  /** The four margins compared with one inch, left to right as Python's `or`
      evaluates them: the first margin that differs decides, and an unset margin
      reached before that raises. */
  function SectionMargins(s: Section): Checked {
    if s.leftMargin.None? then Checked([], Some(MarginUnset))
    else if s.leftMargin.value != EmuPerInch then Pass([MarginsNotOneInch])
    else if s.rightMargin.None? then Checked([], Some(MarginUnset))
    else if s.rightMargin.value != EmuPerInch then Pass([MarginsNotOneInch])
    else if s.topMargin.None? then Checked([], Some(MarginUnset))
    else if s.topMargin.value != EmuPerInch then Pass([MarginsNotOneInch])
    else if s.bottomMargin.None? then Checked([], Some(MarginUnset))
    else if s.bottomMargin.value != EmuPerInch then Pass([MarginsNotOneInch])
    else Pass([])
  }

  function MarginCheck(ss: seq<Section>): Checked {
    Collect(SectionMargins, ss)
  }

  predicate MarginsSet(s: Section) {
    s.leftMargin.Some? && s.rightMargin.Some? && s.topMargin.Some? && s.bottomMargin.Some?
  }

  predicate OneInchAllRound(s: Section)
    requires MarginsSet(s)
  {
    s.leftMargin.value == EmuPerInch && s.rightMargin.value == EmuPerInch
    && s.topMargin.value == EmuPerInch && s.bottomMargin.value == EmuPerInch
  }

  /** With every margin set, the check does not raise and reports one issue per
      section that has some margin other than one inch, and nothing else. */
  lemma {:induction false} MarginRule(ss: seq<Section>)
    requires forall i | 0 <= i < |ss| :: MarginsSet(ss[i])
    ensures MarginCheck(ss).crash.None?
    ensures |MarginCheck(ss).issues| == |ss| - |PassingSections(ss)|
    ensures forall k | 0 <= k < |MarginCheck(ss).issues| :: MarginCheck(ss).issues[k] == MarginsNotOneInch
    ensures MarginCheck(ss).issues == [] <==> forall i | 0 <= i < |ss| :: OneInchAllRound(ss[i])
    decreases |ss|
  {
    if ss != [] {
      var init := ss[..|ss| - 1];
      assert forall i | 0 <= i < |init| :: init[i] == ss[i];
      MarginRule(init);
    }
  }

  /** The sections whose margins are all one inch. */
  function PassingSections(ss: seq<Section>): seq<Section>
    requires forall i | 0 <= i < |ss| :: MarginsSet(ss[i])
    decreases |ss|
  {
    if ss == [] then []
    else
      var init := ss[..|ss| - 1];
      assert forall i | 0 <= i < |init| :: init[i] == ss[i];
      PassingSections(init) + if OneInchAllRound(ss[|ss| - 1]) then [ss[|ss| - 1]] else []
  }

  /** The check raises exactly when some section reaches an unset margin before
      any margin that differs from one inch. */
  lemma MarginFault(ss: seq<Section>)
    ensures MarginCheck(ss).crash.Some? <==>
      exists i | 0 <= i < |ss| :: SectionMargins(ss[i]).crash.Some?
  {
    CollectCrashIff(SectionMargins, ss);
  }

  // ---------------------------------------------------------------- line spacing

  function ParagraphSpacingIssues(p: Paragraph): seq<Issue> {
    if Blank(p.text) then []
    else
      (if !DoubleSpaced(p.lineSpacing) then [NotDoubleSpaced(p.text)] else [])
      + (if Positive(p.spaceAfter) || Positive(p.spaceBefore) then [ExtraSpace(p.text)] else [])
  }

  function SpacingIssues(ps: seq<Paragraph>): seq<Issue> {
    ConcatMap(ParagraphSpacingIssues, ps)
  }

  /** A whitespace-only paragraph never yields a spacing issue: a document made of
      such paragraphs yields none. */
  lemma {:induction false} BlankParagraphsSilent(ps: seq<Paragraph>)
    requires forall i | 0 <= i < |ps| :: Blank(ps[i].text)
    ensures SpacingIssues(ps) == []
    decreases |ps|
  {
    if ps != [] {
      assert forall i | 0 <= i < |ps| - 1 :: ps[..|ps| - 1][i] == ps[i];
      BlankParagraphsSilent(ps[..|ps| - 1]);
    }
  }

  /** "Not double-spaced" quoting `t` is reported exactly when a non-blank paragraph
      with text `t` does not have line spacing 2. */
  lemma DoubleSpacingRule(ps: seq<Paragraph>, t: string)
    ensures NotDoubleSpaced(t) in SpacingIssues(ps) <==>
      exists i | 0 <= i < |ps| :: ps[i].text == t && !Blank(t) && !DoubleSpaced(ps[i].lineSpacing)
  {
    ConcatMapMember(ParagraphSpacingIssues, ps, NotDoubleSpaced(t));
  }

  /** "Extra space" quoting `t` is reported exactly when a non-blank paragraph
      with text `t` has a positive space before or after it, independently of
      its line spacing. */
  lemma ExtraSpaceRule(ps: seq<Paragraph>, t: string)
    ensures ExtraSpace(t) in SpacingIssues(ps) <==>
      exists i | 0 <= i < |ps| ::
        ps[i].text == t && !Blank(t) && (Positive(ps[i].spaceAfter) || Positive(ps[i].spaceBefore))
  {
    ConcatMapMember(ParagraphSpacingIssues, ps, ExtraSpace(t));
  }

  // ---------------------------------------------------------------- structure

  /** The required names whose lower-case form occurs in the paragraph's lower-cased text. */
  function NamesIn(p: Paragraph): set<string> {
    set m | m in RequiredSections && Contains(Lower(p.text), Lower(m))
  }

  /** The names found by scanning the paragraphs in order. */
  function FoundSections(ps: seq<Paragraph>): set<string>
    decreases |ps|
  {
    if ps == [] then {} else FoundSections(ps[..|ps| - 1]) + NamesIn(ps[|ps| - 1])
  }

  lemma FoundSectionsAt(ps: seq<Paragraph>, i: nat)
    requires i < |ps|
    ensures FoundSections(ps[..i + 1]) == FoundSections(ps[..i]) + NamesIn(ps[i])
  {
    assert ps[..i + 1][..i] == ps[..i];
  }

  function MissingSectionNames(ps: seq<Paragraph>): set<string> {
    (set m | m in RequiredSections) - FoundSections(ps)
  }

  function StructureIssues(ps: seq<Paragraph>): seq<Issue> {
    var missing := MissingSectionNames(ps);
    if missing == {} then [] else [MissingSections(missing)]
  }

  /** A name is found exactly when it is required and some paragraph mentions it. */
  lemma {:induction false} FoundSectionsIff(ps: seq<Paragraph>, m: string)
    ensures m in FoundSections(ps) <==>
      m in RequiredSections && exists i | 0 <= i < |ps| :: Contains(Lower(ps[i].text), Lower(m))
    decreases |ps|
  {
    if ps != [] {
      var init := ps[..|ps| - 1];
      assert forall i | 0 <= i < |init| :: init[i] == ps[i];
      FoundSectionsIff(init, m);
    }
  }

  /** The structure check reports at most one issue; it reports one exactly when
      some required name is mentioned by no paragraph, and that issue lists exactly
      the names not mentioned. */
  lemma StructureRule(ps: seq<Paragraph>, m: string)
    ensures |StructureIssues(ps)| <= 1
    ensures m in MissingSectionNames(ps) <==>
      m in RequiredSections && forall i | 0 <= i < |ps| :: !Contains(Lower(ps[i].text), Lower(m))
    ensures StructureIssues(ps) == [] <==>
      forall n | n in RequiredSections :: exists i | 0 <= i < |ps| :: Contains(Lower(ps[i].text), Lower(n))
  {
    FoundSectionsIff(ps, m);
    forall n | n in RequiredSections {
      FoundSectionsIff(ps, n);
    }
    if StructureIssues(ps) == [] {
      forall n | n in RequiredSections
        ensures exists i | 0 <= i < |ps| :: Contains(Lower(ps[i].text), Lower(n))
      {
        assert n !in MissingSectionNames(ps);
      }
    } else {
      var n :| n in MissingSectionNames(ps);
      assert n in RequiredSections && n !in FoundSections(ps);
    }
  }
}
