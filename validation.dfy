/** The whole validation: the ten checks run one after another on one
    document, each appending to the same list of issues. An exception raised
    by one check ends the run, so no later check runs. */
module Validation {
  import opened Wrappers
  import opened DocModel
  import opened Issues
  import opened LayoutRules
  import opened FrontMatterRules
  import opened MainTextRules
  import opened BackMatterRules

  const CheckCount: nat := 10

  /** What the check at position `i` of the run contributes. */
  function Stage(doc: Document, pat: Patterns, i: nat): Checked
    requires i < CheckCount
  {
    var ps := doc.paragraphs;
    if i == 0 then Pass(FontIssues(ps))
    else if i == 1 then MarginCheck(doc.sections)
    else if i == 2 then Pass(SpacingIssues(ps))
    else if i == 3 then Pass(StructureIssues(ps))
    else if i == 4 then Pass(TitlePageIssues(ps))
    else if i == 5 then Pass(AbstractIssues(ps))
    else if i == 6 then Pass(KeywordsIssues(ps))
    else if i == 7 then MainTextResult(doc, pat)
    else if i == 8 then Pass(ReferenceIssues(ps, pat))
    else Pass(HeaderIssues(doc.sections))
  }

  /** The ten checks' contributions, in the order they run. */
  function Stages(doc: Document, pat: Patterns): (st: seq<Checked>)
    ensures |st| == CheckCount
    ensures forall i | 0 <= i < CheckCount :: st[i] == Stage(doc, pat, i)
  {
    seq(CheckCount, i requires 0 <= i < CheckCount => Stage(doc, pat, i))
  }

  /** The first seven stages, by name. */
  lemma FrontStages(doc: Document, pat: Patterns)
    ensures Stages(doc, pat)[0] == Pass(FontIssues(doc.paragraphs))
    ensures Stages(doc, pat)[1] == MarginCheck(doc.sections)
    ensures Stages(doc, pat)[2] == Pass(SpacingIssues(doc.paragraphs))
    ensures Stages(doc, pat)[3] == Pass(StructureIssues(doc.paragraphs))
    ensures Stages(doc, pat)[4] == Pass(TitlePageIssues(doc.paragraphs))
    ensures Stages(doc, pat)[5] == Pass(AbstractIssues(doc.paragraphs))
    ensures Stages(doc, pat)[6] == Pass(KeywordsIssues(doc.paragraphs))
  {
  }

  /** The main-text stage, by name. */
  lemma MainTextStage(doc: Document, pat: Patterns)
    ensures Stages(doc, pat)[7] == MainTextResult(doc, pat)
  {
  }

  /** The references and header stages, by name. */
  lemma BackStages(doc: Document, pat: Patterns)
    ensures Stages(doc, pat)[8] == Pass(ReferenceIssues(doc.paragraphs, pat))
    ensures Stages(doc, pat)[9] == Pass(HeaderIssues(doc.sections))
  {
  }

  /** Runs the stages in order, stopping at the first exception. */
  function RunAll(stages: seq<Checked>): Checked
    decreases |stages|
  {
    if stages == [] then Pass([]) else Then(RunAll(stages[..|stages| - 1]), stages[|stages| - 1])
  }

  function Validate(doc: Document, pat: Patterns): Checked {
    RunAll(Stages(doc, pat))
  }

  // ---------------------------------------------------------------- exceptions

  /** A run raises exactly when one of its stages raises, and then it raises
      what the first such stage raises. */
  lemma {:induction false} RunAllCrash(stages: seq<Checked>)
    ensures RunAll(stages).crash.Some? <==> exists i | 0 <= i < |stages| :: stages[i].crash.Some?
    ensures RunAll(stages).crash.Some? ==> exists i | 0 <= i < |stages| ::
      && stages[i].crash == RunAll(stages).crash
      && (forall j | 0 <= j < i :: stages[j].crash.None?)
    decreases |stages|
  {
    if stages != [] {
      var init := stages[..|stages| - 1];
      RunAllCrash(init);
      assert forall i | 0 <= i < |init| :: init[i] == stages[i];
    }
  }

  /** Once a run has raised, later stages change nothing. */
  lemma {:induction false} RunAllStops(stages: seq<Checked>, m: nat)
    requires m <= |stages|
    requires RunAll(stages[..m]).crash.Some?
    ensures RunAll(stages) == RunAll(stages[..m])
    decreases |stages|
  {
    if |stages| > m {
      var init := stages[..|stages| - 1];
      assert init[..m] == stages[..m];
      RunAllStops(init, m);
    } else {
      assert stages[..m] == stages;
    }
  }

  /** Only the margin check and the main-text check can raise. */
  lemma StageCrash(doc: Document, pat: Patterns, i: nat)
    requires i < CheckCount
    ensures Stage(doc, pat, i).crash.Some? ==> i == 1 || i == 7
  {
  }

  /** Of the ten stages, only the margin check and the main-text check decide
      whether the run raises. */
  lemma ValidateFaultStages(doc: Document, pat: Patterns)
    ensures Validate(doc, pat).crash.Some? <==>
      Stages(doc, pat)[1].crash.Some? || Stages(doc, pat)[7].crash.Some?
  {
    var st := Stages(doc, pat);
    RunAllCrash(st);
    forall i | 0 <= i < CheckCount ensures st[i].crash.Some? ==> i == 1 || i == 7 {
      StageCrash(doc, pat, i);
    }
  }

  /** Validation raises exactly when the margin check reaches an unset margin,
      when the document has no paragraph, when a level 4 or 5 heading with empty
      text passes its other tests, or when a table is malformed where it is read. */
  lemma ValidateFaultRule(doc: Document, pat: Patterns)
    ensures Validate(doc, pat).crash.Some? <==>
      || (exists i | 0 <= i < |doc.sections| :: SectionMargins(doc.sections[i]).crash.Some?)
      || doc.paragraphs == []
      || (exists i | 0 <= i < |doc.paragraphs| :: HeadingFaults(doc.paragraphs[i]))
      || (exists i | 0 <= i < |doc.tables| :: TableCheck(doc.tables[i]).crash.Some?)
  {
    ValidateFaultStages(doc, pat);
    FrontStages(doc, pat);
    MainTextStage(doc, pat);
    MarginFault(doc.sections);
    MainTextFaultRule(doc, pat);
  }

  // ---------------------------------------------------------------- empty document

  lemma RunAllSnoc(stages: seq<Checked>, k: nat)
    requires k < |stages|
    ensures RunAll(stages[..k + 1]) == Then(RunAll(stages[..k]), stages[k])
  {
    assert stages[..k + 1][..k] == stages[..k];
  }

  /** One stage of the run, in the form the class method keeps its list in. */
  lemma RunAllStep(stages: seq<Checked>, k: nat, before: seq<Issue>, after: seq<Issue>, fault: Option<Fault>)
    requires k < |stages|
    requires before == RunAll(stages[..k]).issues && RunAll(stages[..k]).crash.None?
    requires after == before + stages[k].issues && fault == stages[k].crash
    ensures fault.None? ==> after == RunAll(stages[..k + 1]).issues && RunAll(stages[..k + 1]).crash.None?
    ensures fault.Some? ==> after == RunAll(stages).issues && fault == RunAll(stages).crash
  {
    RunAllSnoc(stages, k);
    if fault.Some? {
      RunAllStops(stages, k + 1);
    }
  }

  const AllSections: set<string> := {"Title Page", "Abstract", "Keywords", "References"}

  lemma EmptyLayoutStages(doc: Document, pat: Patterns)
    requires doc == Document([], [], [])
    ensures Stage(doc, pat, 0) == Pass([]) && Stage(doc, pat, 1) == Pass([]) && Stage(doc, pat, 2) == Pass([])
    ensures Stage(doc, pat, 3) == Pass([MissingSections(AllSections)])
  {
    assert MissingSectionNames([]) == AllSections;
  }

  lemma EmptyFrontStages(doc: Document, pat: Patterns)
    requires doc == Document([], [], [])
    ensures Stage(doc, pat, 4) == Pass([TitleNotFound, AuthorInfoNotFound, AuthorNoteNotFound])
    ensures Stage(doc, pat, 5) == Pass([AbstractNotFound])
    ensures Stage(doc, pat, 6) == Pass([KeywordsNotFound])
  {
  }

  lemma EmptyMainTextStage(doc: Document, pat: Patterns)
    requires doc == Document([], [], [])
    ensures Stage(doc, pat, 7) == Checked([], Some(NoParagraphs))
  {
  }

  /** The first four checks on an empty document report only the missing
      sections. */
  lemma EmptyDocumentLayout(doc: Document, pat: Patterns)
    requires doc == Document([], [], [])
    ensures RunAll(Stages(doc, pat)[..4]) == Pass([MissingSections(AllSections)])
  {
    var st := Stages(doc, pat);
    EmptyLayoutStages(doc, pat);
    assert st[..0] == [];
    RunAllSnoc(st, 0);
    RunAllSnoc(st, 1);
    RunAllSnoc(st, 2);
    RunAllSnoc(st, 3);
  }

  /** The first seven checks on an empty document add only "not found" issues. */
  lemma EmptyDocumentFront(doc: Document, pat: Patterns)
    requires doc == Document([], [], [])
    ensures RunAll(Stages(doc, pat)[..7]) ==
      Pass([ MissingSections(AllSections),
             TitleNotFound, AuthorInfoNotFound, AuthorNoteNotFound,
             AbstractNotFound, KeywordsNotFound ])
  {
    var st := Stages(doc, pat);
    EmptyDocumentLayout(doc, pat);
    EmptyFrontStages(doc, pat);
    RunAllSnoc(st, 4);
    RunAllSnoc(st, 5);
    RunAllSnoc(st, 6);
  }

  /** An empty document gets the structure, title-page, abstract and keywords
      "not found" issues, and then raises at the main text's first paragraph. */
  lemma EmptyDocument(doc: Document, pat: Patterns)
    requires doc == Document([], [], [])
    ensures Validate(doc, pat) ==
      Checked([ MissingSections(AllSections),
                TitleNotFound, AuthorInfoNotFound, AuthorNoteNotFound,
                AbstractNotFound, KeywordsNotFound ],
              Some(NoParagraphs))
  {
    var st := Stages(doc, pat);
    EmptyDocumentFront(doc, pat);
    EmptyMainTextStage(doc, pat);
    RunAllSnoc(st, 7);
    RunAllStops(st, 8);
  }
}
