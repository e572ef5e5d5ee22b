/** The assessment report reviewer (`ProgramAssessmentReview.tsx`): a
    five-step guided form or an uploaded draft, an AI review shown as one
    gauge per section, rewrites applied back into the draft, and the text
    export's filename. */
module AssessmentReview {
  import opened Wrappers
  import opened Strings
  import opened FileInput
  import opened GeminiService

  datatype Mode = Intro | Wizard | Uploading | Reviewed

  /** The keys of `AssessmentPlanInput`. */
  datatype PlanField =
    | ProgramName | LearningObjective | CurriculumAnchor | AssessmentMethod | PerformanceTarget
    | Findings | ActionPlan | AssessmentImpact | NextYearPlan

  datatype PlanInput = PlanInput(
    programName: string, learningObjective: string, curriculumAnchor: string,
    assessmentMethod: string, performanceTarget: string, findings: string,
    actionPlan: string, assessmentImpact: string, nextYearPlan: string)

  const EMPTY_INPUT := PlanInput("", "", "", "", "", "", "", "", "")

  /** `input[field]`. */
  function FieldOf(input: PlanInput, field: PlanField): string {
    match field
    case ProgramName => input.programName
    case LearningObjective => input.learningObjective
    case CurriculumAnchor => input.curriculumAnchor
    case AssessmentMethod => input.assessmentMethod
    case PerformanceTarget => input.performanceTarget
    case Findings => input.findings
    case ActionPlan => input.actionPlan
    case AssessmentImpact => input.assessmentImpact
    case NextYearPlan => input.nextYearPlan
  }

  /** `handleApplyRewrite`: `{ ...prev, [section]: newText }`. */
  function ApplyRewrite(input: PlanInput, section: PlanField, text: string): (r: PlanInput)
    ensures FieldOf(r, section) == text
    ensures forall other: PlanField | other != section :: FieldOf(r, other) == FieldOf(input, other)
  {
    match section
    case ProgramName => input.(programName := text)
    case LearningObjective => input.(learningObjective := text)
    case CurriculumAnchor => input.(curriculumAnchor := text)
    case AssessmentMethod => input.(assessmentMethod := text)
    case PerformanceTarget => input.(performanceTarget := text)
    case Findings => input.(findings := text)
    case ActionPlan => input.(actionPlan := text)
    case AssessmentImpact => input.(assessmentImpact := text)
    case NextYearPlan => input.(nextYearPlan := text)
  }

  /** Two inputs that agree on every field are the same input. */
  lemma InputExtensional(a: PlanInput, b: PlanInput)
    requires forall f: PlanField :: FieldOf(a, f) == FieldOf(b, f)
    ensures a == b
  {
    assert FieldOf(a, ProgramName) == FieldOf(b, ProgramName);
    assert FieldOf(a, LearningObjective) == FieldOf(b, LearningObjective);
    assert FieldOf(a, CurriculumAnchor) == FieldOf(b, CurriculumAnchor);
    assert FieldOf(a, AssessmentMethod) == FieldOf(b, AssessmentMethod);
    assert FieldOf(a, PerformanceTarget) == FieldOf(b, PerformanceTarget);
    assert FieldOf(a, Findings) == FieldOf(b, Findings);
    assert FieldOf(a, ActionPlan) == FieldOf(b, ActionPlan);
    assert FieldOf(a, AssessmentImpact) == FieldOf(b, AssessmentImpact);
    assert FieldOf(a, NextYearPlan) == FieldOf(b, NextYearPlan);
  }

  /** Applying a rewrite again changes nothing, and rewrites of different
      fields commute. */
  lemma ApplyRewriteLaws(input: PlanInput, s: PlanField, t: PlanField, a: string, b: string)
    ensures ApplyRewrite(ApplyRewrite(input, s, a), s, a) == ApplyRewrite(input, s, a)
    ensures s != t ==> ApplyRewrite(ApplyRewrite(input, s, a), t, b) == ApplyRewrite(ApplyRewrite(input, t, b), s, a)
  {
    var once := ApplyRewrite(input, s, a);
    forall f: PlanField ensures FieldOf(ApplyRewrite(once, s, a), f) == FieldOf(once, f) {
    }
    InputExtensional(ApplyRewrite(once, s, a), once);
    if s != t {
      var st := ApplyRewrite(once, t, b);
      var ts := ApplyRewrite(ApplyRewrite(input, t, b), s, a);
      forall f: PlanField ensures FieldOf(st, f) == FieldOf(ts, f) {
      }
      InputExtensional(st, ts);
    }
  }

  // ---------------------------------------------------------------------
  // Review sections and gauges

  datatype Status = Strong | Adequate | NeedsImprovement

  datatype SectionFeedback = SectionFeedback(
    score: Option<int>, status: Status, strengths: seq<string>, weaknesses: seq<string>,
    rewriteSuggestion: Option<string>, rationale: Option<string>)

  datatype Sections = Sections(
    plan: Option<SectionFeedback>, results: Option<SectionFeedback>,
    closingLoop: Option<SectionFeedback>, future: Option<SectionFeedback>)

  datatype PlanReview = PlanReview(overallScore: int, executiveSummary: string, sections: Option<Sections>)

  /** The four section cards of the review view. */
  datatype ReviewSection = PlanSection | ResultsSection | ClosingLoopSection | FutureSection

  /** `review.sections?.<section>`. */
  function FeedbackOf(review: PlanReview, section: ReviewSection): Option<SectionFeedback> {
    match review.sections
    case None => None
    case Some(s) =>
      match section
      case PlanSection => s.plan
      case ResultsSection => s.results
      case ClosingLoopSection => s.closingLoop
      case FutureSection => s.future
  }

  /** The input field a card's "Apply Fix" rewrites. */
  function TargetField(section: ReviewSection): (f: PlanField)
    ensures f in {AssessmentMethod, Findings, ActionPlan, NextYearPlan}
  {
    match section
    case PlanSection => AssessmentMethod
    case ResultsSection => Findings
    case ClosingLoopSection => ActionPlan
    case FutureSection => NextYearPlan
  }

  /** Each card rewrites its own field, so applying one card's fix leaves
      the text every other card shows untouched. */
  lemma TargetFieldsDistinct(a: ReviewSection, b: ReviewSection, input: PlanInput, text: string)
    requires a != b
    ensures TargetField(a) != TargetField(b)
    ensures FieldOf(ApplyRewrite(input, TargetField(a), text), TargetField(b)) == FieldOf(input, TargetField(b))
  {
  }

  datatype Colour = Green | Amber | Red

  /** The gauge colour: green from 80, amber from 60, red below. */
  function GaugeColour(score: int): (c: Colour)
    ensures c == Green <==> score >= 80
    ensures c == Amber <==> 60 <= score < 80
    ensures c == Red <==> score < 60
  {
    if score >= 80 then Green else if score >= 60 then Amber else Red
  }

  function ColourRank(c: Colour): nat {
    match c
    case Red => 0
    case Amber => 1
    case Green => 2
  }

  /** A higher score never gets a worse colour. */
  lemma GaugeColourMonotone(a: int, b: int)
    requires a <= b
    ensures ColourRank(GaugeColour(a)) <= ColourRank(GaugeColour(b))
  {
  }

  /** What a section card shows: its gauge and whether it offers the
      suggested rewrite. */
  datatype CardView = NotAnalyzed | Scored(gauge: int, colour: Colour, rewriteAvailable: bool)

  /** `SectionCard`: "Not Analyzed" without feedback; otherwise the 0-10
      score, a missing one counting as 0, scaled to the 0-100 gauge. */
  function Card(feedback: Option<SectionFeedback>): (v: CardView)
    ensures v.NotAnalyzed? <==> feedback.None?
    ensures feedback.Some? && feedback.value.score.None? ==> v.gauge == 0 && v.colour == Red
    ensures v.Scored? ==> (v.rewriteAvailable <==> feedback.value.rewriteSuggestion.Some? && feedback.value.rewriteSuggestion.value != "")
    ensures feedback.Some? && feedback.value.score.Some? ==> v.gauge == 10 * feedback.value.score.value
    ensures v.Scored? ==> v.colour == GaugeColour(v.gauge)
  {
    match feedback
    case None => NotAnalyzed
    case Some(fb) =>
      var gauge := (match fb.score case Some(s) => s case None => 0) * 10;
      Scored(gauge, GaugeColour(gauge), fb.rewriteSuggestion.Some? && fb.rewriteSuggestion.value != "")
  }

  /** On the 0-10 scale the thresholds are 8 and 6. */
  lemma CardThresholds(fb: SectionFeedback, s: int)
    requires fb.score == Some(s)
    ensures Card(Some(fb)).colour == Green <==> s >= 8
    ensures Card(Some(fb)).colour == Red <==> s < 6
  {
  }

  // ---------------------------------------------------------------------
  // Export filename

  /** `name.replace(/\s+/g, '_')`: every run of white space becomes one
      underscore. */
  function CollapseWhitespace(s: string): (r: string)
    ensures |r| <= |s|
    ensures forall i | 0 <= i < |r| :: !IsWhitespace(r[i])
    decreases |s|
  {
    if s == [] then ""
    else if IsWhitespace(s[0]) then
      var rest := TrimStart(s);
      "_" + CollapseWhitespace(rest)
    else [s[0]] + CollapseWhitespace(s[1..])
  }

  /** A name without white space is kept as it is. */
  lemma {:induction false} CollapseKeeps(s: string)
    requires forall i | 0 <= i < |s| :: !IsWhitespace(s[i])
    ensures CollapseWhitespace(s) == s
    decreases |s|
  {
    if s != [] {
      CollapseKeeps(s[1..]);
      assert [s[0]] + s[1..] == s;
    }
  }

  /** `trimStart` looks past a prefix only when the prefix is blank. */
  lemma {:induction false} TrimStartAppend(a: string, b: string)
    ensures !IsBlank(a) ==> TrimStart(a + b) == TrimStart(a) + b
    ensures IsBlank(a) ==> TrimStart(a + b) == TrimStart(b)
    decreases |a|
  {
    if a == [] {
      assert a + b == b;
    } else {
      assert (a + b)[0] == a[0] && (a + b)[1..] == a[1..] + b;
      if IsWhitespace(a[0]) {
        TrimStartAppend(a[1..], b);
        if !IsBlank(a) {
          assert !IsBlank(a[1..]) by {
            var i :| 0 <= i < |a| && !IsWhitespace(a[i]);
            assert a[1..][i - 1] == a[i];
          }
        }
      } else {
        assert !IsBlank(a);
      }
    }
  }

  /** Collapsing works piecewise when the cut does not fall inside a run of
      white space. */
  lemma {:induction false} CollapseAppend(a: string, b: string)
    requires a == [] || b == [] || !IsWhitespace(a[|a| - 1]) || !IsWhitespace(b[0])
    ensures CollapseWhitespace(a + b) == CollapseWhitespace(a) + CollapseWhitespace(b)
    decreases |a|
  {
    if a == [] {
      assert a + b == b;
    } else if b == [] {
      assert a + b == a;
    } else {
      var ab := a + b;
      assert ab[0] == a[0] && ab[1..] == a[1..] + b;
      if !IsWhitespace(a[0]) {
        CollapseAppend(a[1..], b);
        assert CollapseWhitespace(ab) == [a[0]] + CollapseWhitespace(a[1..] + b);
        assert CollapseWhitespace(a) == [a[0]] + CollapseWhitespace(a[1..]);
      } else {
        TrimStartAppend(a, b);
        var t := TrimStart(a);
        assert CollapseWhitespace(ab) == "_" + CollapseWhitespace(TrimStart(ab));
        assert CollapseWhitespace(a) == "_" + CollapseWhitespace(t);
        if IsBlank(a) {
          assert TrimStart(b) == b;
          assert t == [];
        } else {
          assert t != [] && t[|t| - 1] == a[|a| - 1];
          CollapseAppend(t, b);
        }
      }
    }
  }

  /** `/\s+/g` replaces a whole run: a run of white space between two
      non-blank ends becomes exactly one underscore, and the two sides are
      collapsed on their own. */
  lemma CollapseRun(a: string, w: string, b: string)
    requires w != [] && IsBlank(w)
    requires a == [] || !IsWhitespace(a[|a| - 1])
    requires b == [] || !IsWhitespace(b[0])
    ensures CollapseWhitespace(a + w + b) == CollapseWhitespace(a) + "_" + CollapseWhitespace(b)
  {
    var wb := w + b;
    assert a + w + b == a + wb;
    CollapseBlankPrefix(w, b);
    CollapseAppendRun(a, w, wb);
    AppendAssoc(CollapseWhitespace(a), "_", CollapseWhitespace(b));
  }

  /** A join where the second part opens with a white-space run (and the
      first does not end in one) splits the collapse at the join. */
  lemma CollapseAppendRun(a: string, w: string, wb: string)
    requires w != [] && IsBlank(w) && |w| <= |wb| && wb[..|w|] == w
    requires a == [] || !IsWhitespace(a[|a| - 1])
    ensures CollapseWhitespace(a + wb) == CollapseWhitespace(a) + CollapseWhitespace(wb)
  {
    assert wb[0] == w[0];
    CollapseAppend(a, wb);
  }

  /** A leading run of white space becomes one underscore in front of the
      collapsed rest. */
  lemma CollapseBlankPrefix(w: string, b: string)
    requires w != [] && IsBlank(w)
    requires b == [] || !IsWhitespace(b[0])
    ensures CollapseWhitespace(w + b) == "_" + CollapseWhitespace(b)
  {
    var wb := w + b;
    assert wb[0] == w[0];
    TrimStartAppend(w, b);
    assert TrimStart(b) == b;
    assert CollapseWhitespace(wb) == "_" + CollapseWhitespace(TrimStart(wb));
  }

  /** Collapsing twice is collapsing once. */
  lemma CollapseIdempotent(s: string)
    ensures CollapseWhitespace(CollapseWhitespace(s)) == CollapseWhitespace(s)
  {
    CollapseKeeps(CollapseWhitespace(s));
  }

  const REPORT_SUFFIX := "_Assessment_Report.txt"

  /** The report's download name: the programme name with its white space
      collapsed, then the fixed suffix. */
  function ExportFilename(input: PlanInput): (r: string)
    ensures r == CollapseWhitespace(input.programName) + REPORT_SUFFIX
    ensures EndsWith(r, REPORT_SUFFIX)
    ensures forall i | 0 <= i < |r| :: !IsWhitespace(r[i])
  {
    var r := CollapseWhitespace(input.programName) + REPORT_SUFFIX;
    assert forall i | 0 <= i < |REPORT_SUFFIX| :: !IsWhitespace(REPORT_SUFFIX[i]);
    r
  }

  // ---------------------------------------------------------------------
  // Upload

  const READ_FAILED := "Failed to read document. Please try again."
  const REVIEW_GENERATION_FAILED := "Failed to generate review. Please try again."

  /** Where the upload's asynchronous chain ends as written: the reader's
      `onloadend` parses the file, stores the parsed input and reviews it;
      a failure anywhere in that callback escapes the `try` around the
      reader's setup, so nothing handles it. `Stuck` carries the input the
      callback had already stored, if any. */
  datatype UploadEnd = Stuck(stored: Option<PlanInput>) | Done(input: PlanInput, review: PlanReview)

  /** The file data `onloadend` builds, `None` when it throws: a PDF whose
      read failed has no text to split. */
  function UploadedData(file: UploadedFile, read: Option<string>): (r: Option<FileData>)
    ensures read.Some? ==> r == ReadAsPdfOrText(file, read)
    ensures read.None? ==> (r.None? <==> file.mimeType == PDF_MIME)
  {
    if read.None? && file.mimeType != PDF_MIME then Some(FileData(TEXT_MIME, None))
    else ReadAsPdfOrText(file, read)
  }

  function UploadChain(file: UploadedFile, read: Option<string>,
                       parse: Reply<PlanInput>, review: Reply<PlanReview>): (r: UploadEnd)
    ensures r.Done? <==> UploadedData(file, read).Some? && JsonCall(parse, PARSE_FAILED).Success?
                          && JsonCall(review, REVIEW_FAILED).Success?
    ensures r.Done? ==> r.input == JsonCall(parse, PARSE_FAILED).value && r.review == JsonCall(review, REVIEW_FAILED).value
  {
    if UploadedData(file, read).None? then Stuck(None)
    else match JsonCall(parse, PARSE_FAILED)
      case Failure(_) => Stuck(None)
      case Success(parsed) =>
        match JsonCall(review, REVIEW_FAILED)
        case Failure(_) => Stuck(Some(parsed))
        case Success(rv) => Done(parsed, rv)
  }

  /** A document the parser cannot handle leaves the chain stuck. */
  lemma ParseFailureHangs(file: UploadedFile, read: Option<string>, message: string, review: Reply<PlanReview>)
    ensures UploadChain(file, read, Threw(message), review) == Stuck(None)
  {
  }

  // ---------------------------------------------------------------------
  // The component's state

  class Reviewer {
    var mode: Mode
    var wizardStep: int
    var input: PlanInput
    var review: Option<PlanReview>
    var isLoading: bool
    var error: Option<string>

    ghost predicate Valid()
      reads this
    {
      0 <= wizardStep <= 4 && (mode == Reviewed ==> review.Some?)
    }

    constructor()
      ensures Valid() && mode == Intro && wizardStep == 0 && input == EMPTY_INPUT
      ensures review.None? && !isLoading && error.None?
    {
      mode := Intro;
      wizardStep := 0;
      input := EMPTY_INPUT;
      review := None;
      isLoading := false;
      error := None;
    }

    /** "Use Guided Form" and "Edit Full Draft manually". */
    method EnterWizard()
      requires Valid()
      modifies this
      ensures Valid() && mode == Wizard && wizardStep == 0
      ensures input == old(input) && review == old(review) && isLoading == old(isLoading) && error == old(error)
    {
      mode := Wizard;
      wizardStep := 0;
    }

    /** "Next Step", offered below the last step. */
    method WizardNext()
      requires Valid() && mode == Wizard && wizardStep < 4
      modifies this
      ensures Valid() && mode == Wizard && wizardStep == old(wizardStep) + 1
      ensures input == old(input) && review == old(review) && isLoading == old(isLoading) && error == old(error)
    {
      wizardStep := wizardStep + 1;
    }

    /** "Back": one step back, or to the intro from the first step. */
    method WizardBack()
      requires Valid() && mode == Wizard
      modifies this
      ensures Valid()
      ensures old(wizardStep) > 0 ==> mode == Wizard && wizardStep == old(wizardStep) - 1
      ensures old(wizardStep) == 0 ==> mode == Intro && wizardStep == 0
      ensures input == old(input) && review == old(review) && isLoading == old(isLoading) && error == old(error)
    {
      if wizardStep > 0 {
        wizardStep := wizardStep - 1;
      } else {
        mode := Intro;
      }
    }

    /** "Generate Review" on the last step. */
    method ReviewFromWizard(reply: Reply<PlanReview>)
      requires Valid() && mode == Wizard && wizardStep == 4 && !isLoading
      modifies this
      ensures Valid() && !isLoading && input == old(input) && wizardStep == old(wizardStep)
      ensures JsonCall(reply, REVIEW_FAILED).Success? ==>
        review == Some(JsonCall(reply, REVIEW_FAILED).value) && mode == Reviewed && error.None?
      ensures JsonCall(reply, REVIEW_FAILED).Failure? ==>
        review == old(review) && mode == Wizard && error == Some(REVIEW_GENERATION_FAILED)
    {
      isLoading := true;
      error := None;
      var result := JsonCall(reply, REVIEW_FAILED);
      if result.Success? {
        review := Some(result.value);
        mode := Reviewed;
      } else {
        error := Some(REVIEW_GENERATION_FAILED);
      }
      isLoading := false;
    }

    /** "Apply Fix" on a section card, offered when the card's feedback
        carries a non-empty rewrite: the rewrite replaces the card's field
        of the draft. */
    method ApplyFix(section: ReviewSection)
      requires Valid() && mode == Reviewed
      requires Card(FeedbackOf(review.value, section)).Scored?
      requires Card(FeedbackOf(review.value, section)).rewriteAvailable
      modifies this
      ensures Valid()
      ensures input == ApplyRewrite(old(input), TargetField(section),
                                    old(FeedbackOf(review.value, section).value.rewriteSuggestion.value))
      ensures mode == old(mode) && wizardStep == old(wizardStep) && review == old(review)
      ensures isLoading == old(isLoading) && error == old(error)
    {
      var suggestion := FeedbackOf(review.value, section).value.rewriteSuggestion.value;
      input := ApplyRewrite(input, TargetField(section), suggestion);
    }

    /** "Start Over". */
    method StartOver()
      requires Valid()
      modifies this
      ensures Valid() && mode == Intro
      ensures wizardStep == old(wizardStep) && input == old(input) && review == old(review)
      ensures isLoading == old(isLoading) && error == old(error)
    {
      mode := Intro;
    }

    /** `handleFileUpload` as written: the spinner is shown, and only a
        chain that runs to the end leaves it; otherwise the reviewer stays
        on "Analyzing Document..." with no error, the `catch` never seeing
        the failure. */
    method HandleFileUploadAsWritten(file: UploadedFile, read: Option<string>,
                                     parse: Reply<PlanInput>, reply: Reply<PlanReview>)
      requires Valid()
      modifies this
      ensures Valid() && error.None? && wizardStep == old(wizardStep)
      ensures UploadChain(file, read, parse, reply).Done? ==>
        mode == Reviewed && !isLoading && input == UploadChain(file, read, parse, reply).input
        && review == Some(UploadChain(file, read, parse, reply).review)
      ensures UploadChain(file, read, parse, reply).Stuck? ==>
        mode == Uploading && isLoading && review == old(review)
        && input == (if UploadChain(file, read, parse, reply).stored.Some?
                     then UploadChain(file, read, parse, reply).stored.value else old(input))
    {
      isLoading := true;
      mode := Uploading;
      error := None;
      var data := UploadedData(file, read);
      if data.None? {
        return;
      }
      var parsed := JsonCall(parse, PARSE_FAILED);
      if parsed.Failure? {
        return;
      }
      input := parsed.value;
      var result := JsonCall(reply, REVIEW_FAILED);
      if result.Failure? {
        return;
      }
      review := Some(result.value);
      mode := Reviewed;
      isLoading := false;
    }

    /** `handleFileUpload` with its `catch` covering the whole chain: a
        failure returns to the intro with the error shown, and the spinner
        always stops. */
    method HandleFileUpload(file: UploadedFile, read: Option<string>,
                            parse: Reply<PlanInput>, reply: Reply<PlanReview>)
      requires Valid()
      modifies this
      ensures Valid() && !isLoading && wizardStep == old(wizardStep)
      ensures UploadChain(file, read, parse, reply).Done? ==>
        mode == Reviewed && error.None? && input == UploadChain(file, read, parse, reply).input
        && review == Some(UploadChain(file, read, parse, reply).review)
      ensures UploadChain(file, read, parse, reply).Stuck? ==>
        mode == Intro && error == Some(READ_FAILED) && review == old(review)
        && input == (if UploadChain(file, read, parse, reply).stored.Some?
                     then UploadChain(file, read, parse, reply).stored.value else old(input))
    {
      isLoading := true;
      mode := Uploading;
      error := None;
      var outcome := UploadChain(file, read, parse, reply);
      match outcome {
        case Done(parsed, rv) =>
          input := parsed;
          review := Some(rv);
          mode := Reviewed;
        case Stuck(stored) =>
          if stored.Some? {
            input := stored.value;
          }
          error := Some(READ_FAILED);
          mode := Intro;
      }
      isLoading := false;
    }
  }
}
