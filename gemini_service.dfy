/** The deterministic shell around the Gemini calls of
    services/geminiService.ts: how requests are assembled (content parts,
    the dynamic response schema, the option hints) and how a reply, an
    empty reply or a thrown exception becomes the wrapper's outcome. The
    model calls themselves, the prompt wording and `JSON.parse` are not
    modelled: a reply is an input carrying its text and its parse outcome. */
module GeminiService {
  import opened Wrappers
  import opened Strings
  import opened StudyFacts
  import opened FileInput
  import opened Constants

  // ---------------------------------------------------------------------
  // Replies and the wrappers' failure behaviour

  /** What one `generateContent` call did: it threw, or it answered with a
      text (empty when `response.text` is empty or undefined) whose JSON
      parse gave a value or a parse error. */
  datatype Reply<T> = Threw(message: string) | Answered(text: string, parsed: Result<T, string>)

  /** The parsed reply of `generateProtocolContent` (`GeneratedProtocol` in
      types.ts), reduced to what the application reads: the facts the
      generator may echo back and the protocol sections it drafted. */
  datatype GeneratedProtocol = GeneratedProtocol(studyFacts: Option<Facts>, outputs: seq<string>)

  /** A reply of a call whose text is used as is. */
  datatype TextReply = TextThrew | TextAnswered(text: string)

  const RESEARCH_DOC_FAILED := "The Methodologist is currently busy or had trouble reading the file. Please try again."
  const PROTOCOL_FAILED := "Failed to generate protocol content."
  const EXTRACTION_FAILED := "Failed to extract study facts. The document might be too large or malformed."
  const REVIEW_FAILED := "Failed to review assessment plan"
  const PARSE_FAILED := "Failed to parse document"
  const NO_RESPONSE := "No response"

  /** A JSON-returning wrapper (`generateResearchDocument`,
      `generateProtocolContent`, `extractFromDocument`,
      `reviewAssessmentPlan`, `parseAssessmentDocument`): an empty text
      throws inside the `try`, and every failure is rethrown as the
      wrapper's own fixed message. */
  function JsonCall<T>(reply: Reply<T>, failMessage: string): (r: Result<T, string>)
    ensures r.Success? <==> reply.Answered? && reply.text != "" && reply.parsed.Success?
    ensures r.Success? ==> r.value == reply.parsed.value
    ensures r.Failure? ==> r.error == failMessage
  {
    match reply
    case Threw(_) => Failure(failMessage)
    case Answered(text, parsed) =>
      if text == "" then Failure(failMessage)
      else match parsed
        case Success(v) => Success(v)
        case Failure(_) => Failure(failMessage)
  }

  /** `extractSpecificScope`'s outcome: the caught error is rethrown
      unchanged, so the caller sees the call's own error, "No response" for
      an empty text, or the parse error. */
  function ScopedCall<T>(reply: Reply<T>): (r: Result<T, string>)
    ensures reply.Threw? ==> r == Failure(reply.message)
    ensures reply.Answered? && reply.text == "" ==> r == Failure(NO_RESPONSE)
    ensures reply.Answered? && reply.text != "" && reply.parsed.Failure? ==> r == Failure(reply.parsed.error)
  {
    match reply
    case Threw(m) => Failure(m)
    case Answered(text, parsed) =>
      if text == "" then Failure(NO_RESPONSE) else parsed
  }

  /** The two failure policies accept the same replies with the same value
      and differ only in the error they report. */
  lemma JsonAndScopedAgree<T>(reply: Reply<T>, failMessage: string)
    ensures JsonCall(reply, failMessage).Success? <==> ScopedCall(reply).Success?
    ensures ScopedCall(reply).Success? ==> JsonCall(reply, failMessage) == ScopedCall(reply)
  {
  }

  /** `refineFieldContent` and `refineArtifactSection`: `response.text ||
      input`, and the input again when the call throws. */
  function RefineText(reply: TextReply, input: string): (r: string)
    ensures reply.TextThrew? || reply.text == "" ==> r == input
    ensures reply.TextAnswered? && reply.text != "" ==> r == reply.text
  {
    match reply
    case TextThrew => input
    case TextAnswered(text) => if text != "" then text else input
  }

  /** A refinement never blanks out a non-empty input. */
  lemma RefineNeverEmpties(reply: TextReply, input: string)
    requires input != ""
    ensures RefineText(reply, input) != ""
  {
  }

  // ---------------------------------------------------------------------
  // Content parts

  datatype Part = InlineData(mimeType: string, data: Option<string>) | TextPart(text: string)

  /** `${file.data}` in a template: `undefined` renders as the word. */
  function DataText(data: Option<string>): string {
    data.GetOr("undefined")
  }

  /** The prompt is the text that closes the request. */
  predicate EndsWithPrompt(parts: seq<Part>, prompt: string) {
    |parts| > 0 && parts[|parts| - 1].TextPart? && EndsWith(parts[|parts| - 1].text, prompt)
  }

  /** `parts` of `extractFromDocument`, `extractSpecificScope` and
      `parseAssessmentDocument`: a PDF goes inline ahead of the prompt; a
      text document is embedded in front of the prompt in a single text
      part. */
  method DocumentParts(file: FileData, prompt: string) returns (parts: seq<Part>)
    ensures file.mimeType == PDF_MIME ==> parts == [InlineData(PDF_MIME, file.data), TextPart(prompt)]
    ensures file.mimeType != PDF_MIME ==>
      parts == [TextPart("DOCUMENT CONTENT:\n" + DataText(file.data) + "\n\n" + prompt)]
    ensures EndsWithPrompt(parts, prompt)
    ensures file.mimeType == PDF_MIME <==> |parts| == 2 && parts[0] == InlineData(PDF_MIME, file.data)
    ensures file.mimeType != PDF_MIME ==>
      |parts| == 1 && StartsWith(parts[0].text, "DOCUMENT CONTENT:\n") && Contains(parts[0].text, DataText(file.data))
  {
    parts := [];
    if file.mimeType == PDF_MIME {
      parts := parts + [InlineData(PDF_MIME, file.data)];
      parts := parts + [TextPart(prompt)];
      assert EndsWith(prompt, prompt);
    } else {
      var head := "DOCUMENT CONTENT:\n";
      var text := head + DataText(file.data) + "\n\n" + prompt;
      parts := parts + [TextPart(text)];
      assert text[|text| - |prompt|..] == prompt;
      assert text[..|head|] == head;
      ContainsInContext(head, DataText(file.data), "\n\n" + prompt, DataText(file.data)) by {
        assert OccursAt(DataText(file.data), DataText(file.data), 0);
      }
      assert head + DataText(file.data) + ("\n\n" + prompt) == text;
    }
  }

  /** `parts` of `generateResearchDocument`: the optional document comes
      first, as inline PDF data or as its own text part, and the prompt is
      always its own last part. */
  method ResearchDocumentParts(file: Option<FileData>, prompt: string) returns (parts: seq<Part>)
    ensures |parts| > 0 && parts[|parts| - 1] == TextPart(prompt)
    ensures file.None? ==> parts == [TextPart(prompt)]
    ensures file.Some? ==> |parts| == 2
    ensures file.Some? && file.value.mimeType == PDF_MIME ==> parts[0] == InlineData(PDF_MIME, file.value.data)
    ensures file.Some? && file.value.mimeType != PDF_MIME ==>
      parts[0] == TextPart("ATTACHED DOCUMENT CONTENT:\n" + DataText(file.value.data) + "\n\n")
  {
    parts := [];
    if file.Some? {
      if file.value.mimeType == PDF_MIME {
        parts := parts + [InlineData(PDF_MIME, file.value.data)];
      } else {
        parts := parts + [TextPart("ATTACHED DOCUMENT CONTENT:\n" + DataText(file.value.data) + "\n\n")];
      }
    }
    parts := parts + [TextPart(prompt)];
  }

  // ---------------------------------------------------------------------
  // Requirement text per document type

  datatype DocType = InformedConsent | Survey | InterviewGuide | RecruitmentEmail | Debriefing

  /** The bullet points of the REQUIREMENTS text, one constructor per
      bullet (the wording itself is prompt text and is not modelled). */
  datatype Requirement =
    | Hrp590Structure | KeyInformationSection | ProceduresSection | RisksSection
    | BenefitsSection | EighthGradeReadingLevel
    | ConsentPreamble | GroupedQuestions | ExclusiveExhaustiveOptions
    | IntroductionScript | WarmUpQuestions | CoreQuestions | ProbesFollowUps | ClosingScript
    | ClearSubjectLine | Salutation | Hook | EligibilityChecklist | Logistics | CallToAction
    | AffiliationSignature

  /** `specificReqs` of `generateResearchDocument`, in bullet order; every
      type except the debriefing statement adds some. */
  function SpecificRequirements(t: DocType): (r: seq<Requirement>)
    ensures r == [] <==> t == Debriefing
  {
    match t
    case InformedConsent =>
      [Hrp590Structure, KeyInformationSection, ProceduresSection, RisksSection,
       BenefitsSection, EighthGradeReadingLevel]
    case Survey => [ConsentPreamble, GroupedQuestions, ExclusiveExhaustiveOptions]
    case InterviewGuide =>
      [IntroductionScript, WarmUpQuestions, CoreQuestions, ProbesFollowUps, ClosingScript]
    case RecruitmentEmail =>
      [ClearSubjectLine, Salutation, Hook, EligibilityChecklist, Logistics, CallToAction,
       AffiliationSignature]
    case Debriefing => []
  }

  /** No requirement is shared between two document types. */
  lemma RequirementsDisjoint(t: DocType, u: DocType, q: Requirement)
    requires t != u && q in SpecificRequirements(t)
    ensures q !in SpecificRequirements(u)
  {
  }

  // ---------------------------------------------------------------------
  // The dynamic schema of extractSpecificScope

  datatype SchemaType = ArrayOfStrings | Boolean | String

  predicate HasArrayMarker(field: string) {
    Contains(field, "Methods") || Contains(field, "Populations") || Contains(field, "identifiers")
    || Contains(field, "Locations") || Contains(field, "recordings") || Contains(field, "Type")
    || Contains(field, "Conditions")
  }

  predicate HasBooleanMarker(field: string) {
    StartsWith(field, "is") || Contains(field, "Records") || Contains(field, "Risk")
    || Contains(field, "Audit") || Contains(field, "Report") || Contains(field, "Research")
    || Contains(field, "transcription")
  }

  /** The schema type of one requested field: the array markers are tested
      first, then the boolean markers, case-sensitively. */
  function InferType(field: string): (t: SchemaType)
    ensures t == ArrayOfStrings <==> HasArrayMarker(field)
    ensures t == Boolean <==> !HasArrayMarker(field) && HasBooleanMarker(field)
    ensures t == String <==> !HasArrayMarker(field) && !HasBooleanMarker(field)
  {
    if HasArrayMarker(field) then ArrayOfStrings
    else if HasBooleanMarker(field) then Boolean
    else String
  }

  /** `properties` of the dynamic schema: exactly one entry per requested
      field, typed by `InferType`. */
  method BuildSchema(fields: seq<string>) returns (properties: map<string, SchemaType>)
    ensures properties.Keys == set i | 0 <= i < |fields| :: fields[i]
    ensures forall k | k in properties :: properties[k] == InferType(k)
  {
    properties := map[];
    var i := 0;
    while i < |fields|
      invariant 0 <= i <= |fields|
      invariant properties.Keys == set j | 0 <= j < i :: fields[j]
      invariant forall k | k in properties :: properties[k] == InferType(k)
    {
      properties := properties[fields[i] := InferType(fields[i])];
      i := i + 1;
    }
  }

  /** As written, the name rules type two checkbox groups of the wizard as
      plain strings, since neither id carries an array marker, although the
      wizard stores a list of options under each. */
  lemma ScopedSchemaMistypesWizardFields()
    ensures WIZARD_STEPS[3].fields[3].id == "hipaaAuthorization" && WIZARD_STEPS[3].fields[3].kind == CheckboxGroup
    ensures InferType("hipaaAuthorization") == String
    ensures WIZARD_STEPS[7].fields[5].id == "recordingVideoPlatform" && WIZARD_STEPS[7].fields[5].kind == CheckboxGroup
    ensures InferType("recordingVideoPlatform") == String
  {
    HipaaTypedAsString();
    PlatformTypedAsString();
  }

  lemma HipaaTypedAsString()
    ensures InferType("hipaaAuthorization") == String
  {
    var id := "hipaaAuthorization";
    NotContains2(id, "Methods");
    NotContains2(id, "Populations");
    NotContains2(id, "identifiers");
    NotContains2(id, "Locations");
    NotContains2(id, "recordings");
    NotContains2(id, "Type");
    NotContains2(id, "Conditions");
    NotContains2(id, "Records");
    NotContains2(id, "Risk");
    NotContains2(id, "Report");
    NotContains2(id, "Research");
    NotContains2(id, "transcription");
    NotContains3(id, "Audit");
    assert id[..2] == "hi";
  }

  lemma PlatformTypedAsString()
    ensures InferType("recordingVideoPlatform") == String
  {
    var id := "recordingVideoPlatform";
    NotContains2(id, "Methods");
    NotContains2(id, "Populations");
    NotContains2(id, "Locations");
    NotContains2(id, "Type");
    NotContains2(id, "Conditions");
    NotContains2(id, "Records");
    NotContains2(id, "Risk");
    NotContains2(id, "Audit");
    NotContains2(id, "Report");
    NotContains2(id, "Research");
    NotContains2(id, "transcription");
    NotContains4(id, "identifiers");
    RecordingPlatformNotRecordings();
    assert id[..2] == "re";
  }

  /** The minimal-risk flag is typed as a boolean, since its id contains
      "Risk"; that is the type the study facts declare for it. */
  lemma MinimalRiskTypedAsBoolean()
    ensures InferType("minimalRisk") == Boolean
  {
    var id := "minimalRisk";
    NotContains2(id, "Methods");
    NotContains2(id, "Populations");
    NotContains2(id, "identifiers");
    NotContains2(id, "Locations");
    NotContains2(id, "recordings");
    NotContains2(id, "Type");
    NotContains2(id, "Conditions");
    assert OccursAt(id, "Risk", 7);
  }

  lemma RecordingPlatformNotRecordings()
    ensures !Contains("recordingVideoPlatform", "recordings")
  {
    var s, sub := "recordingVideoPlatform", "recordings";
    forall i | 0 <= i <= |s| - |sub|
      ensures !OccursAt(s, sub, i)
    {
      var w := s[i..i + |sub|];
      if i == 0 {
        assert w[9] == s[9] != sub[9];
      } else {
        assert w[0] == s[i] && w[1] == s[i + 1];
        assert !(s[i] == 'r' && s[i + 1] == 'e');
      }
    }
  }

  /** The schema type a field's own widget reads back: a list for a
      multi-select or checkbox group, a boolean for a Yes/No toggle, a
      string for a text input or a select. */
  function WidgetType(kind: FieldKind): (t: SchemaType)
    ensures t == ArrayOfStrings <==> kind == MultiSelect || kind == CheckboxGroup
    ensures t == Boolean <==> kind == BooleanToggle
    ensures t == String <==> kind == Text || kind == TextArea || kind == Select
  {
    match kind
    case MultiSelect => ArrayOfStrings
    case CheckboxGroup => ArrayOfStrings
    case BooleanToggle => Boolean
    case _ => String
  }

  /** The dynamic schema typed by the requested fields' kinds instead of
      their names: one entry per field, and the last field with an id
      decides its type, as repeated assignments to `properties` do. */
  method BuildFieldSchema(fields: seq<Field>) returns (properties: map<string, SchemaType>)
    ensures properties.Keys == set i | 0 <= i < |fields| :: fields[i].id
    ensures forall i | 0 <= i < |fields| && LastWithId(fields, i, |fields|) ::
      properties[fields[i].id] == WidgetType(fields[i].kind)
  {
    properties := map[];
    var n := 0;
    while n < |fields|
      invariant 0 <= n <= |fields|
      invariant properties.Keys == set i | 0 <= i < n :: fields[i].id
      invariant forall i | 0 <= i < n && LastWithId(fields, i, n) :: properties[fields[i].id] == WidgetType(fields[i].kind)
    {
      properties := properties[fields[n].id := WidgetType(fields[n].kind)];
      n := n + 1;
    }
  }

  /** No field after `i` and before `n` has the same id as field `i`. */
  predicate LastWithId(fields: seq<Field>, i: int, n: int)
    requires 0 <= i < n <= |fields|
  {
    forall j | i < j < n :: fields[j].id != fields[i].id
  }

  /** The corrected schema types every checkbox group and multi-select of
      the wizard as a list, the two mistyped ones included. */
  lemma WidgetTypeListsCheckboxGroups(step: StepConfig, f: Field)
    requires step in WIZARD_STEPS && f in step.fields
    requires f.kind == CheckboxGroup || f.kind == MultiSelect
    ensures WidgetType(f.kind) == ArrayOfStrings
  {
  }

  /** `step.fields.find(f => f.id === id)`. */
  function FindField(fields: seq<Field>, id: string): Option<Field> {
    if fields == [] then None
    else if fields[0].id == id then Some(fields[0])
    else FindField(fields[1..], id)
  }

  /** `find` returns the first field with the id, and nothing exactly when
      no field has it. */
  lemma {:induction false} FindFieldIsFirst(fields: seq<Field>, id: string)
    ensures FindField(fields, id).None? <==> forall i | 0 <= i < |fields| :: fields[i].id != id
    ensures FindField(fields, id).Some? ==>
      exists k | 0 <= k < |fields| :: FindField(fields, id) == Some(fields[k]) && fields[k].id == id
        && forall j | 0 <= j < k :: fields[j].id != id
  {
    if fields != [] && fields[0].id != id {
      FindFieldIsFirst(fields[1..], id);
      if FindField(fields, id).Some? {
        var k :| 0 <= k < |fields[1..]| && FindField(fields[1..], id) == Some(fields[1..][k])
          && fields[1..][k].id == id && forall j | 0 <= j < k :: fields[1..][j].id != id;
        assert fields[k + 1] == fields[1..][k];
      }
    } else if fields != [] {
      assert FindField(fields, id) == Some(fields[0]);
    }
  }

  function HintLine(id: string, options: seq<string>): string {
    "- " + id + ": Select from [" + Join(options, ", ") + "].\n"
  }

  /** The hint a step contributes for one field id: a line when the step
      declares the field with options, nothing otherwise. */
  function StepHint(id: string, step: StepConfig): seq<string> {
    match FindField(step.fields, id)
    case Some(f) => if f.options.Some? then [HintLine(id, f.options.value)] else []
    case None => []
  }

  function StepHints(id: string, steps: seq<StepConfig>): (r: seq<string>)
    ensures |r| <= |steps|
  {
    if steps == [] then [] else StepHints(id, steps[..|steps| - 1]) + StepHint(id, steps[|steps| - 1])
  }

  /** The hint lines for the requested fields, field by field in request
      order and, within a field, step by step in wizard order. */
  function FieldHints(ids: seq<string>, steps: seq<StepConfig>): seq<string> {
    if ids == [] then [] else FieldHints(ids[..|ids| - 1], steps) + StepHints(ids[|ids| - 1], steps)
  }

  function Concat(lines: seq<string>): string {
    if lines == [] then "" else Concat(lines[..|lines| - 1]) + lines[|lines| - 1]
  }

  lemma {:induction false} ConcatAppend(a: seq<string>, b: seq<string>)
    ensures Concat(a + b) == Concat(a) + Concat(b)
    decreases |b|
  {
    if b == [] {
      assert a + b == a;
    } else {
      SplitLast(a, b);
      ConcatAppend(a, b[..|b| - 1]);
    }
  }

  /** Hints for a concatenated request are the hints of its parts in order. */
  lemma {:induction false} FieldHintsAppend(a: seq<string>, b: seq<string>, steps: seq<StepConfig>)
    ensures FieldHints(a + b, steps) == FieldHints(a, steps) + FieldHints(b, steps)
    decreases |b|
  {
    if b == [] {
      assert a + b == a;
    } else {
      var front, last := b[..|b| - 1], b[|b| - 1];
      SplitLast(a, b);
      FieldHintsAppend(a, front, steps);
      assert FieldHints(a + b, steps) == FieldHints(a + front, steps) + StepHints(last, steps);
      assert FieldHints(b, steps) == FieldHints(front, steps) + StepHints(last, steps);
    }
  }

  lemma SplitLast<T>(a: seq<T>, b: seq<T>)
    requires b != []
    ensures (a + b)[..|a + b| - 1] == a + b[..|b| - 1]
    ensures (a + b)[|a + b| - 1] == b[|b| - 1]
  {
  }

  /** A field that no step declares with options contributes no hint. */
  lemma {:induction false} NoOptionsNoHint(id: string, steps: seq<StepConfig>)
    requires forall s, f | s in steps && f in s.fields && f.id == id :: f.options.None?
    ensures StepHints(id, steps) == []
  {
    if steps != [] {
      NoOptionsNoHint(id, steps[..|steps| - 1]);
      var last := steps[|steps| - 1];
      match FindField(last.fields, id)
      case Some(f) =>
        FindFieldIsFirst(last.fields, id);
        var i :| 0 <= i < |last.fields| && FindField(last.fields, id) == Some(last.fields[i]) && last.fields[i].id == id
          && forall j | 0 <= j < i :: last.fields[j].id != id;
        assert last.fields[i] in last.fields;
      case None =>
    }
  }

  /** The text one step contributes for one field id. */
  lemma StepHintText(id: string, step: StepConfig)
    ensures var f := FindField(step.fields, id);
      Concat(StepHint(id, step)) == if f.Some? && f.value.options.Some? then HintLine(id, f.value.options.value) else ""
  {
    var f := FindField(step.fields, id);
    if f.Some? && f.value.options.Some? {
      assert Concat([HintLine(id, f.value.options.value)]) == Concat([]) + HintLine(id, f.value.options.value);
    }
  }

  /** The text of the first `j + 1` steps extends the text of the first `j`. */
  lemma StepHintsSnoc(id: string, steps: seq<StepConfig>, j: nat)
    requires j < |steps|
    ensures Concat(StepHints(id, steps[..j + 1])) == Concat(StepHints(id, steps[..j])) + Concat(StepHint(id, steps[j]))
  {
    var upTo := steps[..j + 1];
    assert upTo[..|upTo| - 1] == steps[..j] && upTo[|upTo| - 1] == steps[j];
    ConcatAppend(StepHints(id, steps[..j]), StepHint(id, steps[j]));
  }

  lemma AppendAssoc(a: string, b: string, c: string)
    ensures (a + b) + c == a + (b + c)
  {
  }

  /** The inner loop of `optionHints`: for each wizard step in order, append
      the hint line when the step declares the field with options. */
  method AppendStepHints(hints: string, id: string, steps: seq<StepConfig>) returns (out: string)
    ensures out == hints + Concat(StepHints(id, steps))
  {
    out := hints;
    var j := 0;
    while j < |steps|
      invariant 0 <= j <= |steps|
      invariant out == hints + Concat(StepHints(id, steps[..j]))
    {
      var found := FindField(steps[j].fields, id);
      StepHintsSnoc(id, steps, j);
      ghost var done := Concat(StepHints(id, steps[..j]));
      ghost var next := Concat(StepHints(id, steps[..j + 1]));
      ghost var piece := Concat(StepHint(id, steps[j]));
      assert next == done + piece;
      StepHintText(id, steps[j]);
      if found.Some? && found.value.options.Some? {
        var line := HintLine(id, found.value.options.value);
        assert piece == line;
        AppendAssoc(hints, done, piece);
        out := out + line;
      } else {
        assert piece == "";
        assert done + piece == done;
      }
      j := j + 1;
    }
    assert steps[..j] == steps;
  }

  /** `optionHints` of `extractSpecificScope`: for each requested id in
      order, the hints of every step (the source always passes
      `WIZARD_STEPS`). */
  method OptionHints(ids: seq<string>, steps: seq<StepConfig>) returns (hints: string)
    ensures hints == Concat(FieldHints(ids, steps))
  {
    hints := "";
    var i := 0;
    while i < |ids|
      invariant 0 <= i <= |ids|
      invariant hints == Concat(FieldHints(ids[..i], steps))
    {
      hints := AppendStepHints(hints, ids[i], steps);
      assert ids[..i + 1][..i] == ids[..i];
      ConcatAppend(FieldHints(ids[..i], steps), StepHints(ids[i], steps));
      i := i + 1;
    }
    assert ids[..i] == ids;
  }
}
