/** The research document builder (`ResearchDocBuilder.tsx`): the prefill of
    the consent inputs and of the free-text context from the study facts,
    the generate guard and the Generate button that mirrors it, the upload,
    and the download filename. */
module ResearchDocBuilder {
  import opened Wrappers
  import opened Strings
  import opened StudyFacts
  import opened FileInput
  import opened GeminiService

  /** The seven inputs of the consent form. */
  datatype ConsentInputs = ConsentInputs(
    title: string, purpose: string, procedures: string, risks: string,
    benefits: string, duration: string, payment: string)

  const EMPTY_CONSENT := ConsentInputs("", "", "", "", "", "", "")

  /** The parsed reply of `generateResearchDocument`. */
  datatype ResearchDocument = ResearchDocument(
    title: string, content: string, mentorNotes: string, complianceChecks: seq<string>)

  /** JavaScript `a || b` on two strings. */
  function Or(a: string, b: string): (r: string)
    ensures a != "" ==> r == a
    ensures a == "" ==> r == b
  {
    if a != "" then a else b
  }

  // ---------------------------------------------------------------------
  // Prefill

  /** The consent branch of the prefill effect: a field keeps what it
      holds; an empty one takes the first non-empty fact of its chain, or
      stays empty. */
  function PrefillConsent(prev: ConsentInputs, f: Facts): (r: ConsentInputs)
    ensures prev.title != "" ==> r.title == prev.title
    ensures prev.purpose != "" ==> r.purpose == prev.purpose
    ensures prev.procedures != "" ==> r.procedures == prev.procedures
    ensures prev.risks != "" ==> r.risks == prev.risks
    ensures prev.benefits != "" ==> r.benefits == prev.benefits
    ensures prev.duration != "" ==> r.duration == prev.duration
    ensures prev.payment != "" ==> r.payment == prev.payment
    ensures prev.purpose == "" && TextOf(f, "objectives") != "" ==> r.purpose == TextOf(f, "objectives")
    ensures prev.purpose == "" && TextOf(f, "objectives") == "" ==> r.purpose == TextOf(f, "studyRationale")
    ensures prev.procedures == "" && TextOf(f, "proceduresNarrative") != "" ==> r.procedures == TextOf(f, "proceduresNarrative")
    ensures prev.procedures == "" && TextOf(f, "proceduresNarrative") == "" ==> r.procedures == TextOf(f, "studyDesign")
  {
    prev.(
      title := Or(prev.title, Or(TextOf(f, "protocolTitle"), "")),
      purpose := Or(prev.purpose, Or(TextOf(f, "objectives"), Or(TextOf(f, "studyRationale"), ""))),
      procedures := Or(prev.procedures, Or(TextOf(f, "proceduresNarrative"), Or(TextOf(f, "studyDesign"), ""))),
      risks := Or(prev.risks, Or(TextOf(f, "risks"), "")),
      benefits := Or(prev.benefits, Or(TextOf(f, "benefitsSubjects"), "")),
      duration := Or(prev.duration, Or(TextOf(f, "duration"), "")),
      payment := Or(prev.payment, Or(TextOf(f, "compensation"), "")))
  }

  /** Prefilling again changes nothing. */
  lemma PrefillConsentIdempotent(prev: ConsentInputs, f: Facts)
    ensures PrefillConsent(PrefillConsent(prev, f), f) == PrefillConsent(prev, f)
  {
  }

  /** Prefill only ever fills: every field that was set is still set, and
      a filled purpose or procedures field makes the consent form ready as
      far as the facts allow. */
  lemma PrefillConsentFillsPurpose(prev: ConsentInputs, f: Facts)
    requires TextOf(f, "objectives") != "" || TextOf(f, "studyRationale") != ""
    requires TextOf(f, "proceduresNarrative") != "" || TextOf(f, "studyDesign") != ""
    ensures PrefillConsent(prev, f).purpose != "" && PrefillConsent(prev, f).procedures != ""
  {
  }

  /** `${value}` in a template literal. */
  function Render(v: Option<Value>): string {
    match v
    case None => "undefined"
    case Some(Str(s)) => s
    case Some(Bool(b)) => if b then "true" else "false"
    case Some(List(items)) => Join(items, ",")
  }

  /** `recruitmentStr`: an array is joined with ", ", anything else is
      rendered as is. */
  function RecruitmentText(f: Facts): string {
    match Get(f, "recruitmentMethods")
    case Some(List(items)) => Join(items, ", ")
    case v => Render(v)
  }

  /** The summary template before `.trim()`. */
  function SummaryTemplate(f: Facts): string {
    "\n" + "Study Title:" + SummaryRest(f)
  }

  function SummaryRest(f: Facts): string {
    " " + Render(Get(f, "protocolTitle"))
    + "\nObjectives: " + Render(Get(f, "objectives"))
    + "\nPopulation: " + Render(Get(f, "inclusionCriteria"))
    + "\nRecruitment Methods: " + RecruitmentText(f)
    + "\nIncentives: " + Render(Get(f, "compensation"))
    + "\n             "
  }

  /** The trimmed summary starts at its first label, so it is never
      empty. */
  lemma SummaryStartsWithTitle(f: Facts)
    ensures StartsWith(Trim(SummaryTemplate(f)), "Study Title:")
  {
    TrimKeepsLabel("\n", "Study Title:", SummaryRest(f));
  }

  // ---------------------------------------------------------------------
  // Generate guard

  /** `handleGenerate`'s test: a type, an audience, and enough information
      (purpose and procedures for a consent form, otherwise some context or
      a file). */
  predicate CanGenerate(selected: Option<DocType>, audience: string, context: string,
                        hasFile: bool, consent: ConsentInputs) {
    var hasEnoughInfo :=
      if selected == Some(InformedConsent) then consent.purpose != "" && consent.procedures != ""
      else context != "" || hasFile;
    selected.Some? && audience != "" && hasEnoughInfo
  }

  /** The Generate button's `disabled` expression. */
  predicate GenerateDisabled(selected: Option<DocType>, audience: string, context: string,
                             hasFile: bool, consent: ConsentInputs) {
    selected.None? || audience == ""
    || (selected != Some(InformedConsent) && context == "" && !hasFile)
    || (selected == Some(InformedConsent) && (consent.purpose == "" || consent.procedures == ""))
  }

  /** The button is disabled exactly when the handler would return early. */
  lemma ButtonMatchesGuard(selected: Option<DocType>, audience: string, context: string,
                           hasFile: bool, consent: ConsentInputs)
    ensures GenerateDisabled(selected, audience, context, hasFile, consent)
        <==> !CanGenerate(selected, audience, context, hasFile, consent)
  {
  }

  const INDENT := "            "

  /** The lines of `finalContext` for a consent form: the inputs one per
      line, then the free text as additional notes when there is any. */
  function ConsentLines(consent: ConsentInputs, context: string): seq<string> {
    [INDENT + "Study Title: " + consent.title,
     INDENT + "Purpose: " + consent.purpose,
     INDENT + "What will subjects do (Procedures): " + consent.procedures,
     INDENT + "Time Commitment: " + consent.duration,
     INDENT + "Risks: " + consent.risks,
     INDENT + "Benefits: " + consent.benefits,
     INDENT + "Compensation: " + consent.payment,
     INDENT + (if context != "" then "Additional Notes: " + context else "")]
  }

  function ConsentContext(consent: ConsentInputs, context: string): string {
    "\n" + Join(ConsentLines(consent, context), "\n") + "\n        "
  }

  /** A line's value is part of the consent context. */
  lemma ConsentContextHasLine(consent: ConsentInputs, context: string, k: int, prefix: string, value: string)
    requires 0 <= k < 8 && ConsentLines(consent, context)[k] == prefix + value
    ensures Contains(ConsentContext(consent, context), value)
  {
    var lines := ConsentLines(consent, context);
    JoinContainsItems(lines, "\n", k);
    ContainsInContext("\n", Join(lines, "\n"), "\n        ", lines[k]);
    assert OccursAt(value, value, 0);
    ContainsInContext(prefix, value, "", value);
    assert prefix + value + "" == lines[k];
    ContainsTransitive(ConsentContext(consent, context), lines[k], value);
  }

  /** The consent context carries the purpose, the procedures and any free
      text. */
  lemma ConsentContextCarries(consent: ConsentInputs, context: string)
    ensures Contains(ConsentContext(consent, context), consent.purpose)
    ensures Contains(ConsentContext(consent, context), consent.procedures)
    ensures context != "" ==> Contains(ConsentContext(consent, context), context)
  {
    ConsentContextHasLine(consent, context, 1, INDENT + "Purpose: ", consent.purpose);
    ConsentContextHasLine(consent, context, 2, INDENT + "What will subjects do (Procedures): ", consent.procedures);
    if context != "" {
      ConsentContextHasLine(consent, context, 7, INDENT + "Additional Notes: ", context);
    }
  }

  /** What `generateResearchDocument` is called with. */
  datatype GenerateRequest = GenerateRequest(docType: DocType, context: string, audience: string, file: Option<FileData>)

  // ---------------------------------------------------------------------
  // Download filename

  predicate IsAsciiAlnum(c: char) {
    'a' <= c <= 'z' || 'A' <= c <= 'Z' || '0' <= c <= '9'
  }

  /** `title.replace(/[^a-z0-9]/gi, '_').toLowerCase()`. */
  function SafeName(title: string): (r: string)
    ensures |r| == |title|
    ensures forall i | 0 <= i < |r| :: IsAsciiAlnum(title[i]) ==> r[i] == LowerChar(title[i])
    ensures forall i | 0 <= i < |r| :: !IsAsciiAlnum(title[i]) ==> r[i] == '_'
  {
    Lower(seq(|title|, i requires 0 <= i < |title| => if IsAsciiAlnum(title[i]) then title[i] else '_'))
  }

  /** The name keeps the title's length and uses only lower-case letters,
      digits and underscores. */
  lemma SafeNameAlphabet(title: string)
    ensures forall i | 0 <= i < |SafeName(title)| ::
      'a' <= SafeName(title)[i] <= 'z' || '0' <= SafeName(title)[i] <= '9' || SafeName(title)[i] == '_'
  {
  }

  /** Sanitising is idempotent and ignores case. */
  lemma SafeNameStable(title: string)
    ensures SafeName(SafeName(title)) == SafeName(title)
    ensures SafeName(Lower(title)) == SafeName(title)
  {
  }

  function ExportFilename(doc: ResearchDocument): (r: string)
    ensures EndsWith(r, ".doc") && |r| == |doc.title| + 4
    ensures r[..|doc.title|] == SafeName(doc.title)
  {
    SafeName(doc.title) + ".doc"
  }

  // ---------------------------------------------------------------------
  // The component's state

  class Builder {
    /** The `studyFacts` prop. */
    const studyFacts: Option<Facts>
    var selectedType: Option<DocType>
    var context: string
    var audience: string
    var consent: ConsentInputs
    var fileName: Option<string>
    var fileData: Option<FileData>
    var isGenerating: bool
    var result: Option<ResearchDocument>

    constructor(facts: Option<Facts>)
      ensures studyFacts == facts && selectedType.None? && context == "" && audience == ""
      ensures consent == EMPTY_CONSENT && fileName.None? && fileData.None?
      ensures !isGenerating && result.None?
    {
      studyFacts := facts;
      selectedType := None;
      context := "";
      audience := "";
      consent := EMPTY_CONSENT;
      fileName := None;
      fileData := None;
      isGenerating := false;
      result := None;
    }

    /** The prefill effect. Without study facts nothing happens; for a
        consent form the inputs are prefilled; otherwise an empty context
        receives the summary when the facts have a title or objectives. */
    method Prefill()
      modifies this
      ensures selectedType == old(selectedType) && audience == old(audience)
      ensures fileData == old(fileData) && result == old(result) && isGenerating == old(isGenerating)
      ensures fileName == old(fileName)
      ensures studyFacts.None? ==> consent == old(consent) && context == old(context)
      ensures studyFacts.Some? && selectedType == Some(InformedConsent) ==>
        consent == PrefillConsent(old(consent), studyFacts.value) && context == old(context)
      ensures selectedType != Some(InformedConsent) ==> consent == old(consent)
      ensures context != old(context) ==>
        old(context) == "" && studyFacts.Some? && selectedType != Some(InformedConsent)
        && (FactTruthy(studyFacts.value, "protocolTitle") || FactTruthy(studyFacts.value, "objectives"))
        && context == Trim(SummaryTemplate(studyFacts.value))
      ensures studyFacts.Some? && selectedType != Some(InformedConsent) && old(context) == ""
        && (FactTruthy(studyFacts.value, "protocolTitle") || FactTruthy(studyFacts.value, "objectives"))
        ==> StartsWith(context, "Study Title:")
    {
      if studyFacts.None? {
        return;
      }
      var f := studyFacts.value;
      if selectedType == Some(InformedConsent) {
        consent := PrefillConsent(consent, f);
      } else if FactTruthy(f, "protocolTitle") || FactTruthy(f, "objectives") {
        if context == "" {
          SummaryStartsWithTitle(f);
          context := Trim(SummaryTemplate(f));
        }
      }
    }

    /** A document-type card: the type is selected and the context
        cleared; the prefill effect then runs only if the type changed. */
    method SelectType(t: DocType)
      modifies this
      ensures selectedType == Some(t) && audience == old(audience) && fileData == old(fileData)
      ensures result == old(result) && isGenerating == old(isGenerating)
      ensures old(selectedType) == Some(t) ==> context == "" && consent == old(consent)
      ensures t == InformedConsent && old(selectedType) != Some(t) && studyFacts.Some? ==>
        consent == PrefillConsent(old(consent), studyFacts.value) && context == ""
      ensures t != InformedConsent ==> consent == old(consent)
      ensures t != InformedConsent && context != "" ==>
        old(selectedType) != Some(t) && studyFacts.Some? && StartsWith(context, "Study Title:")
      ensures fileName == old(fileName)
      ensures old(selectedType) != Some(t) && studyFacts.None? ==> context == "" && consent == old(consent)
      ensures t != InformedConsent && old(selectedType) != Some(t) && studyFacts.Some? ==>
        context == (if FactTruthy(studyFacts.value, "protocolTitle") || FactTruthy(studyFacts.value, "objectives")
                    then Trim(SummaryTemplate(studyFacts.value)) else "")
    {
      var changed := selectedType != Some(t);
      selectedType := Some(t);
      context := "";
      if changed {
        Prefill();
      }
    }

    /** `handleFileUpload`: the name is shown at once; the file is kept
        when it could be read (a failed read only raises an alert). */
    method HandleFileUpload(file: UploadedFile, read: Option<string>)
      modifies this
      ensures fileName == Some(file.name)
      ensures read.Some? ==> fileData == ReadAsPdfOrText(file, read)
      ensures read.None? ==> fileData == old(fileData)
      ensures selectedType == old(selectedType) && context == old(context) && audience == old(audience)
      ensures consent == old(consent) && result == old(result) && isGenerating == old(isGenerating)
    {
      fileName := Some(file.name);
      var data := ReadAsPdfOrText(file, read);
      if data.Some? {
        fileData := data;
      }
    }

    /** The attachment's remove button: the file and its name are dropped
        together. */
    method RemoveFile()
      modifies this
      ensures fileName.None? && fileData.None?
      ensures selectedType == old(selectedType) && context == old(context) && audience == old(audience)
      ensures consent == old(consent) && result == old(result) && isGenerating == old(isGenerating)
    {
      fileName := None;
      fileData := None;
    }

    /** `handleGenerate`: nothing happens unless the guard holds; otherwise
        the request is made with the consent context or the free text, and
        a successful reply becomes the result. */
    method HandleGenerate(reply: Reply<ResearchDocument>) returns (request: Option<GenerateRequest>)
      modifies this
      ensures selectedType == old(selectedType) && context == old(context) && audience == old(audience)
      ensures consent == old(consent) && fileData == old(fileData) && fileName == old(fileName)
      ensures request.Some? <==> CanGenerate(selectedType, audience, context, fileData.Some?, consent)
      ensures request.None? ==> result == old(result) && isGenerating == old(isGenerating)
      ensures request.Some? ==>
        request.value.docType == selectedType.value && request.value.audience == audience
        && request.value.file == fileData && !isGenerating
        && request.value.context == (if selectedType == Some(InformedConsent) then ConsentContext(consent, context) else context)
      ensures request.Some? && JsonCall(reply, RESEARCH_DOC_FAILED).Success? ==>
        result == Some(JsonCall(reply, RESEARCH_DOC_FAILED).value)
      ensures request.Some? && JsonCall(reply, RESEARCH_DOC_FAILED).Failure? ==> result == old(result)
    {
      var finalContext := context;
      var hasEnoughInfo := context != "" || fileData.Some?;
      if selectedType == Some(InformedConsent) {
        finalContext := ConsentContext(consent, context);
        hasEnoughInfo := consent.purpose != "" && consent.procedures != "";
      }
      if selectedType.None? || audience == "" || !hasEnoughInfo {
        return None;
      }
      isGenerating := true;
      request := Some(GenerateRequest(selectedType.value, finalContext, audience, fileData));
      var doc := JsonCall(reply, RESEARCH_DOC_FAILED);
      if doc.Success? {
        result := Some(doc.value);
      }
      isGenerating := false;
    }
  }
}
