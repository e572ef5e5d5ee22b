/** The questionnaire configuration of constants.ts: the eight HRP-591 wizard
    steps with their fields, and the four preflight questions. Only the
    parts the model's rules read are kept: ids, input kinds and options. */
module Constants {
  import opened Wrappers

  datatype FieldKind = Text | TextArea | Select | BooleanToggle | MultiSelect | CheckboxGroup

  datatype Field = Field(id: string, kind: FieldKind, options: Option<seq<string>>)

  datatype StepConfig = StepConfig(id: string, fields: seq<Field>)

  function Plain(id: string, kind: FieldKind): Field {
    Field(id, kind, None)
  }

  function Choice(id: string, kind: FieldKind, options: seq<string>): Field {
    Field(id, kind, Some(options))
  }

  const YES_NO: seq<string> := ["No", "Yes"]

  /** The options of the data step's "identifiers" checkbox group. */
  const IDENTIFIER_OPTIONS: seq<string> := [
    "Names / Initials", "Dates (birth, admission, etc)", "Telephone numbers",
    "Email addresses", "Social Security Numbers", "Medical Record Numbers",
    "Addresses/Geographic Data", "IP Addresses", "Biometric identifiers",
    "Full face photos", "Audio/Video Recordings", "None (Anonymous)"]

  const WIZARD_STEPS: seq<StepConfig> := [
    StepConfig("basics", [
      Plain("protocolTitle", Text), Plain("piName", Text), Plain("clinicalTrialsId", Text),
      Plain("objectives", TextArea), Plain("scientificBackground", TextArea), Plain("studyRationale", TextArea)]),
    StepConfig("subjects", [
      Plain("inclusionCriteria", TextArea),
      Choice("internationalResearch", BooleanToggle, YES_NO),
      Plain("exclusionCriteria", TextArea),
      Choice("vulnerablePopulations", CheckboxGroup,
        ["Children (Minors)", "Pregnant Women / Neonates", "Prisoners",
         "Adults with Impaired Decision-Making", "None of the above"]),
      Plain("withdrawalCriteria", TextArea)]),
    StepConfig("recruitment", [
      Choice("recruitmentMethods", MultiSelect,
        ["StudyFinder", "Penn State Health EIM", "Flyers/Posters", "Email/Listservs",
         "Social Media", "Classroom Announcement"]),
      Plain("recruitmentIdentification", TextArea), Plain("recruitmentHow", TextArea),
      Plain("recruitmentWhere", TextArea), Plain("recruitmentWhen", TextArea),
      Plain("screeningProcedures", TextArea)]),
    StepConfig("consent", [
      Choice("consentProcessType", CheckboxGroup,
        ["Written Documentation (Signed Form)", "Waiver of Documentation (Verbal/Implied)",
         "Waiver of Consent", "Alteration of Consent"]),
      Plain("consentProcessDescription", TextArea), Plain("consentCoercion", TextArea),
      Choice("hipaaAuthorization", CheckboxGroup,
        ["Not Applicable", "Signed Authorization", "Partial Waiver (Recruitment)",
         "Full Waiver", "Alteration (Verbal)"])]),
    StepConfig("procedures", [
      Plain("studyDesign", TextArea), Plain("proceduresVisit1", TextArea),
      Plain("duration", Text), Plain("sampleSize", Text),
      Choice("minimalRisk", Select, ["Yes (Minimal Risk)", "No (Greater than Minimal Risk)"]),
      Plain("risks", TextArea)]),
    StepConfig("benefits_costs", [
      Plain("benefitsSubjects", TextArea), Plain("sharingResults", TextArea),
      Plain("compensation", Text), Plain("costs", Text), Plain("facilities", TextArea)]),
    StepConfig("safety_monitoring", [
      Choice("adverseEventsReport", BooleanToggle, YES_NO),
      Choice("monitoringAudit", BooleanToggle, YES_NO),
      Plain("references", TextArea)]),
    StepConfig("data", [
      Choice("identifiers", CheckboxGroup, IDENTIFIER_OPTIONS),
      Choice("paperRecords", BooleanToggle, YES_NO),
      Choice("electronicRecords", BooleanToggle, YES_NO),
      Choice("storageLocations", CheckboxGroup,
        ["Penn State REDCap", "Penn State Qualtrics", "Penn State OneDrive/SharePoint",
         "Penn State GoogleDrive", "Other"]),
      Choice("recordings", CheckboxGroup,
        ["None", "Audio", "Video", "Photographs", "Live Stream (No Recording)"]),
      Choice("recordingVideoPlatform", CheckboxGroup, ["Teams", "Zoom", "Other"]),
      Choice("transcription", BooleanToggle, YES_NO),
      Choice("isBankingData", BooleanToggle, YES_NO)])
  ]

  const PREFLIGHT_QUESTIONS: seq<Field> := [
    Plain("protocolTitle", Text),
    Plain("population", Text),
    Choice("dataCollection", Select, ["Anonymous", "Confidential", "Identifiable"]),
    Choice("minimalRisk", Select, ["No (Minimal Risk)", "Yes (Greater than Minimal Risk)"])
  ]

  /** The field ids of one wizard step, in declaration order. */
  function FieldIds(fields: seq<Field>): (r: seq<string>)
    ensures |r| == |fields|
    ensures forall i | 0 <= i < |fields| :: r[i] == fields[i].id
  {
    seq(|fields|, i requires 0 <= i < |fields| => fields[i].id)
  }
}
