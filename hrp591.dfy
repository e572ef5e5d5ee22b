/** The projection rules of components/HRP591DocumentRenderer.tsx: how the
    study facts decide what the HRP-591 form shows. Text inputs with their
    fallbacks, the paired Yes/No checkboxes, the 21.1 identifier table
    (which rows get an "X" in which column), the 21.5 recording
    checkboxes and the Word download's file name. The rendering itself and
    the export to a file are not modelled. */
module Hrp591 {
  import opened Strings
  import opened StudyFacts

  // ---------------------------------------------------------------------
  // Text inputs

  const TYPE_PROTOCOL_TEXT := "[Type protocol text here]"
  const NOT_APPLICABLE := "Not applicable"

  /** `InputText`: a truthy value is shown as is; an empty one shows the
      placeholder when asked to, else "Not applicable". */
  function InputText(value: string, placeholder: string, alwaysShowPlaceholder: bool): (r: string)
    ensures value != "" ==> r == value
    ensures value == "" && alwaysShowPlaceholder ==> r == placeholder
    ensures value == "" && !alwaysShowPlaceholder ==> r == NOT_APPLICABLE
  {
    if value != "" then value
    else if alwaysShowPlaceholder then placeholder
    else NOT_APPLICABLE
  }

  /** The protocol title always asks for text when it is missing. */
  function TitleText(f: Facts): (r: string)
    ensures r != ""
  {
    InputText(TextOf(f, "protocolTitle"), TYPE_PROTOCOL_TEXT, true)
  }

  /** The registration number, where the wizard's "N/A" is spelled out. */
  function ClinicalTrialsText(f: Facts): (r: string)
    ensures r != ""
  {
    var id := TextOf(f, "clinicalTrialsId");
    InputText(if id == "N/A" then NOT_APPLICABLE else id, TYPE_PROTOCOL_TEXT, false)
  }

  /** The title shows the placeholder exactly when there is no title, and
      never "Not applicable" on its own. */
  lemma TitleFallback(f: Facts)
    ensures TitleText(f) == TYPE_PROTOCOL_TEXT <==> TextOf(f, "protocolTitle") in {"", TYPE_PROTOCOL_TEXT}
    ensures TextOf(f, "protocolTitle") != "" ==> TitleText(f) == TextOf(f, "protocolTitle")
  {
  }

  /** The registration cell reads "Not applicable" exactly for a missing
      number, "N/A", or that text itself; any other number is shown. */
  lemma ClinicalTrialsFallback(f: Facts)
    ensures ClinicalTrialsText(f) == NOT_APPLICABLE <==> TextOf(f, "clinicalTrialsId") in {"", "N/A", NOT_APPLICABLE}
    ensures TextOf(f, "clinicalTrialsId") !in {"", "N/A"} ==> ClinicalTrialsText(f) == TextOf(f, "clinicalTrialsId")
  {
  }

  // ---------------------------------------------------------------------
  // Yes/No questions

  /** The two boxes of a Yes/No question (`checked={!facts.k}` and
      `checked={facts.k}`). */
  datatype YesNo = YesNo(no: bool, yes: bool)

  function YesNoBoxes(f: Facts, k: string): (r: YesNo)
    ensures r.yes <==> FactTruthy(f, k)
  {
    YesNo(!FactTruthy(f, k), FactTruthy(f, k))
  }

  /** The form's Yes/No questions: 3.1.1, 4.2.4.1, 4.2.4.2, 21.2, 21.3,
      21.3.2 and 21.4. */
  const YES_NO_QUESTIONS: seq<string> := [
    "internationalResearch", "screeningOralWritten", "screeningRecords",
    "identifiersLinked", "paperRecords", "paperRecordsAccess", "electronicRecords"]

  /** Every Yes/No question has exactly one box checked, whatever is stored
      (a missing answer is a "No"). */
  lemma ExactlyOneBoxPerQuestion(f: Facts)
    ensures forall k | k in YES_NO_QUESTIONS :: YesNoBoxes(f, k).no != YesNoBoxes(f, k).yes
    ensures forall k | k in YES_NO_QUESTIONS && k !in f :: YesNoBoxes(f, k).no
  {
  }

  // ---------------------------------------------------------------------
  // 21.1 identifier table

  /** Which keyword branch of `isIdentifierChecked` a lower-cased row label
      falls into. */
  datatype RowKind =
    | NamesRow | GeographicRow | DatesRow | TelephoneRow | EmailRow | SocialSecurityRow
    | MedicalRecordRow | WebRow | IpRow | BiometricRow | FaceRow | OtherUniqueRow
    | Unmatched

  /** The chain of `label.includes(...)` tests, first match wins. */
  function RowKindOf(lowered: string): (k: RowKind)
    ensures Contains(lowered, "names") ==> k == NamesRow
    ensures k == Unmatched <==>
      !Contains(lowered, "names") && !Contains(lowered, "geographic") && !Contains(lowered, "elements of dates")
      && !Contains(lowered, "telephone") && !Contains(lowered, "electronic mail")
      && !Contains(lowered, "social security") && !Contains(lowered, "medical record")
      && !Contains(lowered, "web universal") && !Contains(lowered, "internet protocol")
      && !Contains(lowered, "biometric") && !Contains(lowered, "full face")
      && !Contains(lowered, "any other unique")
  {
    if Contains(lowered, "names") then NamesRow
    else if Contains(lowered, "geographic") then GeographicRow
    else if Contains(lowered, "elements of dates") then DatesRow
    else if Contains(lowered, "telephone") then TelephoneRow
    else if Contains(lowered, "electronic mail") then EmailRow
    else if Contains(lowered, "social security") then SocialSecurityRow
    else if Contains(lowered, "medical record") then MedicalRecordRow
    else if Contains(lowered, "web universal") then WebRow
    else if Contains(lowered, "internet protocol") then IpRow
    else if Contains(lowered, "biometric") then BiometricRow
    else if Contains(lowered, "full face") then FaceRow
    else if Contains(lowered, "any other unique") then OtherUniqueRow
    else Unmatched
  }

  /** The test the branch applies to one lower-cased selected identifier. */
  predicate Matches(s: string, kind: RowKind) {
    match kind
    case NamesRow => Contains(s, "names")
    case GeographicRow => Contains(s, "geographic") || Contains(s, "address")
    case DatesRow => Contains(s, "dates")
    case TelephoneRow => Contains(s, "telephone")
    case EmailRow => Contains(s, "email")
    case SocialSecurityRow => Contains(s, "social security")
    case MedicalRecordRow => Contains(s, "medical record")
    case WebRow => Contains(s, "urls") || Contains(s, "web")
    case IpRow => Contains(s, "ip address")
    case BiometricRow => Contains(s, "biometric")
    case FaceRow => Contains(s, "full face") || Contains(s, "photo")
    case OtherUniqueRow => Contains(s, "audio") || Contains(s, "video")
    case Unmatched => false
  }

  function LowerAll(items: seq<string>): (r: seq<string>)
    ensures |r| == |items|
    ensures forall i | 0 <= i < |items| :: r[i] == Lower(items[i])
  {
    seq(|items|, i requires 0 <= i < |items| => Lower(items[i]))
  }

  /** `isIdentifierChecked(pdfLabel)`: some selected identifier, lower-cased,
      passes the test of the branch the lower-cased label falls into. */
  predicate IdentifierChecked(f: Facts, pdfLabel: string) {
    var selected := LowerAll(ListOf(f, "identifiers"));
    var kind := RowKindOf(Lower(pdfLabel));
    exists i | 0 <= i < |selected| :: Matches(selected[i], kind)
  }

  /** With no identifiers selected (missing or an empty list) no row is
      checked; a label outside every branch is never checked. */
  lemma NothingSelectedNothingChecked(f: Facts, pdfLabel: string)
    ensures ListOf(f, "identifiers") == [] ==> !IdentifierChecked(f, pdfLabel)
    ensures RowKindOf(Lower(pdfLabel)) == Unmatched ==> !IdentifierChecked(f, pdfLabel)
  {
  }

  /** The test ignores the case of the row label. */
  lemma CheckedIgnoresLabelCase(f: Facts, pdfLabel: string)
    ensures IdentifierChecked(f, pdfLabel) == IdentifierChecked(f, Lower(pdfLabel))
  {
    LowerIdempotent(pdfLabel);
  }

  /** The test ignores the case of the selected identifiers. */
  lemma CheckedIgnoresSelectionCase(f: Facts, ids: seq<string>, pdfLabel: string)
    ensures IdentifierChecked(UpdateFact(f, "identifiers", List(ids)), pdfLabel)
        == IdentifierChecked(UpdateFact(f, "identifiers", List(LowerAll(ids))), pdfLabel)
  {
    var upper := LowerAll(ListOf(UpdateFact(f, "identifiers", List(ids)), "identifiers"));
    var lower := LowerAll(ListOf(UpdateFact(f, "identifiers", List(LowerAll(ids))), "identifiers"));
    forall i | 0 <= i < |ids|
      ensures lower[i] == upper[i]
    {
      LowerIdempotent(ids[i]);
    }
    assert lower == upper;
  }

  /** Any selection mentioning "address" checks every geographic row,
      whatever else it is about. */
  lemma AddressChecksGeographic(f: Facts, pdfLabel: string, i: int)
    requires 0 <= i < |ListOf(f, "identifiers")|
    requires Contains(Lower(ListOf(f, "identifiers")[i]), "address")
    requires RowKindOf(Lower(pdfLabel)) == GeographicRow
    ensures IdentifierChecked(f, pdfLabel)
  {
    var selected := LowerAll(ListOf(f, "identifiers"));
    assert Matches(selected[i], GeographicRow);
  }

  /** The table's two cells for one row: "X" when the row is checked and the
      study keeps that kind of record, empty otherwise. */
  datatype Cells = Cells(hardCopy: string, electronic: string)

  function RowCells(f: Facts, pdfLabel: string): (r: Cells)
    ensures r.hardCopy == "X" <==> IdentifierChecked(f, pdfLabel) && FactTruthy(f, "paperRecords")
    ensures r.electronic == "X" <==> IdentifierChecked(f, pdfLabel) && FactTruthy(f, "electronicRecords")
    ensures r.hardCopy in {"X", ""} && r.electronic in {"X", ""}
  {
    var checked := IdentifierChecked(f, pdfLabel);
    Cells(if checked && FactTruthy(f, "paperRecords") then "X" else "",
          if checked && FactTruthy(f, "electronicRecords") then "X" else "")
  }

  // ---------------------------------------------------------------------
  // 21.5 recordings

  const RECORDING_KINDS: seq<string> := ["Audio", "Video", "Photographs"]
  const LIVE_STREAM := "Live Stream (No Recording)"

  /** "No – skip to 21.6": no recordings value, an empty list, or one
      holding "None". */
  predicate NoRecordingsChecked(f: Facts) {
    !FactTruthy(f, "recordings") || |ListOf(f, "recordings")| == 0 || "None" in ListOf(f, "recordings")
  }

  predicate LiveStreamChecked(f: Facts) {
    LIVE_STREAM in ListOf(f, "recordings")
  }

  /** "Yes – Recording", which also opens the 21.5.1 / 21.5.2 details. */
  predicate RecordingChecked(f: Facts) {
    exists r | r in ListOf(f, "recordings") :: r in RECORDING_KINDS
  }

  /** For a stored list, "No" is checked exactly when the list is empty or
      holds "None", and "Yes – Recording" exactly when it holds audio,
      video or photographs. */
  lemma NoRecordingsRule(f: Facts)
    requires "recordings" in f ==> f["recordings"].List?
    ensures NoRecordingsChecked(f) <==> "recordings" !in f || f["recordings"].items == [] || "None" in f["recordings"].items
    ensures RecordingChecked(f) <==> "recordings" in f && exists r | r in f["recordings"].items :: r in RECORDING_KINDS
  {
  }

  /** The boxes are not exclusive: "None" picked together with "Audio"
      checks both "No" and "Yes – Recording". */
  lemma NoAndRecordingTogether(f: Facts)
    requires ListOf(f, "recordings") == ["None", "Audio"]
    ensures NoRecordingsChecked(f) && RecordingChecked(f) && !LiveStreamChecked(f)
  {
    assert "Audio" in ListOf(f, "recordings");
  }

  // ---------------------------------------------------------------------
  // Word download

  const FILENAME_PREFIX := "HRP-591_Protocol_"

  /** `HRP-591_Protocol_${title ? title.substring(0, 20) : 'Draft'}.doc`. */
  function WordFilename(f: Facts): (r: string)
    ensures StartsWith(r, FILENAME_PREFIX) && EndsWith(r, ".doc")
    ensures TextOf(f, "protocolTitle") == "" ==> r == FILENAME_PREFIX + "Draft.doc"
    ensures var title := TextOf(f, "protocolTitle");
      title != "" ==>
        (|r| == |FILENAME_PREFIX| + (if |title| < 20 then |title| else 20) + 4
         && StartsWith(title, r[|FILENAME_PREFIX|..|r| - 4]))
  {
    var title := TextOf(f, "protocolTitle");
    var middle := if title != "" then title[..if |title| < 20 then |title| else 20] else "Draft";
    FILENAME_PREFIX + middle + ".doc"
  }

  /** A title of at most 20 characters appears whole in the file name. */
  lemma ShortTitleKept(f: Facts)
    requires 0 < |TextOf(f, "protocolTitle")| <= 20
    ensures WordFilename(f) == FILENAME_PREFIX + TextOf(f, "protocolTitle") + ".doc"
  {
  }

  // The eighteen row labels of the 21.1 table, the Safe Harbor identifiers of
  // 45 CFR 164.514(b)(2)(i). Each label is written as a concatenation of
  // short pieces (the piece holding the branch's keyword kept whole); the
  // value is the label's text.
  const NAMES_LABEL := "Names" + " and/or initials (in" + "cluding on signed co" + "nsent documents)"
  const GEOGRAPHIC_LABEL := "All " + "geographic" + " subdivisions smalle" + "r than a State..."
  const DATES_LABEL := "All " + "elements of dates" + " (except year) for d" + "ates directly relate" + "d..."
  const TELEPHONE_LABEL := "Telephone" + " numbers"
  const FAX_LABEL := "Fax numbers"
  const EMAIL_LABEL := "Electronic mail" + " addresses"
  const SOCIAL_SECURITY_LABEL := "Social security" + " numbers"
  const MEDICAL_RECORD_LABEL := "Medical record" + " numbers"
  const HEALTH_PLAN_LABEL := "Health plan benefici" + "ary numbers"
  const ACCOUNT_LABEL := "Account numbers"
  const CERTIFICATE_LABEL := "Certificate/license " + "numbers"
  const VEHICLE_LABEL := "Vehicle identifiers " + "and serial numbers.." + "."
  const DEVICE_LABEL := "Device identifiers a" + "nd serial numbers"
  const WEB_LABEL := "Web Universal" + " Resource Locators (" + "URLs)"
  const IP_LABEL := "Internet Protocol" + " (IP) address number" + "s"
  const BIOMETRIC_LABEL := "Biometric" + " identifiers, includ" + "ing finger and voice" + " prints"
  const FACE_LABEL := "Full face" + " photographic images" + " and any comparable " + "images"
  const OTHER_UNIQUE_LABEL := "Any other unique" + " identifying number," + " characteristic, or " + "code..."

  const ROW_LABELS: seq<string> := [
    NAMES_LABEL,
    GEOGRAPHIC_LABEL,
    DATES_LABEL,
    TELEPHONE_LABEL,
    FAX_LABEL,
    EMAIL_LABEL,
    SOCIAL_SECURITY_LABEL,
    MEDICAL_RECORD_LABEL,
    HEALTH_PLAN_LABEL,
    ACCOUNT_LABEL,
    CERTIFICATE_LABEL,
    VEHICLE_LABEL,
    DEVICE_LABEL,
    WEB_LABEL,
    IP_LABEL,
    BIOMETRIC_LABEL,
    FACE_LABEL,
    OTHER_UNIQUE_LABEL]

  /** The branch each row falls into, in table order. */
  const ROW_KINDS: seq<RowKind> := [
    NamesRow,
    GeographicRow,
    DatesRow,
    TelephoneRow,
    Unmatched,
    EmailRow,
    SocialSecurityRow,
    MedicalRecordRow,
    Unmatched,
    Unmatched,
    Unmatched,
    Unmatched,
    Unmatched,
    WebRow,
    IpRow,
    BiometricRow,
    FaceRow,
    OtherUniqueRow]

  const NAMES_LOWER := "names" + " and/or initials (in" + "cluding on signed co" + "nsent documents)"

  lemma NamesLowered()
    ensures Lower(NAMES_LABEL) == NAMES_LOWER
  {
    assert Lower("Names") == "names";
    LowerAppend("Names", " and/or initials (in");
    assert Lower(" and/or initials (in") == " and/or initials (in";
    assert Lower("Names" + " and/or initials (in") == "names" + " and/or initials (in";
    LowerAppend("Names" + " and/or initials (in", "cluding on signed co");
    assert Lower("cluding on signed co") == "cluding on signed co";
    assert Lower("Names" + " and/or initials (in" + "cluding on signed co") == "names" + " and/or initials (in" + "cluding on signed co";
    LowerAppend("Names" + " and/or initials (in" + "cluding on signed co", "nsent documents)");
    assert Lower("nsent documents)") == "nsent documents)";
    assert Lower("Names" + " and/or initials (in" + "cluding on signed co" + "nsent documents)") == "names" + " and/or initials (in" + "cluding on signed co" + "nsent documents)";
  }

  lemma NamesKind()
    ensures RowKindOf(Lower(NAMES_LABEL)) == NamesRow
  {
    assert OccursAt("names", "names", 0);
    ContainsAppend("names", " and/or initials (in", "names");
    ContainsAppend("names" + " and/or initials (in", "cluding on signed co", "names");
    ContainsAppend("names" + " and/or initials (in" + "cluding on signed co", "nsent documents)", "names");
    NamesLowered();
  }

  const GEOGRAPHIC_LOWER := "all " + "geographic" + " subdivisions smalle" + "r than a state..."

  lemma GeographicLowered()
    ensures Lower(GEOGRAPHIC_LABEL) == GEOGRAPHIC_LOWER
  {
    assert Lower("All ") == "all ";
    LowerAppend("All ", "geographic");
    assert Lower("geographic") == "geographic";
    assert Lower("All " + "geographic") == "all " + "geographic";
    LowerAppend("All " + "geographic", " subdivisions smalle");
    assert Lower(" subdivisions smalle") == " subdivisions smalle";
    assert Lower("All " + "geographic" + " subdivisions smalle") == "all " + "geographic" + " subdivisions smalle";
    LowerAppend("All " + "geographic" + " subdivisions smalle", "r than a State...");
    assert Lower("r than a State...") == "r than a state...";
    assert Lower("All " + "geographic" + " subdivisions smalle" + "r than a State...") == "all " + "geographic" + " subdivisions smalle" + "r than a state...";
  }

  lemma GeographicNotNames()
    ensures !Contains(GEOGRAPHIC_LOWER, "names")
  {
    NotContains2(GEOGRAPHIC_LOWER, "names");
  }

  lemma GeographicKind()
    ensures RowKindOf(Lower(GEOGRAPHIC_LABEL)) == GeographicRow
  {
    GeographicNotNames();
    assert OccursAt("geographic", "geographic", 0);
    ContainsAppend("all ", "geographic", "geographic");
    ContainsAppend("all " + "geographic", " subdivisions smalle", "geographic");
    ContainsAppend("all " + "geographic" + " subdivisions smalle", "r than a state...", "geographic");
    GeographicLowered();
  }

  const DATES_LOWER := "all " + "elements of dates" + " (except year) for d" + "ates directly relate" + "d..."

  lemma DatesLowered()
    ensures Lower(DATES_LABEL) == DATES_LOWER
  {
    assert Lower("All ") == "all ";
    LowerAppend("All ", "elements of dates");
    assert Lower("elements of dates") == "elements of dates";
    assert Lower("All " + "elements of dates") == "all " + "elements of dates";
    LowerAppend("All " + "elements of dates", " (except year) for d");
    assert Lower(" (except year) for d") == " (except year) for d";
    assert Lower("All " + "elements of dates" + " (except year) for d") == "all " + "elements of dates" + " (except year) for d";
    LowerAppend("All " + "elements of dates" + " (except year) for d", "ates directly relate");
    assert Lower("ates directly relate") == "ates directly relate";
    assert Lower("All " + "elements of dates" + " (except year) for d" + "ates directly relate") == "all " + "elements of dates" + " (except year) for d" + "ates directly relate";
    LowerAppend("All " + "elements of dates" + " (except year) for d" + "ates directly relate", "d...");
    assert Lower("d...") == "d...";
    assert Lower("All " + "elements of dates" + " (except year) for d" + "ates directly relate" + "d...") == "all " + "elements of dates" + " (except year) for d" + "ates directly relate" + "d...";
  }

  lemma DatesNotNames()
    ensures !Contains(DATES_LOWER, "names")
  {
    NotContains2(DATES_LOWER, "names");
  }

  lemma DatesNotGeographic()
    ensures !Contains(DATES_LOWER, "geographic")
  {
    NotContains2(DATES_LOWER, "geographic");
  }

  lemma DatesKind()
    ensures RowKindOf(Lower(DATES_LABEL)) == DatesRow
  {
    DatesNotNames();
    DatesNotGeographic();
    assert OccursAt("elements of dates", "elements of dates", 0);
    ContainsAppend("all ", "elements of dates", "elements of dates");
    ContainsAppend("all " + "elements of dates", " (except year) for d", "elements of dates");
    ContainsAppend("all " + "elements of dates" + " (except year) for d", "ates directly relate", "elements of dates");
    ContainsAppend("all " + "elements of dates" + " (except year) for d" + "ates directly relate", "d...", "elements of dates");
    DatesLowered();
  }

  const TELEPHONE_LOWER := "telephone" + " numbers"

  lemma TelephoneLowered()
    ensures Lower(TELEPHONE_LABEL) == TELEPHONE_LOWER
  {
    assert Lower("Telephone") == "telephone";
    LowerAppend("Telephone", " numbers");
    assert Lower(" numbers") == " numbers";
  }

  lemma TelephoneNotNames()
    ensures !Contains(TELEPHONE_LOWER, "names")
  {
    NotContains2(TELEPHONE_LOWER, "names");
  }

  lemma TelephoneNotGeographic()
    ensures !Contains(TELEPHONE_LOWER, "geographic")
  {
    NotContains2(TELEPHONE_LOWER, "geographic");
  }

  lemma TelephoneNotDates()
    ensures !Contains(TELEPHONE_LOWER, "elements of dates")
  {
    NotContains4(TELEPHONE_LOWER, "elements of dates");
  }

  lemma TelephoneKind()
    ensures RowKindOf(Lower(TELEPHONE_LABEL)) == TelephoneRow
  {
    TelephoneNotNames();
    TelephoneNotGeographic();
    TelephoneNotDates();
    assert OccursAt("telephone", "telephone", 0);
    ContainsAppend("telephone", " numbers", "telephone");
    TelephoneLowered();
  }

  const FAX_LOWER := "fax numbers"

  lemma FaxLowered()
    ensures Lower(FAX_LABEL) == FAX_LOWER
  {
    assert Lower("Fax numbers") == "fax numbers";
  }

  lemma FaxNotNames()
    ensures !Contains(FAX_LOWER, "names")
  {
    NotContains2(FAX_LOWER, "names");
  }

  lemma FaxNotGeographic()
    ensures !Contains(FAX_LOWER, "geographic")
  {
    NotContains2(FAX_LOWER, "geographic");
  }

  lemma FaxNotDates()
    ensures !Contains(FAX_LOWER, "elements of dates")
  {
    NotContains2(FAX_LOWER, "elements of dates");
  }

  lemma FaxNotTelephone()
    ensures !Contains(FAX_LOWER, "telephone")
  {
    NotContains2(FAX_LOWER, "telephone");
  }

  lemma FaxNotEmail()
    ensures !Contains(FAX_LOWER, "electronic mail")
  {
    NotContains2(FAX_LOWER, "electronic mail");
  }

  lemma FaxNotSocialSecurity()
    ensures !Contains(FAX_LOWER, "social security")
  {
    NotContains2(FAX_LOWER, "social security");
  }

  lemma FaxNotMedicalRecord()
    ensures !Contains(FAX_LOWER, "medical record")
  {
    NotContains2(FAX_LOWER, "medical record");
  }

  lemma FaxNotWeb()
    ensures !Contains(FAX_LOWER, "web universal")
  {
    NotContains2(FAX_LOWER, "web universal");
  }

  lemma FaxNotIp()
    ensures !Contains(FAX_LOWER, "internet protocol")
  {
    NotContains2(FAX_LOWER, "internet protocol");
  }

  lemma FaxNotBiometric()
    ensures !Contains(FAX_LOWER, "biometric")
  {
    NotContains2(FAX_LOWER, "biometric");
  }

  lemma FaxNotFace()
    ensures !Contains(FAX_LOWER, "full face")
  {
    NotContains2(FAX_LOWER, "full face");
  }

  lemma FaxNotOtherUnique()
    ensures !Contains(FAX_LOWER, "any other unique")
  {
    NotContains2(FAX_LOWER, "any other unique");
  }

  lemma FaxKind()
    ensures RowKindOf(Lower(FAX_LABEL)) == Unmatched
  {
    FaxNotNames();
    FaxNotGeographic();
    FaxNotDates();
    FaxNotTelephone();
    FaxNotEmail();
    FaxNotSocialSecurity();
    FaxNotMedicalRecord();
    FaxNotWeb();
    FaxNotIp();
    FaxNotBiometric();
    FaxNotFace();
    FaxNotOtherUnique();
    FaxLowered();
  }

  const EMAIL_LOWER := "electronic mail" + " addresses"

  lemma EmailLowered()
    ensures Lower(EMAIL_LABEL) == EMAIL_LOWER
  {
    assert Lower("Electronic mail") == "electronic mail";
    LowerAppend("Electronic mail", " addresses");
    assert Lower(" addresses") == " addresses";
  }

  lemma EmailNotNames()
    ensures !Contains(EMAIL_LOWER, "names")
  {
    NotContains2(EMAIL_LOWER, "names");
  }

  lemma EmailNotGeographic()
    ensures !Contains(EMAIL_LOWER, "geographic")
  {
    NotContains2(EMAIL_LOWER, "geographic");
  }

  lemma EmailNotDates()
    ensures !Contains(EMAIL_LOWER, "elements of dates")
  {
    NotContains4(EMAIL_LOWER, "elements of dates");
  }

  lemma EmailNotTelephone()
    ensures !Contains(EMAIL_LOWER, "telephone")
  {
    NotContains2(EMAIL_LOWER, "telephone");
  }

  lemma EmailKind()
    ensures RowKindOf(Lower(EMAIL_LABEL)) == EmailRow
  {
    EmailNotNames();
    EmailNotGeographic();
    EmailNotDates();
    EmailNotTelephone();
    assert OccursAt("electronic mail", "electronic mail", 0);
    ContainsAppend("electronic mail", " addresses", "electronic mail");
    EmailLowered();
  }

  const SOCIAL_SECURITY_LOWER := "social security" + " numbers"

  lemma SocialSecurityLowered()
    ensures Lower(SOCIAL_SECURITY_LABEL) == SOCIAL_SECURITY_LOWER
  {
    assert Lower("Social security") == "social security";
    LowerAppend("Social security", " numbers");
    assert Lower(" numbers") == " numbers";
  }

  lemma SocialSecurityNotNames()
    ensures !Contains(SOCIAL_SECURITY_LOWER, "names")
  {
    NotContains2(SOCIAL_SECURITY_LOWER, "names");
  }

  lemma SocialSecurityNotGeographic()
    ensures !Contains(SOCIAL_SECURITY_LOWER, "geographic")
  {
    NotContains2(SOCIAL_SECURITY_LOWER, "geographic");
  }

  lemma SocialSecurityNotDates()
    ensures !Contains(SOCIAL_SECURITY_LOWER, "elements of dates")
  {
    NotContains2(SOCIAL_SECURITY_LOWER, "elements of dates");
  }

  lemma SocialSecurityNotTelephone()
    ensures !Contains(SOCIAL_SECURITY_LOWER, "telephone")
  {
    NotContains2(SOCIAL_SECURITY_LOWER, "telephone");
  }

  lemma SocialSecurityNotEmail()
    ensures !Contains(SOCIAL_SECURITY_LOWER, "electronic mail")
  {
    NotContains2(SOCIAL_SECURITY_LOWER, "electronic mail");
  }

  lemma SocialSecurityKind()
    ensures RowKindOf(Lower(SOCIAL_SECURITY_LABEL)) == SocialSecurityRow
  {
    SocialSecurityNotNames();
    SocialSecurityNotGeographic();
    SocialSecurityNotDates();
    SocialSecurityNotTelephone();
    SocialSecurityNotEmail();
    assert OccursAt("social security", "social security", 0);
    ContainsAppend("social security", " numbers", "social security");
    SocialSecurityLowered();
  }

  const MEDICAL_RECORD_LOWER := "medical record" + " numbers"

  lemma MedicalRecordLowered()
    ensures Lower(MEDICAL_RECORD_LABEL) == MEDICAL_RECORD_LOWER
  {
    assert Lower("Medical record") == "medical record";
    LowerAppend("Medical record", " numbers");
    assert Lower(" numbers") == " numbers";
  }

  lemma MedicalRecordNotNames()
    ensures !Contains(MEDICAL_RECORD_LOWER, "names")
  {
    NotContains2(MEDICAL_RECORD_LOWER, "names");
  }

  lemma MedicalRecordNotGeographic()
    ensures !Contains(MEDICAL_RECORD_LOWER, "geographic")
  {
    NotContains2(MEDICAL_RECORD_LOWER, "geographic");
  }

  lemma MedicalRecordNotDates()
    ensures !Contains(MEDICAL_RECORD_LOWER, "elements of dates")
  {
    NotContains2(MEDICAL_RECORD_LOWER, "elements of dates");
  }

  lemma MedicalRecordNotTelephone()
    ensures !Contains(MEDICAL_RECORD_LOWER, "telephone")
  {
    NotContains2(MEDICAL_RECORD_LOWER, "telephone");
  }

  lemma MedicalRecordNotEmail()
    ensures !Contains(MEDICAL_RECORD_LOWER, "electronic mail")
  {
    NotContains2(MEDICAL_RECORD_LOWER, "electronic mail");
  }

  lemma MedicalRecordNotSocialSecurity()
    ensures !Contains(MEDICAL_RECORD_LOWER, "social security")
  {
    NotContains2(MEDICAL_RECORD_LOWER, "social security");
  }

  lemma MedicalRecordKind()
    ensures RowKindOf(Lower(MEDICAL_RECORD_LABEL)) == MedicalRecordRow
  {
    MedicalRecordNotNames();
    MedicalRecordNotGeographic();
    MedicalRecordNotDates();
    MedicalRecordNotTelephone();
    MedicalRecordNotEmail();
    MedicalRecordNotSocialSecurity();
    assert OccursAt("medical record", "medical record", 0);
    ContainsAppend("medical record", " numbers", "medical record");
    MedicalRecordLowered();
  }

  const HEALTH_PLAN_LOWER := "health plan benefici" + "ary numbers"

  lemma HealthPlanLowered()
    ensures Lower(HEALTH_PLAN_LABEL) == HEALTH_PLAN_LOWER
  {
    assert Lower("Health plan benefici") == "health plan benefici";
    LowerAppend("Health plan benefici", "ary numbers");
    assert Lower("ary numbers") == "ary numbers";
  }

  lemma HealthPlanNotNames()
    ensures !Contains(HEALTH_PLAN_LOWER, "names")
  {
    NotContains2(HEALTH_PLAN_LOWER, "names");
  }

  lemma HealthPlanNotGeographic()
    ensures !Contains(HEALTH_PLAN_LOWER, "geographic")
  {
    NotContains2(HEALTH_PLAN_LOWER, "geographic");
  }

  lemma HealthPlanNotDates()
    ensures !Contains(HEALTH_PLAN_LOWER, "elements of dates")
  {
    NotContains2(HEALTH_PLAN_LOWER, "elements of dates");
  }

  lemma HealthPlanNotTelephone()
    ensures !Contains(HEALTH_PLAN_LOWER, "telephone")
  {
    NotContains2(HEALTH_PLAN_LOWER, "telephone");
  }

  lemma HealthPlanNotEmail()
    ensures !Contains(HEALTH_PLAN_LOWER, "electronic mail")
  {
    NotContains2(HEALTH_PLAN_LOWER, "electronic mail");
  }

  lemma HealthPlanNotSocialSecurity()
    ensures !Contains(HEALTH_PLAN_LOWER, "social security")
  {
    NotContains2(HEALTH_PLAN_LOWER, "social security");
  }

  lemma HealthPlanNotMedicalRecord()
    ensures !Contains(HEALTH_PLAN_LOWER, "medical record")
  {
    NotContains2(HEALTH_PLAN_LOWER, "medical record");
  }

  lemma HealthPlanNotWeb()
    ensures !Contains(HEALTH_PLAN_LOWER, "web universal")
  {
    NotContains2(HEALTH_PLAN_LOWER, "web universal");
  }

  lemma HealthPlanNotIp()
    ensures !Contains(HEALTH_PLAN_LOWER, "internet protocol")
  {
    NotContains2(HEALTH_PLAN_LOWER, "internet protocol");
  }

  lemma HealthPlanNotBiometric()
    ensures !Contains(HEALTH_PLAN_LOWER, "biometric")
  {
    NotContains2(HEALTH_PLAN_LOWER, "biometric");
  }

  lemma HealthPlanNotFace()
    ensures !Contains(HEALTH_PLAN_LOWER, "full face")
  {
    NotContains2(HEALTH_PLAN_LOWER, "full face");
  }

  lemma HealthPlanNotOtherUnique()
    ensures !Contains(HEALTH_PLAN_LOWER, "any other unique")
  {
    NotContains3(HEALTH_PLAN_LOWER, "any other unique");
  }

  lemma HealthPlanKind()
    ensures RowKindOf(Lower(HEALTH_PLAN_LABEL)) == Unmatched
  {
    HealthPlanNotNames();
    HealthPlanNotGeographic();
    HealthPlanNotDates();
    HealthPlanNotTelephone();
    HealthPlanNotEmail();
    HealthPlanNotSocialSecurity();
    HealthPlanNotMedicalRecord();
    HealthPlanNotWeb();
    HealthPlanNotIp();
    HealthPlanNotBiometric();
    HealthPlanNotFace();
    HealthPlanNotOtherUnique();
    HealthPlanLowered();
  }

  const ACCOUNT_LOWER := "account numbers"

  lemma AccountLowered()
    ensures Lower(ACCOUNT_LABEL) == ACCOUNT_LOWER
  {
    assert Lower("Account numbers") == "account numbers";
  }

  lemma AccountNotNames()
    ensures !Contains(ACCOUNT_LOWER, "names")
  {
    NotContains2(ACCOUNT_LOWER, "names");
  }

  lemma AccountNotGeographic()
    ensures !Contains(ACCOUNT_LOWER, "geographic")
  {
    NotContains2(ACCOUNT_LOWER, "geographic");
  }

  lemma AccountNotDates()
    ensures !Contains(ACCOUNT_LOWER, "elements of dates")
  {
    NotContains2(ACCOUNT_LOWER, "elements of dates");
  }

  lemma AccountNotTelephone()
    ensures !Contains(ACCOUNT_LOWER, "telephone")
  {
    NotContains2(ACCOUNT_LOWER, "telephone");
  }

  lemma AccountNotEmail()
    ensures !Contains(ACCOUNT_LOWER, "electronic mail")
  {
    NotContains2(ACCOUNT_LOWER, "electronic mail");
  }

  lemma AccountNotSocialSecurity()
    ensures !Contains(ACCOUNT_LOWER, "social security")
  {
    NotContains2(ACCOUNT_LOWER, "social security");
  }

  lemma AccountNotMedicalRecord()
    ensures !Contains(ACCOUNT_LOWER, "medical record")
  {
    NotContains2(ACCOUNT_LOWER, "medical record");
  }

  lemma AccountNotWeb()
    ensures !Contains(ACCOUNT_LOWER, "web universal")
  {
    NotContains2(ACCOUNT_LOWER, "web universal");
  }

  lemma AccountNotIp()
    ensures !Contains(ACCOUNT_LOWER, "internet protocol")
  {
    NotContains2(ACCOUNT_LOWER, "internet protocol");
  }

  lemma AccountNotBiometric()
    ensures !Contains(ACCOUNT_LOWER, "biometric")
  {
    NotContains2(ACCOUNT_LOWER, "biometric");
  }

  lemma AccountNotFace()
    ensures !Contains(ACCOUNT_LOWER, "full face")
  {
    NotContains2(ACCOUNT_LOWER, "full face");
  }

  lemma AccountNotOtherUnique()
    ensures !Contains(ACCOUNT_LOWER, "any other unique")
  {
    NotContains2(ACCOUNT_LOWER, "any other unique");
  }

  lemma AccountKind()
    ensures RowKindOf(Lower(ACCOUNT_LABEL)) == Unmatched
  {
    AccountNotNames();
    AccountNotGeographic();
    AccountNotDates();
    AccountNotTelephone();
    AccountNotEmail();
    AccountNotSocialSecurity();
    AccountNotMedicalRecord();
    AccountNotWeb();
    AccountNotIp();
    AccountNotBiometric();
    AccountNotFace();
    AccountNotOtherUnique();
    AccountLowered();
  }

  const CERTIFICATE_LOWER := "certificate/license " + "numbers"

  lemma CertificateLowered()
    ensures Lower(CERTIFICATE_LABEL) == CERTIFICATE_LOWER
  {
    assert Lower("Certificate/license ") == "certificate/license ";
    LowerAppend("Certificate/license ", "numbers");
    assert Lower("numbers") == "numbers";
  }

  lemma CertificateNotNames()
    ensures !Contains(CERTIFICATE_LOWER, "names")
  {
    NotContains2(CERTIFICATE_LOWER, "names");
  }

  lemma CertificateNotGeographic()
    ensures !Contains(CERTIFICATE_LOWER, "geographic")
  {
    NotContains2(CERTIFICATE_LOWER, "geographic");
  }

  lemma CertificateNotDates()
    ensures !Contains(CERTIFICATE_LOWER, "elements of dates")
  {
    NotContains2(CERTIFICATE_LOWER, "elements of dates");
  }

  lemma CertificateNotTelephone()
    ensures !Contains(CERTIFICATE_LOWER, "telephone")
  {
    NotContains3(CERTIFICATE_LOWER, "telephone");
  }

  lemma CertificateNotEmail()
    ensures !Contains(CERTIFICATE_LOWER, "electronic mail")
  {
    NotContains2(CERTIFICATE_LOWER, "electronic mail");
  }

  lemma CertificateNotSocialSecurity()
    ensures !Contains(CERTIFICATE_LOWER, "social security")
  {
    NotContains2(CERTIFICATE_LOWER, "social security");
  }

  lemma CertificateNotMedicalRecord()
    ensures !Contains(CERTIFICATE_LOWER, "medical record")
  {
    NotContains2(CERTIFICATE_LOWER, "medical record");
  }

  lemma CertificateNotWeb()
    ensures !Contains(CERTIFICATE_LOWER, "web universal")
  {
    NotContains2(CERTIFICATE_LOWER, "web universal");
  }

  lemma CertificateNotIp()
    ensures !Contains(CERTIFICATE_LOWER, "internet protocol")
  {
    NotContains2(CERTIFICATE_LOWER, "internet protocol");
  }

  lemma CertificateNotBiometric()
    ensures !Contains(CERTIFICATE_LOWER, "biometric")
  {
    NotContains2(CERTIFICATE_LOWER, "biometric");
  }

  lemma CertificateNotFace()
    ensures !Contains(CERTIFICATE_LOWER, "full face")
  {
    NotContains2(CERTIFICATE_LOWER, "full face");
  }

  lemma CertificateNotOtherUnique()
    ensures !Contains(CERTIFICATE_LOWER, "any other unique")
  {
    NotContains2(CERTIFICATE_LOWER, "any other unique");
  }

  lemma CertificateKind()
    ensures RowKindOf(Lower(CERTIFICATE_LABEL)) == Unmatched
  {
    CertificateNotNames();
    CertificateNotGeographic();
    CertificateNotDates();
    CertificateNotTelephone();
    CertificateNotEmail();
    CertificateNotSocialSecurity();
    CertificateNotMedicalRecord();
    CertificateNotWeb();
    CertificateNotIp();
    CertificateNotBiometric();
    CertificateNotFace();
    CertificateNotOtherUnique();
    CertificateLowered();
  }

  const VEHICLE_LOWER := "vehicle identifiers " + "and serial numbers.." + "."

  lemma VehicleLowered()
    ensures Lower(VEHICLE_LABEL) == VEHICLE_LOWER
  {
    assert Lower("Vehicle identifiers ") == "vehicle identifiers ";
    LowerAppend("Vehicle identifiers ", "and serial numbers..");
    assert Lower("and serial numbers..") == "and serial numbers..";
    assert Lower("Vehicle identifiers " + "and serial numbers..") == "vehicle identifiers " + "and serial numbers..";
    LowerAppend("Vehicle identifiers " + "and serial numbers..", ".");
    assert Lower(".") == ".";
    assert Lower("Vehicle identifiers " + "and serial numbers.." + ".") == "vehicle identifiers " + "and serial numbers.." + ".";
  }

  lemma VehicleNotNames()
    ensures !Contains(VEHICLE_LOWER, "names")
  {
    NotContains2(VEHICLE_LOWER, "names");
  }

  lemma VehicleNotGeographic()
    ensures !Contains(VEHICLE_LOWER, "geographic")
  {
    NotContains2(VEHICLE_LOWER, "geographic");
  }

  lemma VehicleNotDates()
    ensures !Contains(VEHICLE_LOWER, "elements of dates")
  {
    NotContains2(VEHICLE_LOWER, "elements of dates");
  }

  lemma VehicleNotTelephone()
    ensures !Contains(VEHICLE_LOWER, "telephone")
  {
    NotContains2(VEHICLE_LOWER, "telephone");
  }

  lemma VehicleNotEmail()
    ensures !Contains(VEHICLE_LOWER, "electronic mail")
  {
    NotContains2(VEHICLE_LOWER, "electronic mail");
  }

  lemma VehicleNotSocialSecurity()
    ensures !Contains(VEHICLE_LOWER, "social security")
  {
    NotContains2(VEHICLE_LOWER, "social security");
  }

  lemma VehicleNotMedicalRecord()
    ensures !Contains(VEHICLE_LOWER, "medical record")
  {
    NotContains2(VEHICLE_LOWER, "medical record");
  }

  lemma VehicleNotWeb()
    ensures !Contains(VEHICLE_LOWER, "web universal")
  {
    NotContains2(VEHICLE_LOWER, "web universal");
  }

  lemma VehicleNotIp()
    ensures !Contains(VEHICLE_LOWER, "internet protocol")
  {
    NotContains2(VEHICLE_LOWER, "internet protocol");
  }

  lemma VehicleNotBiometric()
    ensures !Contains(VEHICLE_LOWER, "biometric")
  {
    NotContains2(VEHICLE_LOWER, "biometric");
  }

  lemma VehicleNotFace()
    ensures !Contains(VEHICLE_LOWER, "full face")
  {
    NotContains2(VEHICLE_LOWER, "full face");
  }

  lemma VehicleNotOtherUnique()
    ensures !Contains(VEHICLE_LOWER, "any other unique")
  {
    NotContains3(VEHICLE_LOWER, "any other unique");
  }

  lemma VehicleKind()
    ensures RowKindOf(Lower(VEHICLE_LABEL)) == Unmatched
  {
    VehicleNotNames();
    VehicleNotGeographic();
    VehicleNotDates();
    VehicleNotTelephone();
    VehicleNotEmail();
    VehicleNotSocialSecurity();
    VehicleNotMedicalRecord();
    VehicleNotWeb();
    VehicleNotIp();
    VehicleNotBiometric();
    VehicleNotFace();
    VehicleNotOtherUnique();
    VehicleLowered();
  }

  const DEVICE_LOWER := "device identifiers a" + "nd serial numbers"

  lemma DeviceLowered()
    ensures Lower(DEVICE_LABEL) == DEVICE_LOWER
  {
    assert Lower("Device identifiers a") == "device identifiers a";
    LowerAppend("Device identifiers a", "nd serial numbers");
    assert Lower("nd serial numbers") == "nd serial numbers";
  }

  lemma DeviceNotNames()
    ensures !Contains(DEVICE_LOWER, "names")
  {
    NotContains2(DEVICE_LOWER, "names");
  }

  lemma DeviceNotGeographic()
    ensures !Contains(DEVICE_LOWER, "geographic")
  {
    NotContains2(DEVICE_LOWER, "geographic");
  }

  lemma DeviceNotDates()
    ensures !Contains(DEVICE_LOWER, "elements of dates")
  {
    NotContains2(DEVICE_LOWER, "elements of dates");
  }

  lemma DeviceNotTelephone()
    ensures !Contains(DEVICE_LOWER, "telephone")
  {
    NotContains2(DEVICE_LOWER, "telephone");
  }

  lemma DeviceNotEmail()
    ensures !Contains(DEVICE_LOWER, "electronic mail")
  {
    NotContains2(DEVICE_LOWER, "electronic mail");
  }

  lemma DeviceNotSocialSecurity()
    ensures !Contains(DEVICE_LOWER, "social security")
  {
    NotContains2(DEVICE_LOWER, "social security");
  }

  lemma DeviceNotMedicalRecord()
    ensures !Contains(DEVICE_LOWER, "medical record")
  {
    NotContains2(DEVICE_LOWER, "medical record");
  }

  lemma DeviceNotWeb()
    ensures !Contains(DEVICE_LOWER, "web universal")
  {
    NotContains2(DEVICE_LOWER, "web universal");
  }

  lemma DeviceNotIp()
    ensures !Contains(DEVICE_LOWER, "internet protocol")
  {
    NotContains2(DEVICE_LOWER, "internet protocol");
  }

  lemma DeviceNotBiometric()
    ensures !Contains(DEVICE_LOWER, "biometric")
  {
    NotContains2(DEVICE_LOWER, "biometric");
  }

  lemma DeviceNotFace()
    ensures !Contains(DEVICE_LOWER, "full face")
  {
    NotContains2(DEVICE_LOWER, "full face");
  }

  lemma DeviceNotOtherUnique()
    ensures !Contains(DEVICE_LOWER, "any other unique")
  {
    NotContains3(DEVICE_LOWER, "any other unique");
  }

  lemma DeviceKind()
    ensures RowKindOf(Lower(DEVICE_LABEL)) == Unmatched
  {
    DeviceNotNames();
    DeviceNotGeographic();
    DeviceNotDates();
    DeviceNotTelephone();
    DeviceNotEmail();
    DeviceNotSocialSecurity();
    DeviceNotMedicalRecord();
    DeviceNotWeb();
    DeviceNotIp();
    DeviceNotBiometric();
    DeviceNotFace();
    DeviceNotOtherUnique();
    DeviceLowered();
  }

  const WEB_LOWER := "web universal" + " resource locators (" + "urls)"

  lemma WebLowered()
    ensures Lower(WEB_LABEL) == WEB_LOWER
  {
    assert Lower("Web Universal") == "web universal";
    LowerAppend("Web Universal", " Resource Locators (");
    assert Lower(" Resource Locators (") == " resource locators (";
    assert Lower("Web Universal" + " Resource Locators (") == "web universal" + " resource locators (";
    LowerAppend("Web Universal" + " Resource Locators (", "URLs)");
    assert Lower("URLs)") == "urls)";
    assert Lower("Web Universal" + " Resource Locators (" + "URLs)") == "web universal" + " resource locators (" + "urls)";
  }

  lemma WebNotNames()
    ensures !Contains(WEB_LOWER, "names")
  {
    NotContains2(WEB_LOWER, "names");
  }

  lemma WebNotGeographic()
    ensures !Contains(WEB_LOWER, "geographic")
  {
    NotContains2(WEB_LOWER, "geographic");
  }

  lemma WebNotDates()
    ensures !Contains(WEB_LOWER, "elements of dates")
  {
    NotContains2(WEB_LOWER, "elements of dates");
  }

  lemma WebNotTelephone()
    ensures !Contains(WEB_LOWER, "telephone")
  {
    NotContains2(WEB_LOWER, "telephone");
  }

  lemma WebNotEmail()
    ensures !Contains(WEB_LOWER, "electronic mail")
  {
    NotContains2(WEB_LOWER, "electronic mail");
  }

  lemma WebNotSocialSecurity()
    ensures !Contains(WEB_LOWER, "social security")
  {
    NotContains3(WEB_LOWER, "social security");
  }

  lemma WebNotMedicalRecord()
    ensures !Contains(WEB_LOWER, "medical record")
  {
    NotContains2(WEB_LOWER, "medical record");
  }

  lemma WebKind()
    ensures RowKindOf(Lower(WEB_LABEL)) == WebRow
  {
    WebNotNames();
    WebNotGeographic();
    WebNotDates();
    WebNotTelephone();
    WebNotEmail();
    WebNotSocialSecurity();
    WebNotMedicalRecord();
    assert OccursAt("web universal", "web universal", 0);
    ContainsAppend("web universal", " resource locators (", "web universal");
    ContainsAppend("web universal" + " resource locators (", "urls)", "web universal");
    WebLowered();
  }

  const IP_LOWER := "internet protocol" + " (ip) address number" + "s"

  lemma IpLowered()
    ensures Lower(IP_LABEL) == IP_LOWER
  {
    assert Lower("Internet Protocol") == "internet protocol";
    LowerAppend("Internet Protocol", " (IP) address number");
    assert Lower(" (IP) address number") == " (ip) address number";
    assert Lower("Internet Protocol" + " (IP) address number") == "internet protocol" + " (ip) address number";
    LowerAppend("Internet Protocol" + " (IP) address number", "s");
    assert Lower("s") == "s";
    assert Lower("Internet Protocol" + " (IP) address number" + "s") == "internet protocol" + " (ip) address number" + "s";
  }

  lemma IpNotNames()
    ensures !Contains(IP_LOWER, "names")
  {
    NotContains2(IP_LOWER, "names");
  }

  lemma IpNotGeographic()
    ensures !Contains(IP_LOWER, "geographic")
  {
    NotContains2(IP_LOWER, "geographic");
  }

  lemma IpNotDates()
    ensures !Contains(IP_LOWER, "elements of dates")
  {
    NotContains2(IP_LOWER, "elements of dates");
  }

  lemma IpNotTelephone()
    ensures !Contains(IP_LOWER, "telephone")
  {
    NotContains3(IP_LOWER, "telephone");
  }

  lemma IpNotEmail()
    ensures !Contains(IP_LOWER, "electronic mail")
  {
    NotContains2(IP_LOWER, "electronic mail");
  }

  lemma IpNotSocialSecurity()
    ensures !Contains(IP_LOWER, "social security")
  {
    NotContains2(IP_LOWER, "social security");
  }

  lemma IpNotMedicalRecord()
    ensures !Contains(IP_LOWER, "medical record")
  {
    NotContains2(IP_LOWER, "medical record");
  }

  lemma IpNotWeb()
    ensures !Contains(IP_LOWER, "web universal")
  {
    NotContains2(IP_LOWER, "web universal");
  }

  lemma IpKind()
    ensures RowKindOf(Lower(IP_LABEL)) == IpRow
  {
    IpNotNames();
    IpNotGeographic();
    IpNotDates();
    IpNotTelephone();
    IpNotEmail();
    IpNotSocialSecurity();
    IpNotMedicalRecord();
    IpNotWeb();
    assert OccursAt("internet protocol", "internet protocol", 0);
    ContainsAppend("internet protocol", " (ip) address number", "internet protocol");
    ContainsAppend("internet protocol" + " (ip) address number", "s", "internet protocol");
    IpLowered();
  }

  const BIOMETRIC_LOWER := "biometric" + " identifiers, includ" + "ing finger and voice" + " prints"

  lemma BiometricLowered()
    ensures Lower(BIOMETRIC_LABEL) == BIOMETRIC_LOWER
  {
    assert Lower("Biometric") == "biometric";
    LowerAppend("Biometric", " identifiers, includ");
    assert Lower(" identifiers, includ") == " identifiers, includ";
    assert Lower("Biometric" + " identifiers, includ") == "biometric" + " identifiers, includ";
    LowerAppend("Biometric" + " identifiers, includ", "ing finger and voice");
    assert Lower("ing finger and voice") == "ing finger and voice";
    assert Lower("Biometric" + " identifiers, includ" + "ing finger and voice") == "biometric" + " identifiers, includ" + "ing finger and voice";
    LowerAppend("Biometric" + " identifiers, includ" + "ing finger and voice", " prints");
    assert Lower(" prints") == " prints";
    assert Lower("Biometric" + " identifiers, includ" + "ing finger and voice" + " prints") == "biometric" + " identifiers, includ" + "ing finger and voice" + " prints";
  }

  lemma BiometricNotNames()
    ensures !Contains(BIOMETRIC_LOWER, "names")
  {
    NotContains2(BIOMETRIC_LOWER, "names");
  }

  lemma BiometricNotGeographic()
    ensures !Contains(BIOMETRIC_LOWER, "geographic")
  {
    NotContains3(BIOMETRIC_LOWER, "geographic");
  }

  lemma BiometricNotDates()
    ensures !Contains(BIOMETRIC_LOWER, "elements of dates")
  {
    NotContains2(BIOMETRIC_LOWER, "elements of dates");
  }

  lemma BiometricNotTelephone()
    ensures !Contains(BIOMETRIC_LOWER, "telephone")
  {
    NotContains2(BIOMETRIC_LOWER, "telephone");
  }

  lemma BiometricNotEmail()
    ensures !Contains(BIOMETRIC_LOWER, "electronic mail")
  {
    NotContains2(BIOMETRIC_LOWER, "electronic mail");
  }

  lemma BiometricNotSocialSecurity()
    ensures !Contains(BIOMETRIC_LOWER, "social security")
  {
    NotContains2(BIOMETRIC_LOWER, "social security");
  }

  lemma BiometricNotMedicalRecord()
    ensures !Contains(BIOMETRIC_LOWER, "medical record")
  {
    NotContains3(BIOMETRIC_LOWER, "medical record");
  }

  lemma BiometricNotWeb()
    ensures !Contains(BIOMETRIC_LOWER, "web universal")
  {
    NotContains2(BIOMETRIC_LOWER, "web universal");
  }

  lemma BiometricNotIp()
    ensures !Contains(BIOMETRIC_LOWER, "internet protocol")
  {
    NotContains4(BIOMETRIC_LOWER, "internet protocol");
  }

  lemma BiometricKind()
    ensures RowKindOf(Lower(BIOMETRIC_LABEL)) == BiometricRow
  {
    BiometricNotNames();
    BiometricNotGeographic();
    BiometricNotDates();
    BiometricNotTelephone();
    BiometricNotEmail();
    BiometricNotSocialSecurity();
    BiometricNotMedicalRecord();
    BiometricNotWeb();
    BiometricNotIp();
    assert OccursAt("biometric", "biometric", 0);
    ContainsAppend("biometric", " identifiers, includ", "biometric");
    ContainsAppend("biometric" + " identifiers, includ", "ing finger and voice", "biometric");
    ContainsAppend("biometric" + " identifiers, includ" + "ing finger and voice", " prints", "biometric");
    BiometricLowered();
  }

  const FACE_LOWER := "full face" + " photographic images" + " and any comparable " + "images"

  lemma FaceLowered()
    ensures Lower(FACE_LABEL) == FACE_LOWER
  {
    assert Lower("Full face") == "full face";
    LowerAppend("Full face", " photographic images");
    assert Lower(" photographic images") == " photographic images";
    assert Lower("Full face" + " photographic images") == "full face" + " photographic images";
    LowerAppend("Full face" + " photographic images", " and any comparable ");
    assert Lower(" and any comparable ") == " and any comparable ";
    assert Lower("Full face" + " photographic images" + " and any comparable ") == "full face" + " photographic images" + " and any comparable ";
    LowerAppend("Full face" + " photographic images" + " and any comparable ", "images");
    assert Lower("images") == "images";
    assert Lower("Full face" + " photographic images" + " and any comparable " + "images") == "full face" + " photographic images" + " and any comparable " + "images";
  }

  lemma FaceNotNames()
    ensures !Contains(FACE_LOWER, "names")
  {
    NotContains2(FACE_LOWER, "names");
  }

  lemma FaceNotGeographic()
    ensures !Contains(FACE_LOWER, "geographic")
  {
    NotContains3(FACE_LOWER, "geographic");
  }

  lemma FaceNotDates()
    ensures !Contains(FACE_LOWER, "elements of dates")
  {
    NotContains2(FACE_LOWER, "elements of dates");
  }

  lemma FaceNotTelephone()
    ensures !Contains(FACE_LOWER, "telephone")
  {
    NotContains2(FACE_LOWER, "telephone");
  }

  lemma FaceNotEmail()
    ensures !Contains(FACE_LOWER, "electronic mail")
  {
    NotContains2(FACE_LOWER, "electronic mail");
  }

  lemma FaceNotSocialSecurity()
    ensures !Contains(FACE_LOWER, "social security")
  {
    NotContains2(FACE_LOWER, "social security");
  }

  lemma FaceNotMedicalRecord()
    ensures !Contains(FACE_LOWER, "medical record")
  {
    NotContains2(FACE_LOWER, "medical record");
  }

  lemma FaceNotWeb()
    ensures !Contains(FACE_LOWER, "web universal")
  {
    NotContains2(FACE_LOWER, "web universal");
  }

  lemma FaceNotIp()
    ensures !Contains(FACE_LOWER, "internet protocol")
  {
    NotContains2(FACE_LOWER, "internet protocol");
  }

  lemma FaceNotBiometric()
    ensures !Contains(FACE_LOWER, "biometric")
  {
    NotContains2(FACE_LOWER, "biometric");
  }

  lemma FaceKind()
    ensures RowKindOf(Lower(FACE_LABEL)) == FaceRow
  {
    FaceNotNames();
    FaceNotGeographic();
    FaceNotDates();
    FaceNotTelephone();
    FaceNotEmail();
    FaceNotSocialSecurity();
    FaceNotMedicalRecord();
    FaceNotWeb();
    FaceNotIp();
    FaceNotBiometric();
    assert OccursAt("full face", "full face", 0);
    ContainsAppend("full face", " photographic images", "full face");
    ContainsAppend("full face" + " photographic images", " and any comparable ", "full face");
    ContainsAppend("full face" + " photographic images" + " and any comparable ", "images", "full face");
    FaceLowered();
  }

  const OTHER_UNIQUE_LOWER := "any other unique" + " identifying number," + " characteristic, or " + "code..."

  lemma OtherUniqueLowered()
    ensures Lower(OTHER_UNIQUE_LABEL) == OTHER_UNIQUE_LOWER
  {
    assert Lower("Any other unique") == "any other unique";
    LowerAppend("Any other unique", " identifying number,");
    assert Lower(" identifying number,") == " identifying number,";
    assert Lower("Any other unique" + " identifying number,") == "any other unique" + " identifying number,";
    LowerAppend("Any other unique" + " identifying number,", " characteristic, or ");
    assert Lower(" characteristic, or ") == " characteristic, or ";
    assert Lower("Any other unique" + " identifying number," + " characteristic, or ") == "any other unique" + " identifying number," + " characteristic, or ";
    LowerAppend("Any other unique" + " identifying number," + " characteristic, or ", "code...");
    assert Lower("code...") == "code...";
    assert Lower("Any other unique" + " identifying number," + " characteristic, or " + "code...") == "any other unique" + " identifying number," + " characteristic, or " + "code...";
  }

  lemma OtherUniqueNotNames()
    ensures !Contains(OTHER_UNIQUE_LOWER, "names")
  {
    NotContains2(OTHER_UNIQUE_LOWER, "names");
  }

  lemma OtherUniqueNotGeographic()
    ensures !Contains(OTHER_UNIQUE_LOWER, "geographic")
  {
    NotContains2(OTHER_UNIQUE_LOWER, "geographic");
  }

  lemma OtherUniqueNotDates()
    ensures !Contains(OTHER_UNIQUE_LOWER, "elements of dates")
  {
    NotContains2(OTHER_UNIQUE_LOWER, "elements of dates");
  }

  lemma OtherUniqueNotTelephone()
    ensures !Contains(OTHER_UNIQUE_LOWER, "telephone")
  {
    NotContains3(OTHER_UNIQUE_LOWER, "telephone");
  }

  lemma OtherUniqueNotEmail()
    ensures !Contains(OTHER_UNIQUE_LOWER, "electronic mail")
  {
    NotContains2(OTHER_UNIQUE_LOWER, "electronic mail");
  }

  lemma OtherUniqueNotSocialSecurity()
    ensures !Contains(OTHER_UNIQUE_LOWER, "social security")
  {
    NotContains2(OTHER_UNIQUE_LOWER, "social security");
  }

  lemma OtherUniqueNotMedicalRecord()
    ensures !Contains(OTHER_UNIQUE_LOWER, "medical record")
  {
    NotContains2(OTHER_UNIQUE_LOWER, "medical record");
  }

  lemma OtherUniqueNotWeb()
    ensures !Contains(OTHER_UNIQUE_LOWER, "web universal")
  {
    NotContains2(OTHER_UNIQUE_LOWER, "web universal");
  }

  lemma OtherUniqueNotIp()
    ensures !Contains(OTHER_UNIQUE_LOWER, "internet protocol")
  {
    NotContains3(OTHER_UNIQUE_LOWER, "internet protocol");
  }

  lemma OtherUniqueNotBiometric()
    ensures !Contains(OTHER_UNIQUE_LOWER, "biometric")
  {
    NotContains2(OTHER_UNIQUE_LOWER, "biometric");
  }

  lemma OtherUniqueNotFace()
    ensures !Contains(OTHER_UNIQUE_LOWER, "full face")
  {
    NotContains2(OTHER_UNIQUE_LOWER, "full face");
  }

  lemma OtherUniqueKind()
    ensures RowKindOf(Lower(OTHER_UNIQUE_LABEL)) == OtherUniqueRow
  {
    OtherUniqueNotNames();
    OtherUniqueNotGeographic();
    OtherUniqueNotDates();
    OtherUniqueNotTelephone();
    OtherUniqueNotEmail();
    OtherUniqueNotSocialSecurity();
    OtherUniqueNotMedicalRecord();
    OtherUniqueNotWeb();
    OtherUniqueNotIp();
    OtherUniqueNotBiometric();
    OtherUniqueNotFace();
    assert OccursAt("any other unique", "any other unique", 0);
    ContainsAppend("any other unique", " identifying number,", "any other unique");
    ContainsAppend("any other unique" + " identifying number,", " characteristic, or ", "any other unique");
    ContainsAppend("any other unique" + " identifying number," + " characteristic, or ", "code...", "any other unique");
    OtherUniqueLowered();
  }

  lemma RowKindsOfRows0()
    ensures forall k | 0 <= k < 3 :: RowKindOf(Lower(ROW_LABELS[k])) == ROW_KINDS[k]
  {
    forall k | 0 <= k < 3
      ensures RowKindOf(Lower(ROW_LABELS[k])) == ROW_KINDS[k]
    {
      if k == 0 { NamesKind(); }
      else if k == 1 { GeographicKind(); }
      else if k == 2 { DatesKind(); }
    }
  }

  lemma RowKindsOfRows3()
    ensures forall k | 3 <= k < 6 :: RowKindOf(Lower(ROW_LABELS[k])) == ROW_KINDS[k]
  {
    forall k | 3 <= k < 6
      ensures RowKindOf(Lower(ROW_LABELS[k])) == ROW_KINDS[k]
    {
      if k == 3 { TelephoneKind(); }
      else if k == 4 { FaxKind(); }
      else if k == 5 { EmailKind(); }
    }
  }

  lemma RowKindsOfRows6()
    ensures forall k | 6 <= k < 9 :: RowKindOf(Lower(ROW_LABELS[k])) == ROW_KINDS[k]
  {
    forall k | 6 <= k < 9
      ensures RowKindOf(Lower(ROW_LABELS[k])) == ROW_KINDS[k]
    {
      if k == 6 { SocialSecurityKind(); }
      else if k == 7 { MedicalRecordKind(); }
      else if k == 8 { HealthPlanKind(); }
    }
  }

  lemma RowKindsOfRows9()
    ensures forall k | 9 <= k < 12 :: RowKindOf(Lower(ROW_LABELS[k])) == ROW_KINDS[k]
  {
    forall k | 9 <= k < 12
      ensures RowKindOf(Lower(ROW_LABELS[k])) == ROW_KINDS[k]
    {
      if k == 9 { AccountKind(); }
      else if k == 10 { CertificateKind(); }
      else if k == 11 { VehicleKind(); }
    }
  }

  lemma RowKindsOfRows12()
    ensures forall k | 12 <= k < 15 :: RowKindOf(Lower(ROW_LABELS[k])) == ROW_KINDS[k]
  {
    forall k | 12 <= k < 15
      ensures RowKindOf(Lower(ROW_LABELS[k])) == ROW_KINDS[k]
    {
      if k == 12 { DeviceKind(); }
      else if k == 13 { WebKind(); }
      else if k == 14 { IpKind(); }
    }
  }

  lemma RowKindsOfRows15()
    ensures forall k | 15 <= k < 18 :: RowKindOf(Lower(ROW_LABELS[k])) == ROW_KINDS[k]
  {
    forall k | 15 <= k < 18
      ensures RowKindOf(Lower(ROW_LABELS[k])) == ROW_KINDS[k]
    {
      if k == 15 { BiometricKind(); }
      else if k == 16 { FaceKind(); }
      else if k == 17 { OtherUniqueKind(); }
    }
  }

  /** Every row label falls into the branch listed for it; the fax, health
      plan, account, certificate, vehicle and device rows fall into none. */
  lemma RowKindsOfTable()
    ensures |ROW_LABELS| == |ROW_KINDS| == 18
    ensures forall k | 0 <= k < |ROW_LABELS| :: RowKindOf(Lower(ROW_LABELS[k])) == ROW_KINDS[k]
  {
    RowKindsOfRows0();
    RowKindsOfRows3();
    RowKindsOfRows6();
    RowKindsOfRows9();
    RowKindsOfRows12();
    RowKindsOfRows15();
  }

  // ---------------------------------------------------------------------
  // Two selections against the table

  /** "names" passes only the names branch's test. */
  lemma NamesMatchesOnlyNames()
    ensures forall kind :: Matches("names", kind) <==> kind == NamesRow
  {
    var l := "names";
    assert OccursAt(l, "names", 0);
    NotContainsLonger(l, "geographic");
    NotContainsLonger(l, "address");
    NotContainsLonger(l, "telephone");
    NotContainsLonger(l, "social security");
    NotContainsLonger(l, "medical record");
    NotContainsLonger(l, "ip address");
    NotContainsLonger(l, "biometric");
    NotContainsLonger(l, "full face");
    NotContains2(l, "dates");
    NotContains2(l, "email");
    NotContains2(l, "urls");
    NotContains2(l, "web");
    NotContains2(l, "photo");
    NotContains2(l, "audio");
    NotContains2(l, "video");
  }

  const EMAIL_ADDRESSES_LOWER := "email addresses"

  lemma EmailAddressesMisses0()
    ensures !Contains(EMAIL_ADDRESSES_LOWER, "names")
    ensures !Contains(EMAIL_ADDRESSES_LOWER, "dates")
    ensures !Contains(EMAIL_ADDRESSES_LOWER, "telephone")
  {
    NotContains2(EMAIL_ADDRESSES_LOWER, "names");
    NotContains2(EMAIL_ADDRESSES_LOWER, "dates");
    NotContains2(EMAIL_ADDRESSES_LOWER, "telephone");
  }

  lemma EmailAddressesMisses1()
    ensures !Contains(EMAIL_ADDRESSES_LOWER, "social security")
    ensures !Contains(EMAIL_ADDRESSES_LOWER, "medical record")
    ensures !Contains(EMAIL_ADDRESSES_LOWER, "urls")
  {
    NotContains2(EMAIL_ADDRESSES_LOWER, "social security");
    NotContains2(EMAIL_ADDRESSES_LOWER, "medical record");
    NotContains2(EMAIL_ADDRESSES_LOWER, "urls");
  }

  lemma EmailAddressesMisses2()
    ensures !Contains(EMAIL_ADDRESSES_LOWER, "web")
    ensures !Contains(EMAIL_ADDRESSES_LOWER, "ip address")
    ensures !Contains(EMAIL_ADDRESSES_LOWER, "biometric")
  {
    NotContains2(EMAIL_ADDRESSES_LOWER, "web");
    NotContains2(EMAIL_ADDRESSES_LOWER, "ip address");
    NotContains2(EMAIL_ADDRESSES_LOWER, "biometric");
  }

  lemma EmailAddressesMisses3()
    ensures !Contains(EMAIL_ADDRESSES_LOWER, "full face")
    ensures !Contains(EMAIL_ADDRESSES_LOWER, "photo")
    ensures !Contains(EMAIL_ADDRESSES_LOWER, "audio")
    ensures !Contains(EMAIL_ADDRESSES_LOWER, "video")
  {
    NotContains2(EMAIL_ADDRESSES_LOWER, "full face");
    NotContains2(EMAIL_ADDRESSES_LOWER, "photo");
    NotContains2(EMAIL_ADDRESSES_LOWER, "audio");
    NotContains2(EMAIL_ADDRESSES_LOWER, "video");
  }

  /** "email addresses" passes the e-mail branch's test and, through
      "address", the geographic one. */
  lemma EmailAddressesMatches()
    ensures forall kind :: Matches(EMAIL_ADDRESSES_LOWER, kind) <==> kind == GeographicRow || kind == EmailRow
  {
    assert OccursAt(EMAIL_ADDRESSES_LOWER, "email", 0);
    assert OccursAt(EMAIL_ADDRESSES_LOWER, "address", 6);
    EmailAddressesMisses0();
    EmailAddressesMisses1();
    EmailAddressesMisses2();
    EmailAddressesMisses3();
  }

  /** Where each of the three kinds sits in the table. */
  lemma RowKindPositions()
    ensures forall k | 0 <= k < |ROW_KINDS| :: ROW_KINDS[k] == NamesRow <==> k == 0
    ensures forall k | 0 <= k < |ROW_KINDS| :: ROW_KINDS[k] == GeographicRow <==> k == 1
    ensures forall k | 0 <= k < |ROW_KINDS| :: ROW_KINDS[k] == EmailRow <==> k == 5
  {
  }

  /** Selecting only "Names" puts marks in the "Names and/or initials" row
      and nowhere else. */
  lemma NamesChecksOnlyNamesRow(f: Facts)
    requires ListOf(f, "identifiers") == ["Names"]
    ensures forall k | 0 <= k < |ROW_LABELS| :: IdentifierChecked(f, ROW_LABELS[k]) <==> k == 0
  {
    RowKindsOfTable();
    RowKindPositions();
    NamesMatchesOnlyNames();
    assert Lower("Names") == "names";
    var selected := LowerAll(ListOf(f, "identifiers"));
    assert selected == ["names"];
    forall k | 0 <= k < |ROW_LABELS|
      ensures IdentifierChecked(f, ROW_LABELS[k]) <==> k == 0
    {
      var kind := RowKindOf(Lower(ROW_LABELS[k]));
      assert kind == ROW_KINDS[k];
      assert IdentifierChecked(f, ROW_LABELS[k]) <==> Matches(selected[0], kind);
    }
  }

  /** Selecting only "Email addresses" marks the e-mail row and also the
      geographic-subdivisions row. */
  lemma EmailChecksEmailAndGeographicRows(f: Facts)
    requires ListOf(f, "identifiers") == ["Email addresses"]
    ensures forall k | 0 <= k < |ROW_LABELS| :: IdentifierChecked(f, ROW_LABELS[k]) <==> k == 1 || k == 5
  {
    RowKindsOfTable();
    RowKindPositions();
    EmailAddressesMatches();
    assert Lower("Email addresses") == EMAIL_ADDRESSES_LOWER;
    var selected := LowerAll(ListOf(f, "identifiers"));
    assert selected == [EMAIL_ADDRESSES_LOWER];
    forall k | 0 <= k < |ROW_LABELS|
      ensures IdentifierChecked(f, ROW_LABELS[k]) <==> k == 1 || k == 5
    {
      var kind := RowKindOf(Lower(ROW_LABELS[k]));
      assert kind == ROW_KINDS[k];
      assert IdentifierChecked(f, ROW_LABELS[k]) <==> Matches(selected[0], kind);
    }
  }
}
