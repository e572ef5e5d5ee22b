/** The one-shot builder (`FullBuilderMode.tsx`): a PDF or text file is
    read, its study facts are extracted and handed to the parent, and a
    protocol is drafted from them. */
module FullBuilder {
  import opened Wrappers
  import opened StudyFacts
  import opened FileInput
  import opened GeminiService

  const READING := "Reading document..."
  const EXTRACTING := "Extracting Study Facts..."
  const DRAFTING := "Drafting HRP-591 Protocol..."
  const AI_FAILED := "The AI could not process this document. Please ensure it is a clear text-based PDF or TXT file."
  const PROCESS_FAILED := "Failed to process document."

  /** The model calls `processFile` makes, in order. */
  datatype Call = Extract(file: FileData) | Generate(facts: Facts)

  /** The message `processFile` shows for a file that could not be read:
      the rejection's message, or the fallback when the reader's error has
      none. */
  function ReadError(error: Option<string>): (r: string)
    ensures error.Some? ==> r == error.value
    ensures error.None? ==> r == PROCESS_FAILED
  {
    match error
    case Some(m) => m
    case None => PROCESS_FAILED
  }

  class Builder {
    /** The parent's `setFacts` and `setReadinessScore` targets. */
    var facts: Facts
    var readiness: int
    var status: string
    var protocol: Option<GeneratedProtocol>
    var error: Option<string>
    var isProcessing: bool

    constructor(facts0: Facts, readiness0: int)
      ensures facts == facts0 && readiness == readiness0
      ensures status == "" && protocol.None? && error.None? && !isProcessing
    {
      facts := facts0;
      readiness := readiness0;
      status := "";
      protocol := None;
      error := None;
      isProcessing := false;
    }

    /** `processFile`: read, extract, hand the facts up (readiness 80),
        draft, replace the facts by the drafted ones when the reply has
        them, keep the protocol (readiness 100). A file that cannot be read
        stops before any call; a failed call stops there with the fixed AI
        message, keeping whatever was already handed up. */
    method ProcessFile(file: UploadedFile, read: Option<string>,
                       extraction: Reply<Facts>, generation: Reply<GeneratedProtocol>)
      returns (calls: seq<Call>)
      modifies this
      ensures !isProcessing
      ensures ReadPdfOrTxt(file, read).Failure? ==>
        calls == [] && facts == old(facts) && readiness == old(readiness) && protocol == old(protocol)
        && status == READING && error == Some(ReadError(ReadPdfOrTxt(file, read).error))
      ensures ReadPdfOrTxt(file, read).Success? ==> |calls| >= 1 && calls[0] == Extract(ReadPdfOrTxt(file, read).value)
      ensures ReadPdfOrTxt(file, read).Success? && JsonCall(extraction, EXTRACTION_FAILED).Failure? ==>
        calls == [Extract(ReadPdfOrTxt(file, read).value)] && facts == old(facts) && readiness == old(readiness)
        && protocol == old(protocol) && status == EXTRACTING && error == Some(AI_FAILED)
      ensures ReadPdfOrTxt(file, read).Success? && JsonCall(extraction, EXTRACTION_FAILED).Success? ==>
        var extracted := JsonCall(extraction, EXTRACTION_FAILED).value;
        calls == [Extract(ReadPdfOrTxt(file, read).value), Generate(extracted)] && status == DRAFTING
        && (JsonCall(generation, PROTOCOL_FAILED).Failure? ==>
              facts == extracted && readiness == 80 && protocol == old(protocol) && error == Some(AI_FAILED))
        && (JsonCall(generation, PROTOCOL_FAILED).Success? ==>
              var proto := JsonCall(generation, PROTOCOL_FAILED).value;
              facts == (if proto.studyFacts.Some? then proto.studyFacts.value else extracted)
              && readiness == 100 && protocol == Some(proto) && error.None?)
    {
      isProcessing := true;
      error := None;
      status := READING;
      calls := [];
      var fileData := ReadPdfOrTxt(file, read);
      if fileData.Failure? {
        error := Some(ReadError(fileData.error));
        isProcessing := false;
        return;
      }
      status := EXTRACTING;
      calls := calls + [Extract(fileData.value)];
      var extracted := JsonCall(extraction, EXTRACTION_FAILED);
      if extracted.Failure? {
        error := Some(AI_FAILED);
        isProcessing := false;
        return;
      }
      facts := extracted.value;
      readiness := 80;
      status := DRAFTING;
      calls := calls + [Generate(extracted.value)];
      var proto := JsonCall(generation, PROTOCOL_FAILED);
      if proto.Failure? {
        error := Some(AI_FAILED);
        isProcessing := false;
        return;
      }
      if proto.value.studyFacts.Some? {
        facts := proto.value.studyFacts.value;
      }
      protocol := Some(proto.value);
      readiness := 100;
      isProcessing := false;
    }
  }

  /** A file that is neither PDF nor text is rejected with its own message
      whatever the reader would have produced. */
  lemma UnsupportedRejected(file: UploadedFile, read: Option<string>)
    requires file.mimeType != PDF_MIME && !IsTextFile(file)
    ensures ReadError(ReadPdfOrTxt(file, read).error) == UNSUPPORTED_FILE
  {
  }
}
