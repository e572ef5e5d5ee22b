/** Uploaded files as the services see them (`FileData` in types.ts), and the
    file-reading step of each upload handler. The browser's `FileReader` is
    not modelled: what it produced is an input, `None` when it failed. For a
    PDF it produced a data URL, `data:application/pdf;base64,<payload>`; for
    other files the text itself. */
module FileInput {
  import opened Wrappers
  import opened Strings

  const PDF_MIME := "application/pdf"
  const TEXT_MIME := "text/plain"

  /** `data` is `None` where the source stores `undefined`. */
  datatype FileData = FileData(mimeType: string, data: Option<string>)

  datatype UploadedFile = UploadedFile(name: string, mimeType: string)

  predicate NoComma(s: string) {
    forall i | 0 <= i < |s| :: s[i] != ','
  }

  /** The text up to (not including) the first comma. */
  function UpToComma(s: string): (r: string)
    ensures NoComma(r)
    ensures |r| <= |s| && r == s[..|r|]
    ensures |r| < |s| ==> s[|r|] == ','
  {
    if s == [] || s[0] == ',' then "" else [s[0]] + UpToComma(s[1..])
  }

  /** `s.split(',')[1]`: the text between the first and second comma (or the
      end), `undefined` when there is no comma at all. */
  function SecondField(s: string): (r: Option<string>)
    ensures r.None? <==> NoComma(s)
    ensures r.Some? ==> NoComma(r.value)
    ensures r.Some? ==> exists i | 0 <= i < |s| ::
      s[i] == ',' && NoComma(s[..i]) && |r.value| <= |s| - i - 1 && s[i + 1..][..|r.value|] == r.value
      && (i + 1 + |r.value| == |s| || s[i + 1 + |r.value|] == ',')
  {
    var head := UpToComma(s);
    if |head| == |s| then None
    else
      var field := UpToComma(s[|head| + 1..]);
      assert s[..|head|] == head;
      assert |head| + 1 + |field| < |s| ==> s[|head| + 1 + |field|] == s[|head| + 1..][|field|];
      Some(field)
  }

  /** The payload of a data URL comes back out: a prefix without commas, a
      comma, then a payload without commas (base64 has none) splits to the
      payload. */
  lemma {:induction false} SecondFieldOfDataUrl(prefix: string, payload: string)
    requires NoComma(prefix) && NoComma(payload)
    ensures SecondField(prefix + "," + payload) == Some(payload)
  {
    var s := prefix + "," + payload;
    UpToCommaPrefix(prefix, "," + payload);
    assert s == prefix + ("," + payload);
    assert UpToComma(s) == prefix;
    assert s[|prefix| + 1..] == payload;
    UpToCommaPrefix(payload, "");
    assert payload + "" == payload;
  }

  lemma {:induction false} UpToCommaPrefix(a: string, b: string)
    requires NoComma(a) && (b == [] || b[0] == ',')
    ensures UpToComma(a + b) == a
  {
    if a != [] {
      assert (a + b)[1..] == a[1..] + b;
      UpToCommaPrefix(a[1..], b);
    }
  }

  /** `readFile` of the wizard, the document builder and the assessment
      review: a PDF is read as a data URL and keeps its payload, any other
      file is read as text and labelled `text/plain`. */
  function ReadAsPdfOrText(file: UploadedFile, read: Option<string>): (r: Option<FileData>)
    ensures r.None? <==> read.None?
    ensures r.Some? && file.mimeType == PDF_MIME ==> r.value == FileData(PDF_MIME, SecondField(read.value))
    ensures r.Some? && file.mimeType != PDF_MIME ==> r.value == FileData(TEXT_MIME, read)
  {
    match read
    case None => None
    case Some(contents) =>
      if file.mimeType == PDF_MIME then Some(FileData(PDF_MIME, SecondField(contents)))
      else Some(FileData(TEXT_MIME, Some(contents)))
  }

  const UNSUPPORTED_FILE := "Unsupported file type. Please upload a PDF or TXT file."

  predicate IsTextFile(file: UploadedFile) {
    file.mimeType == TEXT_MIME || EndsWith(file.name, ".txt")
  }

  /** `readFile` of the full builder: PDF, plain text (by type or by a `.txt`
      name), or rejected before anything is read. */
  function ReadPdfOrTxt(file: UploadedFile, read: Option<string>): (r: Result<FileData, Option<string>>)
    ensures file.mimeType == PDF_MIME && read.Some? ==> r == Success(FileData(PDF_MIME, SecondField(read.value)))
    ensures file.mimeType != PDF_MIME && IsTextFile(file) && read.Some? ==> r == Success(FileData(TEXT_MIME, read))
    ensures file.mimeType != PDF_MIME && !IsTextFile(file) ==> r == Failure(Some(UNSUPPORTED_FILE))
    ensures r.Failure? && r.error.None? ==> read.None?
  {
    if file.mimeType == PDF_MIME then
      if read.Some? then Success(FileData(PDF_MIME, SecondField(read.value))) else Failure(None)
    else if IsTextFile(file) then
      if read.Some? then Success(FileData(TEXT_MIME, read)) else Failure(None)
    else Failure(Some(UNSUPPORTED_FILE))
  }

  /** The two readers agree on every file the stricter one accepts. */
  lemma ReadersAgree(file: UploadedFile, read: Option<string>)
    requires ReadPdfOrTxt(file, read).Success?
    ensures ReadAsPdfOrText(file, read) == Some(ReadPdfOrTxt(file, read).value)
  {
  }
}
