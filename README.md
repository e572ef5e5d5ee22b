# IRB-Helper: a verified model of its deterministic core

IRB-Helper is a React application that helps researchers prepare an
institutional review board protocol (the Penn State HRP-591 form), the
documents that go with it (consent forms, surveys, interview guides,
recruitment e-mails), and annual program assessment reports. Most of its
work is done by Gemini prompts. Around those prompts sit small,
deterministic rules. This project models those rules in Dafny and proves
what they promise.

- **Study facts** (`StudyFacts`) are the shared record every mode reads and
  writes. They are modelled as a map from field name to a string, a boolean
  or a string list, with JavaScript truthiness. A merge of an extracted
  record and a single-field update are modelled with their laws.
- **File input** (`FileInput`) covers the readers' dispatch on the MIME
  type, and taking the payload after the first comma of a data URL.
- **Gemini service** (`GeminiService`) models how every wrapper turns a
  reply, an empty reply or an exception into a value or its fixed error. It
  also models how request parts are assembled, which requirements each
  document type adds, and the dynamic schema and option hints of scoped
  re-extraction.
- **Protocol wizard** (`ProtocolWizard`) is the step counter (start screen
  -1, steps 0..7, generating 99, done 100) and the handlers that move it.
  It also covers the merges on upload and "Check Draft", and the
  multi-select and Yes/No updates.
- **HRP-591 rendering** (`Hrp591`) is how the facts become the form:
  - text fallbacks;
  - Yes/No box pairs;
  - the 21.1 identifier table, whose 18 rows are the Safe Harbor
    identifiers of 45 CFR 164.514(b)(2)(i);
  - the 21.5 recording boxes;
  - the Word file name.
- **Artifact editor** (`OutputDisplay`) splits generated HTML into blocks at
  `h1`/`h2` headings, updates one block, and guards the refine inputs.
- **Research document builder** (`ResearchDocBuilder`) covers:
  - the consent prefill, which fills only empty fields;
  - the summary prefill;
  - the generate guard and the button that mirrors it;
  - the request that is sent;
  - the sanitised download name.
- **Full builder** (`FullBuilder`) reads the file, extracts the facts, then
  drafts the protocol. It keeps what already happened when a later step
  fails.
- **Pre-flight questionnaire** (`Preflight`) covers four questions, the
  readiness score and the analysis.
- **Assessment review** (`AssessmentReview`) covers:
  - the five-step form;
  - upload, review and "Apply Fix";
  - the section gauges;
  - the report's file name.
- **Objective selector** (`ObjectiveSelector`) covers the expanded-definition
  set, which is copied and then toggled, and selection by id.
- **Repository** (`Repository`) is the in-memory store of shared
  assignments, to which publishing prepends an entry.

Gemini replies, file-reader results, the clock and the user's clicks are
parameters of the model. A reply is `Threw(message)`, or
`Answered(text, parsed)` where `parsed` is what `JSON.parse` gave.
Component state that handlers change in place is a Dafny `class`, with one
method per handler. Expressions over the facts are functions.

## Model

| member | source | states |
|---|---|---|
| StudyFacts.TextOf | types.ts:5-174 | a text fact reads non-empty exactly when a non-empty string is stored under the key |
| StudyFacts.ListOf | components/HRP591DocumentRenderer.tsx:56 | `(facts.k \|\| [])`: a non-empty result is the stored list; a stored list is returned whole |
| StudyFacts.Merge | components/ProtocolWizard.tsx:50 | the merged facts have the keys of both; every key of the update takes the update's value; every other key keeps its old value |
| StudyFacts.MergeIdempotent | components/ProtocolWizard.tsx:68 | applying the same extracted update twice gives the same facts as applying it once |
| StudyFacts.MergeEmpty | components/ProtocolWizard.tsx:68 | an empty update leaves the facts unchanged |
| StudyFacts.UpdateFact | components/ProtocolWizard.tsx:105-107 | `updateFact` changes only the named key, to the given value, and drops nothing |
| StudyFacts.UpdateFactIsMerge | components/ProtocolWizard.tsx:105-107 | a single-field update is the shallow merge of a one-entry record |
| StudyFacts.UpdateFactOverwrites | components/ProtocolWizard.tsx:106 | of two updates to the same key, the last wins |
| FileInput.SecondField | components/ProtocolWizard.tsx:81 | `split(',')[1]` is undefined exactly when there is no comma; otherwise it is the comma-free text that starts right after the first comma and runs to the next comma or the end |
| FileInput.SecondFieldOfDataUrl | components/ProtocolWizard.tsx:79-81 | for a data URL (a comma-free header, a comma, a comma-free payload) the split returns the payload |
| FileInput.ReadAsPdfOrText | components/ProtocolWizard.tsx:76-89 | a PDF keeps the data URL's payload under `application/pdf`; any other file keeps its text under `text/plain`; nothing comes out when reading failed |
| FileInput.ReadPdfOrTxt | components/FullBuilderMode.tsx:77-100 | PDF → payload; `text/plain` or a `.txt` name → raw text; anything else is rejected with "Unsupported file type…" before reading |
| FileInput.ReadersAgree | components/FullBuilderMode.tsx:81-95 | on every file the full builder accepts, the other readers produce the same file data |
| GeminiService.JsonCall | services/geminiService.ts:380-397 | a JSON wrapper succeeds exactly on a non-empty text that parses, returns the parsed value, and otherwise fails with its own fixed message |
| GeminiService.ScopedCall | services/geminiService.ts:455-470 | scoped extraction rethrows the call's own error, "No response" for an empty text, or the parse error |
| GeminiService.JsonAndScopedAgree | services/geminiService.ts:462-470 | both failure policies accept the same replies with the same value |
| GeminiService.RefineText | services/geminiService.ts:488-499 | a refinement returns the reply's text when non-empty, and the input when the text is empty or the call threw |
| GeminiService.RefineNeverEmpties | services/geminiService.ts:515-524 | refining a non-empty section never yields an empty one |
| GeminiService.DocumentParts | services/geminiService.ts:374-380 | a PDF is exactly the inline data followed by the prompt; any other document is exactly one text part: "DOCUMENT CONTENT:", the file's text, a blank line, the prompt |
| GeminiService.ResearchDocumentParts | services/geminiService.ts:118-129 | the prompt is always the last part; without a file it is the only part; a PDF goes inline and a text file becomes its own "ATTACHED DOCUMENT CONTENT:" part |
| GeminiService.SpecificRequirements | services/geminiService.ts:76-114 | every document type except the debriefing statement adds requirements |
| GeminiService.RequirementsDisjoint | services/geminiService.ts:76-114 | no requirement is shared by two document types |
| GeminiService.InferType | services/geminiService.ts:416-423 | a field is an array exactly when an array marker occurs; boolean exactly when no array marker but a boolean marker occurs (`startsWith('is')` included); otherwise a string |
| GeminiService.BuildSchema | services/geminiService.ts:415-424 | the schema has exactly one property per requested field, typed by `InferType` |
| GeminiService.ScopedSchemaMistypesWizardFields | services/geminiService.ts:415-424 | the name-based schema types the checkbox groups `hipaaAuthorization` and `recordingVideoPlatform` as strings, though the wizard stores lists under them |
| GeminiService.HipaaTypedAsString | services/geminiService.ts:416-422 | `hipaaAuthorization` holds no array marker and no boolean marker, so it is typed as a string |
| GeminiService.PlatformTypedAsString | services/geminiService.ts:416-422 | `recordingVideoPlatform` holds no array marker (in particular not `recordings`) and no boolean marker, so it is typed as a string |
| GeminiService.MinimalRiskTypedAsBoolean | services/geminiService.ts:416-420 | `minimalRisk` holds no array marker but holds `Risk`, so it is typed as a boolean, its declared type |
| GeminiService.WidgetType | services/geminiService.ts:415-424 | typing by what each widget stores: multi-selects and checkbox groups are string arrays, Yes/No toggles booleans, text, text areas and selects strings |
| GeminiService.BuildFieldSchema | services/geminiService.ts:415-424 | the loop builds exactly one property per requested field id, and the last field with each id gives its widget's type |
| GeminiService.WidgetTypeListsCheckboxGroups | services/geminiService.ts:415-424 | under widget typing every multi-select or checkbox-group field of the wizard is a string array |
| GeminiService.FindField | services/geminiService.ts:408 | `step.fields.find(f => f.id === fieldId)` (its contract is stated by `FindFieldIsFirst`) |
| GeminiService.FindFieldIsFirst | services/geminiService.ts:408 | `find` returns the first field with the id, and nothing exactly when no field has it |
| GeminiService.NoOptionsNoHint | services/geminiService.ts:407-412 | a field that no step declares with options contributes no hint |
| GeminiService.FieldHintsAppend | services/geminiService.ts:405-413 | the hints of a concatenated request are the hints of its parts, in order |
| GeminiService.AppendStepHints | services/geminiService.ts:407-412 | the inner loop appends, step by step in wizard order, a hint line for each step declaring the field with options |
| GeminiService.OptionHints | services/geminiService.ts:405-413 | the outer loop's hints are the hints of each requested field in request order |
| ProtocolWizard.RemoveAll | components/ProtocolWizard.tsx:339 | `filter(i => i !== opt)` removes every occurrence of the option and keeps every other option's count |
| ProtocolWizard.RemoveAllAppend | components/ProtocolWizard.tsx:339 | filtering works piecewise, so kept options keep their relative order |
| ProtocolWizard.RemoveAllAbsent | components/ProtocolWizard.tsx:339 | filtering out an absent option changes nothing |
| ProtocolWizard.ToggleOption | components/ProtocolWizard.tsx:332-341 | a click flips the option's membership and leaves every other option's count alone; an unselected option is appended at the end |
| ProtocolWizard.ToggleTwiceRestores | components/ProtocolWizard.tsx:332-341 | clicking an unselected option twice restores the selection |
| ProtocolWizard.ToggleTwiceMovesToEnd | components/ProtocolWizard.tsx:332-341 | clicking a selected option twice leaves it once, at the end |
| ProtocolWizard.CurrentOf | components/ProtocolWizard.tsx:332-336 | `current` is a list (the stored one, or empty) exactly when the fact is falsy or a list; a stored non-empty string stays a string; a stored `true` has no array methods |
| ProtocolWizard.Spread | components/ProtocolWizard.tsx:337-340 | spreading a string gives its characters, one per element, in order |
| ProtocolWizard.ToggleMultiFact | components/ProtocolWizard.tsx:332-341 | for a list, the option is flipped, every other option keeps its count, and an unselected option is appended; for a string holding the option (a substring test) `filter` throws and nothing changes; for a string without it, its characters followed by the option are stored; a stored `true` throws and nothing changes; no other fact changes |
| ProtocolWizard.ClickFlipsHighlight | components/ProtocolWizard.tsx:332-345 | on a list answer a click flips whether the option's button is highlighted |
| ProtocolWizard.ClickTwiceRestores | components/ProtocolWizard.tsx:332-341 | two clicks on an unselected option of a list answer restore the list |
| ProtocolWizard.StringAnswerBlocksItsOption | components/ProtocolWizard.tsx:332-341 | with "Full Waiver" stored as a string, clicking "Full Waiver" changes nothing |
| ProtocolWizard.StringAnswerIsSpread | components/ProtocolWizard.tsx:332-341 | with "Full Waiver" stored as a string, clicking "Signed Authorization" stores the eleven characters of "Full Waiver" followed by "Signed Authorization" |
| ProtocolWizard.ToggleValue | components/ProtocolWizard.tsx:308-310 | option index 1 writes `true` and index 0 writes `false` |
| ProtocolWizard.ToggleHighlightsClicked | components/ProtocolWizard.tsx:310-311 | after a Yes/No click exactly the clicked button is highlighted |
| ProtocolWizard.HighlightedPair | components/ProtocolWizard.tsx:311 | the two buttons are never both highlighted, and one is exactly when a boolean is stored |
| ProtocolWizard.SelectHighlightsChosen | components/ProtocolWizard.tsx:288-290 | after choosing a select option, that option and no other is highlighted |
| ProtocolWizard.WizardStepsFit | components/ProtocolWizard.tsx:17 | the wizard's steps lie strictly between the start screen and the generating screen |
| ProtocolWizard.Wizard.constructor | components/ProtocolWizard.tsx:17-25 | the wizard opens on the start screen with no file, protocol or error |
| ProtocolWizard.Wizard.StartManually | components/ProtocolWizard.tsx:143 | "Start Manually" goes to step 0 and changes nothing else |
| ProtocolWizard.Wizard.HandleFileUpload | components/ProtocolWizard.tsx:39-59 | a read file is stored; a successful extraction is merged into the facts and opens step 0; a failure leaves the facts unmerged, stays on the start screen and shows the error; processing ends either way |
| ProtocolWizard.Wizard.HandleCheckDraft | components/ProtocolWizard.tsx:61-74 | without a stored file nothing is requested; otherwise only the current step's field ids are requested, and the reply is merged shallowly |
| ProtocolWizard.Wizard.HandleGenerate | components/ProtocolWizard.tsx:91-103 | success keeps the protocol and reaches step 100; failure returns to the last wizard step with the error and leaves the facts untouched |
| ProtocolWizard.Wizard.Next | components/ProtocolWizard.tsx:390 | below the last step Next advances by one; at the last step it generates: success stores the reply's protocol, clears the error and reaches step 100; failure keeps the step and the old protocol and shows the generation error; the processing flags are untouched |
| ProtocolWizard.Wizard.Back | components/ProtocolWizard.tsx:372 | Back decrements, so step 0 returns to the start screen; facts, file, protocol, error and both processing flags are kept |
| ProtocolWizard.Wizard.SetFact | components/ProtocolWizard.tsx:105-107 | a field edit is `UpdateFact` on the facts; step, file, protocol, error and both processing flags are kept |
| ProtocolWizard.Wizard.ClickToggle | components/ProtocolWizard.tsx:313 | a Yes/No click stores the boolean of the clicked index; step, file, protocol, error and both processing flags are kept |
| ProtocolWizard.Wizard.ClickOption | components/ProtocolWizard.tsx:332-341 | a multi-select click makes the facts `ToggleMultiFact` of the old facts (a toggled list, a spread string, or no change where the source throws); step, file, protocol, error and both processing flags are kept |
| Hrp591.InputText | components/HRP591DocumentRenderer.tsx:19-27 | a truthy value is shown as is; an empty one shows the placeholder when asked to, else "Not applicable" |
| Hrp591.TitleText | components/HRP591DocumentRenderer.tsx:180 | the title cell is never empty |
| Hrp591.ClinicalTrialsText | components/HRP591DocumentRenderer.tsx:202 | the registration cell is never empty |
| Hrp591.TitleFallback | components/HRP591DocumentRenderer.tsx:180 | the title shows the placeholder exactly when there is no title (or the title is the placeholder), otherwise the title |
| Hrp591.ClinicalTrialsFallback | components/HRP591DocumentRenderer.tsx:202 | the registration number reads "Not applicable" exactly when it is missing, "N/A" or that text; otherwise it is shown |
| Hrp591.YesNoBoxes | components/HRP591DocumentRenderer.tsx:329-330 | the "Yes" box is checked exactly when the fact is truthy |
| Hrp591.ExactlyOneBoxPerQuestion | components/HRP591DocumentRenderer.tsx:701-725 | every Yes/No question has exactly one box checked, and a missing answer checks "No" |
| Hrp591.RowKindOf | components/HRP591DocumentRenderer.tsx:55-73 | a label holding "names" takes the names branch; a label falls through every branch exactly when it holds none of the twelve keywords |
| Hrp591.Matches | components/HRP591DocumentRenderer.tsx:59-72 | each branch's substring test on one selected identifier; the fall-through matches nothing |
| Hrp591.IdentifierChecked | components/HRP591DocumentRenderer.tsx:55-73 | some lower-cased selected identifier passes the test of the label's branch (its properties are the lemmas below) |
| Hrp591.NothingSelectedNothingChecked | components/HRP591DocumentRenderer.tsx:55-72 | with no identifiers selected, or for a label outside every keyword branch, no row is checked |
| Hrp591.CheckedIgnoresLabelCase | components/HRP591DocumentRenderer.tsx:57 | the test ignores the case of the row label |
| Hrp591.CheckedIgnoresSelectionCase | components/HRP591DocumentRenderer.tsx:56 | the test ignores the case of the selected identifiers |
| Hrp591.AddressChecksGeographic | components/HRP591DocumentRenderer.tsx:60 | any selection mentioning "address" checks every geographic row |
| Hrp591.RowCells | components/HRP591DocumentRenderer.tsx:688-693 | a cell holds "X" exactly when the row is checked and the study keeps paper (resp. electronic) records, and is empty otherwise |
| Hrp591.RowKindsOfTable | components/HRP591DocumentRenderer.tsx:664-686 | every one of the 18 row labels falls into its listed branch; the fax, health plan, account, certificate, vehicle and device rows fall into none |
| Hrp591.NamesMatchesOnlyNames | components/HRP591DocumentRenderer.tsx:59-70 | "names" passes the names branch's test and no other |
| Hrp591.EmailAddressesMatches | components/HRP591DocumentRenderer.tsx:60-63 | "email addresses" passes exactly the e-mail and the geographic branches' tests |
| Hrp591.RowKindPositions | components/HRP591DocumentRenderer.tsx:664-686 | the names, geographic and e-mail branches are rows 0, 1 and 5 and no others |
| Hrp591.NamesChecksOnlyNamesRow | components/HRP591DocumentRenderer.tsx:664-688 | selecting only "Names" checks the "Names and/or initials" row and no other |
| Hrp591.EmailChecksEmailAndGeographicRows | components/HRP591DocumentRenderer.tsx:664-688 | selecting only "Email addresses" checks the e-mail row and also the geographic row |
| Hrp591.NoRecordingsChecked | components/HRP591DocumentRenderer.tsx:743 | "No" is checked for a falsy value, an empty list, or a list holding "None" |
| Hrp591.LiveStreamChecked | components/HRP591DocumentRenderer.tsx:744 | the live-stream box is list membership of "Live Stream (No Recording)" |
| Hrp591.RecordingChecked | components/HRP591DocumentRenderer.tsx:745 | "Yes – Recording" is checked when some listed recording is audio, video or photographs |
| Hrp591.NoRecordingsRule | components/HRP591DocumentRenderer.tsx:743-745 | "No" is checked exactly for a missing or empty list or one holding "None"; "Yes – Recording" exactly when audio, video or photographs are listed |
| Hrp591.NoAndRecordingTogether | components/HRP591DocumentRenderer.tsx:743-745 | the boxes are not exclusive: "None" with "Audio" checks both "No" and "Yes – Recording" |
| Hrp591.WordFilename | components/HRP591DocumentRenderer.tsx:120 | the name is `HRP-591_Protocol_` + the first 20 characters of the title (or "Draft") + `.doc` |
| Hrp591.ShortTitleKept | components/HRP591DocumentRenderer.tsx:120 | a title of at most 20 characters appears whole |
| OutputDisplay.BlockIdInjective | components/OutputDisplay.tsx:450 | different block numbers give different `block-n` ids |
| OutputDisplay.AccumulateStep | components/OutputDisplay.tsx:446-457 | one turn of the children loop keeps the loop's invariant |
| OutputDisplay.Accumulate | components/OutputDisplay.tsx:446-457 | after the loop, the closed blocks are numbered in order and non-blank, and they plus the open content are all the children's HTML |
| OutputDisplay.SplitBlocks | components/OutputDisplay.tsx:434-468 | blocks are numbered `block-0`, `block-1`, … in order and are never blank; for non-blank children they reproduce the whole HTML, one block per heading plus one for a leading preamble; a document whose body is blank becomes one `block-0` holding the raw content, or no block |
| OutputDisplay.UpdateBlock | components/OutputDisplay.tsx:471-473 | the block with the id gets the new content; ids, order, length and every other block are unchanged |
| OutputDisplay.UpdateNumberedBlock | components/OutputDisplay.tsx:471-473 | on the editor's own blocks, updating `block-n` rewrites block n and only it |
| OutputDisplay.UpdateBlockLastWins | components/OutputDisplay.tsx:472 | of two updates to the same block, the last wins |
| OutputDisplay.UpdateUnknownBlock | components/OutputDisplay.tsx:472 | an update naming no block changes nothing |
| OutputDisplay.SubmitRefine | components/OutputDisplay.tsx:533-546 | a request is sent exactly when the input is not blank; sending clears the input, otherwise the input is kept |
| OutputDisplay.SubmitRefineOnce | components/OutputDisplay.tsx:533-546 | a second press right after sending sends nothing |
| OutputDisplay.SectionEditor.constructor | components/OutputDisplay.tsx:298-302 | a section editor starts with the block's content and a closed, empty AI panel |
| OutputDisplay.SectionEditor.AiSubmit | components/OutputDisplay.tsx:332-348 | a blank instruction does nothing; otherwise the refined content (the old one when refining failed) replaces the content, is reported upward, and the panel closes cleared |
| OutputDisplay.SectionEditor.Sync | components/OutputDisplay.tsx:306-308 | a content change from the parent replaces the local copy |
| OutputDisplay.SectionEditor.Blur | components/OutputDisplay.tsx:402-408 | edited HTML is kept and reported exactly when it differs from the content |
| OutputDisplay.ArtifactEditor.constructor | components/OutputDisplay.tsx:430-431 | the modal starts with no blocks and an empty refine input |
| OutputDisplay.ArtifactEditor.Load | components/OutputDisplay.tsx:434-469 | a new artifact replaces the blocks by its split: well-formed, holding the whole HTML, one block per heading plus the preamble; blank children give the raw text as `block-0`, or no block when that is blank too; the refine input is kept |
| OutputDisplay.ArtifactEditor.OnBlockUpdate | components/OutputDisplay.tsx:471-473 | a reported update is applied by `UpdateBlock`; no update changes nothing |
| OutputDisplay.ArtifactEditor.Refine | components/OutputDisplay.tsx:533-546 | the refine input behaves as `SubmitRefine` and leaves the blocks alone |
| ResearchDocBuilder.Or | components/ResearchDocBuilder.tsx:70 | `a \|\| b` on strings is `a` when non-empty, else `b` |
| ResearchDocBuilder.PrefillConsent | components/ResearchDocBuilder.tsx:68-77 | a filled consent field keeps its value; an empty purpose takes objectives, else the rationale; empty procedures take the narrative, else the design |
| ResearchDocBuilder.PrefillConsentIdempotent | components/ResearchDocBuilder.tsx:68-77 | prefilling twice gives the same inputs as prefilling once |
| ResearchDocBuilder.PrefillConsentFillsPurpose | components/ResearchDocBuilder.tsx:71-72 | when the facts hold a purpose source and a procedures source, the prefilled form has both fields filled |
| ResearchDocBuilder.SummaryTemplate | components/ResearchDocBuilder.tsx:85-91 | the summary template before trimming (its property is `SummaryStartsWithTitle`) |
| ResearchDocBuilder.SummaryStartsWithTitle | components/ResearchDocBuilder.tsx:85-92 | the trimmed summary starts with "Study Title:", so it is never empty |
| ResearchDocBuilder.CanGenerate | components/ResearchDocBuilder.tsx:132-151 | the handler goes on only with a type, an audience and enough information: purpose and procedures for a consent form, otherwise some context or a file |
| ResearchDocBuilder.GenerateDisabled | components/ResearchDocBuilder.tsx:430 | the button's `disabled` expression |
| ResearchDocBuilder.ButtonMatchesGuard | components/ResearchDocBuilder.tsx:430 | the Generate button is disabled exactly when the handler would return early |
| ResearchDocBuilder.ConsentContext | components/ResearchDocBuilder.tsx:138-147 | the consent form's context, one input per line (its property is `ConsentContextHasLine`) |
| ResearchDocBuilder.ConsentContextHasLine | components/ResearchDocBuilder.tsx:138-147 | every line's value appears in the consent context |
| ResearchDocBuilder.ConsentContextCarries | components/ResearchDocBuilder.tsx:138-147 | the consent context carries the purpose, the procedures and any free text |
| ResearchDocBuilder.SafeName | components/ResearchDocBuilder.tsx:201 | the name keeps the title's length; ASCII letters and digits are lower-cased and every other character becomes `_` |
| ResearchDocBuilder.SafeNameAlphabet | components/ResearchDocBuilder.tsx:201 | the name uses only `a-z`, `0-9` and `_` |
| ResearchDocBuilder.SafeNameStable | components/ResearchDocBuilder.tsx:201 | sanitising is idempotent and ignores case |
| ResearchDocBuilder.ExportFilename | components/ResearchDocBuilder.tsx:201 | the download name is the sanitised title followed by `.doc` |
| ResearchDocBuilder.Builder.constructor | components/ResearchDocBuilder.tsx:45-59 | the builder starts with no type, empty inputs, no file and no result |
| ResearchDocBuilder.Builder.Prefill | components/ResearchDocBuilder.tsx:63-95 | without study facts nothing changes; a consent form is prefilled; otherwise only an empty context changes, to the summary, when the facts have a title or objectives |
| ResearchDocBuilder.Builder.SelectType | components/ResearchDocBuilder.tsx:306 | choosing a type selects it and clears the context, keeping audience, file and result; on the same type the consent is kept; on a new type without study facts the consent is kept and the context stays empty; on a new consent type the consent is prefilled; on a new other type the context becomes the trimmed summary when the facts have a title or objectives, else stays empty |
| ResearchDocBuilder.Builder.HandleFileUpload | components/ResearchDocBuilder.tsx:103-115 | the name is shown at once; the file data is kept when it could be read |
| ResearchDocBuilder.Builder.RemoveFile | components/ResearchDocBuilder.tsx:405 | removing the attachment drops its data and its name together |
| ResearchDocBuilder.Builder.HandleGenerate | components/ResearchDocBuilder.tsx:132-162 | a request is made exactly when the guard holds, with the consent context for a consent form and the free text otherwise; a successful reply becomes the result |
| FullBuilder.ReadError | components/FullBuilderMode.tsx:71 | the reader's rejection message is shown, or the fallback when it has none |
| FullBuilder.Builder.constructor | components/FullBuilderMode.tsx:15-19 | the builder starts with the parent's facts and readiness, no status, protocol or error, and not processing |
| FullBuilder.Builder.ProcessFile | components/FullBuilderMode.tsx:39-75 | an unreadable or rejected file makes no call and leaves the facts; extraction comes before generation; the facts are set to the extraction and then to the generator's facts when present; readiness becomes 80 then 100; a failed generation keeps the extracted facts and shows the fixed AI message; processing always ends |
| FullBuilder.UnsupportedRejected | components/FullBuilderMode.tsx:96-98 | a file that is neither PDF nor text is rejected with "Unsupported file type…" |
| Preflight.Answered | components/PreflightMode.tsx:39-41 | a list counts as answered when non-empty, any other value when truthy |
| Preflight.ReadinessScore | components/PreflightMode.tsx:40-44 | the score is `answered / 4 × 50` rounded to the nearest integer |
| Preflight.ScoreAboveHalf | components/PreflightMode.tsx:40-44 | the score is not clamped: it exceeds 50 exactly when more than four facts count as answered |
| Preflight.ScoreFromQuestionsOnly | components/PreflightMode.tsx:40-44 | when only the questionnaire's keys are answered, the score stays within 50 |
| Preflight.Questionnaire.constructor | components/PreflightMode.tsx:15-20 | the questionnaire starts at question 0 with no protocol and no error |
| Preflight.Questionnaire.HandleAnswer | components/PreflightMode.tsx:35-45 | only the current question's fact changes; the score is recomputed from all facts |
| Preflight.Questionnaire.AnalyzeWith | components/PreflightMode.tsx:55-70 | the review opens at once; success keeps the protocol and sets readiness 100; failure shows the error and leaves the protocol; loading ends either way |
| Preflight.Questionnaire.NextQuestion | components/PreflightMode.tsx:47-53 | below the last question the index advances and nothing else changes; at the last one the current facts are analysed, the review opens and loading ends: success stores the protocol with readiness 100 and no error, failure keeps the protocol and readiness and shows the analysis error |
| Preflight.Questionnaire.Back | components/PreflightMode.tsx:145 | Back never goes below question 0 |
| Preflight.Questionnaire.ClickSelectOptionAsWritten | components/PreflightMode.tsx:101 | the answer is stored and below the last question the score is recomputed, the index advances and nothing else changes; at the last question the analysis is sent the facts from before the click, the review opens and loading ends, with the protocol, readiness and error of either outcome |
| Preflight.Questionnaire.ClickSelectOption | components/PreflightMode.tsx:101 | the answer is stored and below the last question the score is recomputed, the index advances and nothing else changes; at the last question the analysis is sent the facts that include the answer just given, the review opens and loading ends, with the protocol, readiness and error of either outcome |
| Preflight.StaleAnalysisMissesLastAnswer | components/PreflightMode.tsx:55-70 | when the last question had no answer yet, the facts analysed by the as-written click differ from the facts left behind |
| AssessmentReview.ApplyRewrite | components/ProgramAssessmentReview.tsx:258-260 | the named input field takes the new text and every other field keeps its value |
| AssessmentReview.InputExtensional | components/ProgramAssessmentReview.tsx:258-260 | two drafts that agree on every field are equal |
| AssessmentReview.ApplyRewriteLaws | components/ProgramAssessmentReview.tsx:258-260 | reapplying a rewrite changes nothing, and rewrites of different fields commute |
| AssessmentReview.TargetField | components/ProgramAssessmentReview.tsx:560-582 | each card's fix goes to one of the method, findings, action-plan or next-year fields |
| AssessmentReview.TargetFieldsDistinct | components/ProgramAssessmentReview.tsx:560-582 | different cards rewrite different fields, so one card's fix leaves every other card's text alone |
| AssessmentReview.GaugeColour | components/ProgramAssessmentReview.tsx:15 | green exactly from 80, amber exactly from 60 below 80, red exactly below 60 |
| AssessmentReview.GaugeColourMonotone | components/ProgramAssessmentReview.tsx:15 | a higher score never gets a worse colour |
| AssessmentReview.Card | components/ProgramAssessmentReview.tsx:56-75 | missing feedback shows "Not Analyzed"; otherwise the gauge is the score × 10 (0 when missing), coloured by `GaugeColour`, and a fix is offered exactly for a non-empty rewrite |
| AssessmentReview.CardThresholds | components/ProgramAssessmentReview.tsx:73 | on the 0-10 scale, green is from 8 and red below 6 |
| AssessmentReview.CollapseWhitespace | components/ProgramAssessmentReview.tsx:289 | the result holds no white space and is no longer than the name |
| AssessmentReview.TrimStartAppend | components/ProgramAssessmentReview.tsx:289 | trimming the front of a concatenation trims the first part, or skips it when it is blank |
| AssessmentReview.CollapseAppend | components/ProgramAssessmentReview.tsx:289 | where no white-space run crosses the join, collapsing a concatenation collapses each part |
| AssessmentReview.CollapseBlankPrefix | components/ProgramAssessmentReview.tsx:289 | a leading white-space run becomes one `_` |
| AssessmentReview.CollapseRun | components/ProgramAssessmentReview.tsx:289 | `replace(/\s+/g, '_')` turns each maximal white-space run into exactly one `_` and keeps the text on both sides |
| AssessmentReview.CollapseKeeps | components/ProgramAssessmentReview.tsx:289 | a name without white space is kept as it is |
| AssessmentReview.CollapseIdempotent | components/ProgramAssessmentReview.tsx:289 | collapsing twice is collapsing once |
| AssessmentReview.ExportFilename | components/ProgramAssessmentReview.tsx:289 | the report name is the collapsed program name followed by `_Assessment_Report.txt`, and holds no white space |
| AssessmentReview.UploadedData | components/ProgramAssessmentReview.tsx:208-217 | a read file is dispatched as `ReadAsPdfOrText`; an unread PDF makes the callback throw, while an unread text file goes on with no data |
| AssessmentReview.UploadChain | components/ProgramAssessmentReview.tsx:208-227 | the callback completes exactly when the data is built and both the parse and the review succeed, with their values |
| AssessmentReview.ParseFailureHangs | components/ProgramAssessmentReview.tsx:220-221 | a document the parser cannot handle leaves the chain stuck before anything is stored |
| AssessmentReview.Reviewer.constructor | components/ProgramAssessmentReview.tsx:178-193 | the reviewer starts on the intro with an empty draft, no review and no error |
| AssessmentReview.Reviewer.EnterWizard | components/ProgramAssessmentReview.tsx:332 | entering the form (from the intro or from the review) opens step 0 |
| AssessmentReview.Reviewer.WizardNext | components/ProgramAssessmentReview.tsx:507-511 | Next is offered below step 4 and advances by one |
| AssessmentReview.Reviewer.WizardBack | components/ProgramAssessmentReview.tsx:501 | Back decrements, and from step 0 returns to the intro |
| AssessmentReview.Reviewer.ReviewFromWizard | components/ProgramAssessmentReview.tsx:243-256 | a successful review opens the review view; a failure stays on the form with "Failed to generate review. Please try again."; loading ends either way |
| AssessmentReview.Reviewer.ApplyFix | components/ProgramAssessmentReview.tsx:141-148 | "Apply Fix" writes the card's rewrite into the card's own field of the draft |
| AssessmentReview.Reviewer.StartOver | components/ProgramAssessmentReview.tsx:591 | "Start Over" returns to the intro and keeps the draft, the review, the step, the loading flag and the error |
| AssessmentReview.Reviewer.HandleFileUploadAsWritten | components/ProgramAssessmentReview.tsx:198-241 | a completed chain opens the review; any failure inside the reader's callback leaves the reviewer uploading and loading, with no error, the old review, and the parsed draft stored when the review call was the step that failed |
| AssessmentReview.Reviewer.HandleFileUpload | components/ProgramAssessmentReview.tsx:198-241 | loading always ends; a completed chain opens the review; any failure returns to the intro with "Failed to read document. Please try again.", the old review, and the parsed draft stored when the review call was the step that failed |
| ObjectiveSelector.Toggled | components/ObjectiveSelector.tsx:28-33 | the id is in the new set exactly when it was not in the old one, and every other id keeps its membership |
| ObjectiveSelector.ToggledTwice | components/ObjectiveSelector.tsx:28-33 | toggling the same id twice restores the set |
| ObjectiveSelector.ToggledCommutes | components/ObjectiveSelector.tsx:28-33 | toggling two ids gives the same set in either order |
| ObjectiveSelector.AnySameId | components/ObjectiveSelector.tsx:58 | `some(o => o.id === id)` holds exactly when some selected objective has the id |
| ObjectiveSelector.Card | components/ObjectiveSelector.tsx:57-59 | a card is selected exactly when some selected objective has its id, and expanded exactly when its id is in the expanded set |
| ObjectiveSelector.SelectionById | components/ObjectiveSelector.tsx:58 | a selected copy with the same id marks the card selected, whatever its title |
| ObjectiveSelector.IdSet.Add | components/ObjectiveSelector.tsx:32 | `add` inserts the id |
| ObjectiveSelector.IdSet.Delete | components/ObjectiveSelector.tsx:30 | `delete` removes the id |
| ObjectiveSelector.IdSet.Copy | components/ObjectiveSelector.tsx:28 | `new Set(old)` holds the same ids |
| ObjectiveSelector.Selector.ToggleDescription | components/ObjectiveSelector.tsx:26-35 | a fresh set with the id flipped replaces the old one, and the old set is left as it was |
| ObjectiveSelector.ToggleTwice | components/ObjectiveSelector.tsx:26-35 | two clicks give a set equal to the first, and the first set object is unchanged |
| Repository.NewEntry | services/repositoryService.ts:47-55 | the new entry takes its title and description from the idea and its level from the argument; its author is "Faculty Member (You)" and its tags are "New" and "Gen Ed" |
| Repository.StoreAfterShape | services/repositoryService.ts:36-58 | after n publishes the store holds n + 3 entries, newest first, with the three seed entries at the bottom in order |
| Repository.Store.constructor | services/repositoryService.ts:5-36 | the store starts as the three mock entries with ids "1", "2" and "3" |
| Repository.Store.GetRepository | services/repositoryService.ts:38-43 | the result is a fresh array holding the current entries |
| Repository.Store.Publish | services/repositoryService.ts:45-61 | the new entry goes on top, the previous entries follow unchanged and in order, and the store grows by one |
| Repository.SnapshotThenPublish | services/repositoryService.ts:38-58 | an array handed out before a publish keeps its entries, while the store gains the new one on top |

## Left out

- Gemini calls, prompt wording and `JSON.parse`: a reply is a parameter that
  says what the call did. The `API_KEY` check at load is not modelled.
- `FileReader`, `DOMParser`, `Blob`, download links, the clipboard and
  `window.print` are browser I/O. File contents are strings, and the parsed
  document body is a sequence of (tag, html) children.
- Timers are not modelled: the rotating loading messages (`setInterval`),
  the 200 ms delay before the next pre-flight question, and the
  repository's simulated delays. Each handler is one sequential state
  update, and React's batching of state updates is not modelled.
- `Date.now()` ids and `toLocaleDateString` dates: `Repository.Store.Publish`
  takes the id and the date as parameters.
- The ScoreGauge ring geometry is floating point and is not modelled; the
  colour thresholds and the ×10 scaling are kept.
- Strings.Lower: `toLowerCase` is modelled on ASCII letters only; other
  letters are left unchanged.
- StudyFacts.TextOf: a fact read as text that holds a boolean or a list reads
  as the empty string, where JavaScript would render or keep the value.
- ResearchDocBuilder.SafeName, Hrp591.WordFilename, Hrp591.ShortTitleKept:
  characters outside the Basic Multilingual Plane are one `char` here but
  two UTF-16 units in the source. So they are two underscores in the source's
  safe name, and `substring(0, 20)` counts them twice (and can split one).
- GeminiService.WidgetType types a select as a string, the option text it
  stores. `minimalRisk` is declared a boolean (types.ts:89) while its
  wizard and pre-flight selects store option strings, all truthy; that
  conflict between the selects and the declaration is not modelled.
- StudyFacts.ListOf reads a stored string or `true` under a list fact as the
  empty list. In the renderer a truthy non-list under `identifiers` makes
  `.map` throw, and under `recordings` `includes` becomes a substring test.
  The wizard's click handler does model the stored string and `true` (see
  ProtocolWizard.CurrentOf); the renderer's reading of them is not modelled.
- Hrp591.NamesChecksOnlyNamesRow covers the selection "Names", which is not
  itself a wizard option (the wizard stores "Names / Initials"), and
  Hrp591.EmailChecksEmailAndGeographicRows covers the wizard option "Email
  addresses". The other wizard identifier options, "Names / Initials"
  included, are left out, because the substring facts about every pair of
  long labels make the proof too large.
- The other HRP-591 checkboxes are left out: 6.x consent types, the HIPAA
  choices, 21.4 storage locations and recording platforms. They are list
  membership tests like the 21.5 boxes.
- The title page, footer and the remaining `InputText` cells are left out;
  they are `InputText` applied to other facts.
- OutputDisplay.SplitBlocks: the source tests `trim()` for emptiness. The
  model uses `IsBlank`, and Strings.TrimEmptyIffBlank proves the two agree.
- AssessmentReview.Card: scores are whole numbers; a fractional or `NaN`
  score from the AI is not modelled.
- Preflight: the multi-select branch of the question view is not modelled,
  because no pre-flight question is a multi-select.
- The idea card's "Auto-Improve" prompt, the copy buttons and the modal
  open/close flags of the output view are presentation and callbacks into
  the parent, and are not modelled.
- constants.ts is transcribed only as far as the model reads it: step and
  field ids, field kinds and options. Labels, help texts and
  `DEFAULT_STUDY_FACTS` are not part of this model.
- The parent components that own the facts (App.tsx) and the presentation
  components around them are not part of this model.

## Findings

| source | as written | input that shows it | evidently intended | confidence | as-written member | corrected member |
|---|---|---|---|---|---|---|
| components/PreflightMode.tsx:101 | choosing an option on the last question calls `handleAnswer` and then schedules the `nextQuestion` of the same render, whose `handleAnalyze` reads that render's `facts`, so the analysis runs without the answer just given | facts without `minimalRisk`, at question 4, click "No (Minimal Risk)": the protocol is generated from facts lacking `minimalRisk` | the analysis sees the facts including the last answer | high (not executed) | Preflight.Questionnaire.ClickSelectOptionAsWritten, Preflight.StaleAnalysisMissesLastAnswer | Preflight.Questionnaire.ClickSelectOption |
| services/geminiService.ts:415-424 | the scoped schema types fields by their names: `hipaaAuthorization` and `recordingVideoPlatform` (checkbox groups, declared `string[]` at types.ts:73 and types.ts:157) become strings | "Check Draft" on the consent step: the reply stores the string "Full Waiver"; a click on "Signed Authorization" then stores the eleven characters of "Full Waiver" and the option, and a click on "Full Waiver" throws | each checkbox group is typed as a string array, as its widget stores and its declaration says | high (not executed) | GeminiService.ScopedSchemaMistypesWizardFields, ProtocolWizard.StringAnswerIsSpread, ProtocolWizard.StringAnswerBlocksItsOption | GeminiService.WidgetType, GeminiService.BuildFieldSchema |
| components/ProgramAssessmentReview.tsx:198-241 | the `try`/`catch` wraps only the reader's setup; a parse or review failure inside the asynchronous `onloadend` escapes it, so `mode` stays `uploading` and `isLoading` stays true | upload any file whose `parseAssessmentDocument` call throws "Failed to parse document" | the failure shows "Failed to read document. Please try again.", returns to the intro and stops loading | high (not executed) | AssessmentReview.Reviewer.HandleFileUploadAsWritten, AssessmentReview.ParseFailureHangs | AssessmentReview.Reviewer.HandleFileUpload |
