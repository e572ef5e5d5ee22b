/** The HRP-591 protocol wizard of components/ProtocolWizard.tsx: the
    field-level updates of the fact store (plain values, Yes/No toggles,
    multi-select toggles) as functions of the facts, and the wizard's
    screen counter and handlers as a class whose fields are the component's
    state. The extraction and generation calls are replies given as
    inputs. */
module ProtocolWizard {
  import opened Wrappers
  import opened StudyFacts
  import opened FileInput
  import opened Constants
  import opened GeminiService
  import opened Strings

  // ---------------------------------------------------------------------
  // Multi-select and checkbox-group options

  /** `arr.filter(i => i !== x)`. */
  function RemoveAll(s: seq<string>, x: string): (r: seq<string>)
    ensures x !in r
    ensures forall y | y != x :: multiset(r)[y] == multiset(s)[y]
    ensures |r| <= |s|
  {
    if s == [] then []
    else
      assert s == [s[0]] + s[1..];
      (if s[0] == x then [] else [s[0]]) + RemoveAll(s[1..], x)
  }

  /** Filtering works piecewise, so the kept options stay in their relative
      order. */
  lemma {:induction false} RemoveAllAppend(a: seq<string>, b: seq<string>, x: string)
    ensures RemoveAll(a + b, x) == RemoveAll(a, x) + RemoveAll(b, x)
  {
    if a != [] {
      var head := if a[0] == x then [] else [a[0]];
      assert (a + b)[0] == a[0] && (a + b)[1..] == a[1..] + b;
      assert RemoveAll(a + b, x) == head + RemoveAll(a[1..] + b, x);
      assert RemoveAll(a, x) == head + RemoveAll(a[1..], x);
      RemoveAllAppend(a[1..], b, x);
    } else {
      assert a + b == b;
    }
  }

  /** Filtering out an absent option changes nothing. */
  lemma {:induction false} RemoveAllAbsent(s: seq<string>, x: string)
    requires x !in s
    ensures RemoveAll(s, x) == s
  {
    if s != [] {
      RemoveAllAbsent(s[1..], x);
    }
  }

  /** The click handler of a multi-select or checkbox-group option: a
      selected option is removed (every occurrence), an unselected one is
      appended at the end. */
  function ToggleOption(current: seq<string>, opt: string): (r: seq<string>)
    ensures opt in r <==> opt !in current
    ensures forall y | y != opt :: multiset(r)[y] == multiset(current)[y]
    ensures opt !in current ==> |r| == |current| + 1 && r[..|current|] == current && r[|current|] == opt
  {
    if opt in current then RemoveAll(current, opt) else current + [opt]
  }

  /** Clicking an unselected option twice restores the selection. */
  lemma ToggleTwiceRestores(current: seq<string>, opt: string)
    requires opt !in current
    ensures ToggleOption(ToggleOption(current, opt), opt) == current
  {
    RemoveAllAppend(current, [opt], opt);
    RemoveAllAbsent(current, opt);
  }

  /** Clicking a selected option twice moves it to the end, once. */
  lemma ToggleTwiceMovesToEnd(current: seq<string>, opt: string)
    requires opt in current
    ensures ToggleOption(ToggleOption(current, opt), opt) == RemoveAll(current, opt) + [opt]
  {
  }

  /** `(facts[id] as string[]) || []` at run time. The cast checks
      nothing, so a falsy value gives the empty list, a list stays that
      list, a non-empty string stays that string and `true` stays `true`. */
  datatype Current = AsList(items: seq<string>) | AsString(text: string) | NoArray

  function CurrentOf(f: Facts, id: string): (c: Current)
    ensures c.AsList? <==> !FactTruthy(f, id) || f[id].List?
    ensures c.AsList? && c.items != [] ==> id in f && f[id] == List(c.items)
    ensures c.AsString? <==> id in f && f[id].Str? && f[id].s != ""
    ensures c.AsString? ==> f[id] == Str(c.text)
    ensures c.NoArray? <==> id in f && f[id] == Bool(true)
  {
    if !FactTruthy(f, id) then AsList([])
    else match f[id]
      case List(items) => AsList(items)
      case Str(text) => AsString(text)
      case Bool(_) => NoArray
  }

  /** `currentArr.includes(opt)`, which highlights an option: membership for
      a list, but a substring test for a string. `true` has no `includes`,
      so the field cannot be drawn at all and no option is offered. */
  predicate OptionSelected(c: Current, opt: string) {
    match c
    case AsList(items) => opt in items
    case AsString(text) => Contains(text, opt)
    case NoArray => false
  }

  /** `[...text]`: spreading a string gives its characters, one string
      each. */
  function Spread(text: string): (r: seq<string>)
    ensures |r| == |text|
    ensures forall i | 0 <= i < |text| :: r[i] == [text[i]]
  {
    seq(|text|, i requires 0 <= i < |text| => [text[i]])
  }

  /** The whole multi-select click, `updateFact(id, newArr)`. On a list (or
      nothing stored) it is `ToggleOption`. On a stored string a selected
      option reaches `filter`, which a string lacks: the handler throws and
      the facts stay as they were. An unselected option spreads the string
      into its characters and appends the option. */
  function ToggleMultiFact(f: Facts, id: string, opt: string): (r: Facts)
    ensures r.Keys == f.Keys + {id}
    ensures forall k | k in f && k != id :: r[k] == f[k]
    ensures CurrentOf(f, id).AsList? ==>
      var items := CurrentOf(f, id).items;
      r[id].List? && (opt in r[id].items <==> opt !in items)
      && (forall y | y != opt :: multiset(r[id].items)[y] == multiset(items)[y])
      && (opt !in items ==> r[id].items == items + [opt])
    ensures CurrentOf(f, id).AsString? && Contains(CurrentOf(f, id).text, opt) ==> r == f
    ensures CurrentOf(f, id).AsString? && !Contains(CurrentOf(f, id).text, opt) ==>
      r[id] == List(Spread(CurrentOf(f, id).text) + [opt])
    ensures CurrentOf(f, id).NoArray? ==> r == f
  {
    match CurrentOf(f, id)
    case AsList(items) => UpdateFact(f, id, List(ToggleOption(items, opt)))
    case AsString(text) => if Contains(text, opt) then f else UpdateFact(f, id, List(Spread(text) + [opt]))
    case NoArray => f
  }

  /** On a list, a click flips the option's highlight. */
  lemma ClickFlipsHighlight(f: Facts, id: string, opt: string)
    requires CurrentOf(f, id).AsList?
    ensures OptionSelected(CurrentOf(ToggleMultiFact(f, id, opt), id), opt) <==> !OptionSelected(CurrentOf(f, id), opt)
  {
    var r := ToggleMultiFact(f, id, opt);
    if r[id].items == [] {
      assert CurrentOf(r, id) == AsList([]);
    } else {
      assert CurrentOf(r, id) == AsList(r[id].items);
    }
  }

  /** On a list, clicking an unselected option twice stores the list it
      started from. */
  lemma ClickTwiceRestores(f: Facts, id: string, opt: string)
    requires CurrentOf(f, id).AsList? && opt !in CurrentOf(f, id).items
    ensures ToggleMultiFact(ToggleMultiFact(f, id, opt), id, opt) == UpdateFact(f, id, List(CurrentOf(f, id).items))
  {
    var items := CurrentOf(f, id).items;
    var once := ToggleMultiFact(f, id, opt);
    assert once == UpdateFact(f, id, List(items + [opt]));
    assert CurrentOf(once, id) == AsList(items + [opt]);
    ToggleTwiceRestores(items, opt);
  }

  const HIPAA_AUTHORIZATION := "hipaaAuthorization"

  /** A string stored under a checkbox group blocks the option it contains:
      "Full Waiver" is found inside "Full Waiver" by the substring test, so
      the click reaches `filter` and changes nothing. */
  lemma StringAnswerBlocksItsOption()
    ensures var f := map[HIPAA_AUTHORIZATION := Str("Full Waiver")];
      OptionSelected(CurrentOf(f, HIPAA_AUTHORIZATION), "Full Waiver")
      && ToggleMultiFact(f, HIPAA_AUTHORIZATION, "Full Waiver") == f
  {
    var f := map[HIPAA_AUTHORIZATION := Str("Full Waiver")];
    assert CurrentOf(f, HIPAA_AUTHORIZATION) == AsString("Full Waiver");
    assert OccursAt("Full Waiver", "Full Waiver", 0);
  }

  /** Another option on a stored string spreads it: the list holds the
      eleven characters of "Full Waiver" and then the option. */
  lemma StringAnswerIsSpread()
    ensures var f := map[HIPAA_AUTHORIZATION := Str("Full Waiver")];
      ToggleMultiFact(f, HIPAA_AUTHORIZATION, "Signed Authorization")[HIPAA_AUTHORIZATION]
      == List(["F", "u", "l", "l", " ", "W", "a", "i", "v", "e", "r", "Signed Authorization"])
  {
    var f := map[HIPAA_AUTHORIZATION := Str("Full Waiver")];
    assert CurrentOf(f, HIPAA_AUTHORIZATION) == AsString("Full Waiver");
    NotContainsLonger("Full Waiver", "Signed Authorization");
    var spread := Spread("Full Waiver");
    assert spread == ["F", "u", "l", "l", " ", "W", "a", "i", "v", "e", "r"];
  }

  // ---------------------------------------------------------------------
  // Yes/No toggles and selects

  /** The value a Yes/No button writes: the option at index 1 means `true`,
      every other index `false`. */
  function ToggleValue(index: nat): (r: bool)
    ensures r <==> index == 1
  {
    index == 1
  }

  /** `facts[id] === val`: the button of option `index` is highlighted. */
  predicate Highlighted(f: Facts, id: string, index: nat) {
    Get(f, id) == Some(Bool(ToggleValue(index)))
  }

  /** After clicking option `i` of a Yes/No pair, exactly the clicked
      button is highlighted. */
  lemma ToggleHighlightsClicked(f: Facts, id: string, i: nat)
    requires i < |YES_NO|
    ensures Highlighted(UpdateFact(f, id, Bool(ToggleValue(i))), id, i)
    ensures !Highlighted(UpdateFact(f, id, Bool(ToggleValue(i))), id, 1 - i)
  {
  }

  /** With no boolean stored (before any click, or text from an
      extraction), neither button of the pair is highlighted; with a
      boolean stored, exactly one is. */
  lemma HighlightedPair(f: Facts, id: string)
    ensures Highlighted(f, id, 0) && Highlighted(f, id, 1) ==> false
    ensures Highlighted(f, id, 0) || Highlighted(f, id, 1) <==> id in f && f[id].Bool?
  {
    if id in f && f[id].Bool? {
      if f[id].b {
        assert Highlighted(f, id, 1);
      } else {
        assert Highlighted(f, id, 0);
      }
    }
  }

  /** `facts[field.id] === opt` on a select: the option just chosen is the
      only highlighted one. */
  predicate SelectHighlighted(f: Facts, id: string, opt: string) {
    Get(f, id) == Some(Str(opt))
  }

  lemma SelectHighlightsChosen(f: Facts, id: string, opt: string, other: string)
    ensures SelectHighlighted(UpdateFact(f, id, Str(opt)), id, opt)
    ensures other != opt ==> !SelectHighlighted(UpdateFact(f, id, Str(opt)), id, other)
  {
  }

  // ---------------------------------------------------------------------
  // The component's state

  const START := -1
  const GENERATING := 99
  const DONE := 100

  const UPLOAD_FAILED := "Could not parse file. The document might be too large or malformed."
  const GENERATION_FAILED := "Generation failed. Please try again."

  /** The wizard's steps fit below the sentinel screens. */
  lemma WizardStepsFit()
    ensures 0 < |WIZARD_STEPS| < GENERATING
  {
  }

  class Wizard {
    /** -1 is the start screen, 0 .. |steps| - 1 the wizard steps, 99 the
        generating screen and 100 the finished protocol. */
    var step: int
    var facts: Facts
    var fileData: Option<FileData>
    var protocol: Option<GeneratedProtocol>
    var error: Option<string>
    var isProcessing: bool
    var isCheckingDraft: bool
    /** `WIZARD_STEPS`. */
    const steps: seq<StepConfig>

    ghost predicate Valid()
      reads this
    {
      0 < |steps| < GENERATING
      && (step == START || 0 <= step < |steps| || step == GENERATING || step == DONE)
      && (step == DONE ==> protocol.Some?)
    }

    predicate OnWizardStep()
      reads this
    {
      0 <= step < |steps|
    }

    predicate IsLastStep()
      reads this
    {
      step == |steps| - 1
    }

    constructor(facts0: Facts, steps0: seq<StepConfig>)
      requires 0 < |steps0| < GENERATING
      ensures Valid()
      ensures step == START && facts == facts0 && steps == steps0
      ensures fileData.None? && protocol.None? && error.None? && !isProcessing && !isCheckingDraft
    {
      step := START;
      facts := facts0;
      steps := steps0;
      fileData := None;
      protocol := None;
      error := None;
      isProcessing := false;
      isCheckingDraft := false;
    }

    /** "Start Manually" on the start screen. */
    method StartManually()
      requires Valid() && step == START
      modifies this
      ensures Valid() && step == 0
      ensures facts == old(facts) && fileData == old(fileData) && protocol == old(protocol) && error == old(error)
      ensures isProcessing == old(isProcessing) && isCheckingDraft == old(isCheckingDraft)
    {
      step := 0;
    }

    /** `handleFileUpload` with a file chosen: `read` is what the reader
        produced (`None` when it failed) and `reply` the extraction call's
        reply. A successful extraction is merged over the facts and opens
        step 0; any failure leaves the facts and the start screen as they
        were and shows the error. The file is kept for "Check Draft" as soon
        as it has been read, even when the extraction then fails. */
    method HandleFileUpload(file: UploadedFile, read: Option<string>, reply: Reply<Facts>)
      requires Valid() && step == START
      modifies this
      ensures Valid() && !isProcessing
      ensures protocol == old(protocol) && isCheckingDraft == old(isCheckingDraft)
      ensures read.None? ==> facts == old(facts) && fileData == old(fileData) && step == START && error == Some(UPLOAD_FAILED)
      ensures read.Some? ==> fileData == ReadAsPdfOrText(file, read)
      ensures read.Some? && JsonCall(reply, EXTRACTION_FAILED).Success? ==>
        facts == Merge(old(facts), JsonCall(reply, EXTRACTION_FAILED).value) && step == 0 && error.None?
      ensures read.Some? && JsonCall(reply, EXTRACTION_FAILED).Failure? ==>
        facts == old(facts) && step == START && error == Some(UPLOAD_FAILED)
    {
      isProcessing := true;
      error := None;
      var data := ReadAsPdfOrText(file, read);
      if data.None? {
        error := Some(UPLOAD_FAILED);
      } else {
        fileData := data;
        var extracted := JsonCall(reply, EXTRACTION_FAILED);
        if extracted.Success? {
          facts := Merge(facts, extracted.value);
          step := 0;
        } else {
          error := Some(UPLOAD_FAILED);
        }
      }
      isProcessing := false;
    }

    /** `handleCheckDraft`: without a stored file nothing happens and no
        request is made (the button is disabled while a check runs);
        otherwise the fields of the current step are
        requested and a successful reply is merged like an upload. A failure
        is only logged. */
    method HandleCheckDraft(reply: Reply<Facts>) returns (requested: Option<seq<string>>)
      requires Valid() && OnWizardStep() && !isCheckingDraft
      modifies this
      ensures Valid() && step == old(step) && !isCheckingDraft
      ensures fileData == old(fileData) && protocol == old(protocol) && error == old(error)
      ensures isProcessing == old(isProcessing)
      ensures fileData.None? ==> requested.None? && facts == old(facts)
      ensures fileData.Some? ==> requested == Some(FieldIds(steps[step].fields))
      ensures fileData.Some? && ScopedCall(reply).Success? ==> facts == Merge(old(facts), ScopedCall(reply).value)
      ensures fileData.Some? && ScopedCall(reply).Failure? ==> facts == old(facts)
    {
      if fileData.None? {
        return None;
      }
      isCheckingDraft := true;
      requested := Some(FieldIds(steps[step].fields));
      var updates := ScopedCall(reply);
      if updates.Success? {
        facts := Merge(facts, updates.value);
      }
      isCheckingDraft := false;
    }

    /** `handleGenerate`: the generating screen, then the finished protocol,
        or back to the last wizard step with an error. The facts are never
        touched. */
    method HandleGenerate(reply: Reply<GeneratedProtocol>)
      requires Valid()
      modifies this
      ensures Valid() && facts == old(facts) && fileData == old(fileData)
      ensures isProcessing == old(isProcessing) && isCheckingDraft == old(isCheckingDraft)
      ensures JsonCall(reply, PROTOCOL_FAILED).Success? ==>
        step == DONE && protocol == Some(JsonCall(reply, PROTOCOL_FAILED).value) && error.None?
      ensures JsonCall(reply, PROTOCOL_FAILED).Failure? ==>
        step == |steps| - 1 && protocol == old(protocol) && error == Some(GENERATION_FAILED)
    {
      step := GENERATING;
      error := None;
      var proto := JsonCall(reply, PROTOCOL_FAILED);
      if proto.Success? {
        protocol := Some(proto.value);
        step := DONE;
      } else {
        error := Some(GENERATION_FAILED);
        step := |steps| - 1;
      }
    }

    /** The "Next Step" / "Generate Protocol" button. */
    method Next(reply: Reply<GeneratedProtocol>)
      requires Valid() && OnWizardStep()
      modifies this
      ensures Valid() && facts == old(facts) && fileData == old(fileData)
      ensures !old(IsLastStep()) ==> step == old(step) + 1 && protocol == old(protocol) && error == old(error)
      ensures isProcessing == old(isProcessing) && isCheckingDraft == old(isCheckingDraft)
      ensures old(IsLastStep()) && JsonCall(reply, PROTOCOL_FAILED).Success? ==>
        step == DONE && protocol == Some(JsonCall(reply, PROTOCOL_FAILED).value) && error.None?
      ensures old(IsLastStep()) && JsonCall(reply, PROTOCOL_FAILED).Failure? ==>
        step == old(step) && protocol == old(protocol) && error == Some(GENERATION_FAILED)
    {
      if IsLastStep() {
        HandleGenerate(reply);
      } else {
        step := step + 1;
      }
    }

    /** The "Back" button: step 0 goes back to the start screen. */
    method Back()
      requires Valid() && OnWizardStep()
      modifies this
      ensures Valid() && step == old(step) - 1
      ensures old(step) == 0 ==> step == START
      ensures facts == old(facts) && fileData == old(fileData) && protocol == old(protocol) && error == old(error)
      ensures isProcessing == old(isProcessing) && isCheckingDraft == old(isCheckingDraft)
    {
      step := step - 1;
    }

    /** `updateFact`, for text inputs, selects and the field assistant. */
    method SetFact(id: string, v: Value)
      requires Valid()
      modifies this
      ensures Valid() && facts == UpdateFact(old(facts), id, v)
      ensures step == old(step) && fileData == old(fileData) && protocol == old(protocol) && error == old(error)
      ensures isProcessing == old(isProcessing) && isCheckingDraft == old(isCheckingDraft)
    {
      facts := UpdateFact(facts, id, v);
    }

    /** A Yes/No button. */
    method ClickToggle(id: string, index: nat)
      requires Valid()
      modifies this
      ensures Valid() && facts == UpdateFact(old(facts), id, Bool(ToggleValue(index)))
      ensures step == old(step) && fileData == old(fileData) && protocol == old(protocol) && error == old(error)
      ensures isProcessing == old(isProcessing) && isCheckingDraft == old(isCheckingDraft)
    {
      SetFact(id, Bool(ToggleValue(index)));
    }

    /** A multi-select or checkbox-group option. */
    method ClickOption(id: string, opt: string)
      requires Valid()
      modifies this
      ensures Valid() && facts == ToggleMultiFact(old(facts), id, opt)
      ensures step == old(step) && fileData == old(fileData) && protocol == old(protocol) && error == old(error)
      ensures isProcessing == old(isProcessing) && isCheckingDraft == old(isCheckingDraft)
    {
      match CurrentOf(facts, id)
      case AsList(current) =>
        var next := if opt in current then RemoveAll(current, opt) else current + [opt];
        SetFact(id, List(next));
      case AsString(text) =>
        if !Contains(text, opt) {
          SetFact(id, List(Spread(text) + [opt]));
        }
      case NoArray =>
    }
  }
}
