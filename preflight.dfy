/** The pre-flight questionnaire (`PreflightMode.tsx`): four questions, a
    readiness score for the answers given, and an analysis that drafts the
    protocol from the facts. */
module Preflight {
  import opened Wrappers
  import opened StudyFacts
  import opened Constants
  import opened GeminiService

  const ANALYSIS_FAILED := "The AI analysis timed out or encountered an error. This sometimes happens during high traffic or with complex protocols."

  /** `Array.isArray(v) ? v.length > 0 : !!v`. */
  predicate Answered(v: Value) {
    match v
    case List(items) => items != []
    case _ => Truthy(v)
  }

  /** The keys whose values count as answered: every fact, not only the
      questionnaire's. */
  function AnsweredKeys(f: Facts): set<string> {
    set k | k in f && Answered(f[k])
  }

  /** `Math.round(answered / PREFLIGHT_QUESTIONS.length * 50)`, written in
      integers. */
  function ReadinessScore(answered: nat): (r: nat)
    ensures (r as real) - 0.5 <= (answered as real) / (|PREFLIGHT_QUESTIONS| as real) * 50.0 < (r as real) + 0.5
  {
    assert |PREFLIGHT_QUESTIONS| == 4;
    var r := (25 * answered + 1) / 2;
    assert 2 * r <= 25 * answered + 1 < 2 * r + 2;
    r
  }

  /** The score is not clamped: above 50 exactly when more than four facts
      are answered. */
  lemma ScoreAboveHalf(answered: nat)
    ensures ReadinessScore(answered) > 50 <==> answered > 4
  {
  }

  lemma {:induction false} SubsetCardinality(a: set<string>, b: set<string>)
    requires a <= b
    ensures |a| <= |b|
    decreases |b|
  {
    if a != {} {
      var x :| x in a;
      SubsetCardinality(a - {x}, b - {x});
    }
  }

  /** When only the questionnaire's own keys are answered the score stays
      within 50. */
  lemma ScoreFromQuestionsOnly(f: Facts)
    requires forall k | k in AnsweredKeys(f) :: k in FieldIds(PREFLIGHT_QUESTIONS)
    ensures ReadinessScore(|AnsweredKeys(f)|) <= 50
  {
    var ids: set<string> := {"protocolTitle", "population", "dataCollection", "minimalRisk"};
    assert FieldIds(PREFLIGHT_QUESTIONS) == ["protocolTitle", "population", "dataCollection", "minimalRisk"];
    assert |ids| == 4;
    SubsetCardinality(AnsweredKeys(f), ids);
  }

  datatype Stage = Questions | Review

  class Questionnaire {
    /** The parent's facts and readiness score. */
    var facts: Facts
    var readiness: int
    var stage: Stage
    var index: int
    var protocol: Option<GeneratedProtocol>
    var isLoading: bool
    var error: Option<string>

    ghost predicate Valid()
      reads this
    {
      0 <= index < |PREFLIGHT_QUESTIONS|
    }

    predicate AtLastQuestion()
      reads this
    {
      index == |PREFLIGHT_QUESTIONS| - 1
    }

    constructor(facts0: Facts, readiness0: int)
      ensures Valid() && facts == facts0 && readiness == readiness0
      ensures stage == Questions && index == 0 && protocol.None? && !isLoading && error.None?
    {
      facts := facts0;
      readiness := readiness0;
      stage := Questions;
      index := 0;
      protocol := None;
      isLoading := false;
      error := None;
    }

    /** `handleAnswer`: the current question's fact is set and the score
        recomputed from all the facts. */
    method HandleAnswer(v: Value)
      requires Valid()
      modifies this
      ensures Valid() && facts == UpdateFact(old(facts), PREFLIGHT_QUESTIONS[index].id, v)
      ensures readiness == ReadinessScore(|AnsweredKeys(facts)|)
      ensures stage == old(stage) && index == old(index) && protocol == old(protocol)
      ensures isLoading == old(isLoading) && error == old(error)
    {
      facts := UpdateFact(facts, PREFLIGHT_QUESTIONS[index].id, v);
      readiness := ReadinessScore(|AnsweredKeys(facts)|);
    }

    /** `handleAnalyze` run on the facts `f` its closure holds: the review
        opens at once; success keeps the protocol and sets readiness to
        100, failure shows the error and leaves the protocol as it was. */
    method AnalyzeWith(f: Facts, reply: Reply<GeneratedProtocol>) returns (sent: Facts)
      requires Valid()
      modifies this
      ensures Valid() && sent == f && stage == Review && !isLoading
      ensures facts == old(facts) && index == old(index)
      ensures JsonCall(reply, PROTOCOL_FAILED).Success? ==>
        protocol == Some(JsonCall(reply, PROTOCOL_FAILED).value) && readiness == 100 && error.None?
      ensures JsonCall(reply, PROTOCOL_FAILED).Failure? ==>
        protocol == old(protocol) && readiness == old(readiness) && error == Some(ANALYSIS_FAILED)
    {
      isLoading := true;
      error := None;
      stage := Review;
      sent := f;
      var result := JsonCall(reply, PROTOCOL_FAILED);
      if result.Success? {
        protocol := Some(result.value);
        readiness := 100;
      } else {
        error := Some(ANALYSIS_FAILED);
      }
      isLoading := false;
    }

    /** `nextQuestion` as called from the current render: advance, or
        analyse the current facts at the last question. */
    method NextQuestion(reply: Reply<GeneratedProtocol>) returns (sent: Option<Facts>)
      requires Valid()
      modifies this
      ensures Valid() && facts == old(facts)
      ensures !old(AtLastQuestion()) ==>
        index == old(index) + 1 && sent.None? && stage == old(stage) && protocol == old(protocol)
        && readiness == old(readiness) && error == old(error) && isLoading == old(isLoading)
      ensures old(AtLastQuestion()) ==> index == old(index) && sent == Some(facts) && stage == Review && !isLoading
      ensures old(AtLastQuestion()) && JsonCall(reply, PROTOCOL_FAILED).Success? ==>
        protocol == Some(JsonCall(reply, PROTOCOL_FAILED).value) && readiness == 100 && error.None?
      ensures old(AtLastQuestion()) && JsonCall(reply, PROTOCOL_FAILED).Failure? ==>
        protocol == old(protocol) && readiness == old(readiness) && error == Some(ANALYSIS_FAILED)
    {
      if index < |PREFLIGHT_QUESTIONS| - 1 {
        index := index + 1;
        sent := None;
      } else {
        var f := AnalyzeWith(facts, reply);
        sent := Some(f);
      }
    }

    /** The Back button: one question back, never below the first. */
    method Back()
      requires Valid()
      modifies this
      ensures Valid() && index == (if old(index) > 0 then old(index) - 1 else 0)
      ensures facts == old(facts) && stage == old(stage) && readiness == old(readiness)
      ensures protocol == old(protocol) && error == old(error) && isLoading == old(isLoading)
    {
      if index > 0 {
        index := index - 1;
      }
    }

    /** A select option as written: the answer is recorded, and the
        `nextQuestion` scheduled by the same click belongs to the render in
        which the click happened, so at the last question it analyses the
        facts as they were before the answer. */
    method ClickSelectOptionAsWritten(opt: string, reply: Reply<GeneratedProtocol>) returns (sent: Option<Facts>)
      requires Valid()
      modifies this
      ensures Valid() && facts == UpdateFact(old(facts), PREFLIGHT_QUESTIONS[old(index)].id, Str(opt))
      ensures old(AtLastQuestion()) ==> sent == Some(old(facts)) && index == old(index) && stage == Review && !isLoading
      ensures !old(AtLastQuestion()) ==>
        sent.None? && index == old(index) + 1 && readiness == ReadinessScore(|AnsweredKeys(facts)|)
        && stage == old(stage) && protocol == old(protocol) && error == old(error) && isLoading == old(isLoading)
      ensures old(AtLastQuestion()) && JsonCall(reply, PROTOCOL_FAILED).Success? ==>
        protocol == Some(JsonCall(reply, PROTOCOL_FAILED).value) && readiness == 100 && error.None?
      ensures old(AtLastQuestion()) && JsonCall(reply, PROTOCOL_FAILED).Failure? ==>
        protocol == old(protocol) && readiness == ReadinessScore(|AnsweredKeys(facts)|) && error == Some(ANALYSIS_FAILED)
    {
      var rendered := facts;
      HandleAnswer(Str(opt));
      if index < |PREFLIGHT_QUESTIONS| - 1 {
        index := index + 1;
        sent := None;
      } else {
        var f := AnalyzeWith(rendered, reply);
        sent := Some(f);
      }
    }

    /** A select option as intended: the analysis sees the answer just
        given. */
    method ClickSelectOption(opt: string, reply: Reply<GeneratedProtocol>) returns (sent: Option<Facts>)
      requires Valid()
      modifies this
      ensures Valid() && facts == UpdateFact(old(facts), PREFLIGHT_QUESTIONS[old(index)].id, Str(opt))
      ensures old(AtLastQuestion()) ==>
        sent == Some(facts) && sent.value[PREFLIGHT_QUESTIONS[old(index)].id] == Str(opt)
        && index == old(index) && stage == Review && !isLoading
      ensures !old(AtLastQuestion()) ==>
        sent.None? && index == old(index) + 1 && readiness == ReadinessScore(|AnsweredKeys(facts)|)
        && stage == old(stage) && protocol == old(protocol) && error == old(error) && isLoading == old(isLoading)
      ensures old(AtLastQuestion()) && JsonCall(reply, PROTOCOL_FAILED).Success? ==>
        protocol == Some(JsonCall(reply, PROTOCOL_FAILED).value) && readiness == 100 && error.None?
      ensures old(AtLastQuestion()) && JsonCall(reply, PROTOCOL_FAILED).Failure? ==>
        protocol == old(protocol) && readiness == ReadinessScore(|AnsweredKeys(facts)|) && error == Some(ANALYSIS_FAILED)
    {
      HandleAnswer(Str(opt));
      sent := NextQuestion(reply);
    }
  }

  /** What the as-written click sends differs from the facts it leaves
      behind whenever the last question had no answer yet: the answer just
      given is not part of the analysed facts. */
  lemma StaleAnalysisMissesLastAnswer(f: Facts, opt: string)
    requires PREFLIGHT_QUESTIONS[|PREFLIGHT_QUESTIONS| - 1].id !in f
    ensures f != UpdateFact(f, PREFLIGHT_QUESTIONS[|PREFLIGHT_QUESTIONS| - 1].id, Str(opt))
  {
    var id := PREFLIGHT_QUESTIONS[|PREFLIGHT_QUESTIONS| - 1].id;
    assert id in UpdateFact(f, id, Str(opt));
  }
}
