/**
 * `fact_checker_agent/tools.py`: `validate_fact_check_draft`, the three
 * ordered consistency rules a draft verdict must satisfy. The JSON text is
 * replaced by what `json.loads` made of it.
 */
module DraftValidator {
  import opened Options
  import opened Strings
  import opened Json
  import FactCheckResultModel

  /** What `json.loads` made of the draft text. */
  datatype Draft = Unparsable | Parsed(doc: JsonValue)

  datatype Status = Pass | Fail

  /** Why the validator answered as it did; rules 1 and 2 carry the score
      and verdict their message interpolates. */
  datatype Reason =
    | Consistent
    | ScoreTooHighForNeutralVerdict(score: int, verdict: JsonValue)
    | ScoreTooLowForStrongVerdict(score: int, verdict: JsonValue)
    | ConflictWithHighScore
    | NotValidJson
    | UnexpectedError

  datatype Report = Report(status: Status, reason: Reason)

  /** The messages that do not interpolate anything. */
  function Message(reason: Reason): Option<string> {
    match reason
    case Consistent => Some("Draft is logically consistent.")
    case ConflictWithHighScore =>
      Some("The explanation mentions conflicting sources, but the credibility score is too high. It should be below 65.")
    case NotValidJson => Some("The provided draft is not valid JSON.")
    case _ => None
  }

  /** A verdict that takes a stance: "Likely True" or "Likely False". */
  predicate IsStrong(verdict: JsonValue) {
    verdict == JString("Likely True") || verdict == JString("Likely False")
  }

  /** The fields the rules read, with the defaults used for missing keys. */
  function VerdictOf(fields: map<string, JsonValue>): JsonValue {
    GetOr(fields, "verdict", JString(""))
  }

  function ScoreOf(fields: map<string, JsonValue>): JsonValue {
    GetOr(fields, "credibility_score", JInt(50))
  }

  function ExplanationOf(fields: map<string, JsonValue>): JsonValue {
    GetOr(fields, "full_explanation", JString(""))
  }

  /** A draft the rules can be evaluated on without raising: an object whose
      explanation is text and whose score is a number. */
  predicate WellTyped(d: Draft) {
    && d.Parsed?
    && d.doc.JObject?
    && ExplanationOf(d.doc.fields).JString?
    && AsNumber(ScoreOf(d.doc.fields)).Some?
  }

  predicate MentionsConflict(explanation: string) {
    Contains(AsciiLower(explanation), "conflict")
  }

  /** Rule 1: a score above 85 needs a strong verdict. */
  predicate Rule1Fires(score: int, verdict: JsonValue) {
    score > 85 && !IsStrong(verdict)
  }

  /** Rule 2: a score below 40 forbids a strong verdict. */
  predicate Rule2Fires(score: int, verdict: JsonValue) {
    score < 40 && IsStrong(verdict)
  }

  /** Rule 3: an explanation that mentions a conflict caps the score at 65. */
  predicate Rule3Fires(score: int, explanation: string) {
    MentionsConflict(explanation) && score > 65
  }

  /** The validator. Rules are tried in order and the first that fires
      decides the message. */
  function ValidateDraft(d: Draft): (r: Report)
    ensures d.Unparsable? ==> r == Report(Fail, NotValidJson)
    ensures d.Parsed? && !WellTyped(d) ==> r == Report(Fail, UnexpectedError)
    ensures r.status == Pass <==> r.reason == Consistent
    ensures WellTyped(d) ==>
              var f := d.doc.fields;
              var score := AsNumber(ScoreOf(f)).value;
              var verdict := VerdictOf(f);
              var explanation := ExplanationOf(f).s;
              && (Rule1Fires(score, verdict) ==> r == Report(Fail, ScoreTooHighForNeutralVerdict(score, verdict)))
              && (!Rule1Fires(score, verdict) && Rule2Fires(score, verdict) ==>
                    r == Report(Fail, ScoreTooLowForStrongVerdict(score, verdict)))
              && (!Rule1Fires(score, verdict) && !Rule2Fires(score, verdict) && Rule3Fires(score, explanation) ==>
                    r == Report(Fail, ConflictWithHighScore))
              && (!Rule1Fires(score, verdict) && !Rule2Fires(score, verdict) && !Rule3Fires(score, explanation) ==>
                    r == Report(Pass, Consistent))
  {
    match d
    case Unparsable => Report(Fail, NotValidJson)
    case Parsed(doc) =>
      if !doc.JObject? then Report(Fail, UnexpectedError)
      else
        var verdict := VerdictOf(doc.fields);
        var score := ScoreOf(doc.fields);
        var explanation := ExplanationOf(doc.fields);
        if !explanation.JString? then Report(Fail, UnexpectedError)
        else
          var lowered := AsciiLower(explanation.s);
          match AsNumber(score)
          case None => Report(Fail, UnexpectedError)
          case Some(n) =>
            if n > 85 && !IsStrong(verdict) then Report(Fail, ScoreTooHighForNeutralVerdict(n, verdict))
            else if n < 40 && IsStrong(verdict) then Report(Fail, ScoreTooLowForStrongVerdict(n, verdict))
            else if Contains(lowered, "conflict") && n > 65 then Report(Fail, ConflictWithHighScore)
            else Report(Pass, Consistent)
  }

  /** What a consistent draft looks like, stated positively: high scores go
      with strong verdicts, low scores with neutral ones, and a mentioned
      conflict keeps the score at 65 or below. */
  predicate ConsistentDraft(score: int, verdict: JsonValue, explanation: string) {
    && (score > 85 ==> IsStrong(verdict))
    && (score < 40 ==> !IsStrong(verdict))
    && (MentionsConflict(explanation) ==> score <= 65)
  }

  /** A draft passes exactly when it is well typed and consistent. */
  lemma PassIffConsistent(d: Draft)
    ensures ValidateDraft(d).status == Pass <==>
              && WellTyped(d)
              && ConsistentDraft(AsNumber(ScoreOf(d.doc.fields)).value, VerdictOf(d.doc.fields), ExplanationOf(d.doc.fields).s)
  {
  }

  /** Rules 1 and 2 never fire together: their score ranges are disjoint. */
  lemma Rules1And2Exclusive(score: int, verdict: JsonValue)
    ensures !(Rule1Fires(score, verdict) && Rule2Fires(score, verdict))
  {
  }

  /** An empty object passes: the defaults (verdict "", score 50,
      explanation "") satisfy every rule. */
  lemma EmptyObjectPasses()
    ensures ValidateDraft(Parsed(JObject(map[]))) == Report(Pass, Consistent)
  {
    assert !Contains(AsciiLower(""), "conflict");
  }

  /** The conflict test ignores case. */
  lemma ConflictIgnoresCase()
    ensures ValidateDraft(Parsed(JObject(map[
              "verdict" := JString("Unverified"),
              "credibility_score" := JInt(70),
              "full_explanation" := JString("CONFLICT")]))) == Report(Fail, ConflictWithHighScore)
  {
    assert AsciiLower("CONFLICT") == "conflict";
    assert Contains("conflict", "conflict");
  }

  /** A draft that is a schema-valid verdict record never makes the
      validator raise; only the three rules can reject it. */
  lemma ValidRecordIsWellTyped(r: FactCheckResultModel.FactCheckResult)
    ensures WellTyped(Parsed(FactCheckResultModel.Encode(r)))
    ensures ValidateDraft(Parsed(FactCheckResultModel.Encode(r))).reason != UnexpectedError
  {
  }
}
