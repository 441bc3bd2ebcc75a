/**
 * `fact_checker_agent/models/agent_output_models.py`: the schema of the final
 * verdict and its validation from a decoded JSON document.
 */
module FactCheckResultModel {
  import opened Options
  import opened Json

  /** The closed set of verdicts. */
  datatype Verdict = LikelyTrue | LikelyFalse | MixedMisleading | Unverified

  /** The text of a verdict in the JSON schema. */
  function VerdictLabel(v: Verdict): string {
    match v
    case LikelyTrue => "Likely True"
    case LikelyFalse => "Likely False"
    case MixedMisleading => "Mixed / Misleading"
    case Unverified => "Unverified"
  }

  /** The verdict a text names, if it names one exactly. */
  function ParseVerdict(s: string): (r: Option<Verdict>)
    ensures r.Some? <==> s in {"Likely True", "Likely False", "Mixed / Misleading", "Unverified"}
  {
    if s == "Likely True" then Some(LikelyTrue)
    else if s == "Likely False" then Some(LikelyFalse)
    else if s == "Mixed / Misleading" then Some(MixedMisleading)
    else if s == "Unverified" then Some(Unverified)
    else None
  }

  /** Labels and verdicts correspond one to one. */
  lemma VerdictLabelBijection(v: Verdict, s: string)
    ensures ParseVerdict(s) == Some(v) <==> VerdictLabel(v) == s
  {
  }

  /** The final verdict record: all five fields are required. */
  datatype FactCheckResult = FactCheckResult(
    verdict: Verdict,
    shortSummary: string,
    fullExplanation: string,
    sources: seq<string>,
    credibilityScore: int)

  const MinScore: int := 0
  const MaxScore: int := 100

  /** The `ge=0, le=100` constraint on the score. */
  predicate Valid(r: FactCheckResult) {
    MinScore <= r.credibilityScore <= MaxScore
  }

  /** The keys of the schema. */
  const Keys: set<string> := {"verdict", "short_summary", "full_explanation", "sources", "credibility_score"}

  /** A field of the required kind. */
  predicate IsTextField(fields: map<string, JsonValue>, key: string) {
    key in fields && fields[key].JString?
  }

  /** Validation of a decoded document against the schema; `None` is a
      validation error. Keys outside the schema are ignored. */
  function Validate(doc: JsonValue): (r: Option<FactCheckResult>)
    ensures r.Some? ==> Valid(r.value)
    ensures r.Some? <==>
              && doc.JObject?
              && Keys <= doc.fields.Keys
              && IsTextField(doc.fields, "verdict")
              && ParseVerdict(doc.fields["verdict"].s).Some?
              && IsTextField(doc.fields, "short_summary")
              && IsTextField(doc.fields, "full_explanation")
              && doc.fields["sources"].JArray?
              && StringItems(doc.fields["sources"].items).Some?
              && doc.fields["credibility_score"].JInt?
              && MinScore <= doc.fields["credibility_score"].n <= MaxScore
    ensures r.Some? ==>
              && VerdictLabel(r.value.verdict) == doc.fields["verdict"].s
              && JString(r.value.shortSummary) == doc.fields["short_summary"]
              && JString(r.value.fullExplanation) == doc.fields["full_explanation"]
              && JInt(r.value.credibilityScore) == doc.fields["credibility_score"]
              && StringArray(r.value.sources) == doc.fields["sources"]
  {
    if !doc.JObject? || !(Keys <= doc.fields.Keys) then None
    else
      var f := doc.fields;
      var verdict := f["verdict"];
      var summary := f["short_summary"];
      var explanation := f["full_explanation"];
      var sources := f["sources"];
      var score := f["credibility_score"];
      if !verdict.JString? || !summary.JString? || !explanation.JString? || !sources.JArray? || !score.JInt? then None
      else
        match (ParseVerdict(verdict.s), StringItems(sources.items))
        case (Some(v), Some(srcs)) =>
          if MinScore <= score.n <= MaxScore then
            assert StringArray(srcs).items == sources.items;
            Some(FactCheckResult(v, summary.s, explanation.s, srcs, score.n))
          else None
        case _ => None
  }

  /** A record as a JSON document (pydantic's `model_dump`). */
  function Encode(r: FactCheckResult): JsonValue {
    JObject(map[
      "verdict" := JString(VerdictLabel(r.verdict)),
      "short_summary" := JString(r.shortSummary),
      "full_explanation" := JString(r.fullExplanation),
      "sources" := StringArray(r.sources),
      "credibility_score" := JInt(r.credibilityScore)])
  }

  /** Validating an encoded record gives the record back exactly when its
      score is in range. */
  lemma ValidateEncode(r: FactCheckResult)
    ensures Validate(Encode(r)) == (if Valid(r) then Some(r) else None)
  {
    StringArrayRoundTrip(r.sources);
    var doc := Encode(r);
    assert Keys <= doc.fields.Keys;
    if Valid(r) {
      var v := Validate(doc).value;
      VerdictLabelBijection(r.verdict, VerdictLabel(v.verdict));
      assert StringItems(StringArray(v.sources).items) == Some(v.sources) by {
        StringArrayRoundTrip(v.sources);
      }
    }
  }

  /** Every field is required: a document missing any one is rejected. */
  lemma MissingFieldRejected(fields: map<string, JsonValue>, key: string)
    requires key in Keys
    ensures Validate(JObject(fields - {key})) == None
  {
  }
}
