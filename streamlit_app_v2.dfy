/** The reworked dashboard (streamlit_app_v2.py): reading the score out of
    the prediction service's JSON answer, and the accept/refuse arithmetic
    stated in percent. */
module StreamlitAppV2 {
  import StreamlitApp

  /** A decoded JSON value as `response.json()` returns it. */
  datatype ApiValue =
    | AObj(fields: map<string, ApiValue>)
    | AList(items: seq<ApiValue>)
    | ANum(x: real)
    | AStr(s: string)
    | ABool(b: bool)
    | ANull

  /** Python truthiness of a decoded JSON value. */
  predicate Truthy(v: ApiValue) {
    match v
    case AObj(fields) => fields != map[]
    case AList(items) => items != []
    case ANum(x) => x != 0.0
    case AStr(s) => s != ""
    case ABool(b) => b
    case ANull => false
  }

  /** `d.get(key)` on a JSON object: None (here ANull) when the key is absent. */
  function Get(fields: map<string, ApiValue>, key: string): ApiValue {
    if key in fields then fields[key] else ANull
  }

  /** Which branch of the score panel runs. */
  datatype ScoreOutcome =
    | NoResponse       // nothing (or a falsy value) came back: the warning
    | ResponseError    // an exception inside the try: `.get` on a non-object, arithmetic on a non-number
    | ScoresMissing    // 'client_with_scores' absent, not a list, or empty
    | ScoreMissing     // 'SCORE' absent or null
    | Scored(score: real)

  /** The branch the panel takes for the service's answer (ANull when the
      call returned None). A JSON boolean is a number to Python's arithmetic. */
  function ExtractScore(response: ApiValue): ScoreOutcome {
    if !Truthy(response) then NoResponse
    else if !response.AObj? then ResponseError
    else
      var scores := Get(response.fields, "client_with_scores");
      if !(Truthy(scores) && scores.AList?) then ScoresMissing
      else if !scores.items[0].AObj? then ResponseError
      else
        var raw := Get(scores.items[0].fields, "SCORE");
        if raw.ANull? then ScoreMissing
        else if raw.ANum? then Scored(raw.x)
        else if raw.ABool? then Scored(if raw.b then 1.0 else 0.0)
        else ResponseError
  }

  /** A score is used exactly when the answer is an object whose
      'client_with_scores' is a non-empty list whose first element is an
      object with a numeric 'SCORE'; the score is that number. */
  lemma ScoreUsedOnlyWhenPresent(response: ApiValue)
    ensures ExtractScore(response).Scored? <==>
      && response.AObj?
      && "client_with_scores" in response.fields
      && var scores := response.fields["client_with_scores"];
         && scores.AList? && scores.items != []
         && scores.items[0].AObj? && "SCORE" in scores.items[0].fields
         && (scores.items[0].fields["SCORE"].ANum? || scores.items[0].fields["SCORE"].ABool?)
    ensures ExtractScore(response).Scored? && response.fields["client_with_scores"].items[0].fields["SCORE"].ANum? ==>
      ExtractScore(response).score == response.fields["client_with_scores"].items[0].fields["SCORE"].x
    ensures ExtractScore(response) == ScoreMissing <==>
      && response.AObj?
      && Truthy(Get(response.fields, "client_with_scores"))
      && Get(response.fields, "client_with_scores").AList?
      && Get(response.fields, "client_with_scores").items[0].AObj?
      && Get(Get(response.fields, "client_with_scores").items[0].fields, "SCORE") == ANull
  {
  }

  const OPTIMAL_THRESHOLD_SCORE: real := 63.36

  /** What the panel derives from a score, in percent. */
  datatype Reading = Reading(repayment: real, defaultRisk: real, repaymentThreshold: real, decision: StreamlitApp.Decision)

  /** `100 - score`, `score`, `100 - OPTIMAL_THRESHOLD_SCORE`, and the
      decision "granted when the repayment exceeds 100 - 63.36". */
  function ReadScore(score: real): (r: Reading)
    ensures r.repayment + r.defaultRisk == 100.0
    ensures r.defaultRisk == score
    ensures r.repaymentThreshold == 100.0 - OPTIMAL_THRESHOLD_SCORE
  {
    var repayment := 100.0 - score;
    Reading(repayment, score, 100.0 - OPTIMAL_THRESHOLD_SCORE,
      if repayment > 100.0 - 63.36 then StreamlitApp.Granted else StreamlitApp.Refused)
  }

  /** Over exact reals the two dashboards take the same decision, and the
      percentages here are the other dashboard's probabilities scaled by 100. */
  lemma DecisionsAgree(score: real)
    ensures ReadScore(score).decision == StreamlitApp.Decide(score)
    ensures ReadScore(score).decision == StreamlitApp.Granted <==> score < OPTIMAL_THRESHOLD_SCORE
    ensures ReadScore(score).repayment == 100.0 * StreamlitApp.RepaymentProbability(score)
    ensures ReadScore(score).defaultRisk == 100.0 * StreamlitApp.DefaultProbability(score)
    ensures ReadScore(score).repaymentThreshold / 100.0 == 1.0 - StreamlitApp.OPTIMAL_THRESHOLD_SCORE / 100.0
  {
  }
}
