/**
  The two rerun actions of ResultsStep.jsx: the coupled "programs" rerun
  (match, then rank on the fresh match) and the single-stage rerun.
 */
module Reruns {
  import opened Wrappers
  import opened Json
  import opened Session
  import opened Pipeline

  const FeedbackKey := "user_feedback"

  /**
    `{ ...studentProfile, ...agentResults, user_feedback: feedback }`: later
    spreads win, so a result slot hides a profile member of the same name.
   */
  function Input(s: State): (m: map<string, JsVal>)
    ensures m.Keys == s.studentProfile.Keys + s.results.Keys + {FeedbackKey}
    ensures m[FeedbackKey] == Def(JStr(s.feedback))
    ensures forall k :: k in s.results && k != FeedbackKey ==> m[k] == s.results[k]
    ensures forall k :: k in s.studentProfile && k !in s.results && k != FeedbackKey ==> m[k] == Def(s.studentProfile[k])
  {
    var profile := map k | k in s.studentProfile :: Def(s.studentProfile[k]);
    profile + s.results + map[FeedbackKey := Def(JStr(s.feedback))]
  }

  /** `JSON.stringify` drops members whose value is `undefined`. */
  function Wire(m: map<string, JsVal>): (w: map<string, Json>)
    ensures forall k :: k in w <==> k in m && m[k].Def?
    ensures forall k :: k in w ==> Def(w[k]) == m[k]
  {
    map k | k in m && m[k].Def? :: m[k].json
  }

  /** The request `runAgentStep(step, input)` sends. */
  function StepRequest(s: State, step: int, input: map<string, JsVal>): (q: Request)
    ensures q.step == step && q.profile == Wire(input)
  {
    Request(step, Wire(input), s.apiKeys.openrouter, s.apiKeys.serper)
  }

  /**
    A later request through the same `runAgentStep` closure: the closure
    captured `apiKeys` when the button was pressed, so those keys travel
    with every request it sends, whatever the keys hold by then.
   */
  function FollowUp(q: Request, step: int, input: map<string, JsVal>): (r: Request)
    ensures r.step == step && r.profile == Wire(input)
    ensures r.openrouterKey == q.openrouterKey && r.serperKey == q.serperKey
  {
    q.(step := step, profile := Wire(input))
  }

  /**
    What `runAgentStep` returns: `None` when it throws. It throws when the
    request fails, when the body is `null` (reading `.error` of null), and
    when the body carries a truthy `error`; otherwise it returns `data.result`.
   */
  function StepResult(outcome: Outcome): (r: Option<JsVal>)
    ensures outcome.Thrown? ==> r.None?
    ensures outcome.Delivered? && outcome.body.JObj? ==>
              (r.None? <==> Get(outcome.body.fields, "error").Some? && JsTruthy(Get(outcome.body.fields, "error").value))
    ensures outcome.Delivered? && outcome.body.JNull? ==> r.None?
    ensures outcome.Delivered? && !outcome.body.JObj? && !outcome.body.JNull? ==> r == Some(Undefined)
    ensures r.Some? ==> r.value == ResultOf(outcome.body)
  {
    match outcome
    case Thrown(_) => None
    case Delivered(body) =>
      match body
      case JNull => None
      case JObj(fields) =>
        if Get(fields, "error").Some? && JsTruthy(Get(fields, "error").value) then None
        else Some(ResultOf(body))
      case _ => Some(Undefined)
  }

  /** The backend's error envelope always makes the rerun helper throw. */
  lemma ErrorEnvelopeThrows(message: string, step: int)
    requires message != ""
    ensures StepResult(Delivered(JObj([("error", JStr(message)), ("step", JNum(step as real))]))).None?
  {
  }

  /**
    `handleRerunPrograms`, up to the first await: ignored while a rerun is
    loading; otherwise it captures the input, clears both program slots in
    one update and issues the match request.
   */
  function RerunPrograms(s: State): (r: State)
    ensures s.rerunLoading ==> r == s
    ensures !s.rerunLoading ==>
              r.rerunLoading
              && r.results == s.results[MatchedKey := Def(JNull)][RankedKey := Def(JNull)]
              && r.pending == s.pending + [MatchCall(Input(s), StepRequest(s, 1, Input(s)))]
              && r.(rerunLoading := s.rerunLoading, results := s.results, pending := s.pending) == s
  {
    if s.rerunLoading then s
    else
      var base := Input(s);
      s.(rerunLoading := true,
         results := s.results[MatchedKey := Def(JNull)][RankedKey := Def(JNull)],
         pending := s.pending + [MatchCall(base, StepRequest(s, 1, base))])
  }

  /**
    The match step's continuation: on success it stores the match result and
    issues the rank request, whose input is the captured input with
    `matched_programs` replaced by the fresh result and whose keys are the
    match request's; on failure it only ends the loading state.
   */
  function RespondMatch(s: State, k: nat, outcome: Outcome): (r: State)
    requires k < |s.pending| && s.pending[k].MatchCall?
    ensures StepResult(outcome).None? ==>
              r == s.(pending := Without(s.pending, k), rerunLoading := false)
    ensures StepResult(outcome).Some? ==>
              var m := StepResult(outcome).value;
              var rankInput := s.pending[k].base[MatchedKey := m];
              r.results == s.results[MatchedKey := m]
              && r.pending == Without(s.pending, k) + [RankCall(s.pending[k].base, m, FollowUp(s.pending[k].request, 2, rankInput))]
              && r.(results := s.results, pending := s.pending) == s
  {
    var rest := Without(s.pending, k);
    var base := s.pending[k].base;
    match StepResult(outcome)
    case None => s.(pending := rest, rerunLoading := false)
    case Some(m) =>
      s.(results := s.results[MatchedKey := m],
         pending := rest + [RankCall(base, m, FollowUp(s.pending[k].request, 2, base[MatchedKey := m]))])
  }

  /** The rank step's continuation: on success both program slots are written together. */
  function RespondRank(s: State, k: nat, outcome: Outcome): (r: State)
    requires k < |s.pending| && s.pending[k].RankCall?
    ensures !r.rerunLoading && r.pending == Without(s.pending, k)
    ensures StepResult(outcome).None? ==> r.results == s.results
    ensures StepResult(outcome).Some? ==>
              r.results == s.results[MatchedKey := s.pending[k].matched][RankedKey := StepResult(outcome).value]
    ensures r.(results := s.results, rerunLoading := s.rerunLoading, pending := s.pending) == s
  {
    var rest := Without(s.pending, k);
    match StepResult(outcome)
    case None => s.(pending := rest, rerunLoading := false)
    case Some(v) =>
      s.(results := s.results[MatchedKey := s.pending[k].matched][RankedKey := v],
         pending := rest, rerunLoading := false)
  }

  /** `handleRerunAgent(i)`, up to its await: issues the request with the merged input; no loading guard. */
  function RerunAgent(s: State, index: int): (r: State)
    ensures |r.pending| == |s.pending| + 1 && r.pending[..|s.pending|] == s.pending
    ensures r.(pending := s.pending) == s
  {
    s.(pending := s.pending + [AgentCall(index, StepRequest(s, index, Input(s)))])
  }

  /**
    The single rerun's request: the stage's own step, the stored keys, the
    typed feedback, and every defined result slot (which hides a profile
    member of the same name); undefined slots are not sent.
   */
  lemma RerunRequestCarries(s: State, index: int)
    ensures var c := RerunAgent(s, index).pending[|s.pending|];
            c.AgentCall? && c.index == index && c.request.step == index
            && c.request.openrouterKey == s.apiKeys.openrouter && c.request.serperKey == s.apiKeys.serper
            && FeedbackKey in c.request.profile && c.request.profile[FeedbackKey] == JStr(s.feedback)
            && (forall k :: k in s.results && s.results[k].Def? && k != FeedbackKey ==>
                  k in c.request.profile && c.request.profile[k] == s.results[k].json)
            && (forall k :: k in s.results && s.results[k].Undefined? && k != FeedbackKey ==> k !in c.request.profile)
  {
  }

  /** The single rerun's continuation: on success only the stage's own slot is overwritten. */
  function RespondAgent(s: State, k: nat, outcome: Outcome): (r: State)
    requires k < |s.pending| && s.pending[k].AgentCall?
    ensures r.pending == Without(s.pending, k)
    ensures StepResult(outcome).None? ==> r.results == s.results
    ensures StepResult(outcome).Some? ==> r.results == s.results[KeyAt(s.pending[k].index) := StepResult(outcome).value]
    ensures forall key :: key in s.results && key != KeyAt(s.pending[k].index) ==> key in r.results && r.results[key] == s.results[key]
    ensures r.(results := s.results, pending := s.pending) == s
  {
    var rest := Without(s.pending, k);
    match StepResult(outcome)
    case None => s.(pending := rest)
    case Some(v) => s.(results := s.results[KeyAt(s.pending[k].index) := v], pending := rest)
  }
}
