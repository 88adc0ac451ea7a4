/**
  main.py: the FastAPI routes as pure functions of their request, of the
  model name saved in config.json, and of the outcome of each remote crew
  or LLM call, which are parameters.
 */
module Server {
  import opened Wrappers
  import opened Strings
  import opened Json
  import opened Assignments
  import opened Agents
  import opened ProfileHeuristics
  import Session
  import Pipeline
  import Reruns

  /** How a call that may raise ends. */
  datatype Attempt<T> = Succeeded(value: T) | Raised(message: string)

  /** Python truthiness of an optional string. */
  predicate Given(s: Option<string>) {
    s.Some? && s.value != ""
  }

  // ---------------------------------------------------------------------
  // The backup-key retry

  /**
    `try: run(key) except: if backup: run(backup) else: raise`, where
    `run(key)` is the outcome of one attempt with that key. The second
    component lists the keys tried, in order.
   */
  function WithFallback<T>(run: string -> Attempt<T>, primary: string, backup: Option<string>)
    : (r: (Attempt<T>, seq<string>))
    ensures |r.1| == 1 || |r.1| == 2
    ensures r.1[0] == primary
    ensures |r.1| == 2 <==> run(primary).Raised? && Given(backup)
    ensures |r.1| == 2 ==> r.1[1] == backup.value
    ensures r.0 == run(r.1[|r.1| - 1])
  {
    var first := run(primary);
    if first.Raised? && Given(backup) then (run(backup.value), [primary, backup.value])
    else (first, [primary])
  }

  /** The call raises only when every key it tried raised; without a backup that is the primary's own error. */
  lemma FallbackRaisesOnlyIfAllRaise<T>(run: string -> Attempt<T>, primary: string, backup: Option<string>)
    ensures WithFallback(run, primary, backup).0.Raised? ==>
              forall key :: key in WithFallback(run, primary, backup).1 ==> run(key).Raised?
    ensures !Given(backup) ==> WithFallback(run, primary, backup).0 == run(primary)
  {
    var r := WithFallback(run, primary, backup);
    if r.0.Raised? && |r.1| == 2 {
      assert forall key :: key in r.1 ==> key == r.1[0] || key == r.1[1];
    }
  }

  // ---------------------------------------------------------------------
  // The model override

  const DefaultLabel := "Default (Hardcoded)"

  /** `agent_kwargs`: the saved model name is passed on only when it is truthy. */
  function ModelOverride(saved: Option<string>): (o: Option<string>)
    ensures o.Some? <==> Given(saved)
    ensures o.Some? ==> o == saved
  {
    if Given(saved) then saved else None
  }

  /** `GET /admin/model-name`: the saved name, or a label for the built-in default. */
  function AdminModelName(saved: Option<string>): (name: string)
    ensures Given(saved) ==> name == saved.value
    ensures !Given(saved) ==> name == DefaultLabel
  {
    if Given(saved) then saved.value else DefaultLabel
  }

  /**
    With a saved name, the admin page reports the name both factories use, up
    to the router prefix; without one it shows a placeholder label while each
    factory falls back to its own default.
   */
  lemma ReportedNameIsUsed(saved: Option<string>)
    ensures AdminModelName(saved) == DefaultLabel && !Given(saved) ==>
              CrewModel(ModelOverride(saved)) == DefaultCrewModel
              && ExtractorModel(ModelOverride(saved)) == DefaultExtractorModel
    ensures Given(saved) ==>
              CrewModel(ModelOverride(saved)) == AutoPrefix(AdminModelName(saved))
              && ExtractorModel(ModelOverride(saved)) == AutoPrefix(AdminModelName(saved))
  {
  }

  // ---------------------------------------------------------------------
  // POST /run-agent

  /** The body of `/run-agent` after validation. */
  datatype AgentRequest = AgentRequest(
    step: int,
    profile: map<string, Json>,
    openrouterKey: string,
    backupKey: Option<string>,
    serperKey: string)

  /** One single-task crew kickoff: the keys, the model, the task, and its two inputs. */
  datatype CrewCall = CrewCall(
    apiKey: string,
    serperKey: string,
    model: string,
    stage: Stage,
    profile: map<string, Json>,
    feedback: Json)

  const IndexErrorMessage := "list index out of range"

  /** `crew.tasks[step]`: Python indexing of the five tasks, negative steps counting from the end. */
  function TaskAt(step: int): (t: Option<Stage>)
    ensures t.Some? <==> -|CrewTasks| <= step < |CrewTasks|
    ensures 0 <= step < |CrewTasks| ==> t == Some(CrewTasks[step])
  {
    if 0 <= step < |CrewTasks| then Some(CrewTasks[step])
    else if -|CrewTasks| <= step < 0 then Some(CrewTasks[|CrewTasks| + step])
    else None
  }

  /** A negative step names the same task as the step five higher. */
  lemma NegativeStepAliases(step: int)
    requires -|CrewTasks| <= step < 0
    ensures TaskAt(step) == TaskAt(step + |CrewTasks|)
  {
  }

  /** The steps the frontend sends select the task whose output it files under that step's key. */
  lemma StepSelectsResultKey(step: int)
    requires 0 <= step < |CrewTasks|
    ensures ResultKeyOf(TaskAt(step).value) == Session.KeyAt(step)
  {
    TaskOrderMatchesResultKeys();
  }

  const FeedbackKey := "user_feedback"
  const NoFeedback := "None"

  /** `data.profile.get("user_feedback") or "None"`. */
  function FeedbackInput(profile: map<string, Json>): (f: Json)
    ensures PyTruthy(f)
    ensures FeedbackKey in profile && PyTruthy(profile[FeedbackKey]) ==> f == profile[FeedbackKey]
    ensures !(FeedbackKey in profile && PyTruthy(profile[FeedbackKey])) ==> f == JStr(NoFeedback)
  {
    if FeedbackKey in profile && PyTruthy(profile[FeedbackKey]) then profile[FeedbackKey] else JStr(NoFeedback)
  }

  /** `execute_run(api_key)`: select the task (which may raise), then run it alone. */
  function ExecuteRun(req: AgentRequest, saved: Option<string>, kickoff: CrewCall -> Attempt<string>, key: string)
    : Attempt<string>
  {
    match TaskAt(req.step)
    case None => Raised(IndexErrorMessage)
    case Some(stage) =>
      kickoff(CrewCall(key, req.serperKey, CrewModel(ModelOverride(saved)), stage, req.profile, FeedbackInput(req.profile)))
  }

  /** What `/run-agent` answers; it never raises. */
  datatype Reply = ResultReply(raw: string) | ErrorReply(message: string, step: int)

  /** The reply as the browser decodes it. */
  function ReplyJson(r: Reply): Json {
    match r
    case ResultReply(raw) => JObj([("result", JStr(raw))])
    case ErrorReply(message, step) => JObj([("error", JStr(message)), ("step", JNum(step as real))])
  }

  /**
    `run_agent`: the selected task, run with the primary key and, when that
    raises and a backup key is given, once more with the backup. Success
    answers the raw output; any exception answers the error envelope.
   */
  function RunAgent(req: AgentRequest, saved: Option<string>, kickoff: CrewCall -> Attempt<string>): (r: Reply)
    ensures r.ErrorReply? ==> r.step == req.step
    ensures TaskAt(req.step).None? ==> r == ErrorReply(IndexErrorMessage, req.step)
    ensures var first := ExecuteRun(req, saved, kickoff, req.openrouterKey);
            r.ResultReply? <==>
              first.Succeeded?
              || (Given(req.backupKey) && ExecuteRun(req, saved, kickoff, req.backupKey.value).Succeeded?)
  {
    var (outcome, _) := WithFallback(key => ExecuteRun(req, saved, kickoff, key), req.openrouterKey, req.backupKey);
    match outcome
    case Succeeded(raw) => ResultReply(raw)
    case Raised(message) => ErrorReply(message, req.step)
  }

  /** Every kickoff carries the selected task, the configured model, the profile and its feedback. */
  lemma KickoffCarriesRequest(req: AgentRequest, saved: Option<string>, kickoff: CrewCall -> Attempt<string>, key: string)
    requires TaskAt(req.step).Some?
    ensures ExecuteRun(req, saved, kickoff, key)
         == kickoff(CrewCall(key, req.serperKey, CrewModel(ModelOverride(saved)), TaskAt(req.step).value,
                             req.profile, FeedbackInput(req.profile)))
  {
  }

  /** A first attempt that succeeds is the answer; the backup key is not used. */
  lemma PrimarySuccessWins(req: AgentRequest, saved: Option<string>, kickoff: CrewCall -> Attempt<string>)
    requires ExecuteRun(req, saved, kickoff, req.openrouterKey).Succeeded?
    ensures RunAgent(req, saved, kickoff) == ResultReply(ExecuteRun(req, saved, kickoff, req.openrouterKey).value)
  {
  }

  /** With a backup key, a failed first attempt is answered by the second one alone. */
  lemma BackupDecides(req: AgentRequest, saved: Option<string>, kickoff: CrewCall -> Attempt<string>)
    requires ExecuteRun(req, saved, kickoff, req.openrouterKey).Raised? && Given(req.backupKey)
    ensures var second := ExecuteRun(req, saved, kickoff, req.backupKey.value);
            RunAgent(req, saved, kickoff)
            == if second.Succeeded? then ResultReply(second.value) else ErrorReply(second.message, req.step)
  {
  }

  // ---------------------------------------------------------------------
  // What the browser makes of a reply

  /** A success reply's output is what the stage loop and the rerun helper both read back. */
  lemma ResultReplyReadsBack(raw: string)
    ensures Pipeline.ResultOf(ReplyJson(ResultReply(raw))) == Def(JStr(raw))
    ensures Reruns.StepResult(Session.Delivered(ReplyJson(ResultReply(raw)))) == Some(Def(JStr(raw)))
  {
  }

  /**
    The error envelope has no `result`: the stage loop reads `undefined`
    (and advances), while the rerun helper rejects it, unless the message is
    empty and so falsy.
   */
  lemma ErrorReplyReadsBack(message: string, step: int)
    ensures Pipeline.ResultOf(ReplyJson(ErrorReply(message, step))) == Undefined
    ensures message != "" ==> Reruns.StepResult(Session.Delivered(ReplyJson(ErrorReply(message, step)))).None?
    ensures message == "" ==> Reruns.StepResult(Session.Delivered(ReplyJson(ErrorReply(message, step)))) == Some(Undefined)
  {
    if message != "" {
      Reruns.ErrorEnvelopeThrows(message, step);
    }
  }

  /** Axios's message for the validation failure of a body that lacks a required key. */
  const UnprocessableMessage := "Request failed with status code 422"

  /**
    A frontend request reaching `/run-agent`. `JSON.stringify` drops keys
    whose value is `undefined`; the request model then rejects the body
    (HTTP 422) and axios throws. Otherwise the route answers normally. The
    frontend never sends a backup key.
   */
  function Serve(q: Session.Request, saved: Option<string>, kickoff: CrewCall -> Attempt<string>): (o: Session.Outcome)
    ensures o.Delivered? <==> q.openrouterKey.Some? && q.serperKey.Some?
    ensures o.Thrown? ==> o == Session.Thrown(Some(UnprocessableMessage))
    ensures o.Delivered? ==> o.body.JObj? && |o.body.fields| >= 1
  {
    if q.openrouterKey.None? || q.serperKey.None? then Session.Thrown(Some(UnprocessableMessage))
    else Session.Delivered(ReplyJson(RunAgent(
           AgentRequest(q.step, q.profile, q.openrouterKey.value, None, q.serperKey.value), saved, kickoff)))
  }

  /** A message lacking the characters 0, z, v, A and k contains none of the key-problem markers. */
  lemma {:induction false} NoMarkerChars(m: string)
    requires '0' !in m && 'z' !in m && 'v' !in m && 'A' !in m && 'k' !in m
    ensures !Pipeline.IsAuthError(m)
  {
    MissingCharExcludes(m, "401", '0');
    MissingCharExcludes(m, "403", '0');
    MissingCharExcludes(m, "unauthorized", 'z');
    MissingCharExcludes(m, "invalid", 'v');
    MissingCharExcludes(m, "API", 'A');
    MissingCharExcludes(m, "key", 'k');
  }

  /** The validation failure is not classified as a key problem. */
  lemma UnprocessableIsNotAuth()
    ensures !Pipeline.IsAuthError(Pipeline.ErrorMessage(Some(UnprocessableMessage)))
  {
    UnprocessableLacksZero();
    UnprocessableLacksZ();
    UnprocessableLacksV();
    UnprocessableLacksUpperA();
    UnprocessableLacksK();
    NoMarkerChars(UnprocessableMessage);
  }

  lemma UnprocessableLacksZero() ensures '0' !in UnprocessableMessage {}
  lemma UnprocessableLacksZ() ensures 'z' !in UnprocessableMessage {}
  lemma UnprocessableLacksV() ensures 'v' !in UnprocessableMessage {}
  lemma UnprocessableLacksUpperA() ensures 'A' !in UnprocessableMessage {}
  lemma UnprocessableLacksK() ensures 'k' !in UnprocessableMessage {}

  /**
    A stage sent without keys (after "Change API Key") fails without a
    banner: the loop stops where it was, with the results untouched.
   */
  lemma KeylessStageStopsSilently(s: Session.State, k: nat, saved: Option<string>, kickoff: CrewCall -> Attempt<string>)
    requires k < |s.pending| && s.pending[k].StageCall? && s.pending[k].request.openrouterKey.None?
    ensures var r := Pipeline.RespondStage(s, k, Serve(s.pending[k].request, saved, kickoff));
            !r.processing && r.apiError == s.apiError && r.currentAgent == s.currentAgent
            && r.results == s.results
  {
    UnprocessableIsNotAuth();
  }

  /** A stage sent with keys always advances the loop, storing the output or `undefined`. */
  lemma KeyedStageAdvances(s: Session.State, k: nat, saved: Option<string>, kickoff: CrewCall -> Attempt<string>)
    requires k < |s.pending| && s.pending[k].StageCall?
    requires s.pending[k].request.openrouterKey.Some? && s.pending[k].request.serperKey.Some?
    ensures var q := s.pending[k].request;
            var reply := RunAgent(AgentRequest(q.step, q.profile, q.openrouterKey.value, None, q.serperKey.value),
                                  saved, kickoff);
            var r := Pipeline.RespondStage(s, k, Serve(q, saved, kickoff));
            r.currentAgent == s.currentAgent + 1
            && r.results == s.results[Session.KeyAt(s.pending[k].index) :=
                                        if reply.ResultReply? then Def(JStr(reply.raw)) else Undefined]
  {
    var q := s.pending[k].request;
    var reply := RunAgent(AgentRequest(q.step, q.profile, q.openrouterKey.value, None, q.serperKey.value),
                          saved, kickoff);
    match reply
    case ResultReply(raw) => ResultReplyReadsBack(raw);
    case ErrorReply(message, step) => ErrorReplyReadsBack(message, step);
  }

  /** The main loop's profile has no feedback member, so its stages run with the literal "None". */
  lemma StageRunsWithoutFeedback(profile: map<string, Json>)
    requires profile.Keys <= Session.ProfileKeySet
    ensures FeedbackInput(profile) == JStr(NoFeedback)
  {
    assert FeedbackKey !in Session.ProfileKeySet;
  }

  /** A single rerun's feedback reaches the crew verbatim when typed, and as "None" when empty. */
  lemma RerunFeedbackReachesCrew(s: Session.State)
    ensures var profile := Reruns.Wire(Reruns.Input(s));
            FeedbackInput(profile) == if s.feedback != "" then JStr(s.feedback) else JStr(NoFeedback)
  {
    var input := Reruns.Input(s);
    assert FeedbackKey == Reruns.FeedbackKey;
    assert input[FeedbackKey] == Def(JStr(s.feedback));
  }

  // ---------------------------------------------------------------------
  // POST /extract-profile

  /** `v not in (None, "", [], {})`. */
  predicate Filled(v: Json) {
    !(v == JNull || v == JStr("") || v == JArr([]) || v == JObj([]))
  }

  /** The members of the LLM's object that override the regex result, in order. */
  function Overrides(fields: seq<(string, Json)>): (o: seq<(string, Json)>)
    ensures forall kv :: kv in o <==> kv in fields && Filled(kv.1)
    ensures IsSubsequence(o, fields)
    decreases |fields|
  {
    if |fields| == 0 then []
    else
      var rest := Overrides(fields[1..]);
      assert forall kv :: kv in fields <==> kv == fields[0] || kv in fields[1..];
      if Filled(fields[0].1) then
        var o := [fields[0]] + rest;
        assert o[1..] == rest;
        o
      else
        assert |rest| > 0 ==> rest[0] != fields[0] by {
          if |rest| > 0 {
            assert rest[0] in rest;
          }
        }
        rest
  }

  /**
    The merge step: only an object reply changes the profile; each of its
    filled members is written over the regex result in order.
   */
  function MergeLlmProfile(profile: map<string, Json>, parsed: Option<Json>): (r: map<string, Json>)
    ensures !(parsed.Some? && parsed.value.JObj?) ==> r == profile
  {
    if parsed.Some? && parsed.value.JObj? then AssignAll(profile, Overrides(parsed.value.fields)) else profile
  }

  /**
    After the merge a key is present iff the regex found it or the LLM
    filled it; a filled LLM member wins, and a key the LLM left blank keeps
    the regex value.
   */
  lemma MergeLookup(profile: map<string, Json>, fields: seq<(string, Json)>, k: string)
    ensures var r := MergeLlmProfile(profile, Some(JObj(fields)));
            (k in r <==> k in profile || exists v :: (k, v) in fields && Filled(v))
            && ((forall v :: (k, v) in fields ==> !Filled(v)) && k in profile ==> r[k] == profile[k])
            && ((exists v :: (k, v) in fields && Filled(v)) ==> k in r && Filled(r[k]) && (k, r[k]) in fields)
  {
    var o := Overrides(fields);
    AssignAllLookup(profile, o, k);
    LastForFound(o, k);
  }

  /** The route's answer, `{"profile": profile}`. */
  datatype ProfileReply = ProfileReply(profile: map<string, Json>)

  /**
    `extract_profile_route`: the regex extraction of the text, then the LLM
    extractor (`extract(key, model)` is one attempt with that key and model,
    answering the raw output) with the backup-key retry, then the merge of
    whatever `json.loads` makes of that output. An exception of the LLM call
    that survives the retry propagates.
   */
  function ExtractProfileRoute(
    text: string, matches: Matches, openrouterKey: string, backupKey: Option<string>, saved: Option<string>,
    extract: (string, string) -> Attempt<string>, parse: string -> Option<Json>)
    : (r: Attempt<ProfileReply>)
    ensures var model := ExtractorModel(ModelOverride(saved));
            r.Raised? <==> extract(openrouterKey, model).Raised?
                           && (!Given(backupKey) || extract(backupKey.value, model).Raised?)
  {
    var model := ExtractorModel(ModelOverride(saved));
    var (outcome, _) := WithFallback(key => extract(key, model), openrouterKey, backupKey);
    match outcome
    case Raised(message) => Raised(message)
    case Succeeded(raw) => Succeeded(ProfileReply(MergeLlmProfile(ExtractInfo(text, matches), parse(raw))))
  }

  /** Every field the regular expressions found is in the answer, whatever the LLM said. */
  lemma RegexFieldsSurvive(
    text: string, matches: Matches, openrouterKey: string, backupKey: Option<string>, saved: Option<string>,
    extract: (string, string) -> Attempt<string>, parse: string -> Option<Json>)
    ensures var r := ExtractProfileRoute(text, matches, openrouterKey, backupKey, saved, extract, parse);
            r.Succeeded? ==> ExtractInfo(text, matches).Keys <= r.value.profile.Keys
  {
    var model := ExtractorModel(ModelOverride(saved));
    var (outcome, _) := WithFallback(key => extract(key, model), openrouterKey, backupKey);
    if outcome.Succeeded? {
      var info := ExtractInfo(text, matches);
      var parsed := parse(outcome.value);
      if parsed.Some? && parsed.value.JObj? {
        forall k | k in info
          ensures k in MergeLlmProfile(info, parsed)
        {
          MergeLookup(info, parsed.value.fields, k);
        }
      }
    }
  }

  /** When the LLM output does not parse to an object, the answer is the regex extraction alone. */
  lemma UnparsedOutputKeepsRegexProfile(
    text: string, matches: Matches, openrouterKey: string, backupKey: Option<string>, saved: Option<string>,
    extract: (string, string) -> Attempt<string>, parse: string -> Option<Json>)
    requires forall raw :: parse(raw).None? || !parse(raw).value.JObj?
    ensures var r := ExtractProfileRoute(text, matches, openrouterKey, backupKey, saved, extract, parse);
            r.Succeeded? ==> r.value.profile == ExtractInfo(text, matches)
  {
  }
}
