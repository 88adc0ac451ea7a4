/**
  The whole browser session as a transition system: every user action and
  every response is an event, and after each one React re-renders and runs
  the agent-loop effect if its dependencies changed.
 */
module Machine {
  import opened Wrappers
  import opened Json
  import opened Session
  import opened Pipeline
  import opened Reruns
  import ApiKeysStep
  import ProfileStep

  datatype Event =
    | SaveKeys(openrouter: string, serper: string)
    | TypeProfile(text: string)
    | SpeechFinal(transcript: string)
    | SubmitProfile
    | ChangeApiKey
    | Respond(k: nat, outcome: Outcome)
    | ResetKeys
    | DismissError
    | ToggleTheme
    | TypeFeedback(text: string)
    | RerunPrograms
    | RerunAgent(index: int)

  /** The first rendered state of a page load: the effect has run once. */
  function Start(stored: Storage): (s: State)
    ensures s.currentAgent == 0 && !s.profileComplete && s.pending == []
    ensures s.results == EmptyResults()
  {
    RunEffect(Init(stored))
  }

  /** Whether an event can happen: buttons exist only in the rendered step, and a response needs a call in flight. */
  predicate Enabled(s: State, e: Event) {
    match e
    case SaveKeys(_, _) => ViewOf(s) == KeysView
    case TypeProfile(_) => ViewOf(s) == ProfileView
    case SpeechFinal(_) => ViewOf(s) == ProfileView
    case SubmitProfile => ViewOf(s) == ProfileView && !s.profileLoading
    case ChangeApiKey => ViewOf(s) == ProfileView
    case Respond(k, _) => k < |s.pending|
    case ResetKeys => s.apiError.Some?
    case DismissError => s.apiError.Some?
    case ToggleTheme => true
    case TypeFeedback(_) => ViewOf(s) == ResultsView
    case RerunPrograms => ViewOf(s) == ResultsView
    case RerunAgent(i) => ViewOf(s) == ResultsView && (i == 3 || i == 4)
  }

  /** A response, handed to the continuation of the call it answers. */
  function Resume(s: State, k: nat, outcome: Outcome): State
    requires k < |s.pending|
  {
    match s.pending[k]
    case StageCall(_, _) => RespondStage(s, k, outcome)
    case ProfileCall(_) => ProfileStep.RespondProfile(s, k, outcome)
    case MatchCall(_, _) => RespondMatch(s, k, outcome)
    case RankCall(_, _, _) => RespondRank(s, k, outcome)
    case AgentCall(_, _) => RespondAgent(s, k, outcome)
  }

  /** The state update an event makes, before the effect runs. */
  function Apply(s: State, e: Event): State
    requires Enabled(s, e)
  {
    match e
    case SaveKeys(o, k) => ApiKeysStep.SaveKeys(s, o, k)
    case TypeProfile(t) => ProfileStep.TypeText(s, t)
    case SpeechFinal(t) => ProfileStep.SpeechFinal(s, t)
    case SubmitProfile => ProfileStep.SubmitProfile(s)
    case ChangeApiKey => ProfileStep.ChangeApiKey(s)
    case Respond(k, outcome) => Resume(s, k, outcome)
    case ResetKeys => ResetButton(s)
    case DismissError => Dismiss(s)
    case ToggleTheme => s.(theme := Session.ToggleTheme(s.theme))
    case TypeFeedback(t) => s.(feedback := t)
    case RerunPrograms => Reruns.RerunPrograms(s)
    case RerunAgent(i) => Reruns.RerunAgent(s, i)
  }

  /** A response event is handled by the continuation of the call it answers. */
  lemma ApplyRespond(s: State, k: nat, outcome: Outcome)
    requires k < |s.pending|
    ensures Apply(s, Respond(k, outcome)) == Resume(s, k, outcome)
  {
  }

  function Next(s: State, e: Event): State
    requires Enabled(s, e)
  {
    RunEffect(Apply(s, e))
  }

  /** What every call in flight satisfies. */
  predicate CallOk(c: Call) {
    match c
    case StageCall(i, q) => 0 <= i < |ResultKeys| && q.step == i && q.profile.Keys <= ProfileKeySet
    case AgentCall(i, q) => 0 <= i < |ResultKeys| && q.step == i
    case _ => true
  }

  /** The session invariant. */
  predicate Inv(s: State) {
    && Shape(s)
    && s.effectDeps == Some((s.currentAgent, s.profileComplete))
  }

  lemma StartInv(stored: Storage)
    ensures Inv(Start(stored))
  {
  }

  /** Every call in the sequence satisfies `CallOk`. */
  predicate CallsOk(calls: seq<Call>) {
    forall c :: c in calls ==> CallOk(c)
  }

  /** The parts of the invariant that event updates keep (the effect's dependencies are the effect's business). */
  predicate Shape(s: State) {
    && s.results.Keys == ResultKeySet
    && s.currentAgent >= 0
    && s.studentProfile.Keys <= ProfileKeySet
    && CallsOk(s.pending)
  }

  lemma StageRespondKeepsShape(s: State, k: nat, outcome: Outcome)
    requires Shape(s) && k < |s.pending| && s.pending[k].StageCall?
    ensures Shape(RespondStage(s, k, outcome))
  {
    assert CallOk(s.pending[k]);
  }

  lemma ProfileRespondKeepsShape(s: State, k: nat, outcome: Outcome)
    requires Shape(s) && k < |s.pending| && s.pending[k].ProfileCall?
    ensures Shape(ProfileStep.RespondProfile(s, k, outcome))
  {
  }

  lemma MatchRespondKeepsShape(s: State, k: nat, outcome: Outcome)
    requires Shape(s) && k < |s.pending| && s.pending[k].MatchCall?
    ensures Shape(RespondMatch(s, k, outcome))
  {
    var r := RespondMatch(s, k, outcome);
    assert forall x :: x in r.pending ==> x in s.pending || x.RankCall?;
  }

  lemma AgentRespondKeepsShape(s: State, k: nat, outcome: Outcome)
    requires Shape(s) && k < |s.pending| && s.pending[k].AgentCall?
    ensures Shape(RespondAgent(s, k, outcome))
  {
    assert CallOk(s.pending[k]);
  }

  lemma RespondKeepsShape(s: State, k: nat, outcome: Outcome)
    requires Shape(s) && k < |s.pending|
    ensures Shape(Resume(s, k, outcome))
    ensures Resume(s, k, outcome).effectDeps == s.effectDeps
  {
    match s.pending[k]
    case StageCall(_, _) => StageRespondKeepsShape(s, k, outcome);
    case ProfileCall(_) => ProfileRespondKeepsShape(s, k, outcome);
    case MatchCall(_, _) => MatchRespondKeepsShape(s, k, outcome);
    case RankCall(_, _, _) =>
    case AgentCall(_, _) => AgentRespondKeepsShape(s, k, outcome);
  }

  lemma RerunAgentKeepsShape(s: State, i: int)
    requires Shape(s) && ViewOf(s) == ResultsView && (i == 3 || i == 4)
    ensures Shape(Reruns.RerunAgent(s, i))
    ensures Reruns.RerunAgent(s, i).effectDeps == s.effectDeps
  {
    var r := Reruns.RerunAgent(s, i);
    assert r.pending == s.pending + [AgentCall(i, StepRequest(s, i, Input(s)))];
  }

  lemma RerunProgramsKeepsShape(s: State)
    requires Shape(s) && ViewOf(s) == ResultsView
    ensures Shape(Reruns.RerunPrograms(s))
    ensures Reruns.RerunPrograms(s).effectDeps == s.effectDeps
  {
    var r := Reruns.RerunPrograms(s);
    assert forall x :: x in r.pending ==> x in s.pending || x.MatchCall?;
  }

  lemma SubmitKeepsShape(s: State)
    requires Shape(s) && ViewOf(s) == ProfileView && !s.profileLoading
    ensures Shape(ProfileStep.SubmitProfile(s))
    ensures ProfileStep.SubmitProfile(s).effectDeps == s.effectDeps
  {
    var r := ProfileStep.SubmitProfile(s);
    assert forall x :: x in r.pending ==> x in s.pending || x.ProfileCall?;
  }

  lemma ApplyKeepsShape(s: State, e: Event)
    requires Shape(s) && Enabled(s, e)
    ensures Shape(Apply(s, e))
    ensures Apply(s, e).effectDeps == s.effectDeps
  {
    match e
    case Respond(k, outcome) => RespondKeepsShape(s, k, outcome);
    case RerunAgent(i) => RerunAgentKeepsShape(s, i);
    case RerunPrograms => RerunProgramsKeepsShape(s);
    case SubmitProfile => SubmitKeepsShape(s);
    case _ =>
  }

  /** An event that leaves `currentAgent` and `profileComplete` alone does not wake the effect. */
  lemma NextQuiet(s: State, e: Event)
    requires Inv(s) && Enabled(s, e)
    requires Apply(s, e).currentAgent == s.currentAgent && Apply(s, e).profileComplete == s.profileComplete
    ensures Next(s, e) == Apply(s, e)
  {
    ApplyKeepsShape(s, e);
  }

  lemma {:induction false} NextPreservesInv(s: State, e: Event)
    requires Inv(s) && Enabled(s, e)
    ensures Inv(Next(s, e))
  {
    var a := Apply(s, e);
    ApplyKeepsShape(s, e);
    var r := RunEffect(a);
    assert forall c :: c in r.pending ==> c in a.pending || c == StageCall(a.currentAgent, StageRequest(a)) by {
      assert r.pending == a.pending || r.pending == a.pending + [r.pending[|a.pending|]];
    }
  }
}
