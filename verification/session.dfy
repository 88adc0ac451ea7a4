/**
  The browser session: the shared context of AppContext.jsx plus the local
  state of the step components, in one immutable record.
 */
module Session {
  import opened Wrappers
  import opened Json

  datatype Theme = Light | Dark

  /**
    The context's `apiKeys`. A key is `None` when it is `undefined`, which is
    what "Change API Key" leaves behind.
   */
  datatype ApiKeys = ApiKeys(openrouter: Option<string>, serper: Option<string>, isSet: bool)

  /** The two localStorage entries, `None` when absent. */
  datatype Storage = Storage(openrouter: Option<string>, serper: Option<string>)

  /**
    The body of a POST to /run-agent after JSON encoding: `undefined`
    members are omitted, so an absent key is `None`.
   */
  datatype Request = Request(step: int, profile: map<string, Json>, openrouterKey: Option<string>, serperKey: Option<string>)

  /** How an awaited request ends: a decoded response body, or a thrown error and its message. */
  datatype Outcome = Delivered(body: Json) | Thrown(message: Option<string>)

  /** A request in flight, together with what its continuation captured when it was issued. */
  datatype Call =
    | StageCall(index: int, request: Request)
    | ProfileCall(text: string)
    | MatchCall(base: map<string, JsVal>, request: Request)
    | RankCall(base: map<string, JsVal>, matched: JsVal, request: Request)
    | AgentCall(index: int, request: Request)

  /** The step component App.jsx renders. */
  datatype View = KeysView | ProfileView | AgentsView | ResultsView

  datatype State = State(
    storage: Storage,
    apiKeys: ApiKeys,
    studentProfile: map<string, Json>,
    profileComplete: bool,
    currentAgent: int,
    processing: bool,
    apiError: Option<string>,
    results: map<string, JsVal>,
    theme: Theme,
    // local state of ApiKeysStep
    keysError: string,
    // local state of ProfileStep
    profileText: string,
    profileLoading: bool,
    // local state of ResultsStep
    feedback: string,
    rerunLoading: bool,
    // the dependencies the agent-loop effect last ran with; None before mount
    effectDeps: Option<(int, bool)>,
    pending: seq<Call>)

  const NormalizedKey := "normalized_profile"
  const MatchedKey := "matched_programs"
  const RankedKey := "ranked_programs"
  const ScholarshipsKey := "scholarships"
  const ReviewsKey := "reviews"

  /** Stage index i stores its result under ResultKeys[i]. */
  const ResultKeys := [NormalizedKey, MatchedKey, RankedKey, ScholarshipsKey, ReviewsKey]
  const ResultKeySet := {NormalizedKey, MatchedKey, RankedKey, ScholarshipsKey, ReviewsKey}

  const RawTextKey := "raw_user_text"
  /** The members `studentProfile` can have. */
  const ProfileKeySet := {RawTextKey, NormalizedKey}

  /** `keys[i]` in JavaScript: out of range it is `undefined`, which names the member "undefined". */
  function KeyAt(i: int): (k: string)
    ensures 0 <= i < |ResultKeys| ==> k == ResultKeys[i] && k in ResultKeySet
    ensures !(0 <= i < |ResultKeys|) ==> k !in ResultKeySet
  {
    if 0 <= i < |ResultKeys| then ResultKeys[i] else "undefined"
  }

  /** The result slots as they start out and as reset leaves them: all five null. */
  function EmptyResults(): (r: map<string, JsVal>)
    ensures r.Keys == ResultKeySet
    ensures forall k :: k in r ==> r[k] == Def(JNull)
  {
    map k | k in ResultKeySet :: Def(JNull)
  }

  /** The state a fresh page load starts in, from what localStorage holds. */
  function Init(stored: Storage): (s: State)
    ensures s.apiKeys.isSet <==>
              (stored.openrouter.Some? && stored.openrouter.value != "" && stored.serper.Some? && stored.serper.value != "")
    ensures s.apiKeys.openrouter == Some(stored.openrouter.GetOr(""))
    ensures s.apiKeys.serper == Some(stored.serper.GetOr(""))
    ensures s.currentAgent == 0 && !s.profileComplete && !s.processing
    ensures s.results == EmptyResults() && s.pending == [] && s.studentProfile == map[]
  {
    var o := stored.openrouter.GetOr("");
    var k := stored.serper.GetOr("");
    State(stored, ApiKeys(Some(o), Some(k), o != "" && k != ""), map[], false, 0, false, None,
          EmptyResults(), Dark, "", "", false, "", false, None, [])
  }

  /** `setApiKeys(k)` followed by the persistence effect, which writes the keys only when `isSet`. */
  function SetApiKeys(s: State, k: ApiKeys): (r: State)
    ensures r.apiKeys == k
    ensures k.isSet ==> r.storage.openrouter == k.openrouter && r.storage.serper == k.serper
    ensures !k.isSet ==> r.storage == s.storage
    ensures r.(apiKeys := s.apiKeys, storage := s.storage) == s
  {
    s.(apiKeys := k, storage := if k.isSet then Storage(k.openrouter, k.serper) else s.storage)
  }

  /** `resetApiKeys`: forget both keys, in memory and in storage, and restart the pipeline. */
  function ResetApiKeys(s: State): (r: State)
    ensures r.apiKeys == ApiKeys(Some(""), Some(""), false)
    ensures r.storage == Storage(None, None)
    ensures !r.profileComplete && r.currentAgent == 0 && r.results == EmptyResults()
    ensures r.(storage := s.storage, apiKeys := s.apiKeys, profileComplete := s.profileComplete,
               currentAgent := s.currentAgent, results := s.results) == s
  {
    s.(storage := Storage(None, None), apiKeys := ApiKeys(Some(""), Some(""), false),
       profileComplete := false, currentAgent := 0, results := EmptyResults())
  }

  function ToggleTheme(t: Theme): (r: Theme)
    ensures r != t
  {
    if t == Light then Dark else Light
  }

  /** Toggling twice restores the theme. */
  lemma ToggleThemeInvolution(t: Theme)
    ensures ToggleTheme(ToggleTheme(t)) == t
  {
  }

  /** Which step App.jsx renders. */
  function ViewOf(s: State): (v: View)
    ensures v == KeysView <==> !s.apiKeys.isSet
    ensures v == ProfileView <==> s.apiKeys.isSet && !s.profileComplete
    ensures v == AgentsView <==> s.apiKeys.isSet && s.profileComplete && s.currentAgent < 3
    ensures v == ResultsView <==> s.apiKeys.isSet && s.profileComplete && s.currentAgent >= 3
  {
    if !s.apiKeys.isSet then KeysView
    else if !s.profileComplete then ProfileView
    else if s.currentAgent < 3 then AgentsView
    else ResultsView
  }

  /** Keys that were saved and persisted are what the next page load starts with. */
  lemma PersistedKeysReload(s: State, openrouter: string, serper: string)
    requires openrouter != "" && serper != ""
    ensures Init(SetApiKeys(s, ApiKeys(Some(openrouter), Some(serper), true)).storage).apiKeys
            == ApiKeys(Some(openrouter), Some(serper), true)
  {
  }

  /** After a reset the next page load asks for keys again. */
  lemma ResetForgetsKeys(s: State)
    ensures !Init(ResetApiKeys(s).storage).apiKeys.isSet
  {
  }

  /** Removes the call at index k, keeping the others in order. */
  function Without(calls: seq<Call>, k: nat): (r: seq<Call>)
    requires k < |calls|
    ensures |r| == |calls| - 1
    ensures forall c :: c in r ==> c in calls
    ensures forall i :: 0 <= i < |r| ==> r[i] == (if i < k then calls[i] else calls[i + 1])
  {
    calls[..k] + calls[k + 1..]
  }
}
