/**
  The agent execution loop of App.jsx: the effect that dispatches stage
  `currentAgent`, the continuation that stores its result, the error
  classification and the error banner's buttons.
 */
module Pipeline {
  import opened Wrappers
  import opened Strings
  import opened Json
  import opened Session

  /** The stage request the loop sends: the step and `studentProfile`, nothing else. */
  function StageRequest(s: State): (q: Request)
    ensures q.step == s.currentAgent && q.profile == s.studentProfile
    ensures q.openrouterKey == s.apiKeys.openrouter && q.serperKey == s.apiKeys.serper
  {
    Request(s.currentAgent, s.studentProfile, s.apiKeys.openrouter, s.apiKeys.serper)
  }

  /**
    The effect on `[currentAgent, profileComplete]`. It runs only when one of
    them differs from the last run. Then it dispatches the current stage if
    the profile is complete and fewer than five stages have run, or clears
    `processing` once `currentAgent` is exactly 5.
   */
  function RunEffect(s: State): (r: State)
    ensures r.effectDeps == Some((s.currentAgent, s.profileComplete))
    ensures s.effectDeps == Some((s.currentAgent, s.profileComplete)) ==> r == s
    ensures |r.pending| == |s.pending| || |r.pending| == |s.pending| + 1
    ensures r.pending[..|s.pending|] == s.pending
    ensures |r.pending| > |s.pending| <==>
              (s.effectDeps != Some((s.currentAgent, s.profileComplete)) && s.profileComplete && s.currentAgent < 5)
    ensures |r.pending| > |s.pending| ==>
              r.pending[|s.pending|] == StageCall(s.currentAgent, StageRequest(s)) && r.processing && r.apiError.None?
    ensures s.effectDeps != Some((s.currentAgent, s.profileComplete)) && s.currentAgent == 5 ==> !r.processing
    ensures r.(effectDeps := s.effectDeps, pending := s.pending, processing := s.processing, apiError := s.apiError) == s
  {
    var deps := (s.currentAgent, s.profileComplete);
    if s.effectDeps == Some(deps) then s
    else if s.profileComplete && s.currentAgent < 5 then
      s.(effectDeps := Some(deps), processing := true, apiError := None,
         pending := s.pending + [StageCall(s.currentAgent, StageRequest(s))])
    else if s.currentAgent == 5 then
      s.(effectDeps := Some(deps), processing := false)
    else
      s.(effectDeps := Some(deps))
  }

  /** Once the effect has run for the current dependencies, running it again changes nothing. */
  lemma RunEffectIdempotent(s: State)
    ensures RunEffect(RunEffect(s)) == RunEffect(s)
  {
  }

  /** `res?.result`: the `result` member of an object body, `undefined` for any other body. */
  function ResultOf(body: Json): (v: JsVal)
    ensures v.Def? ==> body.JObj? && Get(body.fields, "result") == Some(v.json)
    ensures body.JObj? && Get(body.fields, "result").Some? ==> v.Def?
  {
    match body
    case JObj(fields) => if Get(fields, "result").Some? then Def(Get(fields, "result").value) else Undefined
    case _ => Undefined
  }

  const UnknownError := "Unknown error"

  /** `err.message || "Unknown error"`. */
  function ErrorMessage(message: Option<string>): (m: string)
    ensures m != ""
    ensures message.Some? && message.value != "" ==> m == message.value
    ensures message.None? || message.value == "" ==> m == UnknownError
  {
    if message.Some? && message.value != "" then message.value else UnknownError
  }

  /** The substrings that mark an error as a key problem; the test is case-sensitive. */
  const AuthMarkers := ["401", "403", "unauthorized", "invalid", "API", "key"]

  /**
    `App.jsx`'s test for a key problem: the message contains one of the
    markers, compared case-sensitively.
   */
  function IsAuthError(m: string): (auth: bool)
    ensures auth <==> exists i :: 0 <= i < |AuthMarkers| && Contains(m, AuthMarkers[i])
  {
    MarkersListed(m);
    Contains(m, "401") || Contains(m, "403") || Contains(m, "unauthorized")
    || Contains(m, "invalid") || Contains(m, "API") || Contains(m, "key")
  }

  /** The six tests are the six markers of the list. */
  lemma MarkersListed(m: string)
    ensures (Contains(m, "401") || Contains(m, "403") || Contains(m, "unauthorized")
             || Contains(m, "invalid") || Contains(m, "API") || Contains(m, "key"))
            <==> exists i :: 0 <= i < |AuthMarkers| && Contains(m, AuthMarkers[i])
  {
    if Contains(m, "401") { assert Contains(m, AuthMarkers[0]); }
    else if Contains(m, "403") { assert Contains(m, AuthMarkers[1]); }
    else if Contains(m, "unauthorized") { assert Contains(m, AuthMarkers[2]); }
    else if Contains(m, "invalid") { assert Contains(m, AuthMarkers[3]); }
    else if Contains(m, "API") { assert Contains(m, AuthMarkers[4]); }
    else if Contains(m, "key") { assert Contains(m, AuthMarkers[5]); }
  }

  /** A key problem stays one when the message is wrapped in more text. */
  lemma AuthErrorInContext(before: string, m: string, after: string)
    requires IsAuthError(m)
    ensures IsAuthError(before + m + after)
  {
    var i :| 0 <= i < |AuthMarkers| && Contains(m, AuthMarkers[i]);
    ContainsBefore(m, after, AuthMarkers[i]);
    ContainsAfter(before, m + after, AuthMarkers[i]);
    assert before + (m + after) == before + m + after;
  }

  /** A message lacking the characters 4, u, v, A and y contains none of the markers. */
  lemma {:induction false} MissingMarkerCharsNotAuth(m: string)
    requires '4' !in m && 'u' !in m && 'v' !in m && 'A' !in m && 'y' !in m
    ensures !IsAuthError(m)
  {
    MissingCharExcludes(m, "401", '4');
    MissingCharExcludes(m, "403", '4');
    MissingCharExcludes(m, "unauthorized", 'u');
    MissingCharExcludes(m, "invalid", 'v');
    MissingCharExcludes(m, "API", 'A');
    MissingCharExcludes(m, "key", 'y');
  }

  /** A thrown error without a message is never taken for a key problem. */
  lemma UnknownErrorIsNotAuth(message: Option<string>)
    requires message.None? || message.value == ""
    ensures !IsAuthError(ErrorMessage(message))
  {
    var m := ErrorMessage(message);
    assert m == UnknownError;
    assert forall i :: 0 <= i < |m| ==> m[i] in "Unknowner ";
    MissingMarkerCharsNotAuth(m);
  }

  /** An HTTP 401 from the backend is taken for a key problem; a plain network failure is not. */
  lemma TransportErrorsClassified()
    ensures IsAuthError("Request failed with status code 401")
    ensures !IsAuthError("Network Error")
  {
    var m := "Request failed with status code 401";
    assert StartsWith(m[32..], "401");
    ContainsSlice(m, 32, |m|, "401");
    MissingMarkerCharsNotAuth("Network Error");
  }

  /**
    The continuation of a stage call. A response, whatever its body, stores
    `res?.result` under the key of the index captured at dispatch and moves
    `currentAgent` one past its value at that moment. A thrown error only
    clears `processing` and raises the banner for key problems.
   */
  function RespondStage(s: State, k: nat, outcome: Outcome): (r: State)
    requires k < |s.pending| && s.pending[k].StageCall?
    ensures r.pending == Without(s.pending, k)
    ensures outcome.Delivered? ==>
              r.results == s.results[KeyAt(s.pending[k].index) := ResultOf(outcome.body)]
              && r.currentAgent == s.currentAgent + 1
              && r.(results := s.results, currentAgent := s.currentAgent, pending := s.pending) == s
    ensures outcome.Thrown? ==>
              !r.processing
              && (IsAuthError(ErrorMessage(outcome.message)) ==> r.apiError == Some(ErrorMessage(outcome.message)))
              && (!IsAuthError(ErrorMessage(outcome.message)) ==> r.apiError == s.apiError)
              && r.(processing := s.processing, apiError := s.apiError, pending := s.pending) == s
  {
    var rest := Without(s.pending, k);
    match outcome
    case Delivered(body) =>
      s.(pending := rest, results := s.results[KeyAt(s.pending[k].index) := ResultOf(body)],
         currentAgent := s.currentAgent + 1)
    case Thrown(message) =>
      var m := ErrorMessage(message);
      s.(pending := rest, processing := false, apiError := if IsAuthError(m) then Some(m) else s.apiError)
  }

  /** The banner's "Reset API Keys" button. */
  function ResetButton(s: State): (r: State)
    ensures r.apiError.None?
    ensures r.(apiError := s.apiError) == ResetApiKeys(s)
  {
    ResetApiKeys(s).(apiError := None)
  }

  /** The banner's "Dismiss" button. */
  function Dismiss(s: State): (r: State)
    ensures r.apiError.None? && r.(apiError := s.apiError) == s
  {
    s.(apiError := None)
  }
}
