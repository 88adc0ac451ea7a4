/**
  Properties of whole-session behaviour: what a stage call carries, how a
  response or a failure moves the loop, the five-stage run, the reruns, and
  the interleavings the code allows because nothing guards a late reply.
 */
module SessionFacts {
  import opened Wrappers
  import opened Json
  import opened Session
  import opened Pipeline
  import opened Reruns
  import opened Machine
  import ProfileStep

  /** Runs events in order; `None` as soon as one is not enabled. */
  function Run(s: State, events: seq<Event>): Option<State>
    decreases |events|
  {
    if |events| == 0 then Some(s)
    else if Enabled(s, events[0]) then Run(Next(s, events[0]), events[1..])
    else None
  }

  /**
    A stage call carries `studentProfile` alone: no stage result, in
    particular no `matched_programs` for the ranking stage.
   */
  lemma StageRequestHasNoResults(s: State, c: Call)
    requires Inv(s) && c in s.pending && c.StageCall?
    ensures MatchedKey !in c.request.profile && RankedKey !in c.request.profile
    ensures ScholarshipsKey !in c.request.profile && ReviewsKey !in c.request.profile
  {
    assert CallOk(c);
  }

  /**
    After any event, a stage is dispatched exactly when the event changed
    `currentAgent` or `profileComplete` and the profile is complete with
    fewer than five stages done; the call is for the current stage.
   */
  lemma DispatchRule(s: State, e: Event)
    requires Inv(s) && Enabled(s, e)
    ensures var a := Apply(s, e);
            |Next(s, e).pending| == |a.pending| + 1 <==>
              ((a.currentAgent, a.profileComplete) != (s.currentAgent, s.profileComplete)
               && a.profileComplete && a.currentAgent < 5)
    ensures var a := Apply(s, e);
            |Next(s, e).pending| == |a.pending| + 1 ==>
              Next(s, e).pending[|a.pending|] == StageCall(a.currentAgent, StageRequest(a))
  {
    ApplyKeepsShape(s, e);
  }

  /**
    A thrown stage call stops the loop: the stage and the results stay, the
    spinner stops, nothing is re-dispatched, and the banner shows iff the
    message looks like a key problem.
   */
  lemma ThrownStageHalts(s: State, k: nat, message: Option<string>)
    requires Inv(s) && k < |s.pending| && s.pending[k].StageCall?
    ensures var r := Next(s, Respond(k, Thrown(message)));
            r.currentAgent == s.currentAgent && r.results == s.results && !r.processing
            && r.pending == Without(s.pending, k)
            && (r.apiError == Some(ErrorMessage(message)) || (r.apiError == s.apiError && !IsAuthError(ErrorMessage(message))))
            && (IsAuthError(ErrorMessage(message)) ==> r.apiError == Some(ErrorMessage(message)))
  {
  }

  /**
    Any response to a stage call, the backend's error envelope included,
    stores `res?.result` for the captured stage, advances `currentAgent` by
    one, and dispatches the next stage while fewer than five are done.
   */
  lemma DeliveredStageAdvances(s: State, k: nat, body: Json)
    requires Inv(s) && k < |s.pending| && s.pending[k].StageCall?
    ensures var r := Next(s, Respond(k, Delivered(body)));
            r.results == s.results[KeyAt(s.pending[k].index) := ResultOf(body)]
            && r.currentAgent == s.currentAgent + 1
            && (s.profileComplete && s.currentAgent + 1 < 5 ==>
                  r.pending == Without(s.pending, k) + [StageCall(s.currentAgent + 1, StageRequest(r))] && r.processing)
            && (!(s.profileComplete && s.currentAgent + 1 < 5) ==> r.pending == Without(s.pending, k))
            && (s.currentAgent + 1 == 5 ==> !r.processing)
  {
  }

  /** The backend's error envelope has no `result`, so the slot becomes `undefined` and the loop moves on. */
  lemma ErrorEnvelopeAdvances(s: State, k: nat, message: string, step: int)
    requires Inv(s) && k < |s.pending| && s.pending[k].StageCall?
    ensures var r := Next(s, Respond(k, Delivered(JObj([("error", JStr(message)), ("step", JNum(step as real))]))));
            r.results[KeyAt(s.pending[k].index)] == Undefined && r.currentAgent == s.currentAgent + 1
  {
    var body := JObj([("error", JStr(message)), ("step", JNum(step as real))]);
    assert Get(body.fields, "result").None?;
  }

  /** One response per stage, each answering the only call in flight. */
  function Replies(bodies: seq<Json>): (events: seq<Event>)
    ensures |events| == |bodies|
    ensures forall i :: 0 <= i < |bodies| ==> events[i] == Respond(0, Delivered(bodies[i]))
  {
    seq(|bodies|, i requires 0 <= i < |bodies| => Respond(0, Delivered(bodies[i])))
  }

  /** The first reply of a run: the stage's slot is filled and the next stage, if any, is the only call in flight. */
  lemma FirstReply(s: State, bodies: seq<Json>) returns (s1: State)
    requires Inv(s) && s.profileComplete && 0 <= s.currentAgent < 5
    requires s.pending == [StageCall(s.currentAgent, StageRequest(s))]
    requires |bodies| == 5 - s.currentAgent
    ensures Run(s, Replies(bodies)) == Run(s1, Replies(bodies[1..]))
    ensures Inv(s1) && s1.profileComplete && s1.currentAgent == s.currentAgent + 1 && s1.apiKeys == s.apiKeys
    ensures s1.results == s.results[KeyAt(s.currentAgent) := ResultOf(bodies[0])]
    ensures s1.currentAgent < 5 ==> s1.pending == [StageCall(s1.currentAgent, StageRequest(s1))]
    ensures s1.currentAgent == 5 ==> s1.pending == [] && !s1.processing
  {
    var events := Replies(bodies);
    var e := events[0];
    assert e == Respond(0, Delivered(bodies[0]));
    assert Enabled(s, e);
    NextPreservesInv(s, e);
    DeliveredStageAdvances(s, 0, bodies[0]);
    s1 := Next(s, e);
    assert Without(s.pending, 0) == [];
    RepliesTail(bodies);
  }

  /**
    With the profile complete and stage c the only call in flight, replies to
    stages c..4 finish the run: `currentAgent` is 5, nothing is in flight,
    and the spinner is off.
   */
  lemma {:induction false} StagesRunToEnd(s: State, bodies: seq<Json>)
    requires Inv(s) && s.profileComplete && 0 <= s.currentAgent < 5
    requires s.pending == [StageCall(s.currentAgent, StageRequest(s))]
    requires |bodies| == 5 - s.currentAgent
    ensures Run(s, Replies(bodies)).Some?
    ensures Inv(Run(s, Replies(bodies)).value)
    ensures var t := Run(s, Replies(bodies)).value;
            t.currentAgent == 5 && t.pending == [] && !t.processing
            && t.apiKeys == s.apiKeys && t.profileComplete
    ensures Run(s, Replies(bodies)).value.results == Filled(s.results, s.currentAgent, bodies)
    decreases |bodies|
  {
    var s1 := FirstReply(s, bodies);
    if s.currentAgent + 1 == 5 {
      assert Run(s1, []) == Some(s1);
      assert bodies[1..] == [];
    } else {
      StagesRunToEnd(s1, bodies[1..]);
    }
  }

  /** The results after the replies to stages c, c+1, ...: each reply written into its stage's slot, in order. */
  function Filled(results: map<string, JsVal>, c: int, bodies: seq<Json>): map<string, JsVal>
    decreases |bodies|
  {
    if |bodies| == 0 then results
    else Filled(results[KeyAt(c) := ResultOf(bodies[0])], c + 1, bodies[1..])
  }

  /** After the replies to stages c..4, stage j's reply is under `ResultKeys[j]` and the slots of earlier stages are untouched. */
  lemma {:induction false} FilledSlots(results: map<string, JsVal>, c: int, bodies: seq<Json>)
    requires 0 <= c && c + |bodies| == 5 && results.Keys == ResultKeySet
    ensures Filled(results, c, bodies).Keys == ResultKeySet
    ensures forall j :: c <= j < 5 ==> Filled(results, c, bodies)[KeyAt(j)] == ResultOf(bodies[j - c])
    ensures forall j :: 0 <= j < c ==> Filled(results, c, bodies)[KeyAt(j)] == results[KeyAt(j)]
    decreases |bodies|
  {
    if |bodies| > 0 {
      var r1 := results[KeyAt(c) := ResultOf(bodies[0])];
      FilledSlots(r1, c + 1, bodies[1..]);
      LaterResults(results, r1, Filled(r1, c + 1, bodies[1..]), c, c + 1, bodies);
    }
  }

  lemma RepliesTail(bodies: seq<Json>)
    requires |bodies| > 0
    ensures Replies(bodies)[1..] == Replies(bodies[1..])
  {
  }

  /** Slot c filled by the first body, slots after it by the rest, slots before it untouched. */
  lemma LaterResults(r0: map<string, JsVal>, r1: map<string, JsVal>, t: map<string, JsVal>, c: int, c1: int, bodies: seq<Json>)
    requires 0 <= c < 5 && c1 == c + 1 && |bodies| == 5 - c
    requires r0.Keys == ResultKeySet && t.Keys == ResultKeySet && r1 == r0[KeyAt(c) := ResultOf(bodies[0])]
    requires forall j :: c1 <= j < 5 ==> t[KeyAt(j)] == ResultOf(bodies[1..][j - c1])
    requires forall j :: 0 <= j < c1 ==> t[KeyAt(j)] == r1[KeyAt(j)]
    ensures forall j :: c <= j < 5 ==> t[KeyAt(j)] == ResultOf(bodies[j - c])
    ensures forall j :: 0 <= j < c ==> t[KeyAt(j)] == r0[KeyAt(j)]
  {
    forall j | c <= j < 5
      ensures t[KeyAt(j)] == ResultOf(bodies[j - c])
    {
      if j > c {
        assert bodies[1..][j - (c + 1)] == bodies[j - c];
      }
    }
    forall j | 0 <= j < c
      ensures t[KeyAt(j)] == r0[KeyAt(j)]
    {
      assert KeyAt(j) != KeyAt(c);
    }
  }

  /** Submitting the profile from a fresh session and answering all five stages ends on the results view. */
  lemma {:induction false} FullSession(s: State, profileBody: Json, bodies: seq<Json>)
    requires Inv(s) && ViewOf(s) == ProfileView && s.currentAgent == 0 && s.pending == [ProfileCall(s.profileText)]
    requires ProfileStep.Accepted(profileBody) && |bodies| == 5
    ensures var s1 := Next(s, Respond(0, Delivered(profileBody)));
            s1.pending == [StageCall(0, StageRequest(s1))]
            && Run(s1, Replies(bodies)).Some?
            && Inv(Run(s1, Replies(bodies)).value)
            && ViewOf(Run(s1, Replies(bodies)).value) == ResultsView
            && (forall j :: 0 <= j < 5 ==> Run(s1, Replies(bodies)).value.results[KeyAt(j)] == ResultOf(bodies[j]))
  {
    var e := Respond(0, Delivered(profileBody));
    NextPreservesInv(s, e);
    var s1 := Next(s, e);
    assert Without(s.pending, 0) == [];
    StagesRunToEnd(s1, bodies);
    FilledSlots(s1.results, 0, bodies);
  }

  /**
    Nothing ties a reply to the session that sent it. A key error in stage 3
    or 4 leaves the banner up over the results view; a single rerun pressed
    there and answered after "Reset API Keys" still writes its slot into the
    cleared results, while the key form is showing.
   */
  lemma LateRerunReplyAfterReset(s: State, i: int, body: Json) returns (t2: State, u: State)
    requires Inv(s) && ViewOf(s) == ResultsView && s.apiError.Some? && (i == 3 || i == 4)
    requires StepResult(Delivered(body)).Some?
    ensures Run(s, [RerunAgent(i), ResetKeys]) == Some(t2) && |t2.pending| == |s.pending| + 1
    ensures Run(t2, [Respond(|s.pending|, Delivered(body))]) == Some(u)
    ensures ViewOf(u) == KeysView && !u.profileComplete && u.currentAgent == 0
    ensures u.results == EmptyResults()[KeyAt(i) := StepResult(Delivered(body)).value]
  {
    t2 := AgentRerunThenReset(s, i);
    var e := Respond(|s.pending|, Delivered(body));
    NextQuiet(t2, e);
    u := Next(t2, e);
    RunOne(t2, e);
  }

  /** A single rerun then "Reset API Keys": the rerun's call stays in flight over the cleared key form. */
  lemma AgentRerunThenReset(s: State, i: int) returns (t2: State)
    requires Inv(s) && ViewOf(s) == ResultsView && s.apiError.Some? && (i == 3 || i == 4)
    ensures Run(s, [RerunAgent(i), ResetKeys]) == Some(t2) && Inv(t2)
    ensures |t2.pending| == |s.pending| + 1 && t2.pending[|s.pending|].AgentCall? && t2.pending[|s.pending|].index == i
    ensures ViewOf(t2) == KeysView && !t2.profileComplete && t2.currentAgent == 0 && t2.results == EmptyResults()
  {
    var t1 := Next(s, RerunAgent(i));
    NextQuiet(s, RerunAgent(i));
    NextPreservesInv(s, RerunAgent(i));
    t2 := Next(t1, ResetKeys);
    NextPreservesInv(t1, ResetKeys);
    assert t2.pending == t1.pending;
    RunTwo(s, RerunAgent(i), ResetKeys);
  }

  /** Running two enabled events is taking the two steps. */
  lemma RunTwo(s: State, a: Event, b: Event)
    requires Enabled(s, a) && Enabled(Next(s, a), b)
    ensures Run(s, [a, b]) == Some(Next(Next(s, a), b))
  {
    assert [a, b][1..] == [b];
    RunOne(Next(s, a), b);
  }

  /** Running one enabled event is taking the step. */
  lemma RunOne(s: State, e: Event)
    requires Enabled(s, e)
    ensures Run(s, [e]) == Some(Next(s, e))
  {
    assert [e][1..] == [];
  }

  /**
    A profile reply that lands after "Change API Key" still completes the
    profile, and the loop then dispatches stage 0 with both keys absent.
   */
  lemma DispatchWithoutKeys(s: State, k: nat, body: Json)
    requires Inv(s) && ViewOf(s) == ProfileView && s.currentAgent == 0
    requires k < |s.pending| && s.pending[k].ProfileCall? && ProfileStep.Accepted(body)
    ensures k < |Next(s, ChangeApiKey).pending|
    ensures var t := Next(s, ChangeApiKey);
            var u := Next(t, Respond(k, Delivered(body)));
            !u.apiKeys.isSet && |u.pending| == |s.pending|
            && u.pending[|s.pending| - 1].StageCall?
            && u.pending[|s.pending| - 1].request.openrouterKey.None?
            && u.pending[|s.pending| - 1].request.serperKey.None?
  {
    NextPreservesInv(s, ChangeApiKey);
  }

  /** Pressing "Rerun Programs": both program slots are cleared and the match request carries the input captured before that. */
  lemma ProgramsRerunStarts(s: State)
    requires Inv(s) && ViewOf(s) == ResultsView && !s.rerunLoading
    ensures Next(s, RerunPrograms) == Reruns.RerunPrograms(s)
    ensures var t1 := Next(s, RerunPrograms);
            t1.results == s.results[MatchedKey := Def(JNull)][RankedKey := Def(JNull)]
            && t1.pending == s.pending + [MatchCall(Input(s), StepRequest(s, 1, Input(s)))]
            && t1.rerunLoading
  {
    NextQuiet(s, RerunPrograms);
  }

  /** The match reply stores the fresh result and issues the rank request with it. */
  lemma MatchReplyFeedsRank(t1: State, base: map<string, JsVal>, q: Request, matchBody: Json)
    requires Inv(t1) && |t1.pending| > 0 && t1.pending[|t1.pending| - 1] == MatchCall(base, q)
    requires StepResult(Delivered(matchBody)).Some?
    ensures var n := |t1.pending| - 1;
            var m := StepResult(Delivered(matchBody)).value;
            var t2 := Next(t1, Respond(n, Delivered(matchBody)));
            t2.results == t1.results[MatchedKey := m] && t2.rerunLoading == t1.rerunLoading
            && t2.pending == t1.pending[..n] + [RankCall(base, m, FollowUp(q, 2, base[MatchedKey := m]))]
  {
    var n := |t1.pending| - 1;
    var e := Respond(n, Delivered(matchBody));
    NextQuiet(t1, e);
    assert Without(t1.pending, n) == t1.pending[..n];
  }

  /** The rank reply writes both program slots in one update and ends the loading state. */
  lemma RankReplyCommits(t2: State, base: map<string, JsVal>, m: JsVal, q: Request, rankBody: Json)
    requires Inv(t2) && |t2.pending| > 0 && t2.pending[|t2.pending| - 1] == RankCall(base, m, q)
    requires StepResult(Delivered(rankBody)).Some?
    ensures var n := |t2.pending| - 1;
            var t3 := Next(t2, Respond(n, Delivered(rankBody)));
            t3.results == t2.results[MatchedKey := m][RankedKey := StepResult(Delivered(rankBody)).value]
            && !t3.rerunLoading && t3.pending == t2.pending[..n]
  {
    var n := |t2.pending| - 1;
    var e := Respond(n, Delivered(rankBody));
    NextQuiet(t2, e);
    assert Without(t2.pending, n) == t2.pending[..n];
  }

  /** In a programs rerun the rank request carries the fresh match result, not the cleared or the old one. */
  lemma RankSeesFreshMatch(s: State, matchBody: Json)
    requires Inv(s) && ViewOf(s) == ResultsView && !s.rerunLoading
    requires StepResult(Delivered(matchBody)).Some?
    ensures var t1 := Next(s, RerunPrograms);
            var t2 := Next(t1, Respond(|s.pending|, Delivered(matchBody)));
            |t2.pending| == |s.pending| + 1 && t2.pending[|s.pending|].RankCall?
    ensures var m := StepResult(Delivered(matchBody)).value;
            var t2 := Next(Next(s, RerunPrograms), Respond(|s.pending|, Delivered(matchBody)));
            var q := t2.pending[|s.pending|].request;
            q.step == 2 && (m.Def? ==> MatchedKey in q.profile && q.profile[MatchedKey] == m.json)
            && (m.Undefined? ==> MatchedKey !in q.profile)
  {
    ProgramsRerunStarts(s);
    var t1 := Next(s, RerunPrograms);
    var base := Input(s);
    NextPreservesInv(s, RerunPrograms);
    MatchReplyFeedsRank(t1, base, StepRequest(s, 1, base), matchBody);
    assert t1.pending[..|s.pending|] == s.pending;
  }

  /**
    The rank request sends the keys held when "Rerun Programs" was pressed:
    a "Reset API Keys" while the match runs clears the stored keys, but the
    rank request that follows the match reply still carries the old ones.
   */
  lemma RankKeepsClickTimeKeys(s: State, matchBody: Json) returns (t2: State, t3: State)
    requires Inv(s) && ViewOf(s) == ResultsView && !s.rerunLoading && s.apiError.Some?
    requires StepResult(Delivered(matchBody)).Some?
    ensures Run(s, [RerunPrograms, ResetKeys]) == Some(t2)
    ensures Run(t2, [Respond(|s.pending|, Delivered(matchBody))]) == Some(t3)
    ensures t2.apiKeys == ApiKeys(Some(""), Some(""), false)
    ensures |t3.pending| == |s.pending| + 1 && t3.pending[|s.pending|].RankCall?
    ensures var q := t3.pending[|s.pending|].request;
            q.step == 2 && q.openrouterKey == s.apiKeys.openrouter && q.serperKey == s.apiKeys.serper
  {
    t2 := RerunThenReset(s);
    var base := Input(s);
    MatchReplyFeedsRank(t2, base, StepRequest(s, 1, base), matchBody);
    assert t2.pending[..|s.pending|] == s.pending;
    var e := Respond(|s.pending|, Delivered(matchBody));
    t3 := Next(t2, e);
    RunOne(t2, e);
  }

  /** "Rerun Programs" then "Reset API Keys": the match request stays in flight while the stored keys are cleared. */
  lemma RerunThenReset(s: State) returns (t2: State)
    requires Inv(s) && ViewOf(s) == ResultsView && !s.rerunLoading && s.apiError.Some?
    ensures Run(s, [RerunPrograms, ResetKeys]) == Some(t2) && Inv(t2)
    ensures t2.pending == s.pending + [MatchCall(Input(s), StepRequest(s, 1, Input(s)))]
    ensures t2.apiKeys == ApiKeys(Some(""), Some(""), false)
  {
    ProgramsRerunStarts(s);
    var t1 := Next(s, RerunPrograms);
    NextPreservesInv(s, RerunPrograms);
    t2 := Next(t1, ResetKeys);
    NextPreservesInv(t1, ResetKeys);
    assert t2.pending == t1.pending;
    RunTwo(s, RerunPrograms, ResetKeys);
  }

  /**
    The programs rerun end to end: at the end both program slots hold the new
    pair, every other slot is as before, and nothing is left in flight.
   */
  lemma ProgramsRerun(s: State, matchBody: Json, rankBody: Json)
    requires Inv(s) && ViewOf(s) == ResultsView && !s.rerunLoading
    requires StepResult(Delivered(matchBody)).Some? && StepResult(Delivered(rankBody)).Some?
    ensures var t1 := Next(s, RerunPrograms);
            var t2 := Next(t1, Respond(|s.pending|, Delivered(matchBody)));
            |t2.pending| == |s.pending| + 1
    ensures var m := StepResult(Delivered(matchBody)).value;
            var t2 := Next(Next(s, RerunPrograms), Respond(|s.pending|, Delivered(matchBody)));
            var t3 := Next(t2, Respond(|s.pending|, Delivered(rankBody)));
            t3.results == s.results[MatchedKey := m][RankedKey := StepResult(Delivered(rankBody)).value]
            && !t3.rerunLoading && t3.pending == s.pending
  {
    ProgramsRerunStarts(s);
    var t1 := Next(s, RerunPrograms);
    var base := Input(s);
    NextPreservesInv(s, RerunPrograms);
    MatchReplyFeedsRank(t1, base, StepRequest(s, 1, base), matchBody);
    var m := StepResult(Delivered(matchBody)).value;
    var e2 := Respond(|s.pending|, Delivered(matchBody));
    var t2 := Next(t1, e2);
    assert t1.pending[..|s.pending|] == s.pending;
    NextPreservesInv(t1, e2);
    RankReplyCommits(t2, base, m, FollowUp(StepRequest(s, 1, base), 2, base[MatchedKey := m]), rankBody);
    assert t2.pending[..|s.pending|] == s.pending;
    var v := StepResult(Delivered(rankBody)).value;
    SlotsOverwritten(s.results, m, v);
  }

  /** Clearing the two program slots and then writing them leaves no trace of the clearing. */
  lemma SlotsOverwritten(results: map<string, JsVal>, m: JsVal, v: JsVal)
    ensures results[MatchedKey := Def(JNull)][RankedKey := Def(JNull)][MatchedKey := m][MatchedKey := m][RankedKey := v]
            == results[MatchedKey := m][RankedKey := v]
  {
  }

  /** A failed match step leaves both program slots cleared, issues no rank request and ends the loading state. */
  lemma ProgramsMatchFailure(s: State, message: Option<string>)
    requires Inv(s) && ViewOf(s) == ResultsView && !s.rerunLoading
    ensures var t1 := Next(s, RerunPrograms);
            var t2 := Next(t1, Respond(|s.pending|, Thrown(message)));
            t2.results == s.results[MatchedKey := Def(JNull)][RankedKey := Def(JNull)]
            && !t2.rerunLoading && t2.pending == s.pending
  {
    ProgramsRerunStarts(s);
    var t1 := Next(s, RerunPrograms);
    NextPreservesInv(s, RerunPrograms);
    var e := Respond(|s.pending|, Thrown(message));
    NextQuiet(t1, e);
    assert Without(t1.pending, |s.pending|) == s.pending;
  }

  /**
    A failed rank step after a good match: the fresh match stays in
    `matched_programs`, `ranked_programs` stays cleared, and loading ends.
   */
  lemma ProgramsRankFailure(s: State, matchBody: Json, message: Option<string>)
    requires Inv(s) && ViewOf(s) == ResultsView && !s.rerunLoading
    requires StepResult(Delivered(matchBody)).Some?
    ensures |Next(Next(s, RerunPrograms), Respond(|s.pending|, Delivered(matchBody))).pending| == |s.pending| + 1
    ensures var m := StepResult(Delivered(matchBody)).value;
            var t2 := Next(Next(s, RerunPrograms), Respond(|s.pending|, Delivered(matchBody)));
            var t3 := Next(t2, Respond(|s.pending|, Thrown(message)));
            t3.results == s.results[MatchedKey := m][RankedKey := Def(JNull)]
            && !t3.rerunLoading && t3.pending == s.pending
  {
    ProgramsRerunStarts(s);
    var t1 := Next(s, RerunPrograms);
    var base := Input(s);
    NextPreservesInv(s, RerunPrograms);
    MatchReplyFeedsRank(t1, base, StepRequest(s, 1, base), matchBody);
    var m := StepResult(Delivered(matchBody)).value;
    var e2 := Respond(|s.pending|, Delivered(matchBody));
    var t2 := Next(t1, e2);
    assert t1.pending[..|s.pending|] == s.pending;
    NextPreservesInv(t1, e2);
    RankFailureEnds(t2, base, m, FollowUp(StepRequest(s, 1, base), 2, base[MatchedKey := m]), message);
    assert t2.pending[..|s.pending|] == s.pending;
    MatchOverClearedSlots(s.results, m);
  }

  /** A failed rank reply changes no slot and ends the loading state. */
  lemma RankFailureEnds(t2: State, base: map<string, JsVal>, m: JsVal, q: Request, message: Option<string>)
    requires Inv(t2) && |t2.pending| > 0 && t2.pending[|t2.pending| - 1] == RankCall(base, m, q)
    ensures var n := |t2.pending| - 1;
            var t3 := Next(t2, Respond(n, Thrown(message)));
            t3.results == t2.results && !t3.rerunLoading && t3.pending == t2.pending[..n]
  {
    var n := |t2.pending| - 1;
    NextQuiet(t2, Respond(n, Thrown(message)));
    assert Without(t2.pending, n) == t2.pending[..n];
  }

  /** Writing the match over the two cleared slots leaves the rank slot cleared. */
  lemma MatchOverClearedSlots(results: map<string, JsVal>, m: JsVal)
    ensures results[MatchedKey := Def(JNull)][RankedKey := Def(JNull)][MatchedKey := m]
            == results[MatchedKey := m][RankedKey := Def(JNull)]
  {
  }

  /** While a programs rerun is loading, pressing the button again does nothing. */
  lemma ProgramsRerunIgnoredWhileLoading(s: State)
    requires Inv(s) && ViewOf(s) == ResultsView && s.rerunLoading
    ensures Next(s, RerunPrograms) == s
  {
  }

  /** Pressing a single rerun issues exactly the helper's request: stage i, with the feedback text. */
  lemma SingleRerunStarts(s: State, i: int)
    requires Inv(s) && ViewOf(s) == ResultsView && (i == 3 || i == 4)
    ensures Next(s, RerunAgent(i)) == s.(pending := s.pending + [AgentCall(i, StepRequest(s, i, Input(s)))])
    ensures var c := Next(s, RerunAgent(i)).pending[|s.pending|];
            c.request.profile[FeedbackKey] == JStr(s.feedback) && c.request.step == i
  {
    assert Reruns.RerunAgent(s, i) == s.(pending := s.pending + [AgentCall(i, StepRequest(s, i, Input(s)))]);
    NextQuiet(s, RerunAgent(i));
    RerunRequestCarries(s, i);
  }

  /**
    The successful reply of a single rerun of stage i overwrites only
    `ResultKeys[i]`; the loop is not disturbed.
   */
  lemma SingleRerun(s: State, i: int, body: Json)
    requires Inv(s) && ViewOf(s) == ResultsView && (i == 3 || i == 4)
    requires StepResult(Delivered(body)).Some?
    ensures var t1 := Next(s, RerunAgent(i));
            var t2 := Next(t1, Respond(|s.pending|, Delivered(body)));
            t2.results == s.results[ResultKeys[i] := StepResult(Delivered(body)).value]
            && t2.currentAgent == s.currentAgent && t2.pending == s.pending
  {
    SingleRerunStarts(s, i);
    NextPreservesInv(s, RerunAgent(i));
    var call := AgentCall(i, StepRequest(s, i, Input(s)));
    var t1 := Next(s, RerunAgent(i));
    var k := |s.pending|;
    assert t1.pending == s.pending + [call] && t1.pending[k] == call;
    AgentReplyApplied(t1, k, Delivered(body));
    WithoutLast(s.pending, call);
  }

  /** A reply to a single rerun goes straight to its continuation; the effect stays quiet. */
  lemma AgentReplyApplied(t: State, k: nat, outcome: Outcome)
    requires Inv(t) && k < |t.pending| && t.pending[k].AgentCall?
    ensures Next(t, Respond(k, outcome)) == Reruns.RespondAgent(t, k, outcome)
  {
    ApplyRespond(t, k, outcome);
    NextQuiet(t, Respond(k, outcome));
  }

  lemma WithoutLast(calls: seq<Call>, c: Call)
    ensures Without(calls + [c], |calls|) == calls
  {
    assert (calls + [c])[..|calls|] == calls;
  }

  /** "Reset API Keys" keeps the profile text, the spinner flag and the theme, and dispatches nothing. */
  lemma ResetKeepsTheRest(s: State)
    requires Inv(s) && s.apiError.Some?
    ensures var r := Next(s, ResetKeys);
            r.studentProfile == s.studentProfile && r.processing == s.processing && r.theme == s.theme
            && r.pending == s.pending && r.apiError.None? && r.storage == Storage(None, None)
            && !r.apiKeys.isSet && r.currentAgent == 0 && r.results == EmptyResults()
  {
  }

  /** Toggling the theme twice restores the whole session. */
  lemma ToggleTwice(s: State)
    requires Inv(s)
    ensures Next(Next(s, ToggleTheme), ToggleTheme) == s
  {
  }

  /** Blank profile text changes nothing. */
  lemma BlankSubmitIgnored(s: State)
    requires Inv(s) && ViewOf(s) == ProfileView && !s.profileLoading && Strings.AllSpace(Strings.JsSpace, s.profileText)
    ensures Next(s, SubmitProfile) == s
  {
  }
}
