# academic-crs: a Dafny model of the recommendation pipeline

academic-crs is a course recommender for students. A React front end asks for
two API keys (OpenRouter and Serper) and a free-text profile. It then drives a
FastAPI back end through five agent stages, one request per stage: normaliser,
matcher, specialist ranker, scholarships and reviews. The results page parses
the agents' text output and lets the student re-run the programs pair
(match, then rank) or a single stage with typed feedback.

This project models that core as pure Dafny:

- `Session`, `Machine`, `Pipeline`, `ProfileStep`, `ApiKeysStep` and `Reruns`
  model the browser. It is a state machine over one `State` holding the
  context values of `AppContext.jsx`, the local state of the step components,
  localStorage, and the requests in flight. Every `await` is split in two: an
  event that issues a call, and a later `Respond` event that hands an outcome
  to the continuation captured at issue time. Responses can arrive in any
  order. The `[currentAgent, profileComplete]` effect of `App.jsx` runs after
  every event and fires only when those two values changed (`RunEffect`).
- `SessionFacts` proves whole-session properties: the five-stage run, both
  reruns, and the interleavings the code allows.
- `Server` models the two routes of `main.py`. The saved model name and the
  result of every crew or LLM call are parameters: a call either succeeds
  with its raw text or raises with a message.
- `Agents` models the model-name auto-fix of `agents.py` and the task order
  of the crew.
- `ProfileHeuristics` models the regular-expression extractor of `utils.py`.
  The keyword classifiers, the country and specialisation clean-up, the
  location splitter and the completeness validator are modelled exactly. The
  capture groups of the searches are inputs (`Matches`).
- `Extraction` and `ProfileText` model the two parsers of `ResultsStep.jsx`:
  `parseAgentOutput` with the `reviews` unwrapping, and
  `parseProfileFromString`.
- `Json`, `Strings`, `Assignments` and `Wrappers` hold the JSON value type,
  the JavaScript/Python string operations, the semantics of key-by-key
  assignment, and `Option`.

`JSON.parse` and `json.loads` are a parameter `parse: string -> Option<Json>`.
JSON objects are member lists in enumeration order. Some behaviours are
surprising but are modelled as the code does them, each with a lemma that
exhibits it:

- The main loop sends `studentProfile` alone, so the ranking stage does not
  receive the matcher's output (`SessionFacts.StageRequestHasNoResults`).
- The back end's `{"error", "step"}` envelope is a normal response, so the
  loop stores `undefined` and moves to the next stage
  (`SessionFacts.ErrorEnvelopeAdvances`).
- No reply is tied to the session that sent it. A single rerun answered after
  "Reset API Keys" still writes its slot into the cleared results while the
  key form shows (`SessionFacts.LateRerunReplyAfterReset`). The rank request
  of a programs rerun carries the keys held when the button was pressed, even
  if the keys were reset meanwhile (`SessionFacts.RankKeepsClickTimeKeys`).
- "Change API Key" sets the keys to `undefined` without clearing storage or
  the pipeline. A profile reply still in flight then dispatches a stage
  without keys (`SessionFacts.DispatchWithoutKeys`). That stage is rejected
  with HTTP 422, which is not classed as a key problem, so the loop stops
  without a banner (`Server.KeylessStageStopsSilently`).
- "US" becomes "USA" but "USA" becomes "Usa", so both survive deduplication
  (`ProfileHeuristics.UsAndUsaBothKept`).
- The rerun helper builds its URL from `API_BASE_URL`, which no file
  declares. Reruns are modelled as calls that may fail, and both outcomes are
  covered.

## Model

| member | source | states |
|---|---|---|
| Json.Get | academic_crs/src/components/ResultsStep.jsx:253 | A member read finds a pair with that name holding the returned value; absent means no pair has the name |
| Assignments.AssignAllLookup | academic_crs_backend/main.py:116-118 | After key-by-key assignment a key is present iff it was before or some pair wrote it, and it holds the value of the last pair that wrote it |
| Assignments.LastForFound | academic_crs_backend/main.py:116-118 | A key has a last writer exactly when some pair has that key, and the value found is one of the pairs' |
| Strings.JoinSplit | academic_crs/src/components/ResultsStep.jsx:194-196 | Splitting at a separator and joining the pieces back gives the original string |
| Strings.SplitJoin | academic_crs/src/components/ResultsStep.jsx:194-196 | Splitting a join of separator-free pieces gives the pieces back |
| Strings.TrimAround | academic_crs/src/components/ResultsStep.jsx:196 | Trimming removes exactly the surrounding whitespace and keeps the inner text |
| Strings.RemoveAllAbsent | academic_crs/src/components/ResultsStep.jsx:195 | Removing every occurrence of a pattern that does not occur changes nothing |
| Strings.Title | academic_crs_backend/utils.py:177 | Title-casing keeps every character up to case; a letter is upper-case exactly when it starts a word, and other characters are unchanged |
| Agents.AutoPrefix | academic_crs_backend/agents.py:22-24 | A name is given the router prefix exactly when it lacks it, has a slash and does not mention gpt; otherwise it is unchanged |
| Agents.AutoPrefixIdempotent | academic_crs_backend/agents.py:345-347 | Applying the auto-fix to its own output changes nothing |
| Agents.RoutedIsFixed | academic_crs_backend/agents.py:22-24 | A name that already carries the router prefix is left as it is |
| Agents.DefaultsAreFixedPoints | academic_crs_backend/agents.py:340 | Both factories' default model names pass the auto-fix unchanged |
| Agents.BareNameRouted | academic_crs_backend/agents.py:22-24 | Example: the bare name "mistralai/devstral" gets the router prefix |
| Agents.GptNameNotRouted | academic_crs_backend/agents.py:345-347 | Example: "openai/gpt-4o" mentions gpt and is left as it is |
| Agents.CrewModel | academic_crs_backend/agents.py:7-24 | The crew uses its default model without an override, and the auto-fixed override otherwise |
| Agents.ExtractorModel | academic_crs_backend/agents.py:338-347 | The extractor uses its own default without an override, and the auto-fixed override otherwise |
| Agents.TaskOrderMatchesResultKeys | academic_crs_backend/agents.py:322-328 | The crew's task i is the stage whose output the browser files under result key i |
| ApiKeysStep.SaveKeys | academic_crs/src/components/ApiKeysStep.jsx:10-16 | Saving with either field empty shows the error and changes no key; otherwise both keys are set verbatim and persisted, and nothing else changes |
| ApiKeysStep.BlankKeysAccepted | academic_crs/src/components/ApiKeysStep.jsx:11 | Whitespace-only keys pass the form's check, because it does not trim |
| Session.KeyAt | academic_crs/src/App.jsx:42-43 | An index in range names its result slot; any other index names a member outside the five slots |
| Session.EmptyResults | academic_crs/src/context/AppContext.jsx:47-53 | The result map starts with exactly the five slots, all null |
| Session.Init | academic_crs/src/context/AppContext.jsx:7-15 | A page load counts the keys as set iff both stored keys are non-empty, and starts with no profile, stage 0 and empty results |
| Session.SetApiKeys | academic_crs/src/context/AppContext.jsx:56-61 | Setting keys persists them exactly when they are marked set; nothing else changes |
| Session.ResetApiKeys | academic_crs/src/context/AppContext.jsx:17-34 | Reset forgets both keys in memory and in storage and restarts the pipeline; the profile and all else stay |
| Session.ToggleTheme | academic_crs/src/context/AppContext.jsx:43-45 | Toggling always changes the theme |
| Session.ToggleThemeInvolution | academic_crs/src/context/AppContext.jsx:43-45 | Toggling twice restores the theme |
| Session.ViewOf | academic_crs/src/App.jsx:73-83 | Exactly one step is shown: keys when they are not set, then the profile, then the agents screen before stage 3, then the results |
| Session.PersistedKeysReload | academic_crs/src/context/AppContext.jsx:7-15 | Keys saved and persisted are what the next page load starts with, marked set |
| Session.ResetForgetsKeys | academic_crs/src/context/AppContext.jsx:17-19 | After a reset the next page load asks for keys again |
| Session.Without | academic_crs/src/App.jsx:39 | Removing the answered call keeps every other call, in order |
| Pipeline.StageRequest | academic_crs/src/App.jsx:39 | A stage request carries the current step, `studentProfile` and the two stored keys |
| Pipeline.RunEffect | academic_crs/src/App.jsx:33-69 | The effect does nothing unless its dependencies changed; then it dispatches the current stage iff the profile is complete and fewer than five stages ran, or stops the spinner at stage 5 |
| Pipeline.RunEffectIdempotent | academic_crs/src/App.jsx:69 | Running the effect again for the same dependencies changes nothing |
| Pipeline.ResultOf | academic_crs/src/App.jsx:40 | `res?.result` is defined only for an object body with a `result` member, and then it is that member |
| Pipeline.ErrorMessage | academic_crs/src/App.jsx:52 | The message is never empty: the error's own message if it has one, else "Unknown error" |
| Pipeline.IsAuthError | academic_crs/src/App.jsx:52-60 | A message is a key problem iff it contains one of the six markers "401", "403", "unauthorized", "invalid", "API" and "key", case-sensitively |
| Pipeline.AuthErrorInContext | academic_crs/src/App.jsx:53-60 | A key problem stays one whatever text surrounds its message |
| Pipeline.MissingMarkerCharsNotAuth | academic_crs/src/App.jsx:53-60 | A message lacking a character of every marker is not a key problem |
| Pipeline.UnknownErrorIsNotAuth | academic_crs/src/App.jsx:52-60 | An error without a message never raises the banner |
| Pipeline.TransportErrorsClassified | academic_crs/src/App.jsx:53-60 | An HTTP 401 from axios raises the banner and a plain network failure does not |
| Pipeline.RespondStage | academic_crs/src/App.jsx:38-63 | Any response stores `res?.result` for the captured stage and advances one stage; a thrown error only stops the spinner and raises the banner iff the message is a key problem |
| Pipeline.ResetButton | academic_crs/src/App.jsx:160-164 | "Reset API Keys" is the context reset plus closing the banner |
| Pipeline.Dismiss | academic_crs/src/App.jsx:178-179 | "Dismiss" closes the banner and changes nothing else |
| Reruns.Input | academic_crs/src/components/ResultsStep.jsx:140 | The rerun input has the profile members, the result slots and the feedback; slots hide profile members and the typed feedback wins |
| Reruns.Wire | academic_crs/src/components/ResultsStep.jsx:83-88 | The encoded body keeps exactly the defined members, with their values |
| Reruns.StepRequest | academic_crs/src/components/ResultsStep.jsx:77-89 | The helper's request carries the given step and the encoded input |
| Reruns.StepResult | academic_crs/src/components/ResultsStep.jsx:90-92 | The helper fails on a thrown call, on a null body and on an object with a truthy `error` member; any other object gives its `result` member, and a body that is neither null nor an object gives `undefined` |
| Reruns.ErrorEnvelopeThrows | academic_crs/src/components/ResultsStep.jsx:91 | The back end's error envelope with a non-empty message always makes the helper throw |
| Reruns.RerunPrograms | academic_crs/src/components/ResultsStep.jsx:96-112 | Ignored while loading; otherwise clears both program slots, starts loading and issues the match request with the input captured before the clear |
| Reruns.RespondMatch | academic_crs/src/components/ResultsStep.jsx:111-119 | A failed match only ends loading; a good one stores the match and issues the rank request with the fresh match in the captured input and with the match request's keys, which are those held at the click |
| Reruns.FollowUp | academic_crs/src/components/ResultsStep.jsx:77-89 | A follow-up request carries its own step and encoded input, and the keys of the request it follows |
| Reruns.RespondRank | academic_crs/src/components/ResultsStep.jsx:119-134 | The rank reply ends loading and, on success, writes both program slots together; on failure the slots stay as they are |
| Reruns.RerunAgent | academic_crs/src/components/ResultsStep.jsx:137-141 | A single rerun only issues one request, whatever is in flight: there is no loading guard |
| Reruns.RerunRequestCarries | academic_crs/src/components/ResultsStep.jsx:140-141 | The single rerun's request has its own step, the stored keys, the typed feedback and every defined slot; undefined slots are not sent |
| Reruns.RespondAgent | academic_crs/src/components/ResultsStep.jsx:141-164 | A single rerun's reply overwrites only its own slot on success and no slot on failure |
| ProfileStep.AppendTranscript | academic_crs/src/components/ProfileStep.jsx:76 | The final transcript is appended after the old text, separated by one space exactly when the old text is non-empty and does not end in a space |
| ProfileStep.TypeText | academic_crs/src/components/ProfileStep.jsx:76 | Typing replaces the text and nothing else |
| ProfileStep.SpeechFinal | academic_crs/src/components/ProfileStep.jsx:75-77 | An empty transcript changes nothing; otherwise the text keeps its old start and ends with the transcript |
| ProfileStep.SubmitProfile | academic_crs/src/components/ProfileStep.jsx:84-94 | Whitespace-only text sends nothing; otherwise the form starts loading and sends the text |
| ProfileStep.Member | academic_crs/src/components/ProfileStep.jsx:106-117 | A member read is defined exactly on an object with that member, and gives its value |
| ProfileStep.OrDefault | academic_crs/src/components/ProfileStep.jsx:106-117 | `x.k || fallback` is the member when truthy and the fallback otherwise |
| ProfileStep.BuildProfile | academic_crs/src/components/ProfileStep.jsx:105-118 | The built profile has exactly the twelve fields, in order, each the extracted value or its default |
| ProfileStep.BuildProfileDropsExtras | academic_crs/src/components/ProfileStep.jsx:105-118 | A member outside the twelve never reaches the profile |
| ProfileStep.RespondProfile | academic_crs/src/components/ProfileStep.jsx:94-127 | A failure, a null body or a truthy `missing_info` only end loading; otherwise the profile is the submitted text plus the built profile, and it is complete |
| ProfileStep.ChangeApiKey | academic_crs/src/components/ProfileStep.jsx:136 | "Change API Key" makes both keys undefined and leaves storage, profile and pipeline alone |
| Machine.Start | academic_crs/src/App.jsx:33-69 | The first rendered state has stage 0, no profile, nothing in flight and empty results |
| Machine.StartInv | academic_crs/src/App.jsx:33-69 | The first rendered state satisfies the session invariant |
| Machine.ApplyRespond | academic_crs/src/App.jsx:39 | A response is handled by the continuation of the call it answers |
| Machine.RespondKeepsShape | academic_crs/src/components/ResultsStep.jsx:112-157 | Every continuation keeps the result slots and the calls in flight well formed and leaves the effect's dependencies alone |
| Machine.ApplyKeepsShape | academic_crs/src/App.jsx:33-69 | Every event keeps the state well formed and leaves the effect's record of its last run alone |
| Machine.NextQuiet | academic_crs/src/App.jsx:69 | An event that changes neither `currentAgent` nor `profileComplete` does not wake the effect |
| Machine.NextPreservesInv | academic_crs/src/App.jsx:33-69 | Every enabled event followed by the effect preserves the session invariant |
| SessionFacts.StageRequestHasNoResults | academic_crs/src/App.jsx:39 | A stage request carries no stage result, in particular no `matched_programs` for the ranking stage |
| SessionFacts.DispatchRule | academic_crs/src/App.jsx:33-35 | After any event a stage is dispatched iff the event changed a dependency and the profile is complete with fewer than five stages done; the call is for the current stage |
| SessionFacts.ThrownStageHalts | academic_crs/src/App.jsx:47-63 | A thrown stage call keeps the stage and results, stops the spinner, dispatches nothing, and raises the banner iff the message is a key problem |
| SessionFacts.DeliveredStageAdvances | academic_crs/src/App.jsx:39-46 | Any stage response stores its result, advances one stage and dispatches the next while fewer than five are done |
| SessionFacts.ErrorEnvelopeAdvances | academic_crs_backend/main.py:182-186 | The error envelope leaves the slot undefined and still advances the loop |
| SessionFacts.StagesRunToEnd | academic_crs/src/App.jsx:33-69 | Answering the remaining stages finishes the run: stage 5, nothing in flight, spinner off, keys unchanged, and the results are the replies filed in order |
| SessionFacts.FilledSlots | academic_crs/src/App.jsx:39-43 | Filing the replies in order puts each stage's reply under its own key and leaves the earlier slots untouched |
| SessionFacts.FullSession | academic_crs/src/components/ProfileStep.jsx:103-121 | An accepted profile followed by five stage replies ends on the results view with every reply in its slot |
| SessionFacts.LateRerunReplyAfterReset | academic_crs/src/components/ResultsStep.jsx:137-157 | A key error in stage 3 or 4 leaves the banner over the results; a single rerun pressed there and answered after "Reset API Keys" writes its slot into the cleared results while the key form shows |
| SessionFacts.DispatchWithoutKeys | academic_crs/src/components/ProfileStep.jsx:136 | A profile reply that lands after "Change API Key" dispatches stage 0 with both keys absent |
| SessionFacts.ProgramsRerunStarts | academic_crs/src/components/ResultsStep.jsx:96-112 | Pressing "Rerun Programs" clears both program slots and sends the match request with the input captured before the clear |
| SessionFacts.MatchReplyFeedsRank | academic_crs/src/components/ResultsStep.jsx:115-119 | A good match reply is stored and the rank request carries it, with the keys of the match request |
| SessionFacts.RankReplyCommits | academic_crs/src/components/ResultsStep.jsx:122-133 | A good rank reply writes both program slots at once and ends loading |
| SessionFacts.RankSeesFreshMatch | academic_crs/src/components/ResultsStep.jsx:118 | The rank request carries the fresh match result, not the cleared or the old one |
| SessionFacts.RankKeepsClickTimeKeys | academic_crs/src/components/ResultsStep.jsx:77-89 | A reset while the match runs clears the stored keys, yet the rank request sent after the match reply carries the keys held at the click |
| SessionFacts.ProgramsRerun | academic_crs/src/components/ResultsStep.jsx:96-135 | A full programs rerun ends with the new pair in the program slots, every other slot unchanged and nothing in flight |
| SessionFacts.SlotsOverwritten | academic_crs/src/components/ResultsStep.jsx:105-126 | Clearing the program slots and then writing them leaves no trace of the clearing |
| SessionFacts.ProgramsMatchFailure | academic_crs/src/components/ResultsStep.jsx:111-134 | A failed match leaves both program slots cleared, issues no rank request and ends loading |
| SessionFacts.ProgramsRankFailure | academic_crs/src/components/ResultsStep.jsx:118-134 | A failed rank after a good match leaves the new match stored, the rank slot cleared, nothing in flight and loading ended |
| SessionFacts.ProgramsRerunIgnoredWhileLoading | academic_crs/src/components/ResultsStep.jsx:97 | Pressing "Rerun Programs" while it is loading does nothing |
| SessionFacts.SingleRerunStarts | academic_crs/src/components/ResultsStep.jsx:521-525 | A single-rerun button issues exactly the helper's request for its stage, with the typed feedback |
| SessionFacts.SingleRerun | academic_crs/src/components/ResultsStep.jsx:137-157 | A good single-rerun reply overwrites only that stage's slot and does not disturb the loop |
| SessionFacts.AgentReplyApplied | academic_crs/src/components/ResultsStep.jsx:154-157 | A single-rerun reply goes straight to its continuation and does not wake the effect |
| SessionFacts.ResetKeepsTheRest | academic_crs/src/App.jsx:160-164 | "Reset API Keys" forgets keys and results and restarts at stage 0, but keeps the profile, the spinner flag and the theme, and dispatches nothing |
| SessionFacts.ToggleTwice | academic_crs/src/App.jsx:99-100 | Pressing the theme button twice restores the whole session |
| SessionFacts.BlankSubmitIgnored | academic_crs/src/components/ProfileStep.jsx:85 | Submitting blank text changes nothing |
| Extraction.FenceIsRun | academic_crs/src/components/ResultsStep.jsx:217 | The code fence is a run of three backticks |
| Extraction.CleanFences | academic_crs/src/components/ResultsStep.jsx:217 | The cleaned text is trimmed and holds no code fence |
| Extraction.Enclosed | academic_crs/src/components/ResultsStep.jsx:227-231 | A slice is found iff the opener occurs and the last closer comes after the first opener; it starts with the opener and ends with the closer |
| Extraction.ParseAgentOutput | academic_crs/src/components/ResultsStep.jsx:211-245 | No output gives null; a parsed value is the cleaned text's, else the bracketed slice's, else, with no bracketed slice, the braced slice's; text comes back, as the raw output, only when every applicable parse failed |
| Extraction.ClosingFence | academic_crs/src/components/ResultsStep.jsx:217 | A closing fence after backtick-free text is removed and nothing else is |
| Extraction.CleanTaggedFence | academic_crs/src/components/ResultsStep.jsx:217 | A json-tagged fenced block cleans to its trimmed body |
| Extraction.CleanBareFence | academic_crs/src/components/ResultsStep.jsx:217 | A bare fenced block cleans to its trimmed body |
| Extraction.FencedRoundTrip | academic_crs/src/components/ResultsStep.jsx:214-221 | Wrapping parseable text in a code fence, tagged or not, parses back to the same value |
| Extraction.BracketFallback | academic_crs/src/components/ResultsStep.jsx:224-231 | When the whole text does not parse, the bracketed slice is what gets parsed, and its failure gives the raw text |
| Extraction.BraceFallback | academic_crs/src/components/ResultsStep.jsx:233-238 | With no bracketed slice, a braced block is what gets parsed |
| Extraction.ProseFallback | academic_crs/src/components/ResultsStep.jsx:239-243 | Prose with no bracket or brace that does not parse comes back unchanged |
| Extraction.FirstArrayIndex | academic_crs/src/components/ResultsStep.jsx:257 | The index found is the first array-valued member, or -1 when there is none |
| Extraction.ReviewsMember | academic_crs/src/components/ResultsStep.jsx:253 | The `reviews` member is taken exactly when it is an array |
| Extraction.UnwrapReviews | academic_crs/src/components/ResultsStep.jsx:252-260 | Only a parsed object is unwrapped, always to one of its own array members, and a `reviews` array is preferred |
| Extraction.UnwrapReviewsIdempotent | academic_crs/src/components/ResultsStep.jsx:252-260 | Unwrapping twice is the same as unwrapping once |
| Extraction.UnwrapTakesFirstArray | academic_crs/src/components/ResultsStep.jsx:257-258 | Without a `reviews` array the first array-valued member in enumeration order is taken |
| ProfileText.NormalizeKey | academic_crs/src/components/ResultsStep.jsx:195 | A normalised key holds no space, no bold marker and no upper-case letter, and neither starts nor ends with whitespace |
| ProfileText.NormalizeKeyIdempotent | academic_crs/src/components/ResultsStep.jsx:195 | Normalising a normalised key changes nothing |
| ProfileText.ValueKeepsLaterColons | academic_crs/src/components/ResultsStep.jsx:194-196 | The value is everything after the first colon, later colons included |
| ProfileText.SplitLocations | academic_crs/src/components/ResultsStep.jsx:200 | There is one trimmed, comma-free location per comma-separated piece, empty pieces included |
| ProfileText.ParseLine | academic_crs/src/components/ResultsStep.jsx:193-204 | A line contributes iff it has a colon, the text before the first colon normalises to a key that is non-empty and not `__proto__`, and the rest trims to a value that is neither empty nor "not specified"; the locations key gets a list |
| ProfileText.EntriesComeFromLines | academic_crs/src/components/ResultsStep.jsx:191-192 | Every entry is what some line of the text parses to |
| ProfileText.ParseProfileFromString | academic_crs/src/components/ResultsStep.jsx:189-208 | Every key of the parsed profile is non-empty and space-free, and its entry is what some line of the text parses to |
| ProfileText.ProfileKeysFromLines | academic_crs/src/components/ResultsStep.jsx:189-208 | A key is in the parsed profile iff some line contributes it, and it holds what the last such line says |
| ProfileText.LaterLineWins | academic_crs/src/components/ResultsStep.jsx:198-203 | A contributing line overwrites whatever earlier lines said about its key |
| ProfileText.SilentLineIgnored | academic_crs/src/components/ResultsStep.jsx:193 | A line that contributes nothing leaves the profile as it was |
| ProfileHeuristics.InferAcademicLevel | academic_crs_backend/utils.py:6-40 | The level is high school for a high-school keyword without a bachelor's mention, else the first of undergraduate, postgraduate and working whose keywords occur, else none |
| ProfileHeuristics.InferLevelIgnoresCase | academic_crs_backend/utils.py:8 | The level does not depend on letter case |
| ProfileHeuristics.MbaReadsAsUndergraduate | academic_crs_backend/utils.py:11-31 | A text mentioning "mba " reads as undergraduate unless it reads as high school, because "ba " is an undergraduate keyword checked before the postgraduate ones |
| ProfileHeuristics.BTechIsUndergraduate | academic_crs_backend/utils.py:16-24 | A B.Tech mentioned anywhere makes the text undergraduate |
| ProfileHeuristics.ExtractBoard | academic_crs_backend/utils.py:60-72 | The board is one of the five names; each board is chosen iff one of its keywords occurs in the lower-cased text and no keyword of a board earlier in the order CBSE, ICSE, State Board, HSC, PUC does; none iff no board keyword occurs |
| ProfileHeuristics.BoardIgnoresCase | academic_crs_backend/utils.py:61 | Board detection does not depend on letter case |
| ProfileHeuristics.HigherSecondaryBoardIsHighSchool | academic_crs_backend/utils.py:11-17 | A text mentioning the HSC board and no bachelor's degree reads as high school |
| ProfileHeuristics.SplitSeparators | academic_crs_backend/utils.py:229 | Splitting at commas and whole-word "and" gives at least one piece, none with a comma |
| ProfileHeuristics.SingleSplit | academic_crs_backend/utils.py:229 | A string with no separator match anywhere splits into itself alone |
| ProfileHeuristics.SplitAtSeparator | academic_crs_backend/utils.py:229 | For any strings a and b, splitting a + "," + b, or a + "and" + b when no word character touches the "and", gives the pieces of a followed by the pieces of b |
| ProfileHeuristics.StripNonEmpty | academic_crs_backend/utils.py:230 | The kept pieces are non-empty and stripped of Python whitespace, and every piece that strips to something is kept |
| ProfileHeuristics.StripNonEmptySound | academic_crs_backend/utils.py:230 | Every kept piece is the stripped form of one of the pieces |
| ProfileHeuristics.LocationPiecesShape | academic_crs_backend/utils.py:229-230 | Every location piece is non-empty, stripped and free of commas |
| ProfileHeuristics.CleanLocations | academic_crs_backend/utils.py:223-232 | A falsy value gives none, a list is kept, other non-strings give none, and a string gives its stripped pieces |
| ProfileHeuristics.LocationStringCleaned | academic_crs_backend/utils.py:228-231 | A location string gives none iff every piece strips to nothing; otherwise the list is the stripped non-empty pieces and holds every piece that survives stripping |
| ProfileHeuristics.SingleLocation | academic_crs_backend/utils.py:228-231 | A string with no separator is kept whole, stripped, unless it strips to nothing |
| ProfileHeuristics.RequiredFor | academic_crs_backend/utils.py:283-296 | The high-school questions apply exactly to high-school profiles |
| ProfileHeuristics.MissingFrom | academic_crs_backend/utils.py:298-303 | A question is asked iff its field is absent or blank, in the table's order |
| ProfileHeuristics.ValidateCompleteness | academic_crs_backend/utils.py:262-303 | The missing questions are those of the level's table whose fields are absent or blank, in order; none iff all are filled |
| ProfileHeuristics.HighSchoolAskedForBoard | academic_crs_backend/utils.py:285-301 | A high-school profile without a board is asked for it |
| ProfileHeuristics.HighSchoolNotAskedForCgpa | academic_crs_backend/utils.py:285-294 | A high-school profile is never asked for a CGPA |
| ProfileHeuristics.TitleIgnoresCase | academic_crs_backend/utils.py:177 | Title-casing does not depend on the case of its input |
| ProfileHeuristics.NormalizeCountry | academic_crs_backend/utils.py:170-177 | "US" in any case becomes "USA", "UK" in any case becomes "United Kingdom", and any other match is title-cased; the result is non-empty iff the match is, and outside US/UK keeps its letters up to case |
| ProfileHeuristics.CountryIgnoresCase | academic_crs_backend/utils.py:171-177 | The country a match denotes does not depend on its capitalisation |
| ProfileHeuristics.FirstOccurrences | academic_crs_backend/utils.py:178-179 | The kept names have no duplicates and are exactly the names present |
| ProfileHeuristics.CleanCountries | academic_crs_backend/utils.py:165-180 | The cleaned list has no duplicates and holds exactly the names some match contributes |
| ProfileHeuristics.CleanCountriesGrows | academic_crs_backend/utils.py:167-179 | Names are only appended: the list from the first matches is a prefix of the final list |
| ProfileHeuristics.UsAndUsaBothKept | academic_crs_backend/utils.py:172-177 | "US" and "USA" both survive, as "USA" and "Usa" |
| ProfileHeuristics.CanonicalSpecialization | academic_crs_backend/utils.py:188-198 | The specialisation is stripped and is either one of the four canonical names or the stripped match itself |
| ProfileHeuristics.Canonical | academic_crs_backend/utils.py:190-198 | A stripped match is replaced only by a canonical name, and stays stripped |
| ProfileHeuristics.MachineLearningSpelling | academic_crs_backend/utils.py:189-192 | Either spelling of machine learning, in any case and padding, becomes "Machine Learning" |
| ProfileHeuristics.ArtificialIntelligenceSpelling | academic_crs_backend/utils.py:193-194 | "ai" in any case and padding becomes "Artificial Intelligence" |
| ProfileHeuristics.ComputerScienceSpelling | academic_crs_backend/utils.py:195-196 | Either spelling of computer science becomes "Computer Science" |
| ProfileHeuristics.ElectronicsSpelling | academic_crs_backend/utils.py:197-198 | Either spelling of electronics becomes "Electronics and Communication" |
| ProfileHeuristics.OnlySpellingsGiveMachineLearning | academic_crs_backend/utils.py:189-199 | "Machine Learning" comes out only for its two spellings or for a match that already reads so |
| ProfileHeuristics.CanonicalSpecializationIdempotent | academic_crs_backend/utils.py:189-199 | Canonicalising a canonical name changes nothing |
| ProfileHeuristics.NormalizeYear | academic_crs_backend/utils.py:136-138 | A two-character year becomes four characters starting with "20" and ending with it; any other is just stripped |
| ProfileHeuristics.NormalizeYearIdempotent | academic_crs_backend/utils.py:136-138 | Normalising a normalised year changes nothing |
| ProfileHeuristics.SeparatorPaddedYear | academic_crs_backend/utils.py:136-138 | A two-character year behind a U+001C separator, which Python strips, is still read as 20yy |
| ProfileHeuristics.Put | academic_crs_backend/utils.py:115-116 | A field is set exactly when there is a value, and every other field is kept |
| ProfileHeuristics.StudyInfo | academic_crs_backend/utils.py:110-143 | The study part fills only name, degree, year and CGPA |
| ProfileHeuristics.StudyName | academic_crs_backend/utils.py:115-116 | The name is recorded exactly when it matched |
| ProfileHeuristics.StudyYear | academic_crs_backend/utils.py:127-139 | The year is recorded exactly when one of the two year searches matched, normalised |
| ProfileHeuristics.PlanInfo | academic_crs_backend/utils.py:146-199 | The plan part fills only goal, budget, countries and specialisation |
| ProfileHeuristics.PlanLocations | academic_crs_backend/utils.py:165-180 | Countries are recorded exactly when the search found any, cleaned and deduplicated |
| ProfileHeuristics.PlanSpecialization | academic_crs_backend/utils.py:188-199 | The specialisation is recorded exactly when it matched, canonicalised |
| ProfileHeuristics.MatchedInfo | academic_crs_backend/utils.py:110-199 | The search-based fields are all kept together |
| ProfileHeuristics.ClassifiedInfo | academic_crs_backend/utils.py:201-218 | The level, board, Class 12 score and exams are recorded exactly when the helper gives a truthy value |
| ProfileHeuristics.ExtractInfo | academic_crs_backend/utils.py:101-220 | The extracted fields are among the known ones, and the classifier fields are kept |
| ProfileHeuristics.MatchedFieldsKept | academic_crs_backend/utils.py:101-220 | No field comes from both groups, so every search-based field survives |
| ProfileHeuristics.ExtractedLevel | academic_crs_backend/utils.py:202-204 | The level is recorded exactly when the text classifies, under its snake-case name |
| ProfileHeuristics.ExtractedShortYear | academic_crs_backend/utils.py:136-139 | A two-digit year is recorded as a four-character year starting with "20" |
| Server.WithFallback | academic_crs_backend/main.py:163-170 | The primary key is tried first; the backup is tried iff the primary raised and a backup is given; the answer is the last attempt's |
| Server.FallbackRaisesOnlyIfAllRaise | academic_crs_backend/main.py:101-110 | The call raises only when every key it tried raised; without a backup it is the primary's own outcome |
| Server.ModelOverride | academic_crs_backend/main.py:130-133 | The saved model name is passed on exactly when it is truthy |
| Server.AdminModelName | academic_crs_backend/main.py:68-71 | The admin page shows the saved name when truthy, else the default label |
| Server.ReportedNameIsUsed | academic_crs_backend/main.py:68-71 | With a saved name, both factories use the name the admin page reports, after the auto-fix; without one the page shows the placeholder label while each factory uses its own default |
| Server.TaskAt | academic_crs_backend/main.py:143 | A step selects a task iff it is a valid Python index of the five tasks |
| Server.NegativeStepAliases | academic_crs_backend/main.py:143 | A negative step names the same task as the step five higher |
| Server.StepSelectsResultKey | academic_crs_backend/main.py:143 | Each step the browser sends selects the task whose output it files under that step's key |
| Server.FeedbackInput | academic_crs_backend/main.py:159 | The crew always receives truthy feedback: the profile's own when truthy, else "None" |
| Server.RunAgent | academic_crs_backend/main.py:126-186 | The route never raises; a bad step gives the index error envelope; it answers a result iff the primary or the given backup succeeded |
| Server.KickoffCarriesRequest | academic_crs_backend/main.py:128-161 | Every kickoff carries the key, the Serper key, the configured model, the selected task, the profile and its feedback |
| Server.PrimarySuccessWins | academic_crs_backend/main.py:163-164 | A first attempt that succeeds is the answer |
| Server.BackupDecides | academic_crs_backend/main.py:165-168 | With a backup, a failed first attempt is answered by the second alone |
| Server.ResultReplyReadsBack | academic_crs_backend/main.py:181 | A success reply's output is what the stage loop and the rerun helper both read back |
| Server.ErrorReplyReadsBack | academic_crs_backend/main.py:186 | The error envelope is undefined to the loop and a failure to the rerun helper, unless its message is empty |
| Server.Serve | academic_crs_backend/main.py:40-45 | A request without both keys is rejected with HTTP 422; any other is answered with an object |
| Server.NoMarkerChars | academic_crs/src/App.jsx:53-60 | A message lacking the characters 0, z, v, A and k is not a key problem |
| Server.UnprocessableIsNotAuth | academic_crs/src/App.jsx:53-60 | The 422 rejection is not classed as a key problem |
| Server.KeylessStageStopsSilently | academic_crs/src/App.jsx:47-63 | A stage sent without keys stops the loop with no banner and untouched results |
| Server.KeyedStageAdvances | academic_crs/src/App.jsx:39-46 | A stage sent with keys always advances the loop, storing the output or `undefined` |
| Server.StageRunsWithoutFeedback | academic_crs_backend/main.py:159 | The main loop's stages always run with the literal feedback "None" |
| Server.RerunFeedbackReachesCrew | academic_crs_backend/main.py:159 | A rerun's feedback reaches the crew as typed, or as "None" when empty |
| Server.Overrides | academic_crs_backend/main.py:116-118 | The overriding members are exactly the filled ones, in order |
| Server.MergeLlmProfile | academic_crs_backend/main.py:113-120 | Only an object reply changes the profile |
| Server.MergeLookup | academic_crs_backend/main.py:113-120 | After the merge a key is present iff found by the regexes or filled by the LLM; a filled LLM value wins, and a key left blank keeps the regex value |
| Server.ExtractProfileRoute | academic_crs_backend/main.py:82-122 | The route raises iff the primary attempt raised and no backup was given or the backup raised too |
| Server.RegexFieldsSurvive | academic_crs_backend/main.py:92-122 | Every field the regexes found is in the answer, whatever the LLM said |
| Server.UnparsedOutputKeepsRegexProfile | academic_crs_backend/main.py:112-120 | When the LLM output is not a JSON object, the answer is the regex extraction alone |

## Left out

- Rendering is not modelled, nor `Typewriter`, `PillNav`, `AgentsStep`, the markdown renderer, the background and the `document.body` class. The model only computes which step is shown (`Session.ViewOf`).
- The question-and-answer feature is not modelled: the `/qa` route, `handleAskQuestion`, `askQuestion` and `qaHistory`. It is outside the pipeline.
- Speech recognition is modelled only as final transcripts appended to the text (ProfileStep.jsx line 76). Interim text, start and stop are display state.
- The admin model selector components (both `AdminModelSelector.jsx` files) and `POST /admin/model-name` are not modelled. The saved name is a parameter of every route. `config.json`, environment variables, console output and the CORS setup are I/O.
- A saved `model_name` that is not a string is not modelled. The saved name is an optional string.
- `build_system_instruction`, the prompt texts, the tools and the temperature are not modelled. They only shape the LLM calls, which are parameters.
- The crew kickoff and the LLM extractor are not modelled. Each call is a parameter that succeeds with raw text or raises with a message. `raw_result` is assumed to be that text.
- The regular-expression searches of `extract_info_from_text` are not modelled as pattern matching. Their capture groups are an input (`Matches`), and everything done with them is modelled. `_extract_class12_score` and `_extract_competitive_exams` are likewise inputs.
- The 800 ms delay before `currentAgent` advances is taken as immediate. The advance is relative to the value at that moment, as `prev => prev + 1` is.
- JavaScript `trim` and Python `strip` are modelled with their ASCII whitespace sets: both strip space, tab, line feed, vertical tab, form feed and carriage return, and Python's `strip` also strips U+001C to U+001F. Non-ASCII whitespace is outside the model, and so are non-ASCII letters for `toLowerCase`, `lower`, `upper`, `title` and `\w`.
- Extraction.UnwrapReviews: JavaScript enumerates integer-like member names first, in ascending order. The model takes the member order as given by the `parse` parameter and assumes that parameter produces it.
- JSON objects with duplicate member names are not modelled separately. A member read takes the first pair with that name. JavaScript and Python would take the last.
- Local component state (feedback text, form fields, loading flags) is kept across the whole session. A component remount would reset it in the browser.
- `alert` and `console` calls are not modelled. They do not change state.
- The `fetch` call of the rerun helper is modelled as a request that may fail or answer. In the code its URL uses an undeclared `API_BASE_URL`, which makes every rerun throw before sending.
- ProfileText.ParseProfileFromString and ProfileHeuristics.ValidateCompleteness are modelled although nothing in the code calls them.
- ProfileHeuristics.ExtractInfo: the contract states which fields can appear and that the classifier fields are kept. The per-field lemmas give the rest.
- Server.ExtractProfileRoute: the contract states only when the route raises. The merged profile is stated by `Server.MergeLookup`, `Server.RegexFieldsSurvive` and `Server.UnparsedOutputKeepsRegexProfile`.
