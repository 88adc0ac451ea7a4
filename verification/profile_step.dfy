/**
  ProfileStep.jsx: composing the profile text, submitting it for extraction,
  building `studentProfile` from the reply, and "Change API Key".
 */
module ProfileStep {
  import opened Wrappers
  import opened Strings
  import opened Json
  import opened Session

  /**
    Joining a final speech transcript onto the text: a space goes between
    them only when the text is non-empty and does not already end in one.
   */
  function AppendTranscript(prev: string, final: string): (r: string)
    ensures StartsWith(r, prev) && EndsWith(r, final)
    ensures |r| == |prev| + |final| || |r| == |prev| + |final| + 1
    ensures |r| == |prev| + |final| + 1 <==> prev != "" && prev[|prev| - 1] != ' '
    ensures |r| == |prev| + |final| + 1 ==> r[|prev|] == ' '
  {
    var sep := if prev != "" && !EndsWith(prev, " ") then " " else "";
    assert prev != "" ==> (EndsWith(prev, " ") <==> prev[|prev| - 1] == ' ');
    var r := prev + sep + final;
    assert r[..|prev|] == prev;
    assert r[|r| - |final|..] == final;
    r
  }

  /** Typing into the text area. */
  function TypeText(s: State, text: string): (r: State)
    ensures r.profileText == text && r.(profileText := s.profileText) == s
  {
    s.(profileText := text)
  }

  /** A final speech result: appended only when non-empty. */
  function SpeechFinal(s: State, transcript: string): (r: State)
    ensures transcript == "" ==> r == s
    ensures transcript != "" ==> StartsWith(r.profileText, s.profileText) && EndsWith(r.profileText, transcript)
    ensures r.(profileText := s.profileText) == s
  {
    if transcript == "" then s else s.(profileText := AppendTranscript(s.profileText, transcript))
  }

  /**
    `handleSubmit`, up to its await: blank text is rejected before any
    request; otherwise the form starts loading and sends the text.
   */
  function SubmitProfile(s: State): (r: State)
    ensures AllSpace(JsSpace, s.profileText) ==> r == s
    ensures !AllSpace(JsSpace, s.profileText) ==>
              r == s.(profileLoading := true, pending := s.pending + [ProfileCall(s.profileText)])
  {
    if Trim(JsSpace, s.profileText) == "" then s
    else s.(profileLoading := true, pending := s.pending + [ProfileCall(s.profileText)])
  }

  /** `x.k` for a decoded JSON value; only objects have members of these names. */
  function Member(x: Json, k: string): (v: JsVal)
    ensures v.Def? <==> x.JObj? && Get(x.fields, k).Some?
    ensures v.Def? ==> v.json == Get(x.fields, k).value
  {
    if x.JObj? && Get(x.fields, k).Some? then Def(Get(x.fields, k).value) else Undefined
  }

  /** `x.k || fallback`. */
  function OrDefault(x: Json, k: string, fallback: Json): (v: Json)
    ensures Truthy(Member(x, k)) ==> v == Member(x, k).json
    ensures !Truthy(Member(x, k)) ==> v == fallback
  {
    if Truthy(Member(x, k)) then Member(x, k).json else fallback
  }

  /** The twelve members of `normalized_profile`, in order. */
  const ProfileFields := ["academic_level", "student_name", "current_degree", "graduation_year", "board",
                          "class12_score", "cgpa", "competitive_exams", "career_goal", "preferred_locations",
                          "budget", "specialization"]

  /** What a falsy field becomes. */
  function FieldDefault(name: string): Json {
    if name == "academic_level" then JStr("undergraduate")
    else if name == "competitive_exams" || name == "preferred_locations" then JArr([])
    else JNull
  }

  /** `normalized_profile`: exactly the twelve fields, each the extracted value or its default. */
  function BuildProfile(extracted: Json): (p: Json)
    ensures p.JObj? && |p.fields| == |ProfileFields|
    ensures forall i :: 0 <= i < |ProfileFields| ==>
              p.fields[i].0 == ProfileFields[i]
              && p.fields[i].1 == OrDefault(extracted, ProfileFields[i], FieldDefault(ProfileFields[i]))
  {
    JObj(seq(|ProfileFields|, i requires 0 <= i < |ProfileFields| =>
      (ProfileFields[i], OrDefault(extracted, ProfileFields[i], FieldDefault(ProfileFields[i])))))
  }

  /** Extra members the extractor returns never reach the profile. */
  lemma BuildProfileDropsExtras(extracted: Json, k: string)
    requires k !in ProfileFields
    ensures Get(BuildProfile(extracted).fields, k).None?
  {
    var p := BuildProfile(extracted);
    forall i | 0 <= i < |p.fields|
      ensures p.fields[i].0 != k
    {
      assert p.fields[i].0 == ProfileFields[i];
    }
  }

  /** `res.profile || {}`. */
  function Extracted(body: Json): Json {
    if Truthy(Member(body, "profile")) then Member(body, "profile").json else JObj([])
  }

  /** A reply that completes the profile: not null, and without a truthy `missing_info`. */
  predicate Accepted(body: Json) {
    !body.JNull? && !Truthy(Member(Extracted(body), "missing_info"))
  }

  /**
    The submit continuation. A failed request, a null body (reading
    `.profile` of null throws) and a truthy `missing_info` only end the
    loading state. Otherwise `studentProfile` becomes the text as submitted
    plus the built profile, and the profile is complete.
   */
  function RespondProfile(s: State, k: nat, outcome: Outcome): (r: State)
    requires k < |s.pending| && s.pending[k].ProfileCall?
    ensures !r.profileLoading && r.pending == Without(s.pending, k)
    ensures !(outcome.Delivered? && Accepted(outcome.body)) ==>
              r == s.(profileLoading := false, pending := Without(s.pending, k))
    ensures outcome.Delivered? && Accepted(outcome.body) ==>
              r.profileComplete
              && r.studentProfile.Keys == ProfileKeySet
              && r.studentProfile[RawTextKey] == JStr(s.pending[k].text)
              && r.studentProfile[NormalizedKey] == BuildProfile(Extracted(outcome.body))
              && r.(studentProfile := s.studentProfile, profileComplete := s.profileComplete,
                    profileLoading := s.profileLoading, pending := s.pending) == s
  {
    var rest := Without(s.pending, k);
    if outcome.Delivered? && Accepted(outcome.body) then
      var profile := map[RawTextKey := JStr(s.pending[k].text),
                         NormalizedKey := BuildProfile(Extracted(outcome.body))];
      s.(studentProfile := profile, profileComplete := true, profileLoading := false, pending := rest)
    else
      s.(profileLoading := false, pending := rest)
  }

  /** "Change API Key": both keys become `undefined`; storage, profile and pipeline are untouched. */
  function ChangeApiKey(s: State): (r: State)
    ensures !r.apiKeys.isSet && r.apiKeys.openrouter.None? && r.apiKeys.serper.None?
    ensures r.(apiKeys := s.apiKeys) == s
  {
    SetApiKeys(s, ApiKeys(None, None, false))
  }
}
