/**
  agents.py: the model-name rule both agent factories apply, their default
  model names, and the order of the five tasks in the crew.
 */
module Agents {
  import opened Wrappers
  import opened Strings
  import Session

  const RouterPrefix := "openrouter/"
  /** "openrouter/mistralai/devstral-2512:free" */
  const DefaultCrewModel := RouterPrefix + "mistralai/devstral-2512:free"
  /** "openrouter/meta-llama/llama-3.3-70b-instruct:free" */
  const DefaultExtractorModel := RouterPrefix + "meta-llama/llama-3.3-70b-instruct:free"

  /**
    The auto-fix: a name that looks like "vendor/model", is not yet routed
    and does not mention "gpt" gets the "openrouter/" prefix.
   */
  function AutoPrefix(name: string): (r: string)
    ensures r == name || r == RouterPrefix + name
    ensures r != name <==> !StartsWith(name, RouterPrefix) && '/' in name && !Contains(name, "gpt")
  {
    if !StartsWith(name, RouterPrefix) && '/' in name && !Contains(name, "gpt") then RouterPrefix + name
    else name
  }

  lemma RoutedStartsWithPrefix(t: string)
    ensures StartsWith(RouterPrefix + t, RouterPrefix)
  {
    assert (RouterPrefix + t)[..|RouterPrefix|] == RouterPrefix;
  }

  /** A routed name is left as it is. */
  lemma RoutedIsFixed(t: string)
    ensures AutoPrefix(RouterPrefix + t) == RouterPrefix + t
  {
    RoutedStartsWithPrefix(t);
  }

  /** Applying the rule to its own output changes nothing. */
  lemma AutoPrefixIdempotent(name: string)
    ensures AutoPrefix(AutoPrefix(name)) == AutoPrefix(name)
  {
    if AutoPrefix(name) != name {
      RoutedStartsWithPrefix(name);
    }
  }

  /** Both default names are already routed and pass through unchanged. */
  lemma DefaultsAreFixedPoints()
    ensures AutoPrefix(DefaultCrewModel) == DefaultCrewModel
    ensures AutoPrefix(DefaultExtractorModel) == DefaultExtractorModel
  {
    RoutedIsFixed("mistralai/devstral-2512:free");
    RoutedIsFixed("meta-llama/llama-3.3-70b-instruct:free");
  }

  /** A bare vendor/model name is routed. */
  lemma BareNameRouted()
    ensures AutoPrefix("mistralai/devstral") == RouterPrefix + "mistralai/devstral"
  {
    var n := "mistralai/devstral";
    assert n[9] == '/';
    assert n[0] != RouterPrefix[0];
    MissingCharExcludes(n, "gpt", 'g');
  }

  /** A vendor/model name that mentions "gpt" is left alone. */
  lemma GptNameNotRouted()
    ensures AutoPrefix("openai/gpt-4o") == "openai/gpt-4o"
  {
    var g := "openai/gpt-4o";
    assert g[7..] == "gpt-4o";
    assert StartsWith(g[7..], "gpt");
    ContainsSlice(g, 7, |g|, "gpt");
  }

  /** The model the crew factory uses: the override if one is passed, else its default; then the auto-fix. */
  function CrewModel(override: Option<string>): (r: string)
    ensures override.None? ==> r == DefaultCrewModel
    ensures override.Some? ==> r == AutoPrefix(override.value)
  {
    DefaultsAreFixedPoints();
    AutoPrefix(override.GetOr(DefaultCrewModel))
  }

  /** The same for the profile-extractor factory, with its own default. */
  function ExtractorModel(override: Option<string>): (r: string)
    ensures override.None? ==> r == DefaultExtractorModel
    ensures override.Some? ==> r == AutoPrefix(override.value)
  {
    DefaultsAreFixedPoints();
    AutoPrefix(override.GetOr(DefaultExtractorModel))
  }

  /** The crew's tasks. */
  datatype Stage = Normalize | MatchUniversities | RankPrograms | FindScholarships | CollectReviews

  /** `crew.tasks`, in the order the crew lists them. */
  const CrewTasks := [Normalize, MatchUniversities, RankPrograms, FindScholarships, CollectReviews]

  /** The result slot the browser keeps each task's output in. */
  function ResultKeyOf(stage: Stage): string {
    match stage
    case Normalize => Session.NormalizedKey
    case MatchUniversities => Session.MatchedKey
    case RankPrograms => Session.RankedKey
    case FindScholarships => Session.ScholarshipsKey
    case CollectReviews => Session.ReviewsKey
  }

  /** Task i of the crew is the one whose output the browser files under result key i. */
  lemma TaskOrderMatchesResultKeys()
    ensures |CrewTasks| == |Session.ResultKeys|
    ensures forall i :: 0 <= i < |CrewTasks| ==> ResultKeyOf(CrewTasks[i]) == Session.ResultKeys[i]
  {
  }
}
