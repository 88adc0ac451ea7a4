/** ApiKeysStep.jsx: the key-entry form. */
module ApiKeysStep {
  import opened Wrappers
  import opened Session

  const MissingKeysMessage := "Please enter both API keys."

  /**
    `handleSave`: both fields must be non-empty, taken verbatim with no
    trimming; otherwise the form shows an error and the keys stay as they were.
   */
  function SaveKeys(s: State, openrouter: string, serper: string): (r: State)
    ensures openrouter == "" || serper == "" ==> r == s.(keysError := MissingKeysMessage)
    ensures openrouter != "" && serper != "" ==>
              r.apiKeys == ApiKeys(Some(openrouter), Some(serper), true)
              && r.storage == Storage(Some(openrouter), Some(serper))
              && r.(apiKeys := s.apiKeys, storage := s.storage) == s
    ensures r.apiKeys.isSet <==> s.apiKeys.isSet || (openrouter != "" && serper != "")
  {
    if openrouter == "" || serper == "" then s.(keysError := MissingKeysMessage)
    else SetApiKeys(s, ApiKeys(Some(openrouter), Some(serper), true))
  }

  /** Whitespace-only keys pass the form's check. */
  lemma BlankKeysAccepted(s: State)
    ensures SaveKeys(s, " ", " ").apiKeys == ApiKeys(Some(" "), Some(" "), true)
  {
  }
}
