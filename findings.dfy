/**
 * The uniform record that describes one detected formatting problem, and the
 * builder that makes it (`_create_finding`).
 */
module Findings {
  import opened Wrappers
  import opened PyStrings

  /**
   * One finding. The six mandatory entries are plain strings; the two
   * optional ones are `None` exactly when the key is missing from the
   * dictionary the source builds.
   */
  datatype Finding = Finding(
    issueType: string,
    recordType: string,
    xrefId: string,
    tagPath: string,
    problematicValue: string,
    message: string,
    ruleViolated: Option<string>,
    suggestion: Option<string>)

  /** The keys every finding dictionary has. */
  const MandatoryKeys: set<string> :=
    {"issue_type", "record_type", "element_xref_id", "element_tag_path", "problematic_value", "message"}

  /** The finding seen as the dictionary the source returns. */
  function AsDict(f: Finding): map<string, string> {
    var base := map[
      "issue_type" := f.issueType,
      "record_type" := f.recordType,
      "element_xref_id" := f.xrefId,
      "element_tag_path" := f.tagPath,
      "problematic_value" := f.problematicValue,
      "message" := f.message];
    var withRule := if f.ruleViolated.Some? then base["rule_violated" := f.ruleViolated.value] else base;
    if f.suggestion.Some? then withRule["suggestion" := f.suggestion.value] else withRule
  }

  /** An optional entry that is present is never empty: the builder only stores truthy values. */
  predicate WellFormed(f: Finding) {
    (f.ruleViolated.Some? ==> f.ruleViolated.value != [])
    && (f.suggestion.Some? ==> f.suggestion.value != [])
  }

  /** `_create_finding`: each optional argument is kept only when it is truthy. */
  function CreateFinding(
    issueType: string, recordType: string, xrefId: string, tagPath: string,
    problematicValue: string, message: string,
    ruleViolated: Option<string>, suggestion: Option<string>): (r: Finding)
    ensures WellFormed(r)
    ensures r.ruleViolated.Some? <==> Truthy(ruleViolated)
    ensures r.suggestion.Some? <==> Truthy(suggestion)
    ensures r.ruleViolated.Some? ==> r.ruleViolated == ruleViolated
    ensures r.suggestion.Some? ==> r.suggestion == suggestion
  {
    Finding(issueType, recordType, xrefId, tagPath, problematicValue, message,
      if Truthy(ruleViolated) then ruleViolated else None,
      if Truthy(suggestion) then suggestion else None)
  }

  /**
   * The dictionary `_create_finding` returns has the six mandatory keys with
   * the given values, and `rule_violated` / `suggestion` exactly when the
   * argument is truthy (neither `None` nor the empty string), holding that
   * argument; an optional entry is never empty.
   */
  lemma CreateFindingDict(
    issueType: string, recordType: string, xrefId: string, tagPath: string,
    problematicValue: string, message: string,
    ruleViolated: Option<string>, suggestion: Option<string>)
    ensures var f := CreateFinding(issueType, recordType, xrefId, tagPath, problematicValue, message,
      ruleViolated, suggestion);
      && WellFormed(f)
      && AsDict(f).Keys == MandatoryKeys
        + (if Truthy(ruleViolated) then {"rule_violated"} else {})
        + (if Truthy(suggestion) then {"suggestion"} else {})
      && AsDict(f)["issue_type"] == issueType && AsDict(f)["record_type"] == recordType
      && AsDict(f)["element_xref_id"] == xrefId && AsDict(f)["element_tag_path"] == tagPath
      && AsDict(f)["problematic_value"] == problematicValue && AsDict(f)["message"] == message
      && (Truthy(ruleViolated) ==> AsDict(f)["rule_violated"] == ruleViolated.value)
      && (Truthy(suggestion) ==> AsDict(f)["suggestion"] == suggestion.value)
  {
  }
}
