/**
 * The name check that `validate_formats` runs for each individual's NAME tag:
 * it looks at the raw value, the slashes in it and the surname the record
 * reader extracted, and reports at most one problem.
 */
module Names {
  import opened Wrappers
  import opened PyStrings

  /** The three problems the name check reports. */
  datatype NameProblem = MissingName | NoSurnameSlashes | MalformedSurname

  /** The stripped value is empty, "/" or "//". */
  predicate Degenerate(raw: string) {
    var stripped := Strip(raw);
    stripped == [] || stripped == "/" || stripped == "//"
  }

  /** The if-chain of lines 130-146, as written: the second and third tests run only with enforcement on. */
  function NameProblemOf(raw: string, surname: Option<string>, enforce: bool): (r: Option<NameProblem>)
    ensures r == Some(MissingName) <==> Degenerate(raw)
    ensures r.Some? && r.value != MissingName ==> enforce && !Truthy(surname)
    ensures r == Some(NoSurnameSlashes) ==> '/' !in raw
    ensures r == Some(MalformedSurname) ==> Count(raw, '/') >= 2
  {
    var stripped := Strip(raw);
    if stripped == [] || stripped == "/" || stripped == "//" then Some(MissingName)
    else if enforce then
      if !Truthy(surname) && '/' !in raw then Some(NoSurnameSlashes)
      else if '/' in raw && !Truthy(surname) && Count(raw, '/') >= 2 then Some(MalformedSurname)
      else None
    else None
  }

  /**
   * The decision table, in terms of the number of slashes: a degenerate value
   * is missing whatever the setting; with enforcement on and no extracted
   * surname, no slash means unwrapped and two or more mean malformed; every
   * other value, and every non-degenerate value with enforcement off, passes.
   */
  lemma NameDecisionTable(raw: string, surname: Option<string>, enforce: bool)
    ensures NameProblemOf(raw, surname, enforce) == Some(MissingName) <==> Degenerate(raw)
    ensures NameProblemOf(raw, surname, enforce) == Some(NoSurnameSlashes) <==>
      !Degenerate(raw) && enforce && !Truthy(surname) && Count(raw, '/') == 0
    ensures NameProblemOf(raw, surname, enforce) == Some(MalformedSurname) <==>
      !Degenerate(raw) && enforce && !Truthy(surname) && Count(raw, '/') >= 2
    ensures NameProblemOf(raw, surname, enforce) == None <==>
      !Degenerate(raw) && (!enforce || Truthy(surname) || Count(raw, '/') == 1)
  {
    CountPositiveIffMember(raw, '/');
  }

  /** With enforcement off only the missing-or-empty problem can be reported. */
  lemma NoEnforcementOnlyMissing(raw: string, surname: Option<string>)
    ensures NameProblemOf(raw, surname, false) != None ==> NameProblemOf(raw, surname, false) == Some(MissingName)
  {
  }

  /** A name from which the reader extracted a surname is never flagged unless it is degenerate. */
  lemma ExtractedSurnamePasses(raw: string, surname: Option<string>, enforce: bool)
    requires Truthy(surname) && !Degenerate(raw)
    ensures NameProblemOf(raw, surname, enforce) == None
  {
  }
}
