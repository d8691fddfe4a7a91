# Format validation of a GEDCOM record tree, in Dafny

This project models the format-validation engine of a GEDCOM analysis tool
(`analysis_modules/format_validator.py`) and proves what it promises. The
engine walks the individuals and then the families of a record tree. It
checks three things and collects a finding for each problem, in order:

- the individual's NAME value: empty or degenerate, missing surname slashes,
  or a malformed surname;
- each checked event's DATE value, against an ordered list of accepted
  formats, with `BET … AND …` ranges and eight qualifier prefixes;
- each checked event's PLAC value, against the comma counts of example
  templates.

Each finding is a dictionary with six fixed keys and two optional ones.

The modules follow the structure of the source file:

| module | file | models |
|---|---|---|
| `Wrappers` | wrappers.dfy | `Option` (Python's `None`) and `Result` |
| `PyStrings` | pystrings.dfy | `strip`, ASCII `upper`, `startswith`, `in`, `count`, `split`, `join`, truthiness |
| `Findings` | findings.dfy | `_create_finding` and the dictionary it returns |
| `Dates` | dates.dfy | `_is_date_parsable`, `_validate_date_value`, and the range regex |
| `Places` | places.dfy | `_validate_place_structure` |
| `Names` | names.dfy | the inline name check of `validate_formats` |
| `Records` | records.dfy | the record tree, the configuration, and the per-kind constants |
| `FormatValidator` | validator.dfy | `validate_formats`: fold functions that specify each loop, and the methods that run the loops |
| `ValidatorProperties` | properties.dfy | what a run promises: paths, rejected values, ordering, `IndexError`, determinism |
| `ValidatorCompleteness` | completeness.dfy | the converse: every rejected value and flagged name is reported |
| `ValidatorAccounting` | accounting.dfy | every finding traced to its rejected field or flagged name, one finding per problem, and where an `IndexError` comes from |
| `DateScenarios`, `NameScenarios`, `RunScenarios` | scenarios.dfy | worked cases on concrete values, and a whole run on a two-individual tree |

The date and place validators each have two parts. A specification function
states what the validator means (`Parsable`, `ValidDate`, `ValidPlace`). A
method with the source's own loops, early returns and `break` is proved equal
to it. The name check is a function only (`NameProblemOf`), because the
source has no loop there: it is one if-chain.

The traversal works the same way. Each loop is a method proved equal to a
prefix-recursive fold: `EventsFindings`, `TagsFindings`, `IndisFindings`,
`FamsFindings`, and `FormatFindings` for the whole run. Each loop carries
the invariant "findings so far = fold over the elements seen so far".

A run yields `Outcome = Result<seq<Finding>, Fault>`. A run either returns
its findings, or ends with the `IndexError` that the source raises when it
reads `expected_place_structures[0]` of an empty list (lines 170 and 198).

`datetime.strptime` is a function-valued parameter `parses`. Every property
holds for every parser.

## Model

| member | source | states |
|---|---|---|
| Findings.CreateFinding | analysis_modules/format_validator.py:7-21 | the optional `rule_violated` and `suggestion` are kept exactly when truthy, unchanged, so a kept one is never empty (the dictionary itself in `CreateFindingDict`) |
| Findings.CreateFindingDict | analysis_modules/format_validator.py:7-21 | the dictionary has the six mandatory keys with the given values; it has `rule_violated` and `suggestion` exactly when the argument is truthy (neither `None` nor empty), holding that argument; a present optional entry is never empty |
| Dates.IsDateParsable | analysis_modules/format_validator.py:24-34 | the loop over the formats returns true exactly when the candidate is non-empty and some format parses its stripped text |
| Dates.BlankCandidate | analysis_modules/format_validator.py:26-30 | a non-empty, all-whitespace candidate is parsable exactly when some accepted format parses the empty text |
| Dates.NoFormatsRejectAll | analysis_modules/format_validator.py:28-34 | with no accepted formats, every non-empty date value is invalid, with or without a qualifier |
| Dates.ValidateDateValue | analysis_modules/format_validator.py:36-85 | the source's branches and prefix loop return exactly `ValidDate`: blank is valid; a range needs both stripped groups parsable; otherwise the first matching prefix is cut and the rest must be parsable |
| Dates.BlankDateValid | analysis_modules/format_validator.py:42-43 | an empty date value is valid |
| Dates.RangeCut | analysis_modules/format_validator.py:53 | when the range pattern matches, its cut points are the last " AND " before the first line feed, and the first line feed (or the end) |
| Dates.RangeGroupsSound | analysis_modules/format_validator.py:53-56 | a match reads "BET " + group 1 + " AND " + group 2, ignoring ASCII case, up to a line feed or the end; neither group holds a line feed, and group 2 holds no " AND " |
| Dates.RangeGroupsComplete | analysis_modules/format_validator.py:53 | any " AND " at index 4 or later with no line feed before it makes the pattern match, and group 1 reaches at least to it (greedy) |
| Dates.RangeRule | analysis_modules/format_validator.py:50-66 | when the upper-cased text starts with "BET " and holds " AND ", it is valid exactly when the pattern matches and both stripped groups are parsable; prefix stripping is never tried |
| Dates.BlankRangeSideInvalid | analysis_modules/format_validator.py:55-62 | a range side that strips to nothing makes the value invalid, whatever the formats |
| Dates.FirstPrefixFrom | analysis_modules/format_validator.py:73-77 | the index found is the first qualifier the upper-cased text starts with; none is found only when it starts with none of them |
| Dates.PrefixesExclusive | analysis_modules/format_validator.py:70 | no text starts with two different qualifiers, so at most one prefix is ever removed |
| Dates.QualifierRule | analysis_modules/format_validator.py:70-81 | outside the range case, a value starting with qualifier `i` is valid exactly when the text after that qualifier is parsable |
| Dates.BareRule | analysis_modules/format_validator.py:79-85 | outside the range case, a value with no qualifier is valid exactly when it is parsable as a whole |
| Dates.LoneQualifierInvalid | analysis_modules/format_validator.py:70-85 | a qualifier with nothing after it ("ABT ") is invalid, whatever the formats |
| Places.ValidatePlaceStructure | analysis_modules/format_validator.py:88-107 | the template loop plus the single-segment rule return exactly `ValidPlace`: empty, or as many commas as some template |
| Places.SingleSegmentRuleRedundant | analysis_modules/format_validator.py:99-105 | the single-segment rule at line 104 accepts nothing the loop at lines 99-102 did not |
| Places.NoTemplatesRejectAll | analysis_modules/format_validator.py:94-107 | with no templates, every non-empty place is invalid |
| Places.SameCommasSameVerdict | analysis_modules/format_validator.py:97-102 | two non-empty places with the same number of commas get the same verdict |
| PyStrings.Split | analysis_modules/format_validator.py:97 | `split(',')` yields one part more than there are commas, and no part holds a comma |
| PyStrings.JoinSplit | analysis_modules/format_validator.py:97 | joining the parts of a split with the separator restores the text |
| PyStrings.StripIdempotent | analysis_modules/format_validator.py:155 | stripping a stripped value changes nothing |
| PyStrings.StripEmptyIffAllSpace | analysis_modules/format_validator.py:128-130 | `strip()` yields the empty text exactly when every character is whitespace |
| PyStrings.CountPositiveIffMember | analysis_modules/format_validator.py:136-141 | `count('/') > 0` exactly when `'/' in` the value |
| Names.NameProblemOf | analysis_modules/format_validator.py:130-146 | missing exactly when the stripped value is empty, "/" or "//"; the other two problems only with enforcement on and no extracted surname, unwrapped only without a slash, malformed only with two or more (the full table in `NameDecisionTable`) |
| Names.NameDecisionTable | analysis_modules/format_validator.py:125-146 | missing exactly when the stripped value is empty, "/" or "//"; unwrapped exactly when not degenerate, enforcement on, no surname and no slash; malformed exactly when the same but two or more slashes; no problem in every other case |
| Names.NoEnforcementOnlyMissing | analysis_modules/format_validator.py:130-134 | with enforcement off, only the missing-or-empty problem is reported |
| Names.ExtractedSurnamePasses | analysis_modules/format_validator.py:134-146 | a non-degenerate name with an extracted surname is never flagged |
| NameScenarios.LongNotDegenerate | analysis_modules/format_validator.py:130 | a value longer than two characters once stripped is not degenerate |
| NameScenarios.SlashedNamePasses | analysis_modules/format_validator.py:134-146 | "John /Doe/" with surname "Doe" passes with enforcement on |
| NameScenarios.EmptySurnameIsMalformed | analysis_modules/format_validator.py:141-146 | "/ /" with no surname is reported as malformed |
| DateScenarios.RangeWithoutStartIsInvalid | analysis_modules/format_validator.py:50-64 | "BET AND 1900" passes the range test, but the pattern does not match, so the value is invalid whatever the formats |
| FormatValidator.CheckDate | analysis_modules/format_validator.py:153-160 | the DATE check of one event returns exactly the DATE rule's findings: one finding at `KIND:id/TAG/DATE` with the stripped value exactly when that value is non-blank and rejected, none otherwise (with `DateFindingPresent`) |
| FormatValidator.CheckPlace | analysis_modules/format_validator.py:162-170 | the PLAC check of one event returns exactly the PLAC rule's outcome: one finding at `KIND:id/TAG/PLAC` with the stripped value exactly when that value is non-blank and rejected and templates exist, `IndexError` when it is rejected without templates, none otherwise (with `PlaceFindingPresent`) |
| FormatValidator.CheckEvent | analysis_modules/format_validator.py:151-170 | one event: its DATE findings, then its PLAC outcome |
| FormatValidator.CheckOccurrences | analysis_modules/format_validator.py:150-170 | the loop over the occurrences of one tag returns the fold over them; the first error ends it |
| FormatValidator.CheckEvents | analysis_modules/format_validator.py:148-170 | the loop over the checked tags, in their fixed order, returns the fold over them |
| FormatValidator.CheckIndividual | analysis_modules/format_validator.py:121-170 | one individual: its name finding, then its event findings; a flagged name yields exactly one finding reporting the raw value (with `NameFindingPresent`), every rejected DATE or PLAC of a checked tag is among the event findings (with `RecordContains`, `EventReports`), each finding reports the flagged name or a rejected field of a checked event of this individual (with `IndiOriginOf`), and there is one finding per such problem (with `IndiCounted`) |
| FormatValidator.CheckIndividuals | analysis_modules/format_validator.py:121-170 | the loop over the individuals returns the fold over them |
| FormatValidator.CheckFamilies | analysis_modules/format_validator.py:172-198 | the loop over the families returns the fold over them |
| FormatValidator.ValidateFormats | analysis_modules/format_validator.py:111-199 | the whole run returns all individuals' findings, then all families'; any `IndexError` ends it with no findings, and it arises only without templates on a rejected PLAC (with `RunFailure`); a successful run reports every rejected DATE and PLAC and every flagged NAME at its path with its value (with `IndividualEventReported`, `FamilyEventReported`, `IndividualNameReported`), every finding reports one of them (with `RunFindingOrigin`), and there are exactly as many findings as problems (with `RunCounted`) |
| ValidatorProperties.EventPathShape | analysis_modules/format_validator.py:151-167 | an event path is the record's base path + "/" + the tag + "/DATE" or "/PLAC", and ends with exactly one of them |
| ValidatorProperties.DateFindingsAtMostOne | analysis_modules/format_validator.py:153-160 | at most one DATE finding per event, and none for an absent or blank value |
| ValidatorProperties.DateFindingLocated | analysis_modules/format_validator.py:151-158 | a DATE finding is a "Format Error" of the event's record type and id, at exactly `KIND:id/` + the event's tag + `/DATE`, reporting the stripped DATE value |
| ValidatorProperties.DateFindingRejected | analysis_modules/format_validator.py:154-158 | a DATE finding reports a non-empty, stripped value that the date check rejects |
| ValidatorProperties.DateFindingsOk | analysis_modules/format_validator.py:151-160 | the DATE findings of an event are located and rejected |
| ValidatorProperties.PlaceFindingsAtMostOne | analysis_modules/format_validator.py:162-170 | at most one PLAC finding per event, none for an absent or blank value; `IndexError` only without templates |
| ValidatorProperties.PlaceFindingLocated | analysis_modules/format_validator.py:151-167 | a PLAC finding is a "Format Error" of the event's record type and id, at exactly `KIND:id/` + the event's tag + `/PLAC`, reporting the stripped PLAC value |
| ValidatorProperties.PlaceFindingRejected | analysis_modules/format_validator.py:163-167 | a PLAC finding reports a non-empty, stripped value that the place check rejects |
| ValidatorProperties.PlaceFindingsOk | analysis_modules/format_validator.py:162-170 | the PLAC findings of an event are located and rejected |
| ValidatorProperties.EventFindingsOk | analysis_modules/format_validator.py:150-170 | the findings of one event are located and rejected; `IndexError` only without templates |
| ValidatorProperties.EventsFindingsOk | analysis_modules/format_validator.py:150-170 | the same for all occurrences of one tag |
| ValidatorProperties.TagsFindingsOk | analysis_modules/format_validator.py:148-170 | the same for all checked tags of a record |
| ValidatorProperties.NameFindingsShape | analysis_modules/format_validator.py:125-146 | the name check yields at most one finding, a "Format Error" of type "Individual" at `INDI:id/NAME` |
| ValidatorProperties.IndiFindingsShape | analysis_modules/format_validator.py:121-170 | within an individual, only the first finding can be a name finding; every later one is an event finding of that individual; all event findings report rejected values |
| ValidatorProperties.IndiIdInFindings | analysis_modules/format_validator.py:122-123 | every finding of an individual carries its id, or "UNKNOWN_INDI" when it has none |
| ValidatorProperties.FamIdInFindings | analysis_modules/format_validator.py:173-174 | every finding of a family carries its id, or "UNKNOWN_FAM" when it has none |
| ValidatorProperties.IndisFindingsFromKind | analysis_modules/format_validator.py:121-170 | every finding of the individuals' loop is an individual name finding or a rejected individual event value |
| ValidatorProperties.FamsFindingsFromKind | analysis_modules/format_validator.py:172-198 | every finding of the families' loop is a rejected family event value |
| ValidatorProperties.KindsExclusive | analysis_modules/format_validator.py:158-195 | no finding belongs to both an individual and a family: their record types differ |
| ValidatorProperties.ConcatOrdered | analysis_modules/format_validator.py:121-199 | individual findings followed by family findings: no family finding precedes an individual finding |
| ValidatorProperties.RunSoundAndOrdered | analysis_modules/format_validator.py:115-199 | a run fails only without place templates; otherwise each finding is an individual or family finding as above, and all individual findings come before all family findings |
| ValidatorProperties.EventsCrashAt | analysis_modules/format_validator.py:150-170 | an error at one occurrence ends the occurrences' loop in error |
| ValidatorProperties.TagsCrashAt | analysis_modules/format_validator.py:148-170 | an error under one tag ends the tags' loop in error |
| ValidatorProperties.IndisCrashAt | analysis_modules/format_validator.py:121-170 | an error in one individual ends the individuals' loop in error |
| ValidatorProperties.FamsCrashAt | analysis_modules/format_validator.py:172-198 | an error in one family ends the families' loop in error |
| ValidatorProperties.RecordEventsCrash | analysis_modules/format_validator.py:162-170 | without templates, one checked event with a non-blank place makes the record's event checks fail |
| ValidatorProperties.IndividualPlaceCrashes | analysis_modules/format_validator.py:162-170 | without templates, one individual event with a non-blank place makes the whole run end in `IndexError` |
| ValidatorProperties.FamilyPlaceCrashes | analysis_modules/format_validator.py:190-198 | without templates, one family event with a non-blank place makes the whole run end in `IndexError` |
| ValidatorProperties.EventFieldOrder | analysis_modules/format_validator.py:153-170 | one event yields at most two findings, and when there are two, the DATE finding comes before the PLAC finding |
| ValidatorProperties.BlankEventNoFindings | analysis_modules/format_validator.py:153-165 | an event whose DATE and PLAC values are absent or whitespace-only yields no finding |
| ValidatorProperties.FieldAtUnique | analysis_modules/format_validator.py:151 | a finding's path names one event tag only |
| ValidatorProperties.EventFindingsAt | analysis_modules/format_validator.py:151-170 | every finding of one event is at that event's own tag |
| ValidatorProperties.EventsFindingsAt | analysis_modules/format_validator.py:150-170 | the occurrences listed under one tag, all carrying that tag, give findings at that tag only |
| ValidatorProperties.ThenKeepsTagOrder | analysis_modules/format_validator.py:149-150 | appending the findings of the next tag to findings in tag order keeps them in tag order |
| ValidatorProperties.TagsFindingsInOrder | analysis_modules/format_validator.py:148-170 | in a well-tagged record, over distinct tags, every finding is at one of the tags, and no finding at a later tag precedes one at an earlier tag |
| ValidatorProperties.EventTagsDistinct | analysis_modules/format_validator.py:148-176 | the checked tags of each kind are distinct |
| ValidatorProperties.RecordEventsInTagOrder | analysis_modules/format_validator.py:148-198 | the event findings of a well-tagged record are at checked tags only, in the order BIRT, DEAT, CHR, ADOP, BURI, EVEN (individuals) or MARR, DIV, ANUL, ENGA, EVEN (families) |
| ValidatorCompleteness.DateFindingPresent | analysis_modules/format_validator.py:153-160 | a DATE finding exists exactly when the DATE is present, non-blank once stripped and rejected; it is then the only one, at `KIND:id/TAG/DATE`, reporting the stripped value |
| ValidatorCompleteness.PlaceFindingPresent | analysis_modules/format_validator.py:162-170 | a PLAC finding exists exactly when the PLAC is present, non-blank once stripped and rejected and templates exist; it is then the only one, at `KIND:id/TAG/PLAC`, reporting the stripped value; a rejected PLAC without templates is `IndexError` |
| ValidatorCompleteness.NameFindingPresent | analysis_modules/format_validator.py:125-146 | a NAME finding exists exactly when the individual has a name the name check flags; it is then the only one, at `INDI:id/NAME`, reporting the raw value, with the problem's message and a suggestion unless the name is missing |
| ValidatorCompleteness.NameFindingFields | analysis_modules/format_validator.py:131-146 | the name finding for a problem has the NAME path, the raw value, the problem's message, and a suggestion exactly when the name is not missing |
| ValidatorCompleteness.NameSuggestionKept | analysis_modules/format_validator.py:131-146 | only the missing-name finding comes without a suggestion |
| ValidatorCompleteness.EventsContain | analysis_modules/format_validator.py:150-170 | when the occurrences' loop succeeds, each occurrence's check succeeded and all its findings are in the loop's findings |
| ValidatorCompleteness.TagsContain | analysis_modules/format_validator.py:149-170 | when the tags' loop succeeds, each tag's occurrences succeeded and all their findings are in the loop's findings |
| ValidatorCompleteness.IndisContain | analysis_modules/format_validator.py:121-170 | when the individuals' loop succeeds, each individual's check succeeded and all its findings are in the loop's findings |
| ValidatorCompleteness.FamsContain | analysis_modules/format_validator.py:172-198 | when the families' loop succeeds, each family's check succeeded and all its findings are in the loop's findings |
| ValidatorCompleteness.RecordContains | analysis_modules/format_validator.py:148-198 | when a record's event checks succeed, the findings of every occurrence of every checked tag are among them |
| ValidatorCompleteness.EventReports | analysis_modules/format_validator.py:153-170 | a successful event check holds a finding at `.../DATE` with the stripped value for a rejected DATE, and one at `.../PLAC` for a rejected PLAC |
| ValidatorCompleteness.IndividualEventReported | analysis_modules/format_validator.py:121-170 | when the run succeeds, the rejected DATE and PLAC of any occurrence of a checked tag of any individual are among its findings, at `INDI:id/TAG/DATE` or `/PLAC`, with the stripped value |
| ValidatorCompleteness.FamilyEventReported | analysis_modules/format_validator.py:172-198 | when the run succeeds, the rejected DATE and PLAC of any occurrence of a checked tag of any family are among its findings, at `FAM:id/TAG/DATE` or `/PLAC`, with the stripped value |
| ValidatorCompleteness.IndividualNameReported | analysis_modules/format_validator.py:121-146 | when the run succeeds, every individual's flagged name is among its findings, at `INDI:id/NAME`, with the raw value |
| ValidatorAccounting.EventCounted | analysis_modules/format_validator.py:153-170 | an event check has one finding per rejected field (DATE, PLAC) and fails only on a rejected PLAC without templates |
| ValidatorAccounting.OccurrencesCounted | analysis_modules/format_validator.py:150-170 | the occurrences' loop has one finding per rejected field of its occurrences, and fails only if some field is rejected |
| ValidatorAccounting.TagsCounted | analysis_modules/format_validator.py:149-170 | the tags' loop has one finding per rejected field of the occurrences of its tags, and fails only if some field is rejected |
| ValidatorAccounting.IndiCounted | analysis_modules/format_validator.py:121-170 | an individual has one finding per problem: its flagged name and each rejected field of its checked events |
| ValidatorAccounting.IndisCounted | analysis_modules/format_validator.py:121-170 | the individuals' loop has one finding per problem of its individuals |
| ValidatorAccounting.FamsCounted | analysis_modules/format_validator.py:172-198 | the families' loop has one finding per rejected field of the checked events of its families |
| ValidatorAccounting.RunCounted | analysis_modules/format_validator.py:111-199 | a successful run has exactly as many findings as the tree has flagged names and rejected DATE and PLAC fields of checked events; a failed run has at least one problem |
| ValidatorAccounting.CleanTreeNoFindings | analysis_modules/format_validator.py:111-199 | a tree with no flagged name and no rejected field gives no findings and no error |
| ValidatorAccounting.EventOrigin | analysis_modules/format_validator.py:153-170 | each finding of an event check is the event's rejected DATE or PLAC, with the record's type and id, that field's path and its stripped value |
| ValidatorAccounting.OccurrencesOrigin | analysis_modules/format_validator.py:150-170 | each finding of the occurrences' loop reports a rejected field of one of its occurrences |
| ValidatorAccounting.TagsOrigin | analysis_modules/format_validator.py:149-170 | each finding of the tags' loop reports a rejected field of an occurrence of one of its tags |
| ValidatorAccounting.RecordOrigin | analysis_modules/format_validator.py:148-198 | each event finding of a record reports a rejected field of an occurrence of a checked tag of that record |
| ValidatorAccounting.IndiOriginOf | analysis_modules/format_validator.py:121-170 | each finding of an individual reports its flagged name (at `INDI:id/NAME`, raw value) or a rejected field of one of its checked events |
| ValidatorAccounting.IndisOrigin | analysis_modules/format_validator.py:121-170 | each finding of the individuals' loop comes from one of its individuals in that way |
| ValidatorAccounting.FamsOrigin | analysis_modules/format_validator.py:172-198 | each finding of the families' loop reports a rejected field of a checked event of one of its families |
| ValidatorAccounting.RunFindingOrigin | analysis_modules/format_validator.py:111-199 | each finding of a successful run reports a flagged name or a rejected field of a checked event of some record of the tree |
| ValidatorAccounting.OccurrencesFailure | analysis_modules/format_validator.py:162-170 | the occurrences' loop fails only without templates, on an occurrence with a rejected PLAC |
| ValidatorAccounting.TagsFailure | analysis_modules/format_validator.py:148-170 | the tags' loop fails only without templates, on a rejected PLAC of an occurrence of one of its tags |
| ValidatorAccounting.RecordFailure | analysis_modules/format_validator.py:148-198 | a record's event checks fail only without templates, on a rejected PLAC of a checked event |
| ValidatorAccounting.IndisFailure | analysis_modules/format_validator.py:121-170 | the individuals' loop fails only without templates, on a rejected PLAC of some individual |
| ValidatorAccounting.FamsFailure | analysis_modules/format_validator.py:172-198 | the families' loop fails only without templates, on a rejected PLAC of some family |
| ValidatorAccounting.RunFailure | analysis_modules/format_validator.py:111-199 | a run ends in `IndexError` only without templates and with a rejected PLAC of a checked event of some record |
| ValidatorAccounting.NoRejectedPlaceNoError | analysis_modules/format_validator.py:162-198 | a tree with no rejected PLAC never ends in `IndexError` |
| ValidatorAccounting.DefaultsRejectEveryValue | analysis_modules/format_validator.py:117-118 | with the defaults (no formats, no templates) every non-blank DATE and every non-blank PLAC is rejected |
| RunScenarios.OneBadDeathDate | analysis_modules/format_validator.py:111-199 | two individuals, one with an unrejected birth date and one with a rejected death date, no PLAC and no flagged name: the run succeeds with exactly one finding, at the second's `DEAT/DATE`, with the stripped value |
| ValidatorProperties.ValidateTwice | analysis_modules/format_validator.py:111-199 | two runs over the same tree and configuration give the same outcome |

## Left out

- main.py is not part of this model. Its command-line parsing, console output, and the try/except around the validator are I/O.
- The report generator is not part of this model. It writes a timestamped text file.
- The configuration loader is not part of this model. The configuration is an already-built record whose defaults (`DefaultConfig`: no formats, no templates, enforcement on) match lines 117-119. Non-list or non-boolean values in the JSON are not modelled.
- The GEDCOM reader is not part of this model. The tree it yields is plain data:
  - the NAME tag's surname is given, not derived;
  - each event carries the values of its first DATE and PLAC children;
  - `children_tags(t)` yields only children whose tag is `t`; the model states this as `Records.WellTagged` and assumes it in the tag-order lemmas, since the tree is given data;
  - a NAME tag without a value is not modelled: the source would fail on `.strip()` of `None`.
- `datetime.strptime` has no calendar semantics here. It is the parameter `parses`, and every property holds for all parsers. Hence `Dates.BlankCandidate` says "parsable exactly when some format parses the empty text" rather than "never parsable". Python's `strptime("", "")` does succeed.
- `upper()` maps only ASCII letters, and `re.IGNORECASE` is modelled as ASCII case folding. Non-ASCII case mappings, which can change a string's length, are not modelled. `strip()` removes exactly the characters for which Python's `str.isspace()` holds.
- The `except Exception` at line 65 has no counterpart. Nothing in the range branch can raise once `strptime` is a total predicate.
- Message and suggestion texts are built as in the source: tag, value, formats joined with ", ", the first template's part count. No property is stated about their wording.
- The `__main__` harness at lines 201-276 writes files and imports modules.
- The loops of `validate_formats` are split into one method per loop level (`CheckOccurrences`, `CheckEvents`, `CheckIndividual`, `CheckIndividuals`, `CheckFamilies`). The order of their steps is unchanged.
- The name check follows the code. The "malformed surname" test (line 141) sits in the `elif enforce_surname_slashes` branch, so it runs only with enforcement on.
- The range split follows the code. The greedy `(.*)` splits at the last " AND " before the first line feed, not at the first " AND ".
