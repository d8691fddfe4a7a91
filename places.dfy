/**
 * The place validator (`_validate_place_structure`): a structural heuristic
 * that compares the number of comma-separated parts of a place with those of
 * example templates. The content of the parts is never looked at.
 */
module Places {
  import opened PyStrings

  /** `len(s.split(','))`. */
  function SegmentCount(s: string): nat {
    |Split(s, ',')|
  }

  /**
   * The meaning of `_validate_place_structure`: empty, or as many commas as
   * some template.
   */
  predicate ValidPlace(s: string, structures: seq<string>) {
    s == [] || exists t :: t in structures && Count(t, ',') == Count(s, ',')
  }

  /** `any(len(t.split(',')) == 1 for t in structures)`. */
  predicate AnySingleSegment(structures: seq<string>) {
    exists t :: t in structures && SegmentCount(t) == 1
  }

  /**
   * `_validate_place_structure`: the loop over the templates, then the
   * single-segment rule, which admits nothing the loop did not.
   */
  method ValidatePlaceStructure(s: string, structures: seq<string>) returns (ok: bool)
    ensures ok == ValidPlace(s, structures)
  {
    if s == [] {
      return true;
    }
    var numParts := SegmentCount(s);
    var matched := false;
    for i := 0 to |structures|
      invariant !matched
      invariant forall j :: 0 <= j < i ==> SegmentCount(structures[j]) != numParts
    {
      if numParts == SegmentCount(structures[i]) {
        matched := true;
        break;
      }
    }
    ok := matched || (numParts == 1 && AnySingleSegment(structures));
  }

  /** The single-segment rule is redundant: adding it to the per-template comparison changes nothing. */
  lemma SingleSegmentRuleRedundant(s: string, structures: seq<string>)
    ensures ((exists t :: t in structures && SegmentCount(t) == SegmentCount(s))
             || (SegmentCount(s) == 1 && AnySingleSegment(structures)))
        == (exists t :: t in structures && SegmentCount(t) == SegmentCount(s))
  {
  }

  /** With no templates, every non-empty place is invalid. */
  lemma NoTemplatesRejectAll(s: string)
    requires s != []
    ensures !ValidPlace(s, [])
  {
  }

  /** Validity depends on the place only through its number of commas. */
  lemma SameCommasSameVerdict(s: string, s': string, structures: seq<string>)
    requires s != [] && s' != [] && Count(s, ',') == Count(s', ',')
    ensures ValidPlace(s, structures) == ValidPlace(s', structures)
  {
  }
}
