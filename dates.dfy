/**
 * The date validator (`_is_date_parsable`, `_validate_date_value`): a GEDCOM
 * date value is blank, a `BET … AND …` range, a value with one qualifier
 * prefix, or a bare date; the pieces it yields are checked against an ordered
 * list of accepted formats.
 */
module Dates {
  import opened Wrappers
  import opened PyStrings

  /**
   * `datetime.strptime(text, fmt)` succeeding. The calendar meaning of the
   * formats is not modelled: every function of this type is a possible parser.
   */
  type Strptime = (string, string) -> bool

  /**
   * The meaning of `_is_date_parsable`: the candidate is non-empty and some
   * accepted format parses its stripped text.
   */
  predicate Parsable(s: string, formats: seq<string>, parses: Strptime) {
    s != [] && exists f :: f in formats && parses(Strip(s), f)
  }

  /** `_is_date_parsable`: tries the formats in order and stops at the first that parses. */
  method IsDateParsable(s: string, formats: seq<string>, parses: Strptime) returns (ok: bool)
    ensures ok == Parsable(s, formats, parses)
  {
    if s == [] {
      return false;
    }
    for i := 0 to |formats|
      invariant forall j :: 0 <= j < i ==> !parses(Strip(s), formats[j])
    {
      if parses(Strip(s), formats[i]) {
        return true;
      }
    }
    return false;
  }

  /** A non-empty candidate that is only whitespace parses only with a format that accepts the empty text. */
  lemma BlankCandidate(s: string, formats: seq<string>, parses: Strptime)
    requires s != [] && forall i :: 0 <= i < |s| ==> IsSpace(s[i])
    ensures Parsable(s, formats, parses) <==> exists f :: f in formats && parses([], f)
  {
    StripEmptyIffAllSpace(s);
  }

  /** The qualifier prefixes, in the order they are tried. */
  const Prefixes: seq<string> := ["ABT ", "CAL ", "EST ", "INT ", "BEF ", "AFT ", "FROM ", "TO "]

  /** The index of the first prefix in `Prefixes[i..]` that the upper-cased text `u` starts with. */
  function FirstPrefixFrom(u: string, i: nat): (r: Option<nat>)
    requires i <= |Prefixes|
    ensures r.Some? ==> (i <= r.value < |Prefixes| && StartsWith(u, Prefixes[r.value])
      && forall j :: i <= j < r.value ==> !StartsWith(u, Prefixes[j]))
    ensures r.None? ==> forall j :: i <= j < |Prefixes| ==> !StartsWith(u, Prefixes[j])
    decreases |Prefixes| - i
  {
    if i == |Prefixes| then None
    else if StartsWith(u, Prefixes[i]) then Some(i)
    else FirstPrefixFrom(u, i + 1)
  }

  /** No text starts with two different qualifier prefixes, so "the first match" is the only match. */
  lemma PrefixesExclusive(u: string, i: nat, j: nat)
    requires i < |Prefixes| && j < |Prefixes|
    requires StartsWith(u, Prefixes[i]) && StartsWith(u, Prefixes[j])
    ensures i == j
  {
    assert u[0] == Prefixes[i][0] == Prefixes[j][0];
    assert u[1] == Prefixes[i][1] == Prefixes[j][1];
  }

  /** The source's test for the range case, on the upper-cased text. */
  predicate RangeGuard(u: string) {
    StartsWith(u, "BET ") && Contains(u, " AND ")
  }

  /** Index of the first line feed in `s` at or after `from`, or `|s|`: where `.*` stops. */
  function LineEnd(s: string, from: nat): (e: nat)
    requires from <= |s|
    ensures from <= e <= |s| && (e < |s| ==> s[e] == '\n')
    ensures forall j :: from <= j < e ==> s[j] != '\n'
    decreases |s| - from
  {
    if from == |s| || s[from] == '\n' then from else LineEnd(s, from + 1)
  }

  /** The largest `k` in `[lo, hi]` at which the upper-cased text `u` holds " AND ". */
  function LastAndIn(u: string, lo: nat, hi: int): (r: Option<nat>)
    ensures r.Some? ==> (lo <= r.value <= hi && InfixAt(u, " AND ", r.value)
      && forall k :: r.value < k <= hi ==> !InfixAt(u, " AND ", k))
    ensures r.None? ==> forall k :: lo <= k <= hi ==> !InfixAt(u, " AND ", k)
    decreases if hi < lo then 0 else hi - lo + 1
  {
    if hi < lo then None
    else if InfixAt(u, " AND ", hi) then Some(hi)
    else LastAndIn(u, lo, hi - 1)
  }

  /**
   * Where `re.match(r"BET (.*) AND (.*)", s, re.IGNORECASE)` cuts the text:
   * `.` does not match a line feed and both groups are greedy, so group 2
   * ends at the first line feed `e` (or the end) and group 1 ends at the last
   * " AND " at `k` before it.
   */
  function RangeCut(s: string): (r: Option<(nat, nat)>)
    ensures r.Some? ==> var (k, e) := r.value;
      && StartsWith(Upper(s), "BET ") && e == LineEnd(s, 4) && e <= |s|
      && 4 <= k && k + 5 <= e && InfixAt(Upper(s), " AND ", k)
      && forall j :: k < j <= e - 5 ==> !InfixAt(Upper(s), " AND ", j)
  {
    var u := Upper(s);
    if !StartsWith(u, "BET ") then None
    else
      var e := LineEnd(s, 4);
      match LastAndIn(u, 4, e - 5)
      case None => None
      case Some(k) => Some((k, e))
  }

  /** The two groups of the range pattern, when it matches. */
  function RangeGroups(s: string): Option<(string, string)> {
    match RangeCut(s)
    case None => None
    case Some((k, e)) => Some((s[4..k], s[k + 5..e]))
  }

  /**
   * When the range pattern matches, `s` reads "BET " + group 1 + " AND " +
   * group 2 (ignoring ASCII case) up to a line feed or the end, neither group
   * holds a line feed, and group 2 holds no " AND ": the split is at the last
   * occurrence.
   */
  lemma RangeGroupsSound(s: string)
    requires RangeGroups(s).Some?
    ensures var (g1, g2) := RangeGroups(s).value;
      var k := 4 + |g1|;
      && k + 5 + |g2| <= |s|
      && StartsWith(Upper(s), "BET ") && InfixAt(Upper(s), " AND ", k)
      && s[4..k] == g1 && s[k + 5..k + 5 + |g2|] == g2
      && '\n' !in g1 && '\n' !in g2
      && (k + 5 + |g2| == |s| || s[k + 5 + |g2|] == '\n')
      && !Contains(Upper(g2), " AND ")
  {
    var (k, e) := RangeCut(s).value;
    NoLineFeedIn(s, 4, k, e);
    NoLineFeedIn(s, k + 5, e, e);
    NoAndAfterLast(s, k, e);
  }

  /** A slice of `s` that lies before the line end `e` holds no line feed. */
  lemma NoLineFeedIn(s: string, a: nat, b: nat, e: nat)
    requires 4 <= a <= b <= e <= |s| && e == LineEnd(s, 4)
    ensures '\n' !in s[a..b]
  {
    forall j | 0 <= j < b - a ensures s[a..b][j] != '\n' {
      assert s[a..b][j] == s[a + j];
    }
  }

  /** The text after the last " AND " before the line end holds no further " AND ". */
  lemma NoAndAfterLast(s: string, k: nat, e: nat)
    requires 4 <= k && k + 5 <= e <= |s|
    requires forall j :: k < j <= e - 5 ==> !InfixAt(Upper(s), " AND ", j)
    ensures !Contains(Upper(s[k + 5..e]), " AND ")
  {
    var u := Upper(s);
    var w := Upper(s[k + 5..e]);
    forall p | 0 <= p <= |w| - 5 ensures !InfixAt(w, " AND ", p) {
      assert w[p..p + 5] == u[k + 5 + p..k + 5 + p + 5];
      assert !InfixAt(u, " AND ", k + 5 + p);
    }
  }

  /**
   * Greediness: whenever the text starts with "BET " and holds " AND " at some
   * `k >= 4` with no line feed before it, the pattern matches and its first
   * group reaches at least to `k`.
   */
  lemma RangeGroupsComplete(s: string, k: nat)
    requires StartsWith(Upper(s), "BET ") && 4 <= k && InfixAt(Upper(s), " AND ", k)
    requires forall j :: 4 <= j < k ==> s[j] != '\n'
    ensures RangeGroups(s).Some? && k - 4 <= |RangeGroups(s).value.0|
  {
    var u := Upper(s);
    var e := LineEnd(s, 4);
    forall j | k <= j < k + 5 ensures s[j] != '\n' {
      assert u[j] == u[k..k + 5][j - k];
    }
  }

  /** The three shapes `_validate_date_value` distinguishes, with the pieces it goes on to parse. */
  datatype DateForm =
    | Blank
    | Range(left: string, right: string)
    | BadRange
    | Qualified(prefix: string, rest: string)
    | Plain(text: string)

  /**
   * Classifies a date value: blank; a range when the upper-cased text starts
   * with "BET " and holds " AND " (both groups stripped, or a structural
   * mismatch when the pattern fails); otherwise the first qualifier prefix is
   * cut off the original text; otherwise the text is bare.
   */
  function Classify(s: string): DateForm {
    if s == [] then Blank
    else if RangeGuard(Upper(s)) then
      match RangeGroups(s)
      case Some((g1, g2)) => Range(Strip(g1), Strip(g2))
      case None => BadRange
    else
      match FirstPrefixFrom(Upper(s), 0)
      case Some(i) => Qualified(Prefixes[i], s[|Prefixes[i]|..])
      case None => Plain(s)
  }

  /** The meaning of `_validate_date_value`. */
  predicate ValidDate(s: string, formats: seq<string>, parses: Strptime) {
    match Classify(s)
    case Blank => true
    case Range(left, right) => Parsable(left, formats, parses) && Parsable(right, formats, parses)
    case BadRange => false
    case Qualified(_, rest) => Parsable(rest, formats, parses)
    case Plain(text) => Parsable(text, formats, parses)
  }

  /**
   * `_validate_date_value`: the range branch with its pattern, then the
   * prefix loop that cuts off the first matching qualifier, then parsing.
   */
  method ValidateDateValue(s: string, formats: seq<string>, parses: Strptime) returns (ok: bool)
    ensures ok == ValidDate(s, formats, parses)
  {
    if s == [] {
      return true;
    }
    var upper := Upper(s);
    var cleaned := s;
    if StartsWith(upper, "BET ") && Contains(upper, " AND ") {
      var groups := RangeGroups(s);
      if groups.Some? {
        var left := Strip(groups.value.0);
        var right := Strip(groups.value.1);
        assert Classify(s) == Range(left, right);
        var leftOk := IsDateParsable(left, formats, parses);
        var rightOk := IsDateParsable(right, formats, parses);
        assert ValidDate(s, formats, parses) == (leftOk && rightOk);
        return leftOk && rightOk;
      } else {
        assert Classify(s) == BadRange;
        assert !ValidDate(s, formats, parses);
        return false;
      }
    }
    assert Classify(s) == match FirstPrefixFrom(upper, 0)
      case Some(i) => Qualified(Prefixes[i], s[|Prefixes[i]|..])
      case None => Plain(s);
    var prefixFound := false;
    for i := 0 to |Prefixes|
      invariant !prefixFound && cleaned == s
      invariant FirstPrefixFrom(upper, 0) == FirstPrefixFrom(upper, i)
    {
      if StartsWith(upper, Prefixes[i]) {
        cleaned := s[|Prefixes[i]|..];
        prefixFound := true;
        assert Classify(s) == Qualified(Prefixes[i], cleaned);
        break;
      }
    }
    assert !prefixFound ==> Classify(s) == Plain(s);
    ok := IsDateParsable(cleaned, formats, parses);
    assert ValidDate(s, formats, parses) == ok;
  }

  /** An empty date value is valid. */
  lemma BlankDateValid(formats: seq<string>, parses: Strptime)
    ensures ValidDate([], formats, parses)
  {
  }

  /**
   * The range case never falls through to prefix stripping: it is valid
   * exactly when the pattern matches and both stripped groups are parsable.
   */
  lemma RangeRule(s: string, formats: seq<string>, parses: Strptime)
    requires s != [] && RangeGuard(Upper(s))
    ensures ValidDate(s, formats, parses) <==>
      RangeGroups(s).Some?
      && Parsable(Strip(RangeGroups(s).value.0), formats, parses)
      && Parsable(Strip(RangeGroups(s).value.1), formats, parses)
  {
  }

  /** A range side that strips to nothing makes the whole range invalid, whatever the formats. */
  lemma BlankRangeSideInvalid(s: string, formats: seq<string>, parses: Strptime)
    requires s != [] && RangeGuard(Upper(s)) && RangeGroups(s).Some?
    requires Strip(RangeGroups(s).value.0) == [] || Strip(RangeGroups(s).value.1) == []
    ensures !ValidDate(s, formats, parses)
  {
  }

  /**
   * Outside the range case, a value that starts with qualifier `Prefixes[i]`
   * is valid exactly when what follows the prefix is parsable; only that one
   * prefix is removed.
   */
  lemma QualifierRule(s: string, i: nat, formats: seq<string>, parses: Strptime)
    requires s != [] && !RangeGuard(Upper(s))
    requires i < |Prefixes| && StartsWith(Upper(s), Prefixes[i])
    ensures ValidDate(s, formats, parses) == Parsable(s[|Prefixes[i]|..], formats, parses)
  {
    var r := FirstPrefixFrom(Upper(s), 0);
    PrefixesExclusive(Upper(s), i, r.value);
  }

  /** Outside the range case, a value with no qualifier prefix is valid exactly when it is parsable as a whole. */
  lemma BareRule(s: string, formats: seq<string>, parses: Strptime)
    requires s != [] && !RangeGuard(Upper(s))
    requires forall i :: 0 <= i < |Prefixes| ==> !StartsWith(Upper(s), Prefixes[i])
    ensures ValidDate(s, formats, parses) == Parsable(s, formats, parses)
  {
  }

  /** A qualifier with nothing after it ("ABT ") is invalid, whatever the formats. */
  lemma LoneQualifierInvalid(s: string, i: nat, formats: seq<string>, parses: Strptime)
    requires i < |Prefixes| && Upper(s) == Prefixes[i]
    ensures !ValidDate(s, formats, parses)
  {
    assert StartsWith(Upper(s), Prefixes[i]);
    assert forall j :: 0 <= j < |Prefixes| ==> |Prefixes[j]| < 4 || Prefixes[j][0] != 'B' || Prefixes[j][2] != 'T';
    assert !StartsWith(Upper(s), "BET ");
    QualifierRule(s, i, formats, parses);
  }

  /** With no accepted formats, every non-empty date value is invalid. */
  lemma NoFormatsRejectAll(s: string, parses: Strptime)
    requires s != []
    ensures !ValidDate(s, [], parses)
  {
  }
}
