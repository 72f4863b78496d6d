/**
 * The `/parse` heuristics without their HTTP wiring: a case-insensitive
 * keyword test decides whether the prompt asks for a status run, a scanner
 * for the one budget pattern (digits with comma groups, optional white
 * space, then "hd" or "hkd" in any case) reads the budget, and the intent
 * built from both always passes the intent schema.
 */
module PromptParse {
  import opened Wrappers
  import opened Schemas
  import opened Text

  /** The lower-case word `w` occurs in `s` at `i`, ignoring ASCII case. */
  predicate MatchesAt(s: string, i: nat, w: string) {
    i + |w| <= |s| && forall j :: 0 <= j < |w| ==> LowerAscii(s[i + j]) == w[j]
  }

  /** The regular expression test: try every start position from `i` on. */
  function OccursFrom(s: string, w: string, i: nat): bool
    decreases |s| - i
  {
    if i + |w| > |s| then false
    else MatchesAt(s, i, w) || OccursFrom(s, w, i + 1)
  }

  lemma {:induction false} OccursFromSpec(s: string, w: string, i: nat)
    ensures OccursFrom(s, w, i) <==> exists p :: i <= p && MatchesAt(s, p, w)
    decreases |s| - i
  {
    if i + |w| <= |s| {
      OccursFromSpec(s, w, i + 1);
      if OccursFrom(s, w, i + 1) {
        var p :| i + 1 <= p && MatchesAt(s, p, w);
        assert i <= p;
      }
    }
  }

  /** A status-run keyword starts at `p`. */
  predicate KeywordAt(s: string, p: nat) {
    MatchesAt(s, p, "qpoints") || MatchesAt(s, p, "status") || MatchesAt(s, p, "tier") || MatchesAt(s, p, "gold")
  }

  /** `/qpoints|status|tier|gold/i.test(prompt)` */
  function IsStatusRun(prompt: string): bool {
    OccursFrom(prompt, "qpoints", 0) || OccursFrom(prompt, "status", 0)
    || OccursFrom(prompt, "tier", 0) || OccursFrom(prompt, "gold", 0)
  }

  lemma StatusRunIffKeyword(prompt: string)
    ensures IsStatusRun(prompt) <==> exists p :: KeywordAt(prompt, p)
  {
    OccursFromSpec(prompt, "qpoints", 0);
    OccursFromSpec(prompt, "status", 0);
    OccursFromSpec(prompt, "tier", 0);
    OccursFromSpec(prompt, "gold", 0);
    if exists p :: KeywordAt(prompt, p) {
      var p :| KeywordAt(prompt, p);
      assert 0 <= p;
      if MatchesAt(prompt, p, "qpoints") {
        assert OccursFrom(prompt, "qpoints", 0);
      } else if MatchesAt(prompt, p, "status") {
        assert OccursFrom(prompt, "status", 0);
      } else if MatchesAt(prompt, p, "tier") {
        assert OccursFrom(prompt, "tier", 0);
      } else {
        assert OccursFrom(prompt, "gold", 0);
      }
    }
    if IsStatusRun(prompt) {
      var w :| w in ["qpoints", "status", "tier", "gold"] && OccursFrom(prompt, w, 0);
      var p :| 0 <= p && MatchesAt(prompt, p, w);
      assert KeywordAt(prompt, p);
    }
  }

  /** The characters `\s` matches in a JavaScript regular expression. */
  predicate IsRegexSpace(c: char) {
    var n := c as int;
    || n == 0x09 || n == 0x0A || n == 0x0B || n == 0x0C || n == 0x0D || n == 0x20
    || n == 0xA0 || n == 0x1680 || (0x2000 <= n <= 0x200A) || n == 0x2028 || n == 0x2029
    || n == 0x202F || n == 0x205F || n == 0x3000 || n == 0xFEFF
  }

  /** Inside a number ending at `e`, position `j` holds a digit or a comma followed by a digit. */
  predicate TokenCharAt(s: string, j: nat, e: nat) {
    j < |s| && (IsDigit(s[j]) || (s[j] == ',' && j + 1 < e && j + 1 < |s| && IsDigit(s[j + 1])))
  }

  /** `s[i..e]` is a number in the pattern's sense: `\d+(?:,\d+)*`. */
  predicate NumberToken(s: string, i: nat, e: nat) {
    && i < e <= |s|
    && IsDigit(s[i])
    && forall j :: i <= j < e ==> TokenCharAt(s, j, e)
  }

  /** After the number: white space from `e` to `k`, then "hd" or "hkd" in any case at `k`. */
  predicate HkdAt(s: string, k: nat) {
    && k < |s| && LowerAscii(s[k]) == 'h'
    && ((k + 1 < |s| && LowerAscii(s[k + 1]) == 'd')
        || (k + 2 < |s| && LowerAscii(s[k + 1]) == 'k' && LowerAscii(s[k + 2]) == 'd'))
  }

  predicate SpacedSuffix(s: string, e: nat, k: nat) {
    e <= k <= |s| && (forall j :: e <= j < k ==> IsRegexSpace(s[j])) && HkdAt(s, k)
  }

  /** The budget pattern matches at `i`, capturing `s[i..e]`. */
  ghost predicate BudgetMatch(s: string, i: nat, e: nat) {
    NumberToken(s, i, e) && exists k :: SpacedSuffix(s, e, k)
  }

  /** The end of the run of digits starting at `i`. */
  function DigitsEnd(s: string, i: nat): (e: nat)
    requires i <= |s|
    ensures i <= e <= |s| && (forall j :: i <= j < e ==> IsDigit(s[j])) && (e == |s| || !IsDigit(s[e]))
    decreases |s| - i
  {
    if i < |s| && IsDigit(s[i]) then DigitsEnd(s, i + 1) else i
  }

  /** The end of the run of white space starting at `i`. */
  function SpacesEnd(s: string, i: nat): (e: nat)
    requires i <= |s|
    ensures i <= e <= |s| && (forall j :: i <= j < e ==> IsRegexSpace(s[j])) && (e == |s| || !IsRegexSpace(s[e]))
    decreases |s| - i
  {
    if i < |s| && IsRegexSpace(s[i]) then SpacesEnd(s, i + 1) else i
  }

  /** The number cannot be extended at `e`. */
  predicate NumberStops(s: string, e: nat) {
    e >= |s| || (!IsDigit(s[e]) && !(s[e] == ',' && e + 1 < |s| && IsDigit(s[e + 1])))
  }

  /** The greedy number at `i`: digit runs joined by single commas, as long as possible. */
  function NumberEnd(s: string, i: nat): (e: nat)
    requires i < |s| && IsDigit(s[i])
    ensures NumberToken(s, i, e) && NumberStops(s, e)
    decreases |s| - i
  {
    var d := DigitsEnd(s, i);
    if d + 1 < |s| && s[d] == ',' && IsDigit(s[d + 1]) then
      var e := NumberEnd(s, d + 1);
      assert NumberToken(s, i, e) by {
        forall j | i <= j < e ensures TokenCharAt(s, j, e) {
          if j > d {
            assert TokenCharAt(s, j, e);
          }
        }
      }
      e
    else d
  }

  /** No number token at `i` reaches past the greedy end. */
  lemma NumberEndIsLongest(s: string, i: nat, e: nat)
    requires NumberToken(s, i, e)
    ensures e <= NumberEnd(s, i)
  {
    var n := NumberEnd(s, i);
    assert n < e ==> TokenCharAt(s, n, e);
  }

  /** The scanner's verdict at one start position: the end of the captured number. */
  function MatchAt(s: string, i: nat): Option<nat> {
    if i < |s| && IsDigit(s[i]) then
      var e := NumberEnd(s, i);
      if HkdAt(s, SpacesEnd(s, e)) then Some(e) else None
    else None
  }

  /**
   * The scanner agrees with the pattern at every start position; in
   * particular the captured number is the only one that can match there.
   */
  lemma MatchAtSpec(s: string, i: nat, e: nat)
    ensures MatchAt(s, i) == Some(e) <==> BudgetMatch(s, i, e)
  {
    if MatchAt(s, i) == Some(e) {
      assert SpacedSuffix(s, e, SpacesEnd(s, e));
    }
    if BudgetMatch(s, i, e) {
      var k: nat :| SpacedSuffix(s, e, k);
      var n := NumberEnd(s, i);
      NumberEndIsLongest(s, i, e);
      // A shorter number would leave a digit or a comma where the suffix needs white space or 'h'.
      assert e < n ==> TokenCharAt(s, e, n);
      assert e == n;
      // The suffix starts after all the white space and not inside it.
      var ke := SpacesEnd(s, e);
      assert k < ke ==> IsRegexSpace(s[k]) && LowerAscii(s[k]) == s[k];
    }
  }

  /** `prompt.match(...)`: the leftmost start position at which the pattern matches. */
  function FirstMatch(s: string, i: nat): Option<(nat, nat)>
    decreases |s| - i
  {
    if i >= |s| then None
    else if MatchAt(s, i).Some? then Some((i, MatchAt(s, i).value))
    else FirstMatch(s, i + 1)
  }

  lemma {:induction false} FirstMatchSpec(s: string, i: nat)
    ensures FirstMatch(s, i).Some? ==>
              && i <= FirstMatch(s, i).value.0
              && BudgetMatch(s, FirstMatch(s, i).value.0, FirstMatch(s, i).value.1)
              && forall q, e :: i <= q < FirstMatch(s, i).value.0 ==> !BudgetMatch(s, q, e)
    ensures FirstMatch(s, i).None? ==> forall q, e :: i <= q ==> !BudgetMatch(s, q, e)
    decreases |s| - i
  {
    if i < |s| {
      if MatchAt(s, i).Some? {
        MatchAtSpec(s, i, MatchAt(s, i).value);
      } else {
        NoMatchAt(s, i);
        FirstMatchSpec(s, i + 1);
      }
    }
  }

  lemma NoMatchAt(s: string, i: nat)
    requires MatchAt(s, i).None?
    ensures forall e :: !BudgetMatch(s, i, e)
  {
    forall e: nat ensures !BudgetMatch(s, i, e) {
      MatchAtSpec(s, i, e);
    }
  }

  /** `.replace(/,/g, '')` */
  function RemoveCommas(t: string): (r: string)
    ensures (forall j :: 0 <= j < |t| ==> IsDigit(t[j]) || t[j] == ',') ==> AllDigits(r)
    ensures ',' !in r
    ensures |t| == 1 ==> r == (if t[0] == ',' then [] else t)
  {
    if t == [] then []
    else (if t[0] == ',' then [] else [t[0]]) + RemoveCommas(t[1..])
  }

  /** Commas are dropped piece by piece: every other character is kept, in order. */
  lemma {:induction false} RemoveCommasAppend(a: string, b: string)
    ensures RemoveCommas(a + b) == RemoveCommas(a) + RemoveCommas(b)
    decreases |a|
  {
    if a == [] {
      assert a + b == b;
    } else {
      assert (a + b)[0] == a[0] && (a + b)[1..] == a[1..] + b;
      RemoveCommasAppend(a[1..], b);
    }
  }

  /** The budget a prompt states, if any: the first match, commas removed, read as a number. */
  function BudgetOf(prompt: string): (r: Option<real>)
    ensures r.None? <==> forall q: nat, e: nat :: !BudgetMatch(prompt, q, e)
    ensures r.Some? ==> r.value >= 0.0 && r.value.Floor as real == r.value
  {
    FirstMatchSpec(prompt, 0);
    match FirstMatch(prompt, 0)
    case None => None
    case Some((p, e)) =>
      TokenChars(prompt, p, e);
      var digits := RemoveCommas(prompt[p..e]);
      Some(DigitsValue(digits) as real)
  }

  lemma TokenChars(s: string, i: nat, e: nat)
    requires NumberToken(s, i, e)
    ensures forall j :: 0 <= j < |s[i..e]| ==> IsDigit(s[i..e][j]) || s[i..e][j] == ','
  {
    forall j | 0 <= j < |s[i..e]| ensures IsDigit(s[i..e][j]) || s[i..e][j] == ',' {
      assert s[i..e][j] == s[i + j] && TokenCharAt(s, i + j, e);
    }
  }

  lemma {:induction false} RemoveCommasOfDigits(t: string)
    requires AllDigits(t)
    ensures RemoveCommas(t) == t
  {
    if t != [] {
      RemoveCommasOfDigits(t[1..]);
    }
  }

  /**
   * A number written after text without digits, then " HKD", is the budget,
   * whatever follows.
   */
  lemma BudgetOfWritten(text: string, n: nat, rest: string)
    requires forall j :: 0 <= j < |text| ==> !IsDigit(text[j])
    ensures BudgetOf(text + NatToString(n) + " HKD" + rest) == Some(n as real)
  {
    var d := NatToString(n);
    var s := text + d + " HKD" + rest;
    var p, e := |text|, |text| + |d|;
    assert s[p..e] == d by {
      assert s == text + d + (" HKD" + rest);
    }
    assert forall j :: p <= j < e ==> s[j] == d[j - p];
    assert NumberToken(s, p, e);
    assert s[e] == ' ' && s[e + 1] == 'H' && s[e + 2] == 'K' && s[e + 3] == 'D';
    assert SpacedSuffix(s, e, e + 1);
    MatchAtSpec(s, p, e);
    forall q: nat | q < p ensures FirstMatch(s, q) == FirstMatch(s, p) {
      FirstMatchSkips(s, q, p);
    }
    RemoveCommasOfDigits(d);
    DigitsValueOfNatToString(n);
  }

  lemma {:induction false} FirstMatchSkips(s: string, q: nat, p: nat)
    requires q <= p < |s| && forall j :: q <= j < p ==> !IsDigit(s[j])
    ensures FirstMatch(s, q) == FirstMatch(s, p)
    decreases p - q
  {
    if q < p {
      FirstMatchSkips(s, q + 1, p);
    }
  }

  /** Thousands separators are dropped and the suffix may follow without white space. */
  lemma BudgetWithSeparator()
    ensures BudgetOf("12,500hkd") == Some(12500.0)
  {
    var s := "12,500hkd";
    SeparatorMatch();
    assert s[0..6] == "12,500";
    SeparatorRemoved();
    FiveDigits();
  }

  lemma SeparatorRemoved()
    ensures RemoveCommas("12,500") == "12500"
  {
    assert "12,500"[1..] == "2,500" && "2,500"[1..] == ",500" && ",500"[1..] == "500";
    assert RemoveCommas("500") == "500";
  }

  lemma SeparatorMatch()
    ensures FirstMatch("12,500hkd", 0) == Some((0, 6))
  {
    var s := "12,500hkd";
    assert NumberToken(s, 0, 6) by {
      assert forall j :: 0 <= j < 6 ==> TokenCharAt(s, j, 6);
    }
    assert SpacedSuffix(s, 6, 6);
    MatchAtSpec(s, 0, 6);
  }

  lemma FiveDigits()
    ensures DigitsValue("12500") == 12500
  {
    assert "12500"[..4] == "1250" && "1250"[..3] == "125" && "125"[..2] == "12" && "12"[..1] == "1";
  }

  /** The intent object the handler builds before validating it. */
  function PromptIntent(prompt: string): RawIntent {
    var statusRun := IsStatusRun(prompt);
    RawIntent(
      Some(if statusRun then "status_run" else "cheapest"),
      "HKG",
      Some(if statusRun then ["RUH"] else ["LHR", "LGW"]),
      DateWindow("2025-10-05", "2025-11-30"),
      if statusRun then None else Some(TripLength(14.0, 21.0)),
      Some("HKD"),
      BudgetOf(prompt),
      Some(statusRun),
      None, None, None,
      Some("ECONOMY"),
      None)
  }

  /**
   * The parsed intent: the schema never rejects it; the goal is `status_run`
   * exactly when the prompt names a status keyword and `cheapest` otherwise;
   * the budget is the one the prompt states.
   */
  function ParsePrompt(prompt: string): (r: Intent)
    ensures IntentValid(r)
    ensures r.goal == (if IsStatusRun(prompt) then StatusRun else Goal.Cheapest)
    ensures r.budgetMax == BudgetOf(prompt)
    ensures r.budgetCurrency == "HKD" && r.codeshareOk && r.cabinPref == Economy
  {
    var raw := PromptIntent(prompt);
    assert RawIntentValid(raw) by {
      assert IsPositiveInt(14.0) && IsPositiveInt(21.0);
    }
    ApplyIntentSchema(raw).value
  }

  /** The status flag alone decides destinations, trip length and `weekend_only`. */
  lemma ParsePromptByFlag(prompt: string)
    ensures IsStatusRun(prompt) ==>
              && ParsePrompt(prompt).destinations == Some(["RUH"])
              && ParsePrompt(prompt).tripLengthDays.None?
              && ParsePrompt(prompt).weekendOnly == Some(true)
    ensures !IsStatusRun(prompt) ==>
              && ParsePrompt(prompt).destinations == Some(["LHR", "LGW"])
              && ParsePrompt(prompt).tripLengthDays == Some(TripLength(14.0, 21.0))
              && ParsePrompt(prompt).weekendOnly == Some(false)
  {
  }

  /** Two prompts with the same flag and the same budget parse to the same intent. */
  lemma ParsePromptDeterminedByFlagAndBudget(p1: string, p2: string)
    requires IsStatusRun(p1) == IsStatusRun(p2) && BudgetOf(p1) == BudgetOf(p2)
    ensures ParsePrompt(p1) == ParsePrompt(p2)
  {
  }
}
