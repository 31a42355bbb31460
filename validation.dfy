/**
 * express-validator, reduced to what the rule lists use: each `check(field)`
 * chain is a list of rules, every rule runs (no rule bails), and each rule
 * that fails contributes its `withMessage` text. A missing field reads as "".
 */
module Validation {
  import opened Wrappers
  import opened Requests

  /** The validator library's own tests, not modelled: `isEmail`, and `isInt` with the integer it reads. */
  datatype Checks = Checks(isEmail: string -> bool, isInt: string -> Option<int>)

  /** One validator of a chain: whether it holds, and the message it reports otherwise. */
  datatype Rule = Rule(holds: bool, message: string)

  /** The messages of the failing rules, in order (`errors.array().map(err => err.msg)`). */
  function Failures(rules: seq<Rule>): (msgs: seq<string>)
    ensures |msgs| <= |rules|
    ensures msgs == [] <==> forall i :: 0 <= i < |rules| ==> rules[i].holds
    ensures forall i :: 0 <= i < |rules| && !rules[i].holds ==> rules[i].message in msgs
    ensures forall m | m in msgs :: exists i :: 0 <= i < |rules| && !rules[i].holds && rules[i].message == m
  {
    if rules == [] then []
    else
      var rest := Failures(rules[1..]);
      assert forall i :: 1 <= i < |rules| ==> rules[i] == rules[1..][i - 1];
      if rules[0].holds then rest else [rules[0].message] + rest
  }

  /**
   * The messages keep the order of the rules: the failures of a chain
   * followed by another are those of the first, then those of the second.
   */
  lemma {:induction false} FailuresInOrder(first: seq<Rule>, second: seq<Rule>)
    ensures Failures(first + second) == Failures(first) + Failures(second)
    decreases |first|
  {
    if first == [] {
      assert first + second == second;
    } else {
      assert (first + second)[1..] == first[1..] + second;
      FailuresInOrder(first[1..], second);
    }
  }

  /** One rule reports its message exactly when it fails. */
  lemma FailuresOfOne(rule: Rule)
    ensures Failures([rule]) == if rule.holds then [] else [rule.message]
  {
    assert [rule][1..] == [];
  }

  /** The string a validator sees: the value, or "" when the field is absent. */
  function Text(v: Option<string>): string
  {
    v.GetOr("")
  }

  /** `.not().isEmpty()`. */
  predicate NotEmpty(v: Option<string>)
  {
    Text(v) != ""
  }

  /** `.isLength({ min, max })`. */
  predicate LengthIn(v: Option<string>, min: int, max: int)
  {
    min <= |Text(v)| <= max
  }

  /** `.not().isEmpty()` on a value that may be a JSON number (a number is never empty). */
  predicate JsonNotEmpty(v: Option<Json>)
  {
    match v
    case None => false
    case Some(Num(_)) => true
    case Some(Str(s)) => s != ""
  }

  /** The integer `.isInt()` accepts the value as (`isInt("")` is false); a JSON integer always is one. */
  function IntOf(v: Option<Json>, checks: Checks): Option<int>
  {
    match v
    case None => None
    case Some(Num(n)) => Some(n)
    case Some(Str(s)) => if s == "" then None else checks.isInt(s)
  }

  /** `.isInt({ min, max })`. */
  predicate IntIn(v: Option<Json>, min: int, max: int, checks: Checks)
  {
    IntOf(v, checks).Some? && min <= IntOf(v, checks).value <= max
  }

  // `.matches(...)` with the pattern "some run of [a-zA-Z] anywhere": at least one ASCII letter.
  predicate HasAsciiLetter(s: string)
  {
    exists i | 0 <= i < |s| :: 'a' <= s[i] <= 'z' || 'A' <= s[i] <= 'Z'
  }
}
