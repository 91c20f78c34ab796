/**
 The checklist evaluator `checkPasswordRules`: five independent booleans computed
 from the password alone.
 */
module PasswordRules {
  import opened CodeUnits
  import opened CharClass

  /** The minimum number of code units the length rule asks for. */
  const MinLength: nat := 8

  /** The object `checkPasswordRules` returns, one field per rule, in its key order. */
  datatype Rules = Rules(
    minLength: bool,
    hasUpperCase: bool,
    hasLowerCase: bool,
    hasNumber: bool,
    hasSpecialChar: bool)

  /** The five rules by name, in the order the checklist lists them. */
  datatype Rule = LengthRule | UpperCaseRule | LowerCaseRule | NumberRule | SpecialCharRule

  const AllRules: seq<Rule> := [LengthRule, UpperCaseRule, LowerCaseRule, NumberRule, SpecialCharRule]

  /** Whether rule `k` passed in the evaluation `r`. */
  predicate Holds(r: Rules, k: Rule) {
    match k
    case LengthRule => r.minLength
    case UpperCaseRule => r.hasUpperCase
    case LowerCaseRule => r.hasLowerCase
    case NumberRule => r.hasNumber
    case SpecialCharRule => r.hasSpecialChar
  }

  /** `checkPasswordRules(password)`. Each class flag holds exactly when some
      code unit of the password lies in that class. */
  function CheckPasswordRules(p: seq<CodeUnit>): (r: Rules)
    ensures r.minLength <==> |p| >= MinLength
    ensures r.hasUpperCase <==> exists i :: 0 <= i < |p| && IsUpper(p[i])
    ensures r.hasLowerCase <==> exists i :: 0 <= i < |p| && IsLower(p[i])
    ensures r.hasNumber <==> exists i :: 0 <= i < |p| && IsDigit(p[i])
    ensures r.hasSpecialChar <==>
              exists i :: 0 <= i < |p| && !IsUpper(p[i]) && !IsLower(p[i]) && !IsDigit(p[i])
  {
    Rules(
      minLength := |p| >= MinLength,
      hasUpperCase := Test(p, Upper),
      hasLowerCase := Test(p, Lower),
      hasNumber := Test(p, Digit),
      hasSpecialChar := Test(p, Special))
  }

  /** Rule evaluation `a` is pointwise at most `b`: every rule `a` passes, `b` passes. */
  predicate Weaker(a: Rules, b: Rules) {
    forall k :: Holds(a, k) ==> Holds(b, k)
  }

  /** The empty password fails every rule. */
  lemma EmptyFailsAll()
    ensures forall k :: !Holds(CheckPasswordRules([]), k)
  {
  }

  /** A non-empty password passes at least one of the four class rules, since
      the classes cover every code unit. */
  lemma NonEmptyPassesAClassRule(p: seq<CodeUnit>)
    requires |p| > 0
    ensures var r := CheckPasswordRules(p);
            r.hasUpperCase || r.hasLowerCase || r.hasNumber || r.hasSpecialChar
  {
    NonEmptyHasSomeClass(p);
  }

  /** Appending code units never turns a passed rule into a failed one. */
  lemma RulesMonotone(p: seq<CodeUnit>, q: seq<CodeUnit>)
    ensures Weaker(CheckPasswordRules(p), CheckPasswordRules(p + q))
  {
    TestConcat(p, q, Upper);
    TestConcat(p, q, Lower);
    TestConcat(p, q, Digit);
    TestConcat(p, q, Special);
  }

  /** The class rules of a concatenation are the disjunction of the parts' class
      rules; only the length rule can pass for the whole and fail for both parts. */
  lemma RulesConcat(p: seq<CodeUnit>, q: seq<CodeUnit>)
    ensures var r, a, b := CheckPasswordRules(p + q), CheckPasswordRules(p), CheckPasswordRules(q);
            && r.minLength == (|p| + |q| >= MinLength)
            && r.hasUpperCase == (a.hasUpperCase || b.hasUpperCase)
            && r.hasLowerCase == (a.hasLowerCase || b.hasLowerCase)
            && r.hasNumber == (a.hasNumber || b.hasNumber)
            && r.hasSpecialChar == (a.hasSpecialChar || b.hasSpecialChar)
  {
    TestConcat(p, q, Upper);
    TestConcat(p, q, Lower);
    TestConcat(p, q, Digit);
    TestConcat(p, q, Special);
  }
}
