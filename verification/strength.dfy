/**
 The scoring half of `checkStrength`: one point per passed rule, then a label
 chosen by an if-chain over the score.
 */
module Strength {
  import opened CodeUnits
  import opened PasswordRules

  datatype Option<T> = None | Some(value: T)

  datatype Level = Weak | Medium | Strong | VeryStrong

  /** The order of the labels, weakest first. */
  function Rank(l: Level): nat {
    match l
    case Weak => 0
    case Medium => 1
    case Strong => 2
    case VeryStrong => 3
  }

  /** The text `setStrength` stores for each label. */
  function Text(l: Level): string {
    match l
    case Weak => "Weak"
    case Medium => "Medium"
    case Strong => "Strong"
    case VeryStrong => "Very Strong"
  }

  /** The number of rules among `ks` that `r` passes. */
  function CountPassed(r: Rules, ks: seq<Rule>): (n: nat)
    ensures n <= |ks|
  {
    if |ks| == 0 then 0 else (if Holds(r, ks[0]) then 1 else 0) + CountPassed(r, ks[1..])
  }

  /** `strengthScore`: starts at 0 and is incremented once per passed rule. */
  function Score(r: Rules): (s: nat)
    ensures s <= |AllRules|
    ensures s == 0 <==> forall k :: !Holds(r, k)
    ensures s == |AllRules| <==> forall k :: Holds(r, k)
  {
    var s0 := 0;
    var s1 := if r.minLength then s0 + 1 else s0;
    var s2 := if r.hasUpperCase then s1 + 1 else s1;
    var s3 := if r.hasLowerCase then s2 + 1 else s2;
    var s4 := if r.hasNumber then s3 + 1 else s3;
    var s5 := if r.hasSpecialChar then s4 + 1 else s4;
    assert Holds(r, LengthRule) == r.minLength && Holds(r, UpperCaseRule) == r.hasUpperCase
        && Holds(r, LowerCaseRule) == r.hasLowerCase && Holds(r, NumberRule) == r.hasNumber
        && Holds(r, SpecialCharRule) == r.hasSpecialChar;
    s5
  }

  /** The if-chain on the score. A score it does not cover (above 5) reaches no
      branch, so `setStrength` is not called: `None`. */
  function Label(score: int): (l: Option<Level>)
    ensures l.Some? <==> score <= |AllRules|
  {
    if score <= 1 then Some(Weak)
    else if score == 2 || score == 3 then Some(Medium)
    else if score == 4 then Some(Strong)
    else if score == 5 then Some(VeryStrong)
    else None
  }

  /** The least score that earns each label. */
  function MinScore(l: Level): nat {
    match l
    case Weak => 0
    case Medium => 2
    case Strong => 4
    case VeryStrong => 5
  }

  /** The label `checkStrength` stores for the password `p`: the highest label
      whose minimum score the password reaches. */
  function CheckStrength(p: seq<CodeUnit>): (l: Level)
    ensures MinScore(l) <= Score(CheckPasswordRules(p))
    ensures forall l' :: MinScore(l') <= Score(CheckPasswordRules(p)) ==> Rank(l') <= Rank(l)
  {
    var score := Score(CheckPasswordRules(p));
    match Label(score)
    case Some(l) => LabelIsHighestReached(score, l); l
    case None => assert false; Weak
  }

  /** The score is the number of rules passed, counted over the checklist. */
  lemma ScoreCountsPassedRules(r: Rules)
    ensures Score(r) == CountPassed(r, AllRules)
  {
    var ks := AllRules;
    assert CountPassed(r, ks[5..]) == 0;
    assert CountPassed(r, ks[4..]) == (if r.hasSpecialChar then 1 else 0) by {
      assert ks[4..][1..] == ks[5..];
    }
    assert CountPassed(r, ks[3..]) == (if r.hasNumber then 1 else 0) + CountPassed(r, ks[4..]) by {
      assert ks[3..][1..] == ks[4..];
    }
    assert CountPassed(r, ks[2..]) == (if r.hasLowerCase then 1 else 0) + CountPassed(r, ks[3..]) by {
      assert ks[2..][1..] == ks[3..];
    }
    assert CountPassed(r, ks[1..]) == (if r.hasUpperCase then 1 else 0) + CountPassed(r, ks[2..]) by {
      assert ks[1..][1..] == ks[2..];
    }
  }

  /** The if-chain is the threshold table: for every score a password can get,
      the label is the highest one whose minimum score is reached. */
  lemma LabelIsHighestReached(score: int, l: Level)
    requires 0 <= score <= |AllRules|
    ensures Label(score) == Some(l) <==>
              MinScore(l) <= score && forall l' :: MinScore(l') <= score ==> Rank(l') <= Rank(l)
  {
    assert MinScore(Medium) == 2 && MinScore(Strong) == 4 && MinScore(VeryStrong) == 5;
    if score <= 1 {
    } else if score <= 3 {
    } else if score == 4 {
    } else {
    }
  }

  /** A higher score never gets a weaker label. */
  lemma LabelMonotone(s1: int, s2: int)
    requires s1 <= s2 <= |AllRules|
    ensures Label(s1).Some? && Label(s2).Some?
    ensures Rank(Label(s1).value) <= Rank(Label(s2).value)
  {
  }

  /** Each label has its own text, so the stored string identifies the label. */
  lemma TextInjective(l1: Level, l2: Level)
    ensures Text(l1) == Text(l2) <==> l1 == l2
  {
    if l1 != l2 {
      assert Text(l1)[0] != Text(l2)[0] || |Text(l1)| != |Text(l2)|;
    }
  }

  /** The string `setStrength` stores for the password `p`. */
  function StoredText(p: seq<CodeUnit>): string {
    Text(CheckStrength(p))
  }

  /** Two passwords leave the same stored string exactly when they get the same label. */
  lemma StoredTextIdentifiesLevel(p: seq<CodeUnit>, q: seq<CodeUnit>)
    ensures StoredText(p) == StoredText(q) <==> CheckStrength(p) == CheckStrength(q)
  {
    TextInjective(CheckStrength(p), CheckStrength(q));
  }

  /** The empty password scores 0, is labelled Weak and stores "Weak". */
  lemma EmptyPasswordIsWeak()
    ensures Score(CheckPasswordRules([])) == 0
    ensures CheckStrength([]) == Weak
    ensures StoredText([]) == "Weak"
  {
    EmptyFailsAll();
  }

  /** A non-empty password scores at least 1. */
  lemma NonEmptyScoresAtLeastOne(p: seq<CodeUnit>)
    requires |p| > 0
    ensures Score(CheckPasswordRules(p)) >= 1
  {
    NonEmptyPassesAClassRule(p);
  }

  /** Passing more rules never lowers the score. */
  lemma ScoreMonotone(a: Rules, b: Rules)
    requires Weaker(a, b)
    ensures Score(a) <= Score(b)
  {
    assert Holds(a, LengthRule) ==> Holds(b, LengthRule);
    assert Holds(a, UpperCaseRule) ==> Holds(b, UpperCaseRule);
    assert Holds(a, LowerCaseRule) ==> Holds(b, LowerCaseRule);
    assert Holds(a, NumberRule) ==> Holds(b, NumberRule);
    assert Holds(a, SpecialCharRule) ==> Holds(b, SpecialCharRule);
  }

  /** Extending a password never lowers its score nor weakens its label. */
  lemma StrengthMonotone(p: seq<CodeUnit>, q: seq<CodeUnit>)
    ensures Score(CheckPasswordRules(p)) <= Score(CheckPasswordRules(p + q))
    ensures Rank(CheckStrength(p)) <= Rank(CheckStrength(p + q))
  {
    RulesMonotone(p, q);
    ScoreMonotone(CheckPasswordRules(p), CheckPasswordRules(p + q));
    LabelMonotone(Score(CheckPasswordRules(p)), Score(CheckPasswordRules(p + q)));
  }
}
