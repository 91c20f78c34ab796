/**
 The integer step of `estimateTimeToCrack`: the size of the character pool an
 attacker is assumed to draw from, built from the classes the password uses.
 */
module CrackTime {
  import opened CodeUnits
  import opened CharClass
  import opened PasswordRules

  /** The flat size credited to each class; the special class is a fixed 32. */
  function ClassSize(k: Class): nat {
    match k
    case Lower => 26
    case Upper => 26
    case Digit => 10
    case Special => 32
  }

  /** The classes in the order the estimator tests them. */
  const PoolClasses: seq<Class> := [Lower, Upper, Digit, Special]

  /** The summed size of those classes among `ks` that occur in `p`. */
  function PoolOf(p: seq<CodeUnit>, ks: seq<Class>): nat {
    if |ks| == 0 then 0 else (if Test(p, ks[0]) then ClassSize(ks[0]) else 0) + PoolOf(p, ks[1..])
  }

  /** `poolSize`: 0, plus 26, 26, 10 and 32 for each class the password uses. It
      is at most the sum of all four, and 0 only for the empty password. */
  function PoolSize(p: seq<CodeUnit>): (n: nat)
    ensures n <= 94
    ensures n == 0 <==> |p| == 0
    ensures |p| > 0 ==> n >= 10
  {
    assert |p| > 0 ==> Test(p, Lower) || Test(p, Upper) || Test(p, Digit) || Test(p, Special) by {
      if |p| > 0 { NonEmptyHasSomeClass(p); }
    }
    var n0 := 0;
    var n1 := if Test(p, Lower) then n0 + 26 else n0;
    var n2 := if Test(p, Upper) then n1 + 26 else n1;
    var n3 := if Test(p, Digit) then n2 + 10 else n2;
    var n4 := if Test(p, Special) then n3 + 32 else n3;
    n4
  }

  /** The pool is the sum of the sizes of the classes that occur. */
  lemma PoolSizeSumsClasses(p: seq<CodeUnit>)
    ensures PoolSize(p) == PoolOf(p, PoolClasses)
  {
    var ks := PoolClasses;
    assert PoolOf(p, ks[4..]) == 0;
    assert PoolOf(p, ks[3..]) == (if Test(p, Special) then 32 else 0) by {
      assert ks[3..][1..] == ks[4..];
    }
    assert PoolOf(p, ks[2..]) == (if Test(p, Digit) then 10 else 0) + PoolOf(p, ks[3..]) by {
      assert ks[2..][1..] == ks[3..];
    }
    assert PoolOf(p, ks[1..]) == (if Test(p, Upper) then 26 else 0) + PoolOf(p, ks[2..]) by {
      assert ks[1..][1..] == ks[2..];
    }
  }

  /** The estimator's class tests are the checklist's: the pool is determined by
      the four class flags of `checkPasswordRules`. */
  lemma PoolSizeFromRules(p: seq<CodeUnit>)
    ensures var r := CheckPasswordRules(p);
            PoolSize(p) == (if r.hasLowerCase then 26 else 0) + (if r.hasUpperCase then 26 else 0)
                           + (if r.hasNumber then 10 else 0) + (if r.hasSpecialChar then 32 else 0)
  {
  }

  /** Extending a password never shrinks the pool. */
  lemma PoolSizeMonotone(p: seq<CodeUnit>, q: seq<CodeUnit>)
    ensures PoolSize(p) <= PoolSize(p + q)
  {
    TestConcat(p, q, Lower);
    TestConcat(p, q, Upper);
    TestConcat(p, q, Digit);
    TestConcat(p, q, Special);
  }
}
