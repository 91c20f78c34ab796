/**
 The four character classes the checker tests with regular expressions:
 `[A-Z]`, `[a-z]`, `[0-9]` and the negated class `[^A-Za-z0-9]`. None of the
 expressions carries the `u` or `i` flag, so each compares single UTF-16 code
 units against ASCII ranges: a non-ASCII letter, a surrogate half or a space all
 fall into the special class. None carries the `g` flag either, so `test` keeps
 no state between calls.
 */
module CharClass {
  import opened CodeUnits

  datatype Class = Upper | Lower | Digit | Special

  predicate IsUpper(c: CodeUnit) {
    'A' as int <= c as int <= 'Z' as int
  }

  predicate IsLower(c: CodeUnit) {
    'a' as int <= c as int <= 'z' as int
  }

  predicate IsDigit(c: CodeUnit) {
    '0' as int <= c as int <= '9' as int
  }

  /** `[^A-Za-z0-9]`: everything the three ranges leave out. */
  predicate IsSpecial(c: CodeUnit) {
    !IsUpper(c) && !IsLower(c) && !IsDigit(c)
  }

  predicate InClass(c: CodeUnit, k: Class) {
    match k
    case Upper => IsUpper(c)
    case Lower => IsLower(c)
    case Digit => IsDigit(c)
    case Special => IsSpecial(c)
  }

  /** The reference meaning of a one-class pattern matching somewhere in `p`. */
  ghost predicate Occurs(p: seq<CodeUnit>, k: Class) {
    exists i :: 0 <= i < |p| && InClass(p[i], k)
  }

  /** `/[...]/.test(p)`: try the class at each position, left to right. */
  function Test(p: seq<CodeUnit>, k: Class): (found: bool)
    ensures found <==> Occurs(p, k)
  {
    if |p| == 0 then false
    else
      var rest := Test(p[1..], k);
      assert forall i :: 1 <= i < |p| ==> p[1..][i - 1] == p[i];
      InClass(p[0], k) || rest
  }

  /** Every code unit lies in exactly one of the four classes. */
  lemma ClassesPartition(c: CodeUnit)
    ensures InClass(c, Upper) || InClass(c, Lower) || InClass(c, Digit) || InClass(c, Special)
    ensures forall k1, k2 :: InClass(c, k1) && InClass(c, k2) ==> k1 == k2
  {
  }

  /** The class of a single code unit, the one `ClassesPartition` guarantees. */
  function ClassOf(c: CodeUnit): (k: Class)
    ensures InClass(c, k)
    ensures forall k' :: InClass(c, k') ==> k' == k
  {
    ClassesPartition(c);
    if IsUpper(c) then Upper
    else if IsLower(c) then Lower
    else if IsDigit(c) then Digit
    else Special
  }

  /** A non-empty password matches the pattern of its first code unit's class. */
  lemma {:induction false} NonEmptyHasSomeClass(p: seq<CodeUnit>)
    requires |p| > 0
    ensures Test(p, ClassOf(p[0]))
    ensures Test(p, Upper) || Test(p, Lower) || Test(p, Digit) || Test(p, Special)
  {
    assert InClass(p[0], ClassOf(p[0]));
  }

  /** A pattern matches a concatenation exactly when it matches one of the parts. */
  lemma {:induction false} TestConcat(p: seq<CodeUnit>, q: seq<CodeUnit>, k: Class)
    ensures Test(p + q, k) <==> Test(p, k) || Test(q, k)
  {
    if Test(p + q, k) {
      var i :| 0 <= i < |p + q| && InClass((p + q)[i], k);
      if i < |p| {
        assert InClass(p[i], k);
      } else {
        assert InClass(q[i - |p|], k);
      }
    }
    if Test(p, k) {
      var i :| 0 <= i < |p| && InClass(p[i], k);
      assert (p + q)[i] == p[i];
    }
    if Test(q, k) {
      var i :| 0 <= i < |q| && InClass(q[i], k);
      assert (p + q)[|p| + i] == q[i];
    }
  }

  /** Extending a password never makes a matching pattern stop matching. */
  lemma TestMonotone(p: seq<CodeUnit>, q: seq<CodeUnit>, k: Class)
    requires Test(p, k)
    ensures Test(p + q, k)
  {
    TestConcat(p, q, k);
  }
}
