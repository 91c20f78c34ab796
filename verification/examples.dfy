/**
 Sample passwords with the rules, score, label and pool size the model gives
 them, and the effect of characters outside the Basic Multilingual Plane.
 */
module Examples {
  import opened CodeUnits
  import opened CharClass
  import opened PasswordRules
  import opened Strength
  import opened CrackTime

  /** The code units JavaScript holds for the example texts: ASCII text is its
      own encoding. */
  lemma EncodingOfAbc12345()
    ensures Utf16("Abc12345") == [65, 98, 99, 49, 50, 51, 52, 53]
  {
    var s := "Abc12345";
    assert forall i :: 0 <= i < |s| ==> InBmp(s[i]) by {
      forall i | 0 <= i < |s| ensures InBmp(s[i]) {
        if i < 4 { assert s[i] in "Abc1"; } else { assert s[i] in "2345"; }
      }
    }
    var u := Utf16(s);
    assert u[0] == 65 && u[1] == 98 && u[2] == 99 && u[3] == 49;
    assert u[4] == 50 && u[5] == 51 && u[6] == 52 && u[7] == 53;
  }

  lemma EncodingOfAb1Bang()
    ensures Utf16("Ab1!") == [65, 98, 49, 33]
  {
    var s := "Ab1!";
    assert forall i :: 0 <= i < |s| ==> InBmp(s[i]) by {
      forall i | 0 <= i < |s| ensures InBmp(s[i]) {
        assert s[i] in "Ab1!";
      }
    }
    var u := Utf16(s);
    assert u[0] == 65 && u[1] == 98 && u[2] == 49 && u[3] == 33;
  }

  lemma EncodingOfEightAs()
    ensures Utf16("aaaaaaaa") == [97, 97, 97, 97, 97, 97, 97, 97]
  {
    var s := "aaaaaaaa";
    assert forall i :: 0 <= i < |s| ==> s[i] == 'a';
    var u := Utf16(s);
    assert forall i :: 0 <= i < |u| ==> u[i] == 97;
  }

  /** "Abc12345": long enough, upper, lower and digits but nothing special:
      score 4, Strong, pool 62. */
  lemma AllButSpecial()
    ensures var p: seq<CodeUnit> := [65, 98, 99, 49, 50, 51, 52, 53];
            && CheckPasswordRules(p) == Rules(true, true, true, true, false)
            && Score(CheckPasswordRules(p)) == 4
            && CheckStrength(p) == Strong
            && PoolSize(p) == 62
  {
    var p: seq<CodeUnit> := [65, 98, 99, 49, 50, 51, 52, 53];
    assert IsUpper(p[0]) && IsLower(p[1]) && IsDigit(p[3]);
    assert forall i :: 0 <= i < |p| ==> !IsSpecial(p[i]);
    assert CheckPasswordRules(p) == Rules(true, true, true, true, false);
  }

  /** "Ab1!": four classes but too short: the score still counts four flags, Strong. */
  lemma ShortButVaried()
    ensures var p: seq<CodeUnit> := [65, 98, 49, 33];
            && CheckPasswordRules(p) == Rules(false, true, true, true, true)
            && CheckStrength(p) == Strong
            && PoolSize(p) == 94
  {
    var p: seq<CodeUnit> := [65, 98, 49, 33];
    assert IsUpper(p[0]) && IsLower(p[1]) && IsDigit(p[2]) && IsSpecial(p[3]);
    assert CheckPasswordRules(p) == Rules(false, true, true, true, true);
  }

  /** "aaaaaaaa": length and lowercase only: Medium, pool 26. */
  lemma EightLowercase()
    ensures var p: seq<CodeUnit> := [97, 97, 97, 97, 97, 97, 97, 97];
            && CheckPasswordRules(p) == Rules(true, false, true, false, false)
            && CheckStrength(p) == Medium
            && PoolSize(p) == 26
  {
    var p: seq<CodeUnit> := [97, 97, 97, 97, 97, 97, 97, 97];
    assert IsLower(p[0]);
    assert forall i :: 0 <= i < |p| ==> IsLower(p[i]);
    assert CheckPasswordRules(p) == Rules(true, false, true, false, false);
  }

  /** A character outside the BMP is two surrogate code units: it adds two to
      the length and both halves count as special characters. */
  lemma AstralCharIsTwoSpecialUnits(c: char)
    requires !InBmp(c)
    ensures var p := Utf16([c]);
            && |p| == 2
            && IsSpecial(p[0]) && IsSpecial(p[1])
            && CheckPasswordRules(p) == Rules(false, false, false, false, true)
  {
    var p := Utf16([c]);
    assert p == EncodeChar(c);
    assert forall i :: 0 <= i < |p| ==> IsSpecial(p[i]);
  }

  /** Four such characters already meet the length rule. */
  lemma FourAstralCharsAreLongEnough(c: char)
    requires !InBmp(c)
    ensures CheckPasswordRules(Utf16([c, c, c, c])).minLength
  {
    assert AstralCount([c]) == 1;
    assert AstralCount([c, c]) == 2 by { assert [c, c][1..] == [c]; }
    assert AstralCount([c, c, c]) == 3 by { assert [c, c, c][1..] == [c, c]; }
    assert AstralCount([c, c, c, c]) == 4 by { assert [c, c, c, c][1..] == [c, c, c]; }
  }
}
