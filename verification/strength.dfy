/** `estimate_strength` (password_generate.py lines 46-59): two length
    thresholds plus the number of character types present give an integer
    score, which is mapped to a three-level rating. */
module Strength {
  import opened Charset

  /** The rating; `Unknown` is the fallback of line 59. */
  datatype Rating = Weak | Moderate | Strong | Unknown

  /** `str.islower`, `str.isupper` and `str.isdigit` on ASCII characters. */
  predicate IsLower(c: char) { 'a' <= c <= 'z' }
  predicate IsUpper(c: char) { 'A' <= c <= 'Z' }
  predicate IsDigit(c: char) { '0' <= c <= '9' }

  /** The character test each category uses in lines 51-54. */
  predicate OfKind(c: char, kind: Category) {
    match kind
    case Lower => IsLower(c)
    case Upper => IsUpper(c)
    case Digit => IsDigit(c)
    case Symbol => c in Symbols
  }

  /** Some character of `pwd` passes the test of `kind` (an `any(...)`). */
  predicate Has(pwd: string, kind: Category) {
    exists i :: 0 <= i < |pwd| && OfKind(pwd[i], kind)
  }

  function Indicator(b: bool): nat { if b then 1 else 0 }

  /** The number of character types present (lines 50-54). */
  function TypesPresent(pwd: string): (r: nat)
    ensures r <= 4
    ensures r == 0 <==> forall kind :: !Has(pwd, kind)
    ensures r == 4 <==> forall kind :: Has(pwd, kind)
  {
    Indicator(Has(pwd, Lower)) + Indicator(Has(pwd, Upper)) + Indicator(Has(pwd, Digit)) + Indicator(Has(pwd, Symbol))
  }

  /** The score of lines 47-55: a point for reaching 8 characters, another
      for reaching 12, and one less than the number of types present. */
  function Score(pwd: string): (r: int)
    ensures -1 <= r <= 5
    ensures r == -1 <==> |pwd| < 8 && TypesPresent(pwd) == 0
    ensures r == 5 <==> |pwd| >= 12 && TypesPresent(pwd) == 4
  {
    Indicator(|pwd| >= 8) + Indicator(|pwd| >= 12) + TypesPresent(pwd) - 1
  }

  /** The thresholds of lines 56-59, tried in order. */
  function Classify(score: int): Rating {
    if score <= 1 then Weak
    else if score == 2 then Moderate
    else if score >= 3 then Strong
    else Unknown
  }

  /** `estimate_strength`: the fallback `Unknown` is never returned. */
  function EstimateStrength(pwd: string): (r: Rating)
    ensures r != Unknown
    ensures r == Weak <==> Score(pwd) <= 1
    ensures r == Moderate <==> Score(pwd) == 2
    ensures r == Strong <==> Score(pwd) >= 3
  {
    Classify(Score(pwd))
  }

  /** The ratings in increasing order of strength. */
  function Rank(r: Rating): nat {
    match r
    case Weak => 0
    case Moderate => 1
    case Strong => 2
    case Unknown => 0
  }

  // ----- Properties -----

  /** The empty password scores -1 and is weak. */
  lemma EmptyIsWeak()
    ensures Score("") == -1
    ensures EstimateStrength("") == Weak
  {
  }

  /** Eight lower-case letters earn the length point but no type point. */
  lemma EightLettersWeak()
    ensures Score("abcdefgh") == 1
    ensures EstimateStrength("abcdefgh") == Weak
  {
    var pwd := "abcdefgh";
    assert OfKind(pwd[0], Lower);
    assert !Has(pwd, Upper) && !Has(pwd, Digit);
    assert !Has(pwd, Symbol) by {
      forall i | 0 <= i < |pwd|
        ensures pwd[i] !in Symbols
      {
        NotSymbol(pwd[i]);
      }
    }
  }

  /** Ten characters of all four types: 1 + 3 = 4, strong. */
  lemma AllTypesStrong()
    ensures Score("Abcdefgh1!") == 4
    ensures EstimateStrength("Abcdefgh1!") == Strong
  {
    var pwd := "Abcdefgh1!";
    assert OfKind(pwd[1], Lower) && OfKind(pwd[0], Upper) && OfKind(pwd[8], Digit);
    assert OfKind(pwd[9], Symbol) by { assert Symbols[0] == '!'; }
  }

  /** Two lower-case letters are weak. */
  lemma ShortWeak()
    ensures EstimateStrength("ab") == Weak
  {
  }

  /** A letter or digit is not one of the symbols. */
  lemma NotSymbol(c: char)
    requires IsLower(c) || IsUpper(c) || IsDigit(c)
    ensures c !in Symbols
  {
  }

  /** A password at least as long, with at least as many types present, is
      at least as strong; which types they are does not matter. */
  lemma StrengthMonotone(a: string, b: string)
    requires |a| <= |b|
    requires TypesPresent(a) <= TypesPresent(b)
    ensures Score(a) <= Score(b)
    ensures Rank(EstimateStrength(a)) <= Rank(EstimateStrength(b))
  {
  }

  /** Holding every type another password holds means holding at least as
      many types. */
  lemma TypesIncluded(a: string, b: string)
    requires forall kind :: Has(a, kind) ==> Has(b, kind)
    ensures TypesPresent(a) <= TypesPresent(b)
  {
    assert Has(a, Lower) ==> Has(b, Lower);
    assert Has(a, Upper) ==> Has(b, Upper);
    assert Has(a, Digit) ==> Has(b, Digit);
    assert Has(a, Symbol) ==> Has(b, Symbol);
  }

  /** Eight lower-case letters rate below seven upper-case letters and a
      digit, although the lower-case type is lost: only the count matters. */
  lemma MoreTypesStronger()
    ensures Score("aaaaaaaa") == 1 && Score("AAAAAAA1") == 2
    ensures EstimateStrength("aaaaaaaa") == Weak && EstimateStrength("AAAAAAA1") == Moderate
  {
    var a, b := "aaaaaaaa", "AAAAAAA1";
    assert OfKind(a[0], Lower) && !Has(a, Upper) && !Has(a, Digit);
    assert !Has(a, Symbol) by {
      forall i | 0 <= i < |a|
        ensures a[i] !in Symbols
      {
        NotSymbol(a[i]);
      }
    }
    assert OfKind(b[0], Upper) && OfKind(b[7], Digit) && !Has(b, Lower);
    assert !Has(b, Symbol) by {
      forall i | 0 <= i < |b|
        ensures b[i] !in Symbols
      {
        NotSymbol(b[i]);
      }
    }
  }

  /** Appending characters never lowers the rating. */
  lemma AppendNeverWeakens(a: string, b: string)
    ensures Score(a) <= Score(a + b)
    ensures Rank(EstimateStrength(a)) <= Rank(EstimateStrength(a + b))
  {
    forall kind | Has(a, kind)
      ensures Has(a + b, kind)
    {
      var i :| 0 <= i < |a| && OfKind(a[i], kind);
      assert (a + b)[i] == a[i];
    }
    TypesIncluded(a, a + b);
    StrengthMonotone(a, a + b);
  }

  /** The rating depends only on which characters occur, not on their order:
      shuffling a password does not change it. */
  lemma RearrangeKeepsStrength(a: string, b: string)
    requires multiset(a) == multiset(b)
    ensures Score(a) == Score(b)
    ensures EstimateStrength(a) == EstimateStrength(b)
  {
    assert |a| == |multiset(a)| == |multiset(b)| == |b|;
    forall kind | Has(a, kind)
      ensures Has(b, kind)
    {
      var i :| 0 <= i < |a| && OfKind(a[i], kind);
      assert a[i] in multiset(b);
      var j :| 0 <= j < |b| && b[j] == a[i];
    }
    forall kind | Has(b, kind)
      ensures Has(a, kind)
    {
      var j :| 0 <= j < |b| && OfKind(b[j], kind);
      assert b[j] in multiset(a);
      var i :| 0 <= i < |a| && a[i] == b[j];
    }
    TypesIncluded(a, b);
    TypesIncluded(b, a);
    StrengthMonotone(a, b);
    StrengthMonotone(b, a);
  }

  /** In ASCII, a character passes a category's test exactly when it is in
      that category's reference set. */
  lemma OfKindIsCategorySet(c: char, kind: Category)
    ensures OfKind(c, kind) <==> c in CategorySet(kind)
  {
    match kind
    case Lower => InRange(c, 'a', Lowercase);
    case Upper => InRange(c, 'A', Uppercase);
    case Digit => InRange(c, '0', Digits);
    case Symbol =>
  }

  /** Membership in a run of consecutive characters is a range test. */
  lemma InRange(c: char, first: char, run: string)
    requires forall i :: 0 <= i < |run| ==> run[i] as int == first as int + i
    ensures c in run <==> first as int <= c as int < first as int + |run|
  {
    if first as int <= c as int < first as int + |run| {
      assert run[c as int - first as int] == c;
    }
  }
}
