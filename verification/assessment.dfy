/** What `estimate_strength` (password_generate.py lines 46-59) can say about
    a password `generate` (lines 26-44) returns. */
module Assessment {
  import opened Sequences
  import opened Charset
  import opened Inclusion
  import opened Generator
  import opened Strength

  /** A character of a reference set counts towards its category's type. */
  lemma RepresentedHas(pwd: string, kind: Category)
    requires Represented(pwd, CategorySet(kind))
    ensures Has(pwd, kind)
    ensures TypesPresent(pwd) >= 1
  {
    var i :| 0 <= i < |pwd| && pwd[i] in CategorySet(kind);
    OfKindIsCategorySet(pwd[i], kind);
  }

  /** A generated password holds at least one recognised type, because the
      last enabled category is always represented; so from 12 characters on
      it is never rated weak. */
  lemma GeneratedTyped(length: int, o: Options, tape: Tape)
    requires Accepted(length, o) && TapeFits(tape, length, o)
    ensures Generate(length, o, tape).Success?
    ensures TypesPresent(Generate(length, o, tape).value) >= 1
    ensures length >= 12 ==> EstimateStrength(Generate(length, o, tape).value) != Weak
  {
    GenerateLastCategory(length, o, tape);
    RepresentedHas(Generate(length, o, tape).value, Enabled(o)[|Enabled(o)| - 1]);
  }

  /** The shuffle of line 43 does not change the rating: a password rates
      as its repaired draft does. */
  lemma ShuffleKeepsRating(length: int, o: Options, tape: Tape)
    requires Accepted(length, o) && TapeFits(tape, length, o)
    ensures Generate(length, o, tape).Success?
    ensures EstimateStrength(Generate(length, o, tape).value)
         == EstimateStrength(Draft(BuildCharset(o), RequiredSets(o), tape.picks, tape.repairs))
  {
    RearrangeKeepsStrength(Generate(length, o, tape).value,
                           Draft(BuildCharset(o), RequiredSets(o), tape.picks, tape.repairs));
  }
}
