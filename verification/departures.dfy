/** Two concrete inputs to `generate` (password_generate.py lines 26-44) on
    which the code does less than its own names announce: with the option
    labelled "Exclude ambiguous (Il1O0)" (line 90) set, an ambiguous character
    can come back through a repair; and although the repair loop is called
    `ensure_inclusion` (line 20), a later repair can overwrite the character
    an earlier one placed. */
module Departures {
  import opened Results
  import opened Sequences
  import opened Charset
  import opened Inclusion
  import opened Generator

  // ----- An ambiguous character returns -----

  /** The repair sets of lines 27-31 are not filtered, so with ambiguous
      characters excluded a repair can still write one: lower case and digits,
      both draws `a`, and the digit repair picks `1`, which the alphabet
      does not hold. */
  lemma AmbiguousCanReturn(o: Options, tape: Tape)
    requires o.lower && !o.upper && o.digits && !o.symbols && o.excludeAmbiguous
    requires tape == Tape([0, 0], [Repair(0, 0), Repair(0, 1)], [0, 1])
    ensures TapeFits(tape, 2, o)
    ensures Generate(2, o, tape) == Success("1a")
    ensures '1' in Ambiguous && '1' !in BuildCharset(o)
  {
    AmbiguousDraft(o, tape);
    GenerateUnshuffled(2, o, tape);
    LowerDigitsAlphabet(o);
  }

  /** The call of `AmbiguousCanReturn` is accepted, its tape fits, and its
      repaired draft is `1a`. */
  lemma AmbiguousDraft(o: Options, tape: Tape)
    requires o.lower && !o.upper && o.digits && !o.symbols && o.excludeAmbiguous
    requires tape == Tape([0, 0], [Repair(0, 0), Repair(0, 1)], [0, 1])
    ensures Accepted(2, o) && TapeFits(tape, 2, o) && tape.perm == Range(2)
    ensures Draft(BuildCharset(o), RequiredSets(o), tape.picks, tape.repairs) == "1a"
  {
    AmbiguousTapeFits(o, tape);
    LowerDigitsSets(o);
    LowerDigitsAlphabet(o);
    RepairedDraft(BuildCharset(o));
  }

  /** The call of `AmbiguousCanReturn` is accepted and its tape fits, with
      the identity permutation. */
  lemma AmbiguousTapeFits(o: Options, tape: Tape)
    requires o.lower && !o.upper && o.digits && !o.symbols && o.excludeAmbiguous
    requires tape == Tape([0, 0], [Repair(0, 0), Repair(0, 1)], [0, 1])
    ensures Accepted(2, o) && TapeFits(tape, 2, o) && tape.perm == Range(2)
  {
    assert Enabled(o) == [Lower, Digit];
    LowerDigitsSets(o);
    LowerDigitsAlphabet(o);
    assert Range(2) == [0, 1];
  }

  /** Lower case and digits are the enabled categories. */
  lemma LowerDigitsSets(o: Options)
    requires o.lower && !o.upper && o.digits && !o.symbols
    ensures RequiredSets(o) == [Lowercase, Digits]
  {
    assert Enabled(o) == [Lower, Digit];
  }

  /** Lower case and digits without the ambiguous characters: 33 characters,
      starting with `a`, and no `1`. */
  lemma LowerDigitsAlphabet(o: Options)
    requires o.lower && !o.upper && o.digits && !o.symbols && o.excludeAmbiguous
    ensures |BuildCharset(o)| == 33 && BuildCharset(o)[0] == 'a'
    ensures '1' in Ambiguous && '1' !in BuildCharset(o)
  {
    BuildCharsetSections(o);
    FilteredLowercase();
    BuildCharsetSize(o);
    AmbiguousMembers('1');
    BuildCharsetMembers(o, '1');
  }

  /** Two draws of index 0 from an alphabet starting with `a`, repaired for
      lower case and digits, give `1a`. */
  lemma RepairedDraft(charset: string)
    requires |charset| == 33 && charset[0] == 'a'
    ensures Draft(charset, [Lowercase, Digits], [0, 0], [Repair(0, 0), Repair(0, 1)]) == "1a"
  {
    assert Pick(charset, [0, 0]) == "aa";
    DigitRepair();
  }

  /** With two `a`s, the lower-case set is already represented and the digit
      set is repaired at position 0 with its second member. */
  lemma DigitRepair()
    ensures EnsureInclusion("aa", [Lowercase, Digits], [Repair(0, 0), Repair(0, 1)]) == Success("1a")
  {
    var chars := "aa";
    assert Represented(chars, Lowercase) by { assert chars[0] == Lowercase[0]; }
    assert RepairOne(chars, Lowercase, Repair(0, 0)) == Success(chars);
    assert !Represented(chars, Digits) by {
      forall i | 0 <= i < |chars| ensures chars[i] !in Digits {
        forall j | 0 <= j < |Digits| ensures Digits[j] != 'a' { }
      }
    }
    var next := chars[0 := Digits[1]];
    assert next == "1a" by { assert Digits[1] == '1'; }
    assert RepairOne(chars, Digits, Repair(0, 1)) == Success("1a");
    assert EnsureInclusion("1a", [], []) == Success("1a");
    assert [Lowercase, Digits][1..] == [Digits];
    assert [Digits][1..] == [];
  }

  // ----- An enabled category goes missing -----

  /** Each repair sees only the list the previous one left: with lower case,
      upper case and digits and three draws of `A`, the lower-case repair
      writes `a` at position 0 and the digit repair then overwrites it with
      `0`, so the password has no lower-case letter. */
  lemma CategoryCanVanish(o: Options, tape: Tape)
    requires o.lower && o.upper && o.digits && !o.symbols && !o.excludeAmbiguous
    requires tape == Tape([26, 26, 26], [Repair(0, 0), Repair(0, 0), Repair(0, 0)], [0, 1, 2])
    ensures TapeFits(tape, 3, o)
    ensures Generate(3, o, tape) == Success("0AA")
    ensures !Represented(Generate(3, o, tape).value, Lowercase)
  {
    VanishDraft(o, tape);
    GenerateUnshuffled(3, o, tape);
  }

  /** The tape of `CategoryCanVanish` fits, and its repaired draft is `0AA`. */
  lemma VanishDraft(o: Options, tape: Tape)
    requires o.lower && o.upper && o.digits && !o.symbols && !o.excludeAmbiguous
    requires tape == Tape([26, 26, 26], [Repair(0, 0), Repair(0, 0), Repair(0, 0)], [0, 1, 2])
    ensures Accepted(3, o) && TapeFits(tape, 3, o) && tape.perm == Range(3)
    ensures Draft(BuildCharset(o), RequiredSets(o), tape.picks, tape.repairs) == "0AA"
    ensures !Represented("0AA", Lowercase)
  {
    VanishTapeFits(o, tape);
    ThreeSets(o);
    ThreeAlphabet(o);
    OverwrittenDraft(BuildCharset(o));
  }

  /** The call of `CategoryCanVanish` is accepted and its tape fits, with
      the identity permutation. */
  lemma VanishTapeFits(o: Options, tape: Tape)
    requires o.lower && o.upper && o.digits && !o.symbols && !o.excludeAmbiguous
    requires tape == Tape([26, 26, 26], [Repair(0, 0), Repair(0, 0), Repair(0, 0)], [0, 1, 2])
    ensures Accepted(3, o) && TapeFits(tape, 3, o) && tape.perm == Range(3)
  {
    assert Enabled(o) == [Lower, Upper, Digit];
    ThreeSets(o);
    ThreeAlphabet(o);
    assert Range(3) == [0, 1, 2];
  }

  /** Lower case, upper case and digits are the enabled categories. */
  lemma ThreeSets(o: Options)
    requires o.lower && o.upper && o.digits && !o.symbols
    ensures RequiredSets(o) == [Lowercase, Uppercase, Digits]
  {
    assert Enabled(o) == [Lower, Upper, Digit];
  }

  /** Lower case, upper case and digits unfiltered: 62 characters, with `A`
      at index 26. */
  lemma ThreeAlphabet(o: Options)
    requires o.lower && o.upper && o.digits && !o.symbols && !o.excludeAmbiguous
    ensures |BuildCharset(o)| == 62 && BuildCharset(o)[26] == 'A'
  {
    BuildCharsetSections(o);
    BuildCharsetSize(o);
  }

  /** Three draws of index 26 from an alphabet holding `A` there, repaired
      for lower case, upper case and digits, give `0AA`. */
  lemma OverwrittenDraft(charset: string)
    requires |charset| == 62 && charset[26] == 'A'
    ensures Draft(charset, [Lowercase, Uppercase, Digits], [26, 26, 26], [Repair(0, 0), Repair(0, 0), Repair(0, 0)])
         == "0AA"
    ensures !Represented("0AA", Lowercase)
  {
    assert Pick(charset, [26, 26, 26]) == "AAA";
    OverwritingRepairs();
  }

  /** `AAA` gets `a` at position 0 for lower case, keeps it for upper case,
      then loses it to `0` for digits, leaving no lower-case letter. */
  lemma OverwritingRepairs()
    ensures EnsureInclusion("AAA", [Lowercase, Uppercase, Digits], [Repair(0, 0), Repair(0, 0), Repair(0, 0)])
         == Success("0AA")
    ensures !Represented("0AA", Lowercase)
  {
    assert !Represented("AAA", Lowercase) by {
      forall j | 0 <= j < |Lowercase| ensures Lowercase[j] != 'A' { }
    }
    var first := "AAA"[0 := Lowercase[0]];
    assert first == "aAA";
    assert RepairOne("AAA", Lowercase, Repair(0, 0)) == Success("aAA");
    assert Represented("aAA", Uppercase) by { assert "aAA"[1] == Uppercase[0]; }
    assert RepairOne("aAA", Uppercase, Repair(0, 0)) == Success("aAA");
    assert !Represented("0AA", Lowercase) by {
      forall j | 0 <= j < |Lowercase| ensures Lowercase[j] != '0' && Lowercase[j] != 'A' { }
    }
    assert !Represented("aAA", Digits) by {
      forall j | 0 <= j < |Digits| ensures Digits[j] != 'a' && Digits[j] != 'A' { }
    }
    var last := "aAA"[0 := Digits[0]];
    assert last == "0AA";
    assert RepairOne("aAA", Digits, Repair(0, 0)) == Success("0AA");
    var r := [Repair(0, 0)];
    assert [Digits][1..] == [] && r[1..] == [];
    assert EnsureInclusion("aAA", [Digits], r) == Success("0AA");
    assert [Uppercase, Digits][1..] == [Digits] && (r + r)[1..] == r;
    assert EnsureInclusion("aAA", [Uppercase, Digits], r + r) == Success("0AA");
    assert [Lowercase, Uppercase, Digits][1..] == [Uppercase, Digits] && (r + r + r)[1..] == r + r;
  }
}
