/** `generate` (password_generate.py lines 26-44): validate the options, draw
    `length` characters from the alphabet, repair the draft so that required
    sets are represented, and shuffle. Every random outcome is an input. */
module Generator {
  import opened Results
  import opened Sequences
  import opened Charset
  import opened Inclusion

  /** The two `ValueError`s `generate` raises. */
  datatype GenError =
    | NoCharacterType               // line 35: the alphabet is empty
    | LengthTooShort(minimum: nat)  // line 38: fewer positions than required sets

  /** The random outcomes one call consumes: the alphabet index of each
      `choice(charset)` (line 40), one `Repair` per required set (lines 23-24),
      and the permutation the shuffle applies (line 43). */
  datatype Tape = Tape(picks: seq<nat>, repairs: seq<Repair>, perm: seq<nat>)

  /** The required sets of lines 27-31: the UNFILTERED reference sets of the
      enabled categories, in category order. */
  function RequiredSets(o: Options): (r: seq<string>)
    ensures |r| == |Enabled(o)|
    ensures forall k :: 0 <= k < |r| ==> r[k] == CategorySet(Enabled(o)[k])
    ensures forall k :: 0 <= k < |r| ==> |r[k]| > 0
  {
    CategorySetsNonEmpty();
    seq(|Enabled(o)|, k requires 0 <= k < |Enabled(o)| => CategorySet(Enabled(o)[k]))
  }

  /** Neither check of lines 34-38 fires. */
  predicate Accepted(length: int, o: Options) {
    Enabled(o) != [] && length >= |Enabled(o)|
  }

  /** The tape matches the call: one in-range alphabet index per position,
      in-range repair draws, and a permutation of the positions. */
  ghost predicate TapeFits(tape: Tape, length: int, o: Options) {
    && length >= 0
    && |tape.picks| == length
    && (forall i :: 0 <= i < length ==> tape.picks[i] < |BuildCharset(o)|)
    && RepairsFit(tape.repairs, length, RequiredSets(o))
    && IsPermutation(tape.perm, length)
  }

  /** The list of line 40 after the repair of lines 41-42, for an alphabet
      and a list of required sets. The guard on line 41 changes nothing here:
      an empty list of sets leaves the draft as it is. */
  function Draft(charset: string, required: seq<string>, picks: seq<nat>, repairs: seq<Repair>): (r: seq<char>)
    requires required != [] ==> |picks| > 0
    requires forall i :: 0 <= i < |picks| ==> picks[i] < |charset|
    requires forall k :: 0 <= k < |required| ==> |required[k]| > 0
    requires RepairsFit(repairs, |picks|, required)
    ensures |r| == |picks|
    // Each character is drawn from the alphabet or written by a repair.
    ensures forall i :: 0 <= i < |r| ==>
              r[i] in charset || exists k :: 0 <= k < |required| && r[i] in required[k]
    ensures required != [] ==> Represented(r, required[|required| - 1])
  {
    var chars := Pick(charset, picks);
    var fixed := EnsureInclusion(chars, required, repairs).value;
    assert forall i :: 0 <= i < |fixed| ==> fixed[i] == chars[i] ==> fixed[i] in charset;
    fixed
  }

  /** The tape fits a call on this alphabet and these required sets: one
      in-range draw per position, non-empty sets with in-range repair draws,
      and a permutation of the positions. */
  ghost predicate Fits(length: int, charset: string, required: seq<string>, tape: Tape) {
    && length >= 0
    && |tape.picks| == length
    && (forall i :: 0 <= i < length ==> tape.picks[i] < |charset|)
    && (forall k :: 0 <= k < |required| ==> |required[k]| > 0)
    && RepairsFit(tape.repairs, length, required)
    && IsPermutation(tape.perm, length)
  }

  /** Lines 34-44 for an alphabet and a list of required sets: the empty
      alphabet is reported first, then a length below the number of sets;
      otherwise the repaired draft is shuffled. */
  function Assemble(length: int, charset: string, required: seq<string>, tape: Tape): (r: Result<string, GenError>)
    requires charset != [] && length >= |required| ==> Fits(length, charset, required, tape)
    ensures r == Failure(NoCharacterType) <==> charset == []
    ensures r == Failure(LengthTooShort(|required|)) <==> charset != [] && length < |required|
    ensures r.Success? <==> charset != [] && length >= |required|
    ensures r.Success? ==> |r.value| == length
    ensures r.Success? ==> multiset(r.value) == multiset(Draft(charset, required, tape.picks, tape.repairs))
  {
    if charset == [] then Failure(NoCharacterType)
    else if length < |required| then Failure(LengthTooShort(|required|))
    else
      var draft := Draft(charset, required, tape.picks, tape.repairs);
      PickPermutation(draft, tape.perm);
      Success(Pick(draft, tape.perm))
  }

  /** `generate`: the flags are checked before the length; the draft is
      repaired, then shuffled. */
  function Generate(length: int, o: Options, tape: Tape): (r: Result<string, GenError>)
    requires Accepted(length, o) ==> TapeFits(tape, length, o)
    ensures r.Success? <==> Accepted(length, o)
    ensures r == Failure(NoCharacterType) <==> Enabled(o) == []
    ensures r == Failure(LengthTooShort(|Enabled(o)|)) <==> Enabled(o) != [] && length < |Enabled(o)|
    ensures r.Success? ==> length >= 1 && |r.value| == length
    // The password is a rearrangement of the repaired draft.
    ensures r.Success? ==>
              multiset(r.value) == multiset(Draft(BuildCharset(o), RequiredSets(o), tape.picks, tape.repairs))
  {
    BuildCharsetEmpty(o);
    Assemble(length, BuildCharset(o), RequiredSets(o), tape)
  }

  /** An accepted call returns the repaired draft rearranged by the tape's
      permutation. */
  lemma GenerateValue(length: int, o: Options, tape: Tape)
    requires Accepted(length, o) && TapeFits(tape, length, o)
    ensures forall k :: 0 <= k < |tape.perm| ==> tape.perm[k] < length
    ensures Generate(length, o, tape)
         == Success(Pick(Draft(BuildCharset(o), RequiredSets(o), tape.picks, tape.repairs), tape.perm))
  {
    PermutationBounded(tape.perm, length);
    BuildCharsetEmpty(o);
  }

  /** With the identity permutation the password is the repaired draft. */
  lemma GenerateUnshuffled(length: int, o: Options, tape: Tape)
    requires Accepted(length, o) && TapeFits(tape, length, o)
    requires tape.perm == Range(length)
    ensures Generate(length, o, tape) == Success(Draft(BuildCharset(o), RequiredSets(o), tape.picks, tape.repairs))
  {
    GenerateValue(length, o, tape);
    PickIdentity(Draft(BuildCharset(o), RequiredSets(o), tape.picks, tape.repairs));
  }

  // ----- What a generated password holds -----

  /** Every character of an assembled password is from the alphabet or from
      one of the required sets. */
  lemma AssembleMembers(length: int, charset: string, required: seq<string>, tape: Tape)
    requires charset != [] && length >= |required| && Fits(length, charset, required, tape)
    ensures Assemble(length, charset, required, tape).Success?
    ensures forall i :: 0 <= i < length ==>
              var c := Assemble(length, charset, required, tape).value[i];
              c in charset || exists k :: 0 <= k < |required| && c in required[k]
  {
    RearrangedMembers(Assemble(length, charset, required, tape).value,
                      Draft(charset, required, tape.picks, tape.repairs), charset, required);
  }

  /** The last required set is represented in an assembled password. */
  lemma AssembleLastRepresented(length: int, charset: string, required: seq<string>, tape: Tape)
    requires charset != [] && length >= |required| && Fits(length, charset, required, tape)
    requires required != []
    ensures Assemble(length, charset, required, tape).Success?
    ensures Represented(Assemble(length, charset, required, tape).value, required[|required| - 1])
  {
    var pwd := Assemble(length, charset, required, tape).value;
    var draft := Draft(charset, required, tape.picks, tape.repairs);
    var j :| 0 <= j < |draft| && draft[j] in required[|required| - 1];
    assert draft[j] in multiset(pwd);
    var i :| 0 <= i < |pwd| && pwd[i] == draft[j];
  }

  /** With no required set, zero positions are allowed and give the empty
      password. */
  lemma AssembleNoPositions(charset: string, tape: Tape)
    requires charset != [] && tape == Tape([], [], [])
    ensures Fits(0, charset, [], tape)
    ensures Assemble(0, charset, [], tape) == Success("")
  {
    assert Range(0) == [];
  }

  /** An accepted call is the generic assembly on the options' alphabet and
      required sets. */
  lemma GenerateIsAssemble(length: int, o: Options, tape: Tape)
    requires Accepted(length, o) && TapeFits(tape, length, o)
    ensures BuildCharset(o) != [] && length >= |RequiredSets(o)|
    ensures Fits(length, BuildCharset(o), RequiredSets(o), tape)
    ensures Generate(length, o, tape) == Assemble(length, BuildCharset(o), RequiredSets(o), tape)
  {
    BuildCharsetEmpty(o);
  }

  /** Every element of a rearrangement of `b` occurs in `b`. */
  lemma RearrangedFrom(a: seq<char>, b: seq<char>, i: nat)
    requires multiset(a) == multiset(b) && i < |a|
    ensures a[i] in b
  {
    assert a[i] in multiset(a);
  }

  /** Every character of a password belongs to the full reference set of some
      enabled category. (It need not be in the alphabet: see
      `AmbiguousCanReturn`.) */
  lemma GenerateMembers(length: int, o: Options, tape: Tape)
    requires Accepted(length, o) && TapeFits(tape, length, o)
    ensures Generate(length, o, tape).Success?
    ensures forall i :: 0 <= i < length ==> InSomeEnabled(o, Generate(length, o, tape).value[i])
  {
    var pwd := Generate(length, o, tape).value;
    GenerateIsAssemble(length, o, tape);
    AssembleMembers(length, BuildCharset(o), RequiredSets(o), tape);
    forall i | 0 <= i < |pwd|
      ensures InSomeEnabled(o, pwd[i])
    {
      DraftCharMember(o, pwd[i]);
    }
  }

  /** Rearranging a sequence keeps each element's membership in an alphabet
      or in one of the required sets. */
  lemma RearrangedMembers(pwd: seq<char>, draft: seq<char>, charset: string, required: seq<string>)
    requires multiset(pwd) == multiset(draft)
    requires forall j :: 0 <= j < |draft| ==>
               draft[j] in charset || exists k :: 0 <= k < |required| && draft[j] in required[k]
    ensures forall i :: 0 <= i < |pwd| ==>
              pwd[i] in charset || exists k :: 0 <= k < |required| && pwd[i] in required[k]
  {
    forall i | 0 <= i < |pwd|
      ensures pwd[i] in charset || exists k :: 0 <= k < |required| && pwd[i] in required[k]
    {
      RearrangedFrom(pwd, draft, i);
      var j :| 0 <= j < |draft| && draft[j] == pwd[i];
    }
  }

  /** A character of the alphabet or of a required set belongs to an enabled
      category. */
  lemma DraftCharMember(o: Options, c: char)
    requires c in BuildCharset(o) || exists k :: 0 <= k < |RequiredSets(o)| && c in RequiredSets(o)[k]
    ensures InSomeEnabled(o, c)
  {
    if c in BuildCharset(o) {
      BuildCharsetMembers(o, c);
    } else {
      var k :| 0 <= k < |RequiredSets(o)| && c in RequiredSets(o)[k];
      assert Enabled(o)[k] in Enabled(o) && c in CategorySet(Enabled(o)[k]);
    }
  }

  /** Without the ambiguity filter every character of a password is in the
      alphabet of `build_charset`. */
  lemma GenerateWithinCharset(length: int, o: Options, tape: Tape)
    requires Accepted(length, o) && TapeFits(tape, length, o)
    requires !o.excludeAmbiguous
    ensures Generate(length, o, tape).Success?
    ensures forall i :: 0 <= i < length ==> Generate(length, o, tape).value[i] in BuildCharset(o)
  {
    var pwd := Generate(length, o, tape).value;
    GenerateMembers(length, o, tape);
    forall i | 0 <= i < |pwd|
      ensures pwd[i] in BuildCharset(o)
    {
      BuildCharsetMembers(o, pwd[i]);
    }
  }

  /** The last enabled category, in the order lower, upper, digits, symbols,
      always appears in the password. */
  lemma GenerateLastCategory(length: int, o: Options, tape: Tape)
    requires Accepted(length, o) && TapeFits(tape, length, o)
    ensures Generate(length, o, tape).Success?
    ensures Represented(Generate(length, o, tape).value, CategorySet(Enabled(o)[|Enabled(o)| - 1]))
  {
    GenerateIsAssemble(length, o, tape);
    AssembleLastRepresented(length, BuildCharset(o), RequiredSets(o), tape);
  }
}
