/** The sampling alphabet of the password generator: the four reference
    character sets, the ambiguous characters, and `build_charset`
    (password_generate.py lines 7-18). */
module Charset {

  /** `string.ascii_lowercase`, `string.ascii_uppercase` and `string.digits`:
      consecutive code points (see `ReferenceSpelling`). */
  const Lowercase: string := CharRange('a', 26)
  const Uppercase: string := CharRange('A', 26)
  const Digits: string := CharRange('0', 10)
  /** The 29 punctuation characters of `SYMBOLS`. */
  const Symbols: string := "!@#$%^&*()-_=+[]{}|;:,.<>?/~`"
  /** Characters that are easy to confuse visually (`AMBIGUOUS`). */
  const Ambiguous: string := "Il1O0"

  /** A character category; the generator always visits them in this order. */
  datatype Category = Lower | Upper | Digit | Symbol

  /** The reference set of a category. */
  function CategorySet(c: Category): string {
    match c
    case Lower => Lowercase
    case Upper => Uppercase
    case Digit => Digits
    case Symbol => Symbols
  }

  /** The `n` consecutive characters starting at `first`. */
  function CharRange(first: char, n: nat): (r: string)
    requires first as int + n <= 0xD800
    ensures |r| == n
    ensures forall i :: 0 <= i < n ==> r[i] as int == first as int + i
  {
    seq(n, i requires 0 <= i < n => (first as int + i) as char)
  }

  /** The three ranges spell out the same strings as Python's constants. */
  lemma ReferenceSpelling()
    ensures Lowercase == "abcdefghijklmnopqrstuvwxyz"
    ensures Uppercase == "ABCDEFGHIJKLMNOPQRSTUVWXYZ"
    ensures Digits == "0123456789"
  {
  }

  /** Every reference set has characters. */
  lemma CategorySetsNonEmpty()
    ensures forall cat :: |CategorySet(cat)| > 0
  {
    forall cat
      ensures |CategorySet(cat)| > 0
    {
      match cat
      case Lower =>
      case Upper =>
      case Digit =>
      case Symbol =>
    }
  }

  /** The caller's choice: which categories to use, and whether to drop the
      ambiguous characters from the sampling alphabet. */
  datatype Options = Options(lower: bool, upper: bool, digits: bool, symbols: bool, excludeAmbiguous: bool)

  /** The enabled categories, in the order lower, upper, digits, symbols. */
  function Enabled(o: Options): (r: seq<Category>)
    ensures |r| == (if o.lower then 1 else 0) + (if o.upper then 1 else 0)
                 + (if o.digits then 1 else 0) + (if o.symbols then 1 else 0)
    ensures o.lower <==> Lower in r
    ensures o.upper <==> Upper in r
    ensures o.digits <==> Digit in r
    ensures o.symbols <==> Symbol in r
  {
    (if o.lower then [Lower] else []) + (if o.upper then [Upper] else [])
    + (if o.digits then [Digit] else []) + (if o.symbols then [Symbol] else [])
  }

  /** `c` belongs to the reference set of some enabled category. */
  predicate InSomeEnabled(o: Options, c: char) {
    exists cat :: cat in Enabled(o) && c in CategorySet(cat)
  }

  /** `s` with every ambiguous character removed (line 17). */
  function RemoveAmbiguous(s: string): string {
    if s == [] then []
    else (if s[0] in Ambiguous then [] else [s[0]]) + RemoveAmbiguous(s[1..])
  }

  /** The enabled reference sets concatenated in category order (lines 11-15). */
  function Concatenation(o: Options): string {
    (if o.lower then Lowercase else "") + (if o.upper then Uppercase else "")
    + (if o.digits then Digits else "") + (if o.symbols then Symbols else "")
  }

  /** `build_charset`: the concatenation, filtered when asked (lines 10-18). */
  function BuildCharset(o: Options): string {
    if o.excludeAmbiguous then RemoveAmbiguous(Concatenation(o)) else Concatenation(o)
  }

  /** What one category contributes to the alphabet. */
  function Section(on: bool, ref: string, excludeAmbiguous: bool): string {
    if !on then "" else if excludeAmbiguous then RemoveAmbiguous(ref) else ref
  }

  // ----- Removing ambiguous characters -----

  /** The five ambiguous characters, one by one. */
  lemma AmbiguousMembers(c: char)
    ensures c in Ambiguous <==> c == 'I' || c == 'l' || c == '1' || c == 'O' || c == '0'
  {
    if c == 'I' || c == 'l' || c == '1' || c == 'O' || c == '0' {
      assert c == Ambiguous[0] || c == Ambiguous[1] || c == Ambiguous[2]
          || c == Ambiguous[3] || c == Ambiguous[4];
    }
  }

  /** The filter keeps exactly the characters that are not ambiguous. */
  lemma {:induction false} RemoveAmbiguousMembers(s: string)
    ensures forall c :: c in RemoveAmbiguous(s) <==> c in s && c !in Ambiguous
  {
    if s != [] {
      RemoveAmbiguousMembers(s[1..]);
      assert s == [s[0]] + s[1..];
    }
  }

  /** The filter distributes over concatenation. */
  lemma {:induction false} RemoveAmbiguousAppend(a: string, b: string)
    ensures RemoveAmbiguous(a + b) == RemoveAmbiguous(a) + RemoveAmbiguous(b)
  {
    if a == [] {
      assert a + b == b;
    } else {
      assert (a + b)[0] == a[0];
      assert (a + b)[1..] == a[1..] + b;
      RemoveAmbiguousAppend(a[1..], b);
      var head := if a[0] in Ambiguous then [] else [a[0]];
      assert RemoveAmbiguous(a + b) == head + RemoveAmbiguous(a[1..] + b);
      assert head + (RemoveAmbiguous(a[1..]) + RemoveAmbiguous(b))
          == (head + RemoveAmbiguous(a[1..])) + RemoveAmbiguous(b);
    }
  }

  /** A string without ambiguous characters passes the filter unchanged. */
  lemma {:induction false} RemoveAmbiguousClean(s: string)
    requires forall i :: 0 <= i < |s| ==> s[i] !in Ambiguous
    ensures RemoveAmbiguous(s) == s
  {
    if s != [] {
      RemoveAmbiguousClean(s[1..]);
      assert s == [s[0]] + s[1..];
    }
  }

  /** Filtering twice is the same as filtering once. */
  lemma RemoveAmbiguousIdempotent(s: string)
    ensures RemoveAmbiguous(RemoveAmbiguous(s)) == RemoveAmbiguous(s)
  {
    var r := RemoveAmbiguous(s);
    RemoveAmbiguousMembers(s);
    assert forall i :: 0 <= i < |r| ==> r[i] in r;
    RemoveAmbiguousClean(r);
  }

  /** `a` can be obtained from `b` by deleting elements: same relative order. */
  predicate IsSubsequence(a: string, b: string)
    decreases |b|
  {
    if a == [] then true
    else if b == [] then false
    else if a[0] == b[0] then IsSubsequence(a[1..], b[1..])
    else IsSubsequence(a, b[1..])
  }

  /** The filter keeps the surviving characters in their original order. */
  lemma {:induction false} RemoveAmbiguousKeepsOrder(s: string)
    ensures IsSubsequence(RemoveAmbiguous(s), s)
  {
    if s != [] {
      RemoveAmbiguousKeepsOrder(s[1..]);
      if s[0] in Ambiguous {
        var r := RemoveAmbiguous(s[1..]);
        assert RemoveAmbiguous(s) == r;
        SubsequenceOfTail(r, s);
      }
    }
  }

  /** A subsequence of the tail of `b` is a subsequence of `b`. */
  lemma {:induction false} SubsequenceOfTail(a: string, b: string)
    requires b != [] && IsSubsequence(a, b[1..])
    ensures IsSubsequence(a, b)
    decreases |b|, |a|
  {
    if a != [] && a[0] == b[0] {
      SubsequenceDropHead(a, b[1..]);
    }
  }

  /** Dropping the first element keeps a subsequence a subsequence. */
  lemma {:induction false} SubsequenceDropHead(a: string, b: string)
    requires a != [] && IsSubsequence(a, b)
    ensures IsSubsequence(a[1..], b)
    decreases |b|, |a|
  {
    if a[0] == b[0] {
      SubsequenceOfTail(a[1..], b);
    } else {
      SubsequenceDropHead(a, b[1..]);
      SubsequenceOfTail(a[1..], b);
    }
  }

  // ----- The alphabet -----

  /** A string none of whose characters is ambiguous. */
  predicate NoAmbiguous(s: string) {
    forall i :: 0 <= i < |s| ==> s[i] !in Ambiguous
  }

  /** An ambiguous character between `a` and `b` disappears; `a` and `b`
      are filtered independently. */
  lemma DropAmbiguous(a: string, x: char, b: string)
    requires x in Ambiguous
    ensures RemoveAmbiguous(a + [x] + b) == RemoveAmbiguous(a) + RemoveAmbiguous(b)
  {
    RemoveAmbiguousAppend(a + [x], b);
    RemoveAmbiguousAppend(a, [x]);
    assert [x][1..] == [];
    assert RemoveAmbiguous([x]) == [];
  }

  /** Lower-case letters lose `l` (position 11) to the filter, leaving 25. */
  lemma FilteredLowercase()
    ensures Lowercase[11] == 'l'
    ensures RemoveAmbiguous(Lowercase) == Lowercase[..11] + Lowercase[12..]
    ensures |RemoveAmbiguous(Lowercase)| == 25
  {
    var a, b := Lowercase[..11], Lowercase[12..];
    assert Lowercase == a + [Lowercase[11]] + b;
    forall c
      ensures c in Ambiguous <==> c == 'I' || c == 'l' || c == '1' || c == 'O' || c == '0'
    {
      AmbiguousMembers(c);
    }
    RemoveAmbiguousClean(a);
    RemoveAmbiguousClean(b);
    DropAmbiguous(a, Lowercase[11], b);
  }

  /** Upper-case letters lose `I` (position 8) and `O` (position 14) to the
      filter, leaving 24. */
  lemma FilteredUppercase()
    ensures Uppercase[8] == 'I' && Uppercase[14] == 'O'
    ensures RemoveAmbiguous(Uppercase) == Uppercase[..8] + Uppercase[9..14] + Uppercase[15..]
    ensures |RemoveAmbiguous(Uppercase)| == 24
  {
    var a, b, c := Uppercase[..8], Uppercase[9..14], Uppercase[15..];
    assert Uppercase == a + [Uppercase[8]] + b + [Uppercase[14]] + c;
    AmbiguousMembers('I');
    AmbiguousMembers('O');
    UppercaseClean(0, 8);
    UppercaseClean(9, 14);
    UppercaseClean(15, 26);
    RemoveAmbiguousClean(a);
    RemoveAmbiguousClean(b);
    RemoveAmbiguousClean(c);
    DropAmbiguous(a + [Uppercase[8]] + b, Uppercase[14], c);
    DropAmbiguous(a, Uppercase[8], b);
  }

  /** Upper-case letters other than `I` and `O` are not ambiguous. */
  lemma UppercaseClean(lo: nat, hi: nat)
    requires lo <= hi <= 26
    requires lo <= 8 ==> hi <= 8
    requires lo <= 14 ==> hi <= 14
    ensures NoAmbiguous(Uppercase[lo..hi])
  {
    forall i | lo <= i < hi
      ensures Uppercase[i] !in Ambiguous
    {
      AmbiguousMembers(Uppercase[i]);
    }
  }

  /** Digits lose `0` and `1`, their first two, to the filter, leaving 8. */
  lemma FilteredDigits()
    ensures Digits[0] == '0' && Digits[1] == '1'
    ensures RemoveAmbiguous(Digits) == Digits[2..]
    ensures |RemoveAmbiguous(Digits)| == 8
  {
    var rest := Digits[2..];
    forall i | 0 <= i < |rest|
      ensures rest[i] !in Ambiguous
    {
      AmbiguousMembers(rest[i]);
    }
    RemoveAmbiguousClean(rest);
    AmbiguousMembers('0');
    AmbiguousMembers('1');
    assert Digits[1..][1..] == rest;
    assert RemoveAmbiguous(Digits[1..]) == RemoveAmbiguous(rest);
  }

  /** No symbol is ambiguous. */
  lemma SymbolNotAmbiguous(c: char)
    requires c in Symbols
    ensures c !in Ambiguous
  {
    AmbiguousMembers(c);
  }

  /** No symbol is ambiguous, so the filter keeps all 29. */
  lemma FilteredSymbols()
    ensures RemoveAmbiguous(Symbols) == Symbols
    ensures |RemoveAmbiguous(Symbols)| == 29
  {
    forall i | 0 <= i < |Symbols|
      ensures Symbols[i] !in Ambiguous
    {
      SymbolNotAmbiguous(Symbols[i]);
    }
    RemoveAmbiguousClean(Symbols);
  }

  // ----- build_charset -----

  /** The alphabet is the enabled categories' contributions in the fixed order
      lower, upper, digits, symbols; filtering the whole concatenation is the
      same as filtering each reference set. */
  lemma BuildCharsetSections(o: Options)
    ensures BuildCharset(o)
         == Section(o.lower, Lowercase, o.excludeAmbiguous) + Section(o.upper, Uppercase, o.excludeAmbiguous)
          + Section(o.digits, Digits, o.excludeAmbiguous) + Section(o.symbols, Symbols, o.excludeAmbiguous)
  {
    if o.excludeAmbiguous {
      var l, u, d, s := (if o.lower then Lowercase else ""), (if o.upper then Uppercase else ""),
                        (if o.digits then Digits else ""), (if o.symbols then Symbols else "");
      assert RemoveAmbiguous("") == "";
      RemoveAmbiguousAppend(l + u + d, s);
      RemoveAmbiguousAppend(l + u, d);
      RemoveAmbiguousAppend(l, u);
    }
  }

  /** Size of the alphabet: each enabled category adds 26, 26, 10 and 29
      characters, or 25, 24, 8 and 29 once ambiguous characters are excluded. */
  lemma BuildCharsetSize(o: Options)
    ensures |BuildCharset(o)|
         == (if !o.lower then 0 else if o.excludeAmbiguous then 25 else 26)
          + (if !o.upper then 0 else if o.excludeAmbiguous then 24 else 26)
          + (if !o.digits then 0 else if o.excludeAmbiguous then 8 else 10)
          + (if !o.symbols then 0 else 29)
  {
    BuildCharsetSections(o);
    FilteredLowercase();
    FilteredUppercase();
    FilteredDigits();
    FilteredSymbols();
  }

  /** The alphabet is empty exactly when no category is enabled, whether or
      not ambiguous characters are excluded. */
  lemma BuildCharsetEmpty(o: Options)
    ensures BuildCharset(o) == [] <==> Enabled(o) == []
  {
    BuildCharsetSize(o);
  }

  /** A character is in the alphabet exactly when it belongs to an enabled
      reference set and is not an excluded ambiguous character. */
  lemma BuildCharsetMembers(o: Options, c: char)
    ensures c in BuildCharset(o) <==> InSomeEnabled(o, c) && !(o.excludeAmbiguous && c in Ambiguous)
  {
    RemoveAmbiguousMembers(Concatenation(o));
    ConcatenationMembers(o, c);
  }

  /** The unfiltered concatenation holds exactly the enabled categories' characters. */
  lemma ConcatenationMembers(o: Options, c: char)
    ensures c in Concatenation(o) <==> InSomeEnabled(o, c)
  {
    var l, u, d, s := (if o.lower then Lowercase else ""), (if o.upper then Uppercase else ""),
                      (if o.digits then Digits else ""), (if o.symbols then Symbols else "");
    JoinMembers(l, u, d, s, c);
    EnabledMembers(o, c);
  }

  /** `c` is in an enabled reference set exactly when one of the enabled flags
      names a set holding it. */
  lemma EnabledMembers(o: Options, c: char)
    ensures InSomeEnabled(o, c) <==>
              ((o.lower && c in Lowercase) || (o.upper && c in Uppercase)
               || (o.digits && c in Digits) || (o.symbols && c in Symbols))
  {
    if InSomeEnabled(o, c) {
      var cat :| cat in Enabled(o) && c in CategorySet(cat);
      assert c in CategorySet(cat);
    } else {
      assert !(o.lower && c in CategorySet(Lower));
      assert !(o.upper && c in CategorySet(Upper));
      assert !(o.digits && c in CategorySet(Digit));
      assert !(o.symbols && c in CategorySet(Symbol));
    }
  }

  /** Membership in a concatenation of four strings. */
  lemma JoinMembers(a: string, b: string, d: string, e: string, c: char)
    ensures c in a + b + d + e <==> c in a || c in b || c in d || c in e
  {
  }

  /** Every string is a subsequence of itself. */
  lemma {:induction false} SubsequenceReflexive(s: string)
    ensures IsSubsequence(s, s)
  {
    if s != [] {
      SubsequenceReflexive(s[1..]);
    }
  }

  /** The alphabet lists its characters in the order of the unfiltered
      concatenation: filtering only deletes. */
  lemma BuildCharsetKeepsOrder(o: Options)
    ensures IsSubsequence(BuildCharset(o), Concatenation(o))
  {
    if o.excludeAmbiguous {
      RemoveAmbiguousKeepsOrder(Concatenation(o));
    } else {
      SubsequenceReflexive(Concatenation(o));
    }
  }
}
