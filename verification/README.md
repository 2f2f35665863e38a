# Random password generator: a Dafny model of its core

The repository is a small Python password generator (`password_generate.py`).
Its core is four pure functions and two constants:

- `build_charset` builds the sampling alphabet from the enabled categories (lower case, upper case, digits, symbols). It can drop the visually ambiguous characters `Il1O0`.
- `ensure_inclusion` checks each required category set in turn. If the list holds no character of the set, it overwrites one random position with a random member of that set.
- `generate` checks the options, draws `length` characters from the alphabet, repairs the draft and shuffles it.
- `estimate_strength` scores a password from two length thresholds and the number of character types it holds, and rates it Weak, Moderate or Strong.

The model is purely functional. Every random outcome is an input:

- `Tape.picks` holds the alphabet indices of the draws.
- `Tape.repairs` holds one `Repair(pos, pick)` per required set, standing for `randbelow` and `choice`.
- `Tape.perm` is the permutation the shuffle applies. A permutation is defined as a sequence with the same multiset as `0 .. n-1`.

The properties therefore hold for every possible outcome of the random source. The `ValueError`s of `generate` are a `GenError` result. `ensure_inclusion` calling `randbelow(0)` or `choice("")` becomes a `RepairError` result, and `generate` is proved never to reach it.

Modules, one per file:
- `Results`: the result type.
- `Sequences`: index selection and permutations.
- `Charset`: the constants and `build_charset`.
- `Inclusion`: `ensure_inclusion`.
- `Generator`: `generate`.
- `Strength`: `estimate_strength`.
- `Assessment`: ratings of generated passwords.
- `Departures`: two concrete inputs on which the code does less than its own names and labels announce.

In two places the code does less than its names and labels suggest; the model follows the code:

- The option is labelled "Exclude ambiguous (Il1O0)" (line 90), yet the repair sets built on lines 27-31 are the unfiltered reference sets. With ambiguous characters excluded, a repair can still write one into the password. `Departures.AmbiguousCanReturn` exhibits `1a` coming out of lower case plus digits with `1` excluded. So "every character is in the alphabet" holds only without the filter (`Generator.GenerateWithinCharset`). What holds in general is weaker: every character is in the reference set of an enabled category (`Generator.GenerateMembers`).
- The name `ensure_inclusion` (line 20) suggests that every required set ends up represented, yet each repair sees only the list the previous repairs left, and a later repair may overwrite an earlier one's character. Only the last enabled category is guaranteed to appear (`Generator.GenerateLastCategory`). `Departures.CategoryCanVanish` exhibits `0AA`, which has no lower-case letter, produced with lower case enabled.

## Model

| member | source | states |
|---|---|---|
| Charset.ReferenceSpelling | password_generate.py:12-14 | the three character ranges are exactly the ASCII lower-case letters, upper-case letters and digits |
| Charset.AmbiguousMembers | password_generate.py:8 | a character is ambiguous exactly when it is one of `I`, `l`, `1`, `O`, `0` |
| Charset.Enabled | password_generate.py:28-31 | the enabled categories: one per set flag, each present exactly when its flag is set |
| Charset.RemoveAmbiguousMembers | password_generate.py:17 | the filter keeps a character exactly when it was there and is not ambiguous |
| Charset.RemoveAmbiguousAppend | password_generate.py:17 | filtering a concatenation equals concatenating the filtered parts |
| Charset.RemoveAmbiguousClean | password_generate.py:17 | a string without ambiguous characters passes the filter unchanged |
| Charset.RemoveAmbiguousIdempotent | password_generate.py:16-17 | filtering a second time changes nothing |
| Charset.RemoveAmbiguousKeepsOrder | password_generate.py:17 | the filtered string is a subsequence of the original: surviving characters keep their relative order |
| Charset.FilteredLowercase | password_generate.py:12-17 | filtering the lower-case letters removes only `l`, leaving 25 in order |
| Charset.FilteredUppercase | password_generate.py:13-17 | filtering the upper-case letters removes only `I` and `O`, leaving 24 in order |
| Charset.FilteredDigits | password_generate.py:14-17 | filtering the digits removes only `0` and `1`, leaving `2`-`9` |
| Charset.FilteredSymbols | password_generate.py:7-17 | no symbol is ambiguous, so all 29 survive the filter |
| Charset.BuildCharsetSections | password_generate.py:10-18 | the alphabet is each enabled category's (filtered) set in the order lower, upper, digits, symbols |
| Charset.BuildCharsetSize | password_generate.py:10-18 | the alphabet has 26/25, 26/24, 10/8 and 29 characters per enabled category, unfiltered/filtered |
| Charset.BuildCharsetEmpty | password_generate.py:10-18 | the alphabet is empty exactly when no category is enabled, with or without the filter |
| Charset.BuildCharsetMembers | password_generate.py:10-18 | a character is in the alphabet exactly when it is in an enabled reference set and is not an excluded ambiguous character |
| Charset.ConcatenationMembers | password_generate.py:11-15 | the unfiltered concatenation holds exactly the characters of the enabled reference sets |
| Charset.BuildCharsetKeepsOrder | password_generate.py:16-17 | the alphabet is a subsequence of the unfiltered concatenation |
| Inclusion.RepairOne | password_generate.py:22-24 | one repair step: an already represented set leaves the list alone; otherwise one position takes a member of the set, so the set is represented; it fails exactly on an empty list or an empty set that needs a repair |
| Inclusion.EnsureInclusion | password_generate.py:20-24 | it fails exactly when a repair is needed with an empty list or an empty set. The length is kept. Each position is unchanged or holds a member of a set whose repair targeted it. The last set is represented. A list that already represents every set is returned unchanged |
| Sequences.Pick | password_generate.py:40 | reading a sequence through an index list yields one element per index, in index order |
| Sequences.PermutationBounded | password_generate.py:43 | a permutation of `0 .. n-1` has `n` entries, all below `n` |
| Sequences.PickPermutation | password_generate.py:43 | reading a sequence through a permutation of its indices yields the same multiset of elements |
| Generator.RequiredSets | password_generate.py:27-31 | one non-empty reference set per enabled category, in category order |
| Generator.Draft | password_generate.py:40-42 | the repaired draft has one character per draw; each is from the alphabet or from a required set; the last required set is represented |
| Generator.Assemble | password_generate.py:33-44 | an empty alphabet fails first; then a length below the number of required sets fails; otherwise the result has `length` characters and is a rearrangement of the repaired draft |
| Generator.AssembleMembers | password_generate.py:40-44 | every character of a password is from the alphabet or from one of the required sets |
| Generator.AssembleNoPositions | password_generate.py:37-44 | with no required set, a length of 0 passes the check and gives the empty password |
| Generator.AssembleLastRepresented | password_generate.py:40-44 | the last required set is represented in the password, whatever the draws and the shuffle |
| Generator.Generate | password_generate.py:26-44 | `generate` succeeds exactly when some category is enabled and `length` is at least their number. No category fails with the first error for any length; otherwise a short length fails with the second error, carrying the minimum. A success has `length >= 1` characters and is a rearrangement of the repaired draft |
| Generator.GenerateValue | password_generate.py:40-44 | an accepted call returns the repaired draft read through the shuffle permutation |
| Generator.GenerateUnshuffled | password_generate.py:40-44 | with the identity permutation an accepted call returns the repaired draft itself |
| Generator.GenerateMembers | password_generate.py:27-44 | every character of a password is in the reference set of some enabled category |
| Generator.GenerateWithinCharset | password_generate.py:33-44 | without the ambiguity filter every character of a password is in the alphabet |
| Generator.GenerateLastCategory | password_generate.py:27-44 | the last enabled category, in the order lower, upper, digits, symbols, always appears in the password |
| Departures.AmbiguousCanReturn | password_generate.py:27-44 | with lower case and digits, the filter on, and a particular tape, `generate(2)` returns `1a`; `1` is ambiguous and not in the alphabet |
| Departures.CategoryCanVanish | password_generate.py:21-44 | with lower case, upper case and digits and a particular tape, `generate(3)` returns `0AA`, which has no lower-case letter |
| Strength.TypesPresent | password_generate.py:50-54 | the type count is between 0 and 4; it is 0 exactly when no type is present and 4 exactly when all are |
| Strength.Score | password_generate.py:47-55 | the score lies in -1..5; it is -1 exactly for fewer than 8 characters with no recognised type, and 5 exactly for at least 12 characters with all four types |
| Strength.EstimateStrength | password_generate.py:46-59 | the rating is never `Unknown`; it is Weak, Moderate or Strong exactly when the score is at most 1, equal to 2, or at least 3 |
| Strength.EmptyIsWeak | password_generate.py:46-59 | the empty password scores -1 and is Weak |
| Strength.EightLettersWeak | password_generate.py:46-59 | `abcdefgh` scores 1 and is Weak |
| Strength.AllTypesStrong | password_generate.py:46-59 | `Abcdefgh1!` scores 4 and is Strong |
| Strength.ShortWeak | password_generate.py:46-59 | `ab` is Weak |
| Strength.StrengthMonotone | password_generate.py:46-59 | a password at least as long, with at least as many types present (whichever they are), scores and rates at least as high |
| Strength.TypesIncluded | password_generate.py:50-54 | holding every type another password holds means holding at least as many types |
| Strength.MoreTypesStronger | password_generate.py:46-59 | `aaaaaaaa` scores 1 (Weak) and `AAAAAAA1` scores 2 (Moderate): a larger type count raises the rating even when a type is lost |
| Strength.AppendNeverWeakens | password_generate.py:46-59 | appending characters never lowers the score or the rating |
| Strength.RearrangeKeepsStrength | password_generate.py:46-59 | two passwords with the same multiset of characters score and rate the same |
| Strength.OfKindIsCategorySet | password_generate.py:51-54 | a character passes a category's test exactly when it is in that category's reference set |
| Assessment.GeneratedTyped | password_generate.py:26-59 | a generated password holds at least one recognised type, so from 12 characters on it is never rated Weak |
| Assessment.ShuffleKeepsRating | password_generate.py:43-59 | a password rates exactly as its unshuffled repaired draft does |

## Left out

- The tkinter `App` class (lines 61-138) and process start-up (lines 140-142) are user interface and I/O.
- The quality of the `secrets` generator is not modelled: the uniformity and unpredictability of `choice`, `randbelow` and `SystemRandom().shuffle` are probabilistic claims. The draws are inputs, constrained only to be in range and, for the shuffle, a permutation.
- `Strength.OfKindIsCategorySet`: `str.islower`, `str.isupper` and `str.isdigit` are modelled on ASCII only (`a`-`z`, `A`-`Z`, `0`-`9`). Python also accepts other Unicode letters and digits, which the model treats as untyped.
- The text of the two `ValueError` messages is not modelled. Only which error is raised, and the minimum length the second one reports, are kept.
- The guard `if required_sets:` on line 41 is not modelled as a separate branch. Repairing with no required sets returns the list unchanged (`Inclusion.EnsureInclusion`), and an accepted call always has at least one required set.
- Two properties the label of line 90 and the name on line 20 suggest are not proved, because the code does not keep them: that no excluded ambiguous character appears, and that every enabled category appears. The model proves what the code does guarantee (`Generator.GenerateMembers`, `Generator.GenerateWithinCharset`, `Generator.GenerateLastCategory`) and exhibits the gaps in `Departures`.
