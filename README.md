# VSRegex in Dafny

VSRegex matches mobile numbers of mainland China against a family of
regular expressions kept in a table (`regex.json`). This project models
three things:

- **The category taxonomy.** `VSRegexPattern` has the two top-level
  categories `all` and `sms`, and four wrapping families: carrier (six
  cases), MVNO, IoT and data-only (four cases each). Each category has a
  pattern text and a minimum length, read from the table. `allCases` lists
  every category in a fixed order.
- **The `VSRegex` value.** It holds a category and its compiled expression.
  It answers `firstMatch`, `allMatches` and `matches`, after two length
  guards. It has the static one-shot wrappers `matches(_:in:…)` and
  `is(_:matches:…)`, and its `==` and `hash(into:)`.
- **The test fixtures.** The test target builds the lists of numbers each
  category must accept from `test_data.json`, and the reserved numbers
  that must be rejected. It also has `OptionSet.elements()`, which
  decomposes an option set into its one-bit members.

The regular-expression engine is a parameter, a `Matcher`. It gives the
match ranges that `NSRegularExpression.matches(in:options:range:)` would
give. Whether a
pattern compiles is also a parameter, a `Compiler`. The model proves, for
every engine, what the guards, the defaults, the fold and the delegations
decide.

Modules:

- `Wrappers`: `Option` and `Result`.
- `Decimal`: Swift's `Int(_: String)` and `String(_: Int)` for 64-bit `Int`.
- `Patterns`: the taxonomy, `pattern`, `minimumLength` and `allCases`.
- `Engine`: `VSRegex`, its queries, its initialisers and the static
  wrappers.
- `EngineProperties`: lemmas about the guards, the `allMatches` fold, the
  wrappers, and equality with hashing.
- `Bitwise`: `&`, `|`, `~` and the wrapping `&* 2` of a `width`-bit word.
- `OptionSetElements`: `elements()` as a class whose methods advance the
  captured state.
- `TestData`: `testNumbers`, `testStringNumbers` and `reservedNumbers`.

## Model

| member | source | states |
|---|---|---|
| Patterns.PatternText | Sources/VSRegex.swift:85-100 | the text of a category is the table entry at its family and its own sub-key: `misc`/`all` and `misc`/`sms` for the top-level cases, the family's table and the case's key for a wrapped case |
| Patterns.MinimumLength | Sources/VSRegex.swift:102-117 | the minimum length is the value `Int(_:)` parses from the category's minimum-length entry; for every wrapped case, that is the family's single `min_length` entry |
| Patterns.FamilySharesMinimumLength | Sources/VSRegex.swift:102-158 | two leaves of the same family have the same minimum length; if one has a readable entry, so does the other |
| Patterns.TopLevelEntriesAreOwn | Sources/VSRegex.swift:85-107 | `all` and `sms` read their own `misc` entries for both the pattern text and the minimum length, and derive nothing from the families |
| Patterns.PatternEntriesDistinct | Sources/VSRegex.swift:139-250 | no two categories read the same (family, sub-key) pattern entry, and no pattern entry is a minimum-length entry |
| Patterns.WrapCarriers | Sources/VSRegex.swift:265 | `Carrier.allCases.map(VSRegexPattern.carrier)` keeps the length, and element `i` wraps carrier case `i` |
| Patterns.WrapOperators | Sources/VSRegex.swift:266-268 | mapping a wrapping constructor over an operator family keeps the length, and element `i` wraps case `i` |
| Patterns.Position | Sources/VSRegex.swift:263-269 | every category has an index below 20 in `allCases` |
| Patterns.SubCasesInOrder | Sources/VSRegex.swift:129-135 | each sub-enum's `allCases` lists its cases in declaration order, every case once |
| Patterns.CarrierAt | Sources/VSRegex.swift:263-265 | carrier case `c` stands at index `2 + c`'s position in `allCases`, which has 20 entries |
| Patterns.OperatorAt | Sources/VSRegex.swift:266-268 | an MVNO, IoT or data-only case stands at index 8, 12 or 16 plus its position |
| Patterns.AtPosition | Sources/VSRegex.swift:263-269 | every category stands at its position in `allCases` |
| Patterns.AllCasesLayout | Sources/VSRegex.swift:263-269 | `allCases` has 20 entries and starts with `all`, `sms`; every category occurs in it |
| Patterns.AllCasesExactlyOnce | Sources/VSRegex.swift:263-269 | no category occurs twice in `allCases`: the entry at index `i` is the category whose position is `i` |
| Patterns.CarrierPattern | Sources/VSRegex.swift:139-154 | no contract of its own: `Patterns.PatternText` states the entry every carrier case reads |
| Patterns.OperatorPattern | Sources/VSRegex.swift:175-250 | no contract of its own: `Patterns.PatternText` states the entry every MVNO, IoT and data-only case reads |
| Patterns.FamilyMinimumLength | Sources/VSRegex.swift:156-158 | no contract of its own: `Patterns.MinimumLength` and `Patterns.FamilySharesMinimumLength` state that every leaf reads its family's single `min_length` |
| Patterns.AllCases | Sources/VSRegex.swift:263-269 | `allCases` has `2 + 6 + 3 * 4` entries and starts with `all`, `sms`; `Patterns.AllCasesLayout` and `Patterns.AllCasesExactlyOnce` state where each category stands |
| Decimal.ParseInt | Sources/VSRegex.swift:157 | no contract of its own: `Decimal.ParseDecimalString` states that `Int(_:)` reads back every rendering of a 64-bit integer |
| Decimal.DigitChar | VSRegexTest/TestDataFetcher.swift:70 | the character for a digit value is a decimal digit with that value |
| Decimal.NatDigits | VSRegexTest/TestDataFetcher.swift:70 | the decimal digits of a natural number are a non-empty run of digits, with no leading zero unless the number is zero |
| Decimal.DecimalString | VSRegexTest/TestDataFetcher.swift:70 | `String(n)` is never empty |
| Decimal.NatDigitsValue | VSRegexTest/TestDataFetcher.swift:70 | the digits of `n` have the value `n` |
| Decimal.ParseDecimalString | VSRegexTest/TestDataFetcher.swift:70 | `Int(String(n))` is `n` for every 64-bit `n` |
| Decimal.ParseDecimalStrings | VSRegexTest/TestDataFetcher.swift:53 | the same round trip, for all 64-bit integers at once |
| Decimal.DecimalStringInjective | VSRegexTest/TestDataFetcher.swift:53 | distinct numbers render to distinct strings |
| Engine.Substring | Sources/VSRegex.swift:335 | `Range(r, in: s)` exists exactly when the range lies within the subject; the text it gives has the range's length and the subject's characters from the range's location |
| Engine.Texts | Sources/VSRegex.swift:355 | `compactMap` keeps at most one text per range; every text comes from a range inside the subject; when all ranges are inside, it keeps them all, text `i` being that of range `i`; the first text is that of the first range when that range is inside |
| Engine.SearchRange | Sources/VSRegex.swift:331 | no contract of its own: `EngineProperties.DefaultRangeIsWholeSubject` states that without a range the search covers `(0, s.count)` |
| Engine.FirstText | Sources/VSRegex.swift:334-335 | the text of the engine's first match, when there is one, is the first of the texts `compactMap` keeps for the same ranges |
| Engine.VSRegex.FirstMatch | Sources/VSRegex.swift:328-336 | a subject shorter than the minimum length, or a searched range whose `length - location` is below it, gives `nil`; otherwise the answer is the text of the engine's first match range, or `nil` when there is none or it is outside the subject |
| Engine.VSRegex.Accumulate | Sources/VSRegex.swift:348-356 | the `reduce` closure gives `[]` for a subject failing a guard, dropping what was accumulated, and otherwise appends that subject's texts to the accumulator |
| Engine.VSRegex.Reduce | Sources/VSRegex.swift:348-356 | no contract of its own: `EngineProperties.ReduceAllPass` and `EngineProperties.ReduceAfterFailure` state what the fold computes |
| Engine.VSRegex.AllMatches | Sources/VSRegex.swift:345-346 | no subjects give no matches |
| Engine.VSRegex.Matches | Sources/VSRegex.swift:366-368 | `matches` holds exactly when both guards pass and the engine's first match has a text |
| Engine.VSRegex.HashInto | Sources/VSRegex.swift:419-422 | `hash(into:)` keeps what the hasher already held and combines exactly two more values; `EngineProperties.EqualIffSameHashInputs` states that they are the two `==` compares |
| Engine.Equals | Sources/VSRegex.swift:410-413 | no contract of its own: `EngineProperties.EqualsIsEquivalence`, `EngineProperties.EqualIffSameHashInputs`, `EngineProperties.EqualityIgnoresCategory` and `EngineProperties.EqualityComparesOptions` state its meaning |
| Engine.Compile | Sources/VSRegex.swift:295-298 | the throwing initialiser succeeds exactly when the category's pattern text compiles with the options; it then keeps the category and the expression of that text and those options, and otherwise throws for them |
| Engine.Create | Sources/VSRegex.swift:312-319 | the non-throwing initialiser, under its precondition that the pattern compiles, builds the value the throwing one returns |
| Engine.StaticMatches | Sources/VSRegex.swift:379-385 | the static `matches` holds exactly when both guards pass for the category and the freshly compiled expression's first match has a text |
| Engine.Is | Sources/VSRegex.swift:396-404 | `is` holds under the same conditions as the static `matches` |
| EngineProperties.ReduceAllPass | Sources/VSRegex.swift:348-356 | when every subject passes the guards, the fold appends the texts of all subjects, in order, to the starting accumulator |
| EngineProperties.ReduceAfterFailure | Sources/VSRegex.swift:348-356 | when subject `k` is the last to fail a guard, the fold gives only the texts of the subjects after `k`, whatever it started from |
| EngineProperties.AllMatchesAfterLastFailure | Sources/VSRegex.swift:345-357 | `allMatches` is the in-order concatenation of the texts of all subjects when none fails a guard, and of the subjects after the last failing one otherwise |
| EngineProperties.LastFailureEmptiesBatch | Sources/VSRegex.swift:349-352 | a batch whose last subject fails a guard gives no matches at all |
| EngineProperties.SingleCharacterRangeNeverMatches | Sources/VSRegex.swift:328-357 | with the range `(0, 1)` and a minimum length above 1, `firstMatch` is `nil`, `matches` is false and `allMatches` is empty, for every subject and every engine |
| EngineProperties.GuardFailureIgnoresEngine | Sources/VSRegex.swift:329-332 | a subject failing a guard gets `nil` and false from any engine: the engine is not consulted |
| EngineProperties.DefaultRangeIsWholeSubject | Sources/VSRegex.swift:331-332 | without a range, only the length guard can fail, and the answers are those for the explicit range `(0, s.count)` |
| EngineProperties.OffsetRangeRejected | Sources/VSRegex.swift:332 | a range that starts after the subject's beginning and holds exactly the minimum length lies within the subject, yet `firstMatch` refuses it |
| EngineProperties.FirstMatchLeadsAllMatches | Sources/VSRegex.swift:328-357 | on one subject, a first match is the first of all matches, and no matches means no first match |
| EngineProperties.MatchesIffFirstMatchFound | Sources/VSRegex.swift:366-368 | `matches` is `firstMatch != nil` |
| EngineProperties.StaticWrappersAgree | Sources/VSRegex.swift:379-404 | `is`, the static `matches` and `matches` on a fresh value give the same answer |
| EngineProperties.EqualsIsEquivalence | Sources/VSRegex.swift:410-413 | `==` is reflexive, symmetric and transitive |
| EngineProperties.EqualIffSameHashInputs | Sources/VSRegex.swift:409-422 | two values are `==` exactly when `hash(into:)` feeds the hasher the same values, so equal values hash alike |
| EngineProperties.EqualityIgnoresCategory | Sources/VSRegex.swift:410-413 | values built from two categories with the same pattern text and options are `==` |
| EngineProperties.EqualityComparesOptions | Sources/VSRegex.swift:410-413 | values built from one category are `==` exactly when their options are equal |
| Bitwise.Pow2 | VSRegexTest/TestDataFetcher.swift:165-169 | every power of two is at least 1 |
| Bitwise.WrappingDouble | VSRegexTest/TestDataFetcher.swift:169 | `&* 2` stays inside the word |
| Bitwise.WrappingDoubleModular | VSRegexTest/TestDataFetcher.swift:169 | `&* 2` is doubling modulo `2^width` |
| Bitwise.WrappingDoublePow2 | VSRegexTest/TestDataFetcher.swift:169 | doubling the mask `2^i` gives `2^(i+1)`, or 0 once it passes the top bit |
| Bitwise.Pow2Increasing | VSRegexTest/TestDataFetcher.swift:169 | powers of two grow strictly |
| Bitwise.BelowPow2HasNoBit | VSRegexTest/TestDataFetcher.swift:170 | a value below `2^i` has bit `i` clear |
| Bitwise.NoBitsMeansZero | VSRegexTest/TestDataFetcher.swift:168 | a word with no bit set is 0 |
| Bitwise.AndPow2 | VSRegexTest/TestDataFetcher.swift:170 | `x & 2^i` is `2^i` when bit `i` is set, and 0 otherwise |
| Bitwise.AndLowMask | VSRegexTest/TestDataFetcher.swift:171 | `y & (2^n - 1)` is `y` when `y` is below `2^n` |
| Bitwise.ClearBit | VSRegexTest/TestDataFetcher.swift:171 | `x & ~2^i` subtracts `2^i` when bit `i` is set |
| Bitwise.ClearLowBit | VSRegexTest/TestDataFetcher.swift:171 | `x & ~1` subtracts 1 when bit 0 is set |
| Bitwise.ClearedBits | VSRegexTest/TestDataFetcher.swift:171 | clearing bit `i` leaves every other bit as it was |
| Bitwise.PopCountClear | VSRegexTest/TestDataFetcher.swift:171 | clearing a set bit lowers the population count by one |
| Bitwise.OrPow2 | VSRegexTest/TestDataFetcher.swift:172 | or-ing in a clear bit `2^i` adds `2^i` |
| Bitwise.Pow2IsSingleBit | VSRegexTest/TestDataFetcher.swift:172 | every mask `2^i` has exactly one bit set |
| Bitwise.OrAllAppend | VSRegexTest/TestDataFetcher.swift:172 | yielding one more member ors it into the union of those yielded |
| OptionSetElements.ProgressStart | VSRegexTest/TestDataFetcher.swift:164-165 | the starting state (all bits remaining, mask 1, nothing yielded) satisfies the iteration invariant |
| OptionSetElements.RemainingBelowWidth | VSRegexTest/TestDataFetcher.swift:168-169 | while bits remain, the mask has not yet wrapped to 0 and is `2^index` |
| OptionSetElements.SkipBit | VSRegexTest/TestDataFetcher.swift:169-170 | a probe finding the masked bit clear keeps the invariant after the mask doubles |
| OptionSetElements.TakeBitBits | VSRegexTest/TestDataFetcher.swift:171 | after clearing bit `index`, every bit up to it is clear and the higher bits still agree with the raw value |
| OptionSetElements.TakeBitYielded | VSRegexTest/TestDataFetcher.swift:172 | yielding `2^index` keeps the yielded members one-bit, set in the raw value and increasing |
| OptionSetElements.TakeBitAccounted | VSRegexTest/TestDataFetcher.swift:171-172 | moving bit `index` from the remaining bits to the yielded ones keeps their union and their bit counts equal to the raw value's |
| OptionSetElements.TakeBit | VSRegexTest/TestDataFetcher.swift:169-172 | a probe finding the masked bit set clears exactly that bit, and the invariant holds after yielding the mask and doubling it |
| OptionSetElements.Finished | VSRegexTest/TestDataFetcher.swift:164-175 | once no bits remain, the yielded values are one-bit members of the raw value, strictly increasing, whose union is the raw value and whose number is its population count, and none for the empty set |
| OptionSetElements.ElementSequence.constructor | VSRegexTest/TestDataFetcher.swift:164-165 | `elements()` captures the raw value as the remaining bits and the mask 1 (bit 0), with nothing yielded |
| OptionSetElements.ElementSequence.TakeMasked | VSRegexTest/TestDataFetcher.swift:169-172 | the masked bit is cleared from the remaining bits and appended to what was yielded, and the mask is doubled once with wrap-around |
| OptionSetElements.ElementSequence.SkipMasked | VSRegexTest/TestDataFetcher.swift:169-170 | only the mask moves on, doubled once with wrap-around; the remaining bits and the yielded members are unchanged |
| OptionSetElements.ElementSequence.Probe | VSRegexTest/TestDataFetcher.swift:168-173 | one pass of the loop doubles the mask exactly once; it yields the old mask exactly when that bit is set in the remaining bits, removing it from them and appending it to what was yielded, and otherwise changes neither |
| OptionSetElements.ElementSequence.Next | VSRegexTest/TestDataFetcher.swift:167-176 | the iterator returns `nil` exactly when no bits remain, leaving the bits, the mask and what was yielded unchanged; otherwise it returns the next set bit, removed from the remaining bits and appended to what was yielded, and the mask is that bit doubled |
| OptionSetElements.ElementSequence.Drain | VSRegexTest/TestDataFetcher.swift:166-177 | a full traversal ends with no bits remaining, having yielded the bits it returns, and a traversal of an exhausted sequence yields nothing |
| OptionSetElements.Elements | VSRegexTest/TestDataFetcher.swift:162-178 | one traversal of `elements()` yields one-bit members of the raw value, strictly increasing, whose union is the raw value and whose number is its population count; the empty set yields nothing |
| OptionSetElements.ElementsTwice | VSRegexTest/TestDataFetcher.swift:164-177 | the iterators share the captured state, so a second traversal of the same sequence yields nothing |
| TestData.Concat | VSRegexTest/TestDataFetcher.swift:102 | no contract of its own: `TestData.ConcatMembership` and `TestData.ConcatOrderIrrelevant` state what `values.reduce([], +)` holds |
| TestData.FamilyNumbers | VSRegexTest/TestDataFetcher.swift:98-160 | no contract of its own: `TestData.FamilyNumbersMembership` and `TestData.FamilyNumbersOrderIrrelevant` state what a family's `.all` numbers are |
| TestData.CarrierTestNumbers | VSRegexTest/TestDataFetcher.swift:98-115 | no contract of its own: `TestData.LeafReadsOwnKey` and `TestData.FamilyNumbersMembership` state what each carrier case checks |
| TestData.OperatorTestNumbers | VSRegexTest/TestDataFetcher.swift:117-160 | no contract of its own: `TestData.LeafReadsOwnKey` and `TestData.FamilyNumbersMembership` state what each MVNO, IoT and data-only case checks |
| TestData.TestNumbers | VSRegexTest/TestDataFetcher.swift:75-95 | no contract of its own: `TestData.TopLevelComposition`, `TestData.LeafReadsOwnKey` and `TestData.LeafNumbersIncluded` state what each category checks |
| TestData.TestStringNumbers | VSRegexTest/TestDataFetcher.swift:69-71 | no contract of its own: `TestData.TestStringNumbersRendering` states it |
| TestData.ReservedIoTNumbers | VSRegexTest/TestDataFetcher.swift:52-54 | one string per reserved IoT number, in order, each reading back as that number |
| TestData.ReservedCarrierNumbers | VSRegexTest/TestDataFetcher.swift:56-58 | one string per reserved carrier number, in order, each reading back as that number |
| TestData.ReservedNumbers | VSRegexTest/TestDataFetcher.swift:48-50 | no contract of its own: `TestData.ReservedNumbersReadBack` states it |
| TestData.StringNumbers | VSRegexTest/TestDataFetcher.swift:69-71 | `map { String($0) }` keeps the length, and `Int(_:)` reads element `i` back as number `i` |
| TestData.ConcatMembership | VSRegexTest/TestDataFetcher.swift:102 | a number is in `values.reduce([], +)` exactly when it is under one of the visited keys |
| TestData.ConcatRemove | VSRegexTest/TestDataFetcher.swift:102 | taking one key out of the visiting order takes exactly that key's numbers out of the fold, counted with repetition |
| TestData.RemoveAt | VSRegexTest/TestDataFetcher.swift:102 | taking one key out of a visiting order without repetitions removes exactly that key |
| TestData.NoKeysNoOrder | VSRegexTest/TestDataFetcher.swift:102 | a visiting order holding no key is empty |
| TestData.DropMatchingKey | VSRegexTest/TestDataFetcher.swift:102 | dropping the same key from two visiting orders of one dictionary leaves two visiting orders of the same keys |
| TestData.ConcatOrderIrrelevant | VSRegexTest/TestDataFetcher.swift:98-160 | the numbers of `values.reduce([], +)`, counted with repetition, do not depend on the order the dictionary visits its values in |
| TestData.FamilyNumbersMembership | VSRegexTest/TestDataFetcher.swift:98-160 | a family's `.all` numbers are exactly the numbers of its leaves |
| TestData.FamilyNumbersOrderIrrelevant | VSRegexTest/TestDataFetcher.swift:98-160 | any two visiting orders give a family's `.all` the same numbers, counted with repetition |
| TestData.TopLevelComposition | VSRegexTest/TestDataFetcher.swift:75-85 | `all` is the carrier, MVNO, IoT and data-only `.all` numbers in that order; `sms` is the same without IoT |
| TestData.AllIsSmsAndIoT | VSRegexTest/TestDataFetcher.swift:77-85 | `all` checks exactly the `sms` numbers and the IoT numbers, counted with repetition |
| TestData.LeafNumbersIncluded | VSRegexTest/TestDataFetcher.swift:75-160 | every number of a wrapped category is in its family's `.all` numbers and in `all`'s, and in `sms`'s unless the family is IoT |
| TestData.LeafReadsOwnKey | VSRegexTest/TestDataFetcher.swift:86-160 | a wrapped category other than a family's `.all` checks exactly the numbers under its own sub-key, the one under which `regex.json` holds its pattern |
| TestData.TestStringNumbersRendering | VSRegexTest/TestDataFetcher.swift:69-71 | `testStringNumbers` keeps the length and the order of `testNumbers`: element `i` is the decimal rendering of number `i` and reads back as it |
| TestData.StringNumbersAppend | VSRegexTest/TestDataFetcher.swift:48-58 | rendering a concatenation renders each part in turn |
| TestData.ReservedNumbersReadBack | VSRegexTest/TestDataFetcher.swift:48-58 | `reservedNumbers` reads back as the reserved IoT numbers followed by the reserved carrier numbers |

## Left out

- Loading `regex.json` from the bundle (Sources/VSRegex.swift:40-64). The table is a parameter. The force-unwraps of `pattern` and `minimumLength`, and `Int(_:)`'s `!`, become preconditions: `HasPattern` and `HasMinimumLength`.
- `NSRegularExpression`. Compiling is the `Compiler` parameter and matching is the `Matcher` parameter. `Options` and `MatchingOptions` are passed through as raw bit masks, with no meaning.
- `NSRegularExpression.firstMatch(in:options:range:)` is taken to be the first of `matches(in:options:range:)` for the same arguments: one `Matcher` gives both. `EngineProperties.FirstMatchLeadsAllMatches` rests on this.
- Engine.VSRegex.FirstMatch: two traps of the source are not modelled. `range.length - range.location` traps on `Int` overflow (Sources/VSRegex.swift:332), but `NSRange`'s fields are unbounded here, so the guard never traps. `NSRegularExpression` raises a range exception for a searched range that leaves the subject (Sources/VSRegex.swift:334), but here such a range, once it passes the guards, gets the `Matcher`'s answer instead.
- Engine.VSRegex.AllMatches: the same two traps in the `reduce` closure (Sources/VSRegex.swift:352, 354) are not modelled, for the same reasons.
- Equality of compiled expressions: taken as equality of their pattern text and options, and nothing else.
- The gap between `String.count` (grapheme clusters) and the UTF-16 offsets of `NSRange` (Sources/VSRegex.swift:329-335, 351). A subject is a sequence of characters, and one character is one offset, as it is for the digit strings the library is meant for. `NSRange(string.startIndex..., in: string)` therefore is `(0, |s|)`, the same as `firstMatch`'s default.
- `Hasher` internals: `hash(into:)` is modelled as the sequence of values it feeds the hasher.
- The network fetch of `test_data.json` (VSRegexTest/TestDataFetcher.swift:30-46) and its `fatalError`s. The fixtures are a parameter. The force-unwraps become the `Has…` preconditions.
- The order of `Dictionary.values`. Swift does not fix it, so it is a `KeyOrder` parameter that must list every key once. Properties of the `.all` fixtures that must hold for any order are stated up to that order, as multisets.
- The caching done by `shared` and the `lazy var`s: it only memoises values.
- The XCTest suite in VSRegexTest/VSRegexTest.swift, which is not part of this model.
- `elements()` is generic over `FixedWidthInteger`. The model takes the raw value's bit pattern as a natural number below `2^width`, for any width of at least one bit. Signedness only changes how that pattern reads as a number. For a signed `RawValue` whose sign bit is set, the last member Swift yields is that bit alone, a negative number. The strict increase that `OptionSetElements.Elements` states therefore holds of the bit patterns read as unsigned numbers, not of the signed values.
- `elements()` returns an `AnySequence` of closures sharing captured variables. The model makes that captured state the fields of `ElementSequence`, and a traversal a call of `Drain`. The ghost fields `index`, `yielded` and `positions` only record the history of the traversal for the proofs.
- Engine.VSRegex.AllMatches: its own contract states only the empty-batch case. What the fold computes is stated by `EngineProperties.AllMatchesAfterLastFailure` and the lemmas beside it.
- The minimum lengths of `all` and `sms` come from their own `misc` entries (`all_min_length`, `sms_min_length`). They are not the least of their families' lengths: the code reads the entries and derives nothing.
- `==` compares the compiled expression too, not only the pattern text, so values built with different options are unequal.
- The guard at Sources/VSRegex.swift:332 compares `length - location` with the minimum length, and is modelled as written (see `OffsetRangeRejected`).
