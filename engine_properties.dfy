/** What the guards, the fold of `allMatches` and the wrappers of `VSRegex`
    guarantee, for every engine. */
module EngineProperties {
  import opened Wrappers
  import opened Patterns
  import opened Engine

  /** Every subject of the batch passes both guards. */
  predicate AllPass(minimumLength: int, strings: seq<string>, range: Option<NSRange>) {
    forall i :: 0 <= i < |strings| ==> PassesGuards(minimumLength, strings[i], range)
  }

  /** Subject `k` fails a guard and every subject after it passes both. */
  predicate LastFailureAt(minimumLength: int, strings: seq<string>, range: Option<NSRange>, k: int) {
    && 0 <= k < |strings|
    && !PassesGuards(minimumLength, strings[k], range)
    && AllPass(minimumLength, strings[k + 1..], range)
  }

  lemma AllPassTail(minimumLength: int, strings: seq<string>, range: Option<NSRange>)
    requires strings != [] && AllPass(minimumLength, strings, range)
    ensures AllPass(minimumLength, strings[1..], range)
  {
    forall i | 0 <= i < |strings[1..]| ensures PassesGuards(minimumLength, strings[1..][i], range) {
      assert strings[1..][i] == strings[i + 1];
    }
  }

  /** Stated apart so that the fold's induction step stays small. */
  lemma AppendAssociative<T>(a: seq<T>, b: seq<T>, c: seq<T>)
    ensures a + b + c == a + (b + c)
  {
  }

  /** The fold from any accumulator, when every subject passes the guards:
      it appends the texts of all subjects in order. */
  lemma {:induction false} ReduceAllPass(v: VSRegex, table: RegexTable, matcher: Matcher,
                                         options: MatchingOptions, range: Option<NSRange>,
                                         results: seq<string>, strings: seq<string>)
    requires HasMinimumLength(table, v.matchingPattern)
    requires AllPass(MinimumLength(table, v.matchingPattern), strings, range)
    ensures v.Reduce(table, matcher, options, range, results, strings)
            == results + v.ConcatTexts(matcher, options, range, strings)
    decreases |strings|
  {
    if strings != [] {
      var head := v.SubjectTexts(matcher, options, range, strings[0]);
      var tail := v.ConcatTexts(matcher, options, range, strings[1..]);
      assert PassesGuards(MinimumLength(table, v.matchingPattern), strings[0], range);
      assert v.Accumulate(table, matcher, options, range, results, strings[0]) == results + head;
      AllPassTail(MinimumLength(table, v.matchingPattern), strings, range);
      ReduceAllPass(v, table, matcher, options, range, results + head, strings[1..]);
      AppendAssociative(results, head, tail);
    }
  }

  /** The fold from any accumulator, when subject `k` is the last one failing
      a guard: only the texts of the subjects after `k` survive. */
  lemma {:induction false} ReduceAfterFailure(v: VSRegex, table: RegexTable, matcher: Matcher,
                                              options: MatchingOptions, range: Option<NSRange>,
                                              results: seq<string>, strings: seq<string>, k: int)
    requires HasMinimumLength(table, v.matchingPattern)
    requires LastFailureAt(MinimumLength(table, v.matchingPattern), strings, range, k)
    ensures v.Reduce(table, matcher, options, range, results, strings)
            == v.ConcatTexts(matcher, options, range, strings[k + 1..])
    decreases |strings|
  {
    var next := v.Accumulate(table, matcher, options, range, results, strings[0]);
    if k == 0 {
      assert next == [];
      assert strings[1..] == strings[k + 1..];
      ReduceAllPass(v, table, matcher, options, range, [], strings[1..]);
      assert [] + v.ConcatTexts(matcher, options, range, strings[1..]) == v.ConcatTexts(matcher, options, range, strings[1..]);
    } else {
      assert strings[1..][k - 1] == strings[k];
      assert strings[1..][k..] == strings[k + 1..];
      ReduceAfterFailure(v, table, matcher, options, range, next, strings[1..], k - 1);
    }
  }

  /** `allMatches` keeps the texts of the subjects after the last subject
      that fails a guard, concatenated in input order; when no subject fails,
      it is the texts of all subjects in order. */
  lemma AllMatchesAfterLastFailure(v: VSRegex, table: RegexTable, matcher: Matcher, strings: seq<string>,
                                   options: MatchingOptions, range: Option<NSRange>)
    requires HasMinimumLength(table, v.matchingPattern)
    ensures AllPass(MinimumLength(table, v.matchingPattern), strings, range)
            ==> v.AllMatches(table, matcher, strings, options, range) == v.ConcatTexts(matcher, options, range, strings)
    ensures forall k | LastFailureAt(MinimumLength(table, v.matchingPattern), strings, range, k) ::
              v.AllMatches(table, matcher, strings, options, range)
              == v.ConcatTexts(matcher, options, range, strings[k + 1..])
  {
    var minimumLength := MinimumLength(table, v.matchingPattern);
    if AllPass(minimumLength, strings, range) && strings != [] {
      ReduceAllPass(v, table, matcher, options, range, [], strings);
      assert [] + v.ConcatTexts(matcher, options, range, strings) == v.ConcatTexts(matcher, options, range, strings);
    }
    forall k | LastFailureAt(minimumLength, strings, range, k)
      ensures v.AllMatches(table, matcher, strings, options, range)
              == v.ConcatTexts(matcher, options, range, strings[k + 1..])
    {
      ReduceAfterFailure(v, table, matcher, options, range, [], strings, k);
    }
  }

  /** A batch whose last subject fails a guard gives no matches at all. */
  lemma LastFailureEmptiesBatch(v: VSRegex, table: RegexTable, matcher: Matcher, strings: seq<string>,
                                options: MatchingOptions, range: Option<NSRange>)
    requires HasMinimumLength(table, v.matchingPattern)
    requires strings != [] && !PassesGuards(MinimumLength(table, v.matchingPattern), strings[|strings| - 1], range)
    ensures v.AllMatches(table, matcher, strings, options, range) == []
  {
    AllMatchesAfterLastFailure(v, table, matcher, strings, options, range);
    assert LastFailureAt(MinimumLength(table, v.matchingPattern), strings, range, |strings| - 1);
  }

  /** With the range `(0, 1)` and a minimum length above 1, nothing matches:
      `firstMatch` is `nil`, `matches` is false and `allMatches` is empty. */
  lemma SingleCharacterRangeNeverMatches(v: VSRegex, table: RegexTable, matcher: Matcher, s: string,
                                         strings: seq<string>, options: MatchingOptions)
    requires HasMinimumLength(table, v.matchingPattern) && MinimumLength(table, v.matchingPattern) > 1
    ensures v.FirstMatch(table, matcher, s, options, Some(NSRange(0, 1))) == None
    ensures !v.Matches(table, matcher, s, options, Some(NSRange(0, 1)))
    ensures v.AllMatches(table, matcher, strings, options, Some(NSRange(0, 1))) == []
  {
    if strings != [] {
      LastFailureEmptiesBatch(v, table, matcher, strings, options, Some(NSRange(0, 1)));
    }
  }

  /** A subject failing a guard is answered without the engine: any two
      engines give the same answers, `nil` and `false`. */
  lemma GuardFailureIgnoresEngine(v: VSRegex, table: RegexTable, matcher: Matcher, other: Matcher, s: string,
                                  options: MatchingOptions, range: Option<NSRange>)
    requires HasMinimumLength(table, v.matchingPattern)
    requires |s| < MinimumLength(table, v.matchingPattern)
             || (range.Some? && range.value.length - range.value.location < MinimumLength(table, v.matchingPattern))
    ensures v.FirstMatch(table, matcher, s, options, range) == v.FirstMatch(table, other, s, options, range) == None
    ensures v.Matches(table, matcher, s, options, range) == v.Matches(table, other, s, options, range) == false
  {
  }

  /** Without a range the whole subject is searched, so only the first
      guard can fail, and the answer is that of the explicit range
      `(0, s.count)`. */
  lemma DefaultRangeIsWholeSubject(v: VSRegex, table: RegexTable, matcher: Matcher, s: string,
                                   options: MatchingOptions)
    requires HasMinimumLength(table, v.matchingPattern)
    ensures PassesGuards(MinimumLength(table, v.matchingPattern), s, None) <==> |s| >= MinimumLength(table, v.matchingPattern)
    ensures v.FirstMatch(table, matcher, s, options, None) == v.FirstMatch(table, matcher, s, options, Some(NSRange(0, |s|)))
    ensures v.Matches(table, matcher, s, options, None) == v.Matches(table, matcher, s, options, Some(NSRange(0, |s|)))
  {
  }

  /** The range guard subtracts the location from the length: a range that
      starts after the subject's beginning and holds exactly the minimum
      number of characters is refused, although it lies within the subject. */
  lemma OffsetRangeRejected(v: VSRegex, table: RegexTable, matcher: Matcher, s: string,
                            options: MatchingOptions, location: int)
    requires HasMinimumLength(table, v.matchingPattern)
    requires 0 <= MinimumLength(table, v.matchingPattern)
    requires 0 < location && location + MinimumLength(table, v.matchingPattern) <= |s|
    ensures Substring(s, NSRange(location, MinimumLength(table, v.matchingPattern))).Some?
    ensures v.FirstMatch(table, matcher, s, options, Some(NSRange(location, MinimumLength(table, v.matchingPattern)))) == None
  {
  }

  /** `firstMatch` and `allMatches` agree on one subject: a first match is the
      first of all matches, and no matches at all means no first match. */
  lemma FirstMatchLeadsAllMatches(v: VSRegex, table: RegexTable, matcher: Matcher, s: string,
                                  options: MatchingOptions, range: Option<NSRange>)
    requires HasMinimumLength(table, v.matchingPattern)
    ensures v.FirstMatch(table, matcher, s, options, range).Some? ==>
              var all := v.AllMatches(table, matcher, [s], options, range);
              all != [] && all[0] == v.FirstMatch(table, matcher, s, options, range).value
    ensures v.AllMatches(table, matcher, [s], options, range) == [] ==> v.FirstMatch(table, matcher, s, options, range) == None
  {
    var minimumLength := MinimumLength(table, v.matchingPattern);
    var all := v.AllMatches(table, matcher, [s], options, range);
    var acc := v.Accumulate(table, matcher, options, range, [], s);
    assert [s][0] == s && [s][1..] == [];
    assert v.Reduce(table, matcher, options, range, [], [s]) == v.Reduce(table, matcher, options, range, acc, []);
    assert all == acc;
    if PassesGuards(minimumLength, s, range) {
      assert all == v.SubjectTexts(matcher, options, range, s);
    }
  }

  /** `matches` answers whether `firstMatch` finds something. */
  lemma MatchesIffFirstMatchFound(v: VSRegex, table: RegexTable, matcher: Matcher, s: string,
                                  options: MatchingOptions, range: Option<NSRange>)
    requires HasMinimumLength(table, v.matchingPattern)
    ensures v.Matches(table, matcher, s, options, range) <==> v.FirstMatch(table, matcher, s, options, range).Some?
  {
  }

  /** `VSRegex.is`, `VSRegex.matches` and `matches` on a fresh `VSRegex`
      give the same answer. */
  lemma StaticWrappersAgree(table: RegexTable, compiles: Compiler, matcher: Matcher, s: string, pattern: Pattern,
                            regexOptions: RegexOptions, matchingOptions: MatchingOptions, range: Option<NSRange>)
    requires HasPattern(table, pattern) && HasMinimumLength(table, pattern)
    requires compiles(PatternText(table, pattern), regexOptions)
    ensures Is(table, compiles, matcher, s, pattern, regexOptions, matchingOptions, range)
            == StaticMatches(table, compiles, matcher, s, pattern, regexOptions, matchingOptions, range)
            == Create(table, compiles, pattern, regexOptions).Matches(table, matcher, s, matchingOptions, range)
  {
  }

  /** `==` is an equivalence relation. */
  lemma EqualsIsEquivalence(table: RegexTable, a: VSRegex, b: VSRegex, c: VSRegex)
    requires HasPattern(table, a.matchingPattern) && HasPattern(table, b.matchingPattern)
    requires HasPattern(table, c.matchingPattern)
    ensures Equals(table, a, a)
    ensures Equals(table, a, b) ==> Equals(table, b, a)
    ensures Equals(table, a, b) && Equals(table, b, c) ==> Equals(table, a, c)
  {
  }

  /** Hashing combines exactly the fields `==` compares: two values are equal
      if and only if they feed the hasher the same inputs. */
  lemma EqualIffSameHashInputs(table: RegexTable, a: VSRegex, b: VSRegex, hasher: seq<HashInput>)
    requires HasPattern(table, a.matchingPattern) && HasPattern(table, b.matchingPattern)
    ensures Equals(table, a, b) <==> a.HashInto(table, hasher) == b.HashInto(table, hasher)
  {
    if a.HashInto(table, hasher) == b.HashInto(table, hasher) {
      assert a.HashInto(table, hasher)[|hasher|] == b.HashInto(table, hasher)[|hasher|];
      assert a.HashInto(table, hasher)[|hasher| + 1] == b.HashInto(table, hasher)[|hasher| + 1];
    }
  }

  /** Two values made from different categories with the same pattern text
      and options are equal. */
  lemma EqualityIgnoresCategory(table: RegexTable, compiles: Compiler, p: Pattern, q: Pattern, options: RegexOptions)
    requires HasPattern(table, p) && HasPattern(table, q)
    requires PatternText(table, p) == PatternText(table, q)
    requires compiles(PatternText(table, p), options)
    ensures Equals(table, Create(table, compiles, p, options), Create(table, compiles, q, options))
  {
  }

  /** The same category compiled with different options gives values that
      are not equal: the compiled expressions differ. */
  lemma EqualityComparesOptions(table: RegexTable, compiles: Compiler, p: Pattern, o1: RegexOptions, o2: RegexOptions)
    requires HasPattern(table, p)
    requires compiles(PatternText(table, p), o1) && compiles(PatternText(table, p), o2)
    ensures Equals(table, Create(table, compiles, p, o1), Create(table, compiles, p, o2)) <==> o1 == o2
  {
  }
}
