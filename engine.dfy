/** `VSRegex`: a category compiled into a regular expression, the three
    queries it answers (first match, all matches, does it match), the static
    one-shot wrappers, and its equality and hashing.

    The regular-expression engine itself is not modelled: a `Matcher` stands
    for `NSRegularExpression.matches(in:options:range:)`, and `firstMatch` of
    the engine is the first of those matches. Whether a pattern compiles is
    a `Compiler`. */
module Engine {
  import opened Wrappers
  import opened Patterns

  /** `NSRange`: a location and a length, both `Int`. */
  datatype NSRange = NSRange(location: int, length: int)

  /** `NSRegularExpression.Options`, passed through as its raw bit mask. */
  datatype RegexOptions = RegexOptions(rawValue: nat)

  /** `NSRegularExpression.MatchingOptions`, passed through as its raw bit mask. */
  datatype MatchingOptions = MatchingOptions(rawValue: nat)

  /** The empty option sets, `[]`. */
  const NoRegexOptions := RegexOptions(0)
  const NoMatchingOptions := MatchingOptions(0)

  /** A compiled `NSRegularExpression`, known by the pattern text and the
      options it was created with; its `==` compares exactly these. */
  datatype Expression = Expression(pattern: string, options: RegexOptions)

  /** `expression.matches(in: subject, options: options, range: range)`: the
      ranges of the matches, in order. */
  type Matcher = (Expression, string, MatchingOptions, NSRange) -> seq<NSRange>

  /** Whether `NSRegularExpression(pattern:options:)` succeeds. */
  type Compiler = (string, RegexOptions) -> bool

  /** What the throwing initialiser throws. */
  datatype CompileError = InvalidPattern(pattern: string, options: RegexOptions)

  /** `range ?? NSRange(location: 0, length: string.count)`. */
  function SearchRange(s: string, range: Option<NSRange>): NSRange {
    match range
    case Some(given) => given
    case None => NSRange(0, |s|)
  }

  /** `Range(nsRange, in: s).map { String(s[$0]) }`: the text under the range,
      or `None` when the range does not lie within the subject. */
  function Substring(s: string, r: NSRange): (m: Option<string>)
    ensures m.Some? <==> 0 <= r.location && 0 <= r.length && r.location + r.length <= |s|
    ensures m.Some? ==> |m.value| == r.length
    ensures m.Some? ==> forall i :: 0 <= i < r.length ==> m.value[i] == s[r.location + i]
  {
    if 0 <= r.location && 0 <= r.length && r.location + r.length <= |s| then
      Some(s[r.location..r.location + r.length])
    else
      None
  }

  /** The text of the engine's first match, if it has one. */
  function FirstText(s: string, ranges: seq<NSRange>): (r: Option<string>)
    ensures r.Some? ==> Texts(s, ranges) != [] && r.value == Texts(s, ranges)[0]
  {
    if ranges == [] then None else Substring(s, ranges[0])
  }

  /** `ranges.compactMap { Range($0, in: s).map { String(s[$0]) } }`: the texts
      of the ranges that lie within the subject, in order. */
  function Texts(s: string, ranges: seq<NSRange>): (texts: seq<string>)
    ensures |texts| <= |ranges|
    ensures forall t :: t in texts ==> exists r :: r in ranges && Substring(s, r) == Some(t)
    ensures (forall r :: r in ranges ==> Substring(s, r).Some?) ==> |texts| == |ranges|
    ensures ranges != [] && Substring(s, ranges[0]).Some? ==> texts != [] && Some(texts[0]) == Substring(s, ranges[0])
    ensures (forall r :: r in ranges ==> Substring(s, r).Some?) ==>
              forall i :: 0 <= i < |ranges| ==> Some(texts[i]) == Substring(s, ranges[i])
  {
    if ranges == [] then []
    else
      match Substring(s, ranges[0])
      case Some(t) => [t] + Texts(s, ranges[1..])
      case None => Texts(s, ranges[1..])
  }

  /** The two length guards of `firstMatch` and of the `allMatches` closure:
      the subject, and the searched range's `length - location`, are both at
      least the minimum length. */
  predicate PassesGuards(minimumLength: int, s: string, range: Option<NSRange>) {
    var searched := SearchRange(s, range);
    |s| >= minimumLength && searched.length - searched.location >= minimumLength
  }

  datatype VSRegex = VSRegex(matchingPattern: Pattern, regularExpression: Expression) {

    /** `firstMatch(_:options:range:)`. */
    function FirstMatch(table: RegexTable, matcher: Matcher, s: string,
                        options: MatchingOptions := NoMatchingOptions,
                        range: Option<NSRange> := None): (r: Option<string>)
      requires HasMinimumLength(table, matchingPattern)
      ensures !PassesGuards(MinimumLength(table, matchingPattern), s, range) ==> r == None
      ensures PassesGuards(MinimumLength(table, matchingPattern), s, range) ==>
        r == FirstText(s, matcher(regularExpression, s, options, SearchRange(s, range)))
    {
      var minimumLength := MinimumLength(table, matchingPattern);
      if |s| < minimumLength then None
      else
        var searched := SearchRange(s, range);
        if searched.length - searched.location < minimumLength then None
        else FirstText(s, matcher(regularExpression, s, options, searched))
    }

    /** The closure `allMatches` gives to `reduce`: a subject failing a guard
        replaces everything accumulated so far with `[]`. */
    function Accumulate(table: RegexTable, matcher: Matcher, options: MatchingOptions,
                        range: Option<NSRange>, results: seq<string>, s: string): (r: seq<string>)
      requires HasMinimumLength(table, matchingPattern)
      ensures !PassesGuards(MinimumLength(table, matchingPattern), s, range) ==> r == []
      ensures PassesGuards(MinimumLength(table, matchingPattern), s, range) ==>
        r == results + Texts(s, matcher(regularExpression, s, options, SearchRange(s, range)))
    {
      var minimumLength := MinimumLength(table, matchingPattern);
      if |s| < minimumLength then []
      else
        var searched := SearchRange(s, range);
        if searched.length - searched.location < minimumLength then []
        else results + Texts(s, matcher(regularExpression, s, options, searched))
    }

    /** `strings.reduce(results, closure)`, a left fold. */
    function Reduce(table: RegexTable, matcher: Matcher, options: MatchingOptions,
                    range: Option<NSRange>, results: seq<string>, strings: seq<string>): seq<string>
      requires HasMinimumLength(table, matchingPattern)
      decreases |strings|
    {
      if strings == [] then results
      else Reduce(table, matcher, options, range,
                  Accumulate(table, matcher, options, range, results, strings[0]), strings[1..])
    }

    /** `allMatches(_:options:range:)`. */
    function AllMatches(table: RegexTable, matcher: Matcher, strings: seq<string>,
                        options: MatchingOptions := NoMatchingOptions,
                        range: Option<NSRange> := None): (r: seq<string>)
      requires HasMinimumLength(table, matchingPattern)
      ensures strings == [] ==> r == []
    {
      if |strings| == 0 then [] else Reduce(table, matcher, options, range, [], strings)
    }

    /** `matches(_:options:range:)`. */
    function Matches(table: RegexTable, matcher: Matcher, s: string,
                     options: MatchingOptions := NoMatchingOptions,
                     range: Option<NSRange> := None): (r: bool)
      requires HasMinimumLength(table, matchingPattern)
      ensures r <==> PassesGuards(MinimumLength(table, matchingPattern), s, range)
                     && FirstText(s, matcher(regularExpression, s, options, SearchRange(s, range))).Some?
    {
      FirstMatch(table, matcher, s, options, range) != None
    }

    /** The texts of the matches in one subject, whatever the guards say. */
    function SubjectTexts(matcher: Matcher, options: MatchingOptions, range: Option<NSRange>, s: string): seq<string> {
      Texts(s, matcher(regularExpression, s, options, SearchRange(s, range)))
    }

    /** The texts of the matches in every subject, concatenated in input order. */
    function ConcatTexts(matcher: Matcher, options: MatchingOptions, range: Option<NSRange>,
                         strings: seq<string>): seq<string>
    {
      if strings == [] then []
      else SubjectTexts(matcher, options, range, strings[0]) + ConcatTexts(matcher, options, range, strings[1..])
    }

    /** `hash(into:)`: the values combined into the hasher, in order. */
    function HashInto(table: RegexTable, hasher: seq<HashInput>): (r: seq<HashInput>)
      requires HasPattern(table, matchingPattern)
      ensures |r| == |hasher| + 2 && r[..|hasher|] == hasher
    {
      hasher + [PatternTextInput(PatternText(table, matchingPattern)), ExpressionInput(regularExpression)]
    }
  }

  /** A value fed to a `Hasher`. */
  datatype HashInput = PatternTextInput(text: string) | ExpressionInput(expression: Expression)

  /** `VSRegex(pattern:options:)`, which throws when the pattern text does
      not compile. */
  function Compile(table: RegexTable, compiles: Compiler, pattern: Pattern,
                   options: RegexOptions := NoRegexOptions): (r: Result<VSRegex, CompileError>)
    requires HasPattern(table, pattern)
    ensures r.Success? <==> compiles(PatternText(table, pattern), options)
    ensures r.Success? ==> r.value.matchingPattern == pattern
                           && r.value.regularExpression == Expression(table[Family(pattern)][PatternKey(pattern)], options)
    ensures r.Failure? ==> r.error == InvalidPattern(table[Family(pattern)][PatternKey(pattern)], options)
  {
    var text := PatternText(table, pattern);
    if compiles(text, options) then Success(VSRegex(pattern, Expression(text, options)))
    else Failure(InvalidPattern(text, options))
  }

  /** `VSRegex(_:options:)`, which stops with a precondition failure when the
      pattern text does not compile; it builds what `Compile` returns. */
  function Create(table: RegexTable, compiles: Compiler, pattern: Pattern := Pattern.All,
                  options: RegexOptions := NoRegexOptions): (r: VSRegex)
    requires HasPattern(table, pattern)
    requires compiles(PatternText(table, pattern), options)
    ensures Compile(table, compiles, pattern, options) == Success(r)
  {
    VSRegex(pattern, Expression(PatternText(table, pattern), options))
  }

  /** `VSRegex.matches(_:in:regularExpressionOptions:matchingOptions:range:)`. */
  function StaticMatches(table: RegexTable, compiles: Compiler, matcher: Matcher, s: string,
                         pattern: Pattern := Pattern.All,
                         regexOptions: RegexOptions := NoRegexOptions,
                         matchingOptions: MatchingOptions := NoMatchingOptions,
                         range: Option<NSRange> := None): (r: bool)
    requires HasPattern(table, pattern) && HasMinimumLength(table, pattern)
    requires compiles(PatternText(table, pattern), regexOptions)
    ensures r <==> PassesGuards(MinimumLength(table, pattern), s, range)
                   && FirstText(s, matcher(Expression(PatternText(table, pattern), regexOptions), s,
                                           matchingOptions, SearchRange(s, range))).Some?
  {
    Create(table, compiles, pattern, regexOptions).Matches(table, matcher, s, matchingOptions, range)
  }

  /** `VSRegex.is(_:matches:regularExpressionOptions:matchingOptions:range:)`. */
  function Is(table: RegexTable, compiles: Compiler, matcher: Matcher, s: string, pattern: Pattern,
              regexOptions: RegexOptions := NoRegexOptions,
              matchingOptions: MatchingOptions := NoMatchingOptions,
              range: Option<NSRange> := None): (r: bool)
    requires HasPattern(table, pattern) && HasMinimumLength(table, pattern)
    requires compiles(PatternText(table, pattern), regexOptions)
    ensures r <==> PassesGuards(MinimumLength(table, pattern), s, range)
                   && FirstText(s, matcher(Expression(PatternText(table, pattern), regexOptions), s,
                                           matchingOptions, SearchRange(s, range))).Some?
  {
    StaticMatches(table, compiles, matcher, s, pattern, regexOptions, matchingOptions, range)
  }

  /** `==`: equal pattern texts and equal compiled expressions. */
  function Equals(table: RegexTable, lhs: VSRegex, rhs: VSRegex): bool
    requires HasPattern(table, lhs.matchingPattern) && HasPattern(table, rhs.matchingPattern)
  {
    PatternText(table, lhs.matchingPattern) == PatternText(table, rhs.matchingPattern)
      && lhs.regularExpression == rhs.regularExpression
  }
}
