/** The fixtures the test suite checks the patterns against: the numbers
    each category must accept and the reserved numbers every category must
    reject, as read from the downloaded `test_data.json`. */
module TestData {
  import opened Wrappers
  import opened Patterns
  import opened Decimal

  /** A family's fixtures: sub-key, then the numbers under it. */
  type FamilyFixtures = map<string, seq<Int64>>

  /** The contents of `test_data.json`: family, then sub-key, then numbers. */
  type Fixtures = map<string, FamilyFixtures>

  /** The order in which a dictionary's `values` are visited. Swift fixes
      none, so the model takes it as a parameter. */
  type KeyOrder = FamilyFixtures -> seq<string>

  const ReservedFamily := "reserved"
  const ReservedIoTKey := "iot"
  const ReservedCarrierKey := "carrier"

  predicate Distinct(ks: seq<string>) {
    forall i, j :: 0 <= i < j < |ks| ==> ks[i] != ks[j]
  }

  /** `ks` lists every key of `m` exactly once. */
  predicate IsKeyOrder(m: FamilyFixtures, ks: seq<string>) {
    Distinct(ks) && (forall k :: k in m ==> k in ks) && (forall k :: k in ks ==> k in m)
  }

  /** `m.values.reduce([], +)` when the values are visited in the order `ks`:
      a left fold appending each key's numbers. */
  function Concat(m: FamilyFixtures, ks: seq<string>): seq<Int64>
    requires forall k :: k in ks ==> k in m
  {
    if ks == [] then [] else Concat(m, ks[..|ks| - 1]) + m[ks[|ks| - 1]]
  }

  /** What `testNumbers` force-unwraps for a family's `.all` case. */
  predicate HasFamily(data: Fixtures, order: KeyOrder, family: string) {
    family in data && IsKeyOrder(data[family], order(data[family]))
  }

  /** What `testNumbers` force-unwraps for a family's leaf case. */
  predicate HasLeaf(data: Fixtures, family: string, key: string) {
    family in data && key in data[family]
  }

  /** `data[family]!.values.reduce([], +)`. */
  function FamilyNumbers(data: Fixtures, order: KeyOrder, family: string): seq<Int64>
    requires HasFamily(data, order, family)
  {
    Concat(data[family], order(data[family]))
  }

  /** `data[family]![key]!`. */
  function LeafNumbers(data: Fixtures, family: string, key: string): seq<Int64>
    requires HasLeaf(data, family, key)
  {
    data[family][key]
  }

  predicate HasCarrierNumbers(data: Fixtures, order: KeyOrder, c: CarrierCase) {
    if c == CarrierCase.All then HasFamily(data, order, CarrierFamily)
    else HasLeaf(data, CarrierFamily, CarrierKey(c))
  }

  predicate HasOperatorNumbers(data: Fixtures, order: KeyOrder, family: string, o: OperatorCase) {
    if o == OperatorCase.All then HasFamily(data, order, family)
    else HasLeaf(data, family, OperatorKey(o))
  }

  /** The fixtures hold what `p.testNumbers` force-unwraps. */
  predicate HasTestNumbers(data: Fixtures, order: KeyOrder, p: Pattern) {
    match p
    case All =>
      && HasFamily(data, order, CarrierFamily) && HasFamily(data, order, MvnoFamily)
      && HasFamily(data, order, IoTFamily) && HasFamily(data, order, DataOnlyFamily)
    case Sms =>
      HasFamily(data, order, CarrierFamily) && HasFamily(data, order, MvnoFamily)
      && HasFamily(data, order, DataOnlyFamily)
    case Carrier(c) => HasCarrierNumbers(data, order, c)
    case Mvno(o) => HasOperatorNumbers(data, order, MvnoFamily, o)
    case IoT(o) => HasOperatorNumbers(data, order, IoTFamily, o)
    case DataOnly(o) => HasOperatorNumbers(data, order, DataOnlyFamily, o)
  }

  /** `Carrier.testNumbers`. */
  function CarrierTestNumbers(data: Fixtures, order: KeyOrder, c: CarrierCase): seq<Int64>
    requires HasCarrierNumbers(data, order, c)
  {
    if c == CarrierCase.All then FamilyNumbers(data, order, CarrierFamily)
    else LeafNumbers(data, CarrierFamily, CarrierKey(c))
  }

  /** `MVNO.testNumbers`, `IoT.testNumbers` and `DataOnly.testNumbers`, for
      the given family. */
  function OperatorTestNumbers(data: Fixtures, order: KeyOrder, family: string, o: OperatorCase): seq<Int64>
    requires HasOperatorNumbers(data, order, family, o)
  {
    if o == OperatorCase.All then FamilyNumbers(data, order, family)
    else LeafNumbers(data, family, OperatorKey(o))
  }

  /** `VSRegexPattern.testNumbers`: `all` joins the `.all` numbers of the
      four families, `sms` those of every family but IoT. */
  function TestNumbers(data: Fixtures, order: KeyOrder, p: Pattern): seq<Int64>
    requires HasTestNumbers(data, order, p)
  {
    match p
    case All =>
      FamilyNumbers(data, order, CarrierFamily) + FamilyNumbers(data, order, MvnoFamily)
      + FamilyNumbers(data, order, IoTFamily) + FamilyNumbers(data, order, DataOnlyFamily)
    case Sms =>
      FamilyNumbers(data, order, CarrierFamily) + FamilyNumbers(data, order, MvnoFamily)
      + FamilyNumbers(data, order, DataOnlyFamily)
    case Carrier(c) => CarrierTestNumbers(data, order, c)
    case Mvno(o) => OperatorTestNumbers(data, order, MvnoFamily, o)
    case IoT(o) => OperatorTestNumbers(data, order, IoTFamily, o)
    case DataOnly(o) => OperatorTestNumbers(data, order, DataOnlyFamily, o)
  }

  /** `numbers.map { String($0) }`: one decimal rendering per number, in
      order, each of which `Int(_:)` reads back as that number. */
  function StringNumbers(numbers: seq<Int64>): (strings: seq<string>)
    ensures |strings| == |numbers|
    ensures forall i :: 0 <= i < |numbers| ==> ParseInt(strings[i]) == Some(numbers[i])
  {
    ParseDecimalStrings();
    seq(|numbers|, i requires 0 <= i < |numbers| => DecimalString(numbers[i]))
  }

  /** `testStringNumbers`. */
  function TestStringNumbers(data: Fixtures, order: KeyOrder, p: Pattern): seq<string>
    requires HasTestNumbers(data, order, p)
  {
    StringNumbers(TestNumbers(data, order, p))
  }

  predicate HasReserved(data: Fixtures) {
    HasLeaf(data, ReservedFamily, ReservedIoTKey) && HasLeaf(data, ReservedFamily, ReservedCarrierKey)
  }

  /** `reservedIoTNumbers`. */
  function ReservedIoTNumbers(data: Fixtures): (strings: seq<string>)
    requires HasLeaf(data, ReservedFamily, ReservedIoTKey)
    ensures |strings| == |data[ReservedFamily][ReservedIoTKey]|
    ensures forall i :: 0 <= i < |strings| ==> ParseInt(strings[i]) == Some(data[ReservedFamily][ReservedIoTKey][i])
  {
    StringNumbers(LeafNumbers(data, ReservedFamily, ReservedIoTKey))
  }

  /** `reservedCarrierNumbers`. */
  function ReservedCarrierNumbers(data: Fixtures): (strings: seq<string>)
    requires HasLeaf(data, ReservedFamily, ReservedCarrierKey)
    ensures |strings| == |data[ReservedFamily][ReservedCarrierKey]|
    ensures forall i :: 0 <= i < |strings| ==> ParseInt(strings[i]) == Some(data[ReservedFamily][ReservedCarrierKey][i])
  {
    StringNumbers(LeafNumbers(data, ReservedFamily, ReservedCarrierKey))
  }

  /** `reservedNumbers`: the IoT ones, then the carrier ones. */
  function ReservedNumbers(data: Fixtures): seq<string>
    requires HasReserved(data)
  {
    ReservedIoTNumbers(data) + ReservedCarrierNumbers(data)
  }

  // Properties of the folds over a dictionary's values.

  /** A number is in the fold exactly when it is under one of the visited keys. */
  lemma {:induction false} ConcatMembership(m: FamilyFixtures, ks: seq<string>, x: Int64)
    requires forall k :: k in ks ==> k in m
    ensures x in Concat(m, ks) <==> exists i :: 0 <= i < |ks| && x in m[ks[i]]
  {
    if ks != [] {
      var init := ks[..|ks| - 1];
      ConcatMembership(m, init, x);
      if x in Concat(m, init) {
        var i :| 0 <= i < |init| && x in m[init[i]];
        assert ks[i] == init[i];
      }
      if exists i :: 0 <= i < |ks| && x in m[ks[i]] {
        var i :| 0 <= i < |ks| && x in m[ks[i]];
        if i < |init| {
          assert init[i] == ks[i];
        }
      }
    }
  }

  /** The fold without the key at position `j`, plus that key's numbers. */
  lemma {:induction false} ConcatRemove(m: FamilyFixtures, ks: seq<string>, j: int)
    requires forall k :: k in ks ==> k in m
    requires 0 <= j < |ks|
    ensures multiset(Concat(m, ks)) == multiset(Concat(m, ks[..j] + ks[j + 1..])) + multiset(m[ks[j]])
    decreases |ks|
  {
    var n := |ks|;
    var init := ks[..n - 1];
    if j == n - 1 {
      assert ks[..j] + ks[j + 1..] == init;
    } else {
      ConcatRemove(m, init, j);
      var rest := ks[..j] + ks[j + 1..];
      var restInit := init[..j] + init[j + 1..];
      assert rest[..|rest| - 1] == restInit;
      assert rest[|rest| - 1] == ks[n - 1];
      assert Concat(m, ks) == Concat(m, init) + m[ks[n - 1]];
      assert Concat(m, rest) == Concat(m, restInit) + m[ks[n - 1]];
      assert init[j] == ks[j];
    }
  }

  /** Removing the key at position `j` of a list without repetitions
      removes exactly that key. */
  lemma RemoveAt(ks: seq<string>, j: int)
    requires Distinct(ks) && 0 <= j < |ks|
    ensures Distinct(ks[..j] + ks[j + 1..])
    ensures forall k :: k in ks[..j] + ks[j + 1..] <==> k in ks && k != ks[j]
  {
    var rest := ks[..j] + ks[j + 1..];
    forall i | 0 <= i < |rest| ensures rest[i] == ks[if i < j then i else i + 1] {
    }
    forall k | k in ks && k != ks[j] ensures k in rest {
      var i :| 0 <= i < |ks| && ks[i] == k;
      assert rest[if i < j then i else i - 1] == k;
    }
  }

  /** A list in which no key occurs is empty. */
  lemma NoKeysNoOrder(ks: seq<string>)
    ensures (forall k :: k !in ks) ==> ks == []
  {
    if ks != [] {
      assert ks[0] in ks;
    }
  }

  /** Dropping the last key of one order and the same key from another
      leaves two orders of the same keys. */
  lemma DropMatchingKey(a: seq<string>, b: seq<string>, j: int, a': seq<string>, b': seq<string>)
    requires Distinct(a) && Distinct(b) && (forall k :: k in a <==> k in b)
    requires a != [] && 0 <= j < |b| && b[j] == a[|a| - 1]
    requires a' == a[..|a| - 1] && b' == b[..j] + b[j + 1..]
    ensures Distinct(a') && Distinct(b')
    ensures forall k :: k in a' <==> k in b'
  {
    var n := |a|;
    RemoveAt(a, n - 1);
    RemoveAt(b, j);
    assert a[..n - 1] + a[n..] == a';
    forall k ensures k in a' <==> k in b' {
      assert k in a' <==> k in a && k != a[n - 1];
    }
  }

  /** The fold's numbers, counted with repetition, do not depend on the
      order in which the keys are visited. */
  lemma {:induction false} ConcatOrderIrrelevant(m: FamilyFixtures, a: seq<string>, b: seq<string>)
    requires Distinct(a) && Distinct(b)
    requires forall k :: k in a <==> k in b
    requires forall k :: k in a ==> k in m
    ensures multiset(Concat(m, a)) == multiset(Concat(m, b))
    decreases |a|
  {
    if a == [] {
      NoKeysNoOrder(b);
    } else {
      var n := |a|;
      var last := a[n - 1];
      assert last in b;
      var j :| 0 <= j < |b| && b[j] == last;
      var a', b' := a[..n - 1], b[..j] + b[j + 1..];
      DropMatchingKey(a, b, j, a', b');
      ConcatOrderIrrelevant(m, a', b');
      ConcatRemove(m, b, j);
    }
  }

  /** A family's `.all` numbers are exactly the numbers of its leaves. */
  lemma FamilyNumbersMembership(data: Fixtures, order: KeyOrder, family: string, x: Int64)
    requires HasFamily(data, order, family)
    ensures x in FamilyNumbers(data, order, family) <==> exists k :: k in data[family] && x in data[family][k]
  {
    var m, ks := data[family], order(data[family]);
    ConcatMembership(m, ks, x);
    if exists k :: k in m && x in m[k] {
      var k :| k in m && x in m[k];
      var i :| 0 <= i < |ks| && ks[i] == k;
    }
  }

  /** Any two visiting orders give a family the same `.all` numbers, counted
      with repetition. */
  lemma FamilyNumbersOrderIrrelevant(data: Fixtures, order: KeyOrder, other: KeyOrder, family: string)
    requires HasFamily(data, order, family) && HasFamily(data, other, family)
    ensures multiset(FamilyNumbers(data, order, family)) == multiset(FamilyNumbers(data, other, family))
  {
    ConcatOrderIrrelevant(data[family], order(data[family]), other(data[family]));
  }

  // Properties of `testNumbers` and of the reserved numbers.

  /** `all` checks the `sms` numbers and the IoT numbers, and nothing else. */
  lemma AllIsSmsAndIoT(data: Fixtures, order: KeyOrder)
    requires HasTestNumbers(data, order, Pattern.All)
    ensures HasTestNumbers(data, order, Sms) && HasTestNumbers(data, order, IoT(OperatorCase.All))
    ensures multiset(TestNumbers(data, order, Pattern.All))
            == multiset(TestNumbers(data, order, Sms)) + multiset(TestNumbers(data, order, IoT(OperatorCase.All)))
  {
  }

  /** Every number of a leaf category is also checked by its family's `.all`
      case and by `all`, and by `sms` unless the family is IoT. */
  lemma LeafNumbersIncluded(data: Fixtures, order: KeyOrder, p: Pattern, x: Int64)
    requires HasTestNumbers(data, order, Pattern.All)
    requires !(p.All? || p.Sms?) && HasTestNumbers(data, order, p)
    requires x in TestNumbers(data, order, p)
    ensures x in FamilyNumbers(data, order, Family(p))
    ensures x in TestNumbers(data, order, Pattern.All)
    ensures !p.IoT? ==> x in TestNumbers(data, order, Sms)
  {
    var family := Family(p);
    FamilyNumbersMembership(data, order, family, x);
    match p
    case Carrier(c) =>
      if c != CarrierCase.All {
        assert x in data[family][CarrierKey(c)];
      }
    case Mvno(o) =>
      if o != OperatorCase.All {
        assert x in data[family][OperatorKey(o)];
      }
    case IoT(o) =>
      if o != OperatorCase.All {
        assert x in data[family][OperatorKey(o)];
      }
    case DataOnly(o) =>
      if o != OperatorCase.All {
        assert x in data[family][OperatorKey(o)];
      }
  }

  /** Rendering distributes over concatenation. */
  lemma StringNumbersAppend(a: seq<Int64>, b: seq<Int64>)
    ensures StringNumbers(a + b) == StringNumbers(a) + StringNumbers(b)
  {
    var r, s := StringNumbers(a + b), StringNumbers(a) + StringNumbers(b);
    forall i | 0 <= i < |r| ensures r[i] == s[i] {
      if i < |a| {
        assert (a + b)[i] == a[i];
      } else {
        assert (a + b)[i] == b[i - |a|];
      }
    }
  }

  /** `reservedNumbers` reads back as the reserved IoT numbers followed by
      the reserved carrier numbers. */
  lemma ReservedNumbersReadBack(data: Fixtures)
    requires HasReserved(data)
    ensures var numbers := data[ReservedFamily][ReservedIoTKey] + data[ReservedFamily][ReservedCarrierKey];
            |ReservedNumbers(data)| == |numbers|
            && forall i :: 0 <= i < |numbers| ==> ParseInt(ReservedNumbers(data)[i]) == Some(numbers[i])
  {
    StringNumbersAppend(data[ReservedFamily][ReservedIoTKey], data[ReservedFamily][ReservedCarrierKey]);
  }

  /** `all` and `sms` are built from the families' `.all` categories: all
      four for `all`, every one but IoT for `sms`, in that order. */
  lemma TopLevelComposition(data: Fixtures, order: KeyOrder)
    requires HasTestNumbers(data, order, Pattern.All)
    ensures HasTestNumbers(data, order, Sms)
    ensures TestNumbers(data, order, Pattern.All)
            == TestNumbers(data, order, Carrier(CarrierCase.All)) + TestNumbers(data, order, Mvno(OperatorCase.All))
               + TestNumbers(data, order, IoT(OperatorCase.All)) + TestNumbers(data, order, DataOnly(OperatorCase.All))
    ensures TestNumbers(data, order, Sms)
            == TestNumbers(data, order, Carrier(CarrierCase.All)) + TestNumbers(data, order, Mvno(OperatorCase.All))
               + TestNumbers(data, order, DataOnly(OperatorCase.All))
  {
  }

  /** A leaf category other than a family's `.all` checks exactly the numbers
      under its own sub-key, the same sub-key under which `regex.json` holds
      its pattern. */
  lemma LeafReadsOwnKey(data: Fixtures, order: KeyOrder, p: Pattern)
    requires !(p.All? || p.Sms?) && p != Carrier(CarrierCase.All)
    requires p != Mvno(OperatorCase.All) && p != IoT(OperatorCase.All) && p != DataOnly(OperatorCase.All)
    requires HasTestNumbers(data, order, p)
    ensures HasLeaf(data, Family(p), PatternKey(p))
    ensures TestNumbers(data, order, p) == data[Family(p)][PatternKey(p)]
  {
  }

  /** `testStringNumbers` keeps the length and the order of `testNumbers`:
      element `i` is the decimal rendering of number `i` and reads back as it. */
  lemma TestStringNumbersRendering(data: Fixtures, order: KeyOrder, p: Pattern)
    requires HasTestNumbers(data, order, p)
    ensures var numbers, strings := TestNumbers(data, order, p), TestStringNumbers(data, order, p);
            |strings| == |numbers|
            && forall i :: 0 <= i < |numbers| ==>
                 strings[i] == DecimalString(numbers[i]) && ParseInt(strings[i]) == Some(numbers[i])
  {
  }
}
