/** The taxonomy of number categories (`VSRegexPattern` and its sub-enums)
    and how each category finds its pattern text and its minimum length in
    the table loaded from `regex.json`. */
module Patterns {
  import opened Wrappers
  import Decimal

  /** `VSRegexPattern.Carrier`. */
  datatype CarrierCase = All | ChinaMobile | ChinaUnicom | ChinaTelecom | Inmarsat | Miit

  /** `VSRegexPattern.MVNO`, `VSRegexPattern.IoT` and `VSRegexPattern.DataOnly`,
      which have the same four cases; the wrapping `Pattern` constructor fixes
      which of the three is meant. */
  datatype OperatorCase = All | ChinaMobile | ChinaUnicom | ChinaTelecom

  /** `VSRegexPattern`. */
  datatype Pattern =
    | All
    | Sms
    | Carrier(carrier: CarrierCase)
    | Mvno(mvno: OperatorCase)
    | IoT(iot: OperatorCase)
    | DataOnly(dataOnly: OperatorCase)

  /** The contents of `regex.json`: family name, then sub-key, then text. */
  type RegexTable = map<string, map<string, string>>

  const CarrierFamily := "carrier"
  const MvnoFamily := "mvno"
  const IoTFamily := "iot"
  const DataOnlyFamily := "data_plan_only"
  const MiscFamily := "misc"
  /** The one minimum-length entry shared by every leaf of a family. */
  const FamilyMinimumLengthKey := "min_length"

  /** The sub-key a carrier case reads. */
  function CarrierKey(c: CarrierCase): string {
    match c
    case All => "all"
    case ChinaMobile => "china_mobile"
    case ChinaUnicom => "china_unicom"
    case ChinaTelecom => "china_telecom"
    case Inmarsat => "inmarsat"
    case Miit => "miit"
  }

  /** The sub-key an MVNO, IoT or data-only case reads. */
  function OperatorKey(o: OperatorCase): string {
    match o
    case All => "all"
    case ChinaMobile => "china_mobile"
    case ChinaUnicom => "china_unicom"
    case ChinaTelecom => "china_telecom"
  }

  /** The family whose entries a category reads. */
  function Family(p: Pattern): string {
    match p
    case All => MiscFamily
    case Sms => MiscFamily
    case Carrier(_) => CarrierFamily
    case Mvno(_) => MvnoFamily
    case IoT(_) => IoTFamily
    case DataOnly(_) => DataOnlyFamily
  }

  /** The sub-key of a category's pattern text within its family. */
  function PatternKey(p: Pattern): string {
    match p
    case All => "all"
    case Sms => "sms"
    case Carrier(c) => CarrierKey(c)
    case Mvno(o) => OperatorKey(o)
    case IoT(o) => OperatorKey(o)
    case DataOnly(o) => OperatorKey(o)
  }

  /** The sub-key of a category's minimum length within its family. */
  function MinimumLengthKey(p: Pattern): string {
    match p
    case All => "all_min_length"
    case Sms => "sms_min_length"
    case _ => FamilyMinimumLengthKey
  }

  predicate HasEntry(table: RegexTable, family: string, key: string) {
    family in table && key in table[family]
  }

  /** The entry holds a decimal integer that `Int(_:)` accepts. */
  predicate HasIntEntry(table: RegexTable, family: string, key: string) {
    HasEntry(table, family, key) && Decimal.ParseInt(table[family][key]).Some?
  }

  /** The table has what `p.pattern` force-unwraps. */
  predicate HasPattern(table: RegexTable, p: Pattern) {
    HasEntry(table, Family(p), PatternKey(p))
  }

  /** The table has what `p.minimumLength` force-unwraps. */
  predicate HasMinimumLength(table: RegexTable, p: Pattern) {
    HasIntEntry(table, Family(p), MinimumLengthKey(p))
  }

  /** `regexDict[family]![key]!`. */
  function Entry(table: RegexTable, family: string, key: string): string
    requires HasEntry(table, family, key)
  {
    table[family][key]
  }

  /** `Int(regexDict[family]![key]!)!`. */
  function IntEntry(table: RegexTable, family: string, key: string): int
    requires HasIntEntry(table, family, key)
  {
    Decimal.ParseInt(Entry(table, family, key)).value
  }

  /** `Carrier.pattern`. */
  function CarrierPattern(table: RegexTable, c: CarrierCase): string
    requires HasEntry(table, CarrierFamily, CarrierKey(c))
  {
    Entry(table, CarrierFamily, CarrierKey(c))
  }

  /** `MVNO.pattern`, `IoT.pattern` and `DataOnly.pattern`, for the given family. */
  function OperatorPattern(table: RegexTable, family: string, o: OperatorCase): string
    requires HasEntry(table, family, OperatorKey(o))
  {
    Entry(table, family, OperatorKey(o))
  }

  /** `minimumLength` of every case of a sub-enum. */
  function FamilyMinimumLength(table: RegexTable, family: string): int
    requires HasIntEntry(table, family, FamilyMinimumLengthKey)
  {
    IntEntry(table, family, FamilyMinimumLengthKey)
  }

  /** `VSRegexPattern.pattern`: the two top-level cases read `misc`, the
      wrapping cases ask their sub-enum. */
  function PatternText(table: RegexTable, p: Pattern): (text: string)
    requires HasPattern(table, p)
    ensures text == table[Family(p)][PatternKey(p)]
  {
    match p
    case All => Entry(table, MiscFamily, "all")
    case Sms => Entry(table, MiscFamily, "sms")
    case Carrier(c) => CarrierPattern(table, c)
    case Mvno(o) => OperatorPattern(table, MvnoFamily, o)
    case IoT(o) => OperatorPattern(table, IoTFamily, o)
    case DataOnly(o) => OperatorPattern(table, DataOnlyFamily, o)
  }

  /** `VSRegexPattern.minimumLength`: the parsed value of the category's
      minimum-length entry, which is the family's single `min_length` entry
      for every wrapped case. */
  function MinimumLength(table: RegexTable, p: Pattern): (n: int)
    requires HasMinimumLength(table, p)
    ensures Decimal.ParseInt(table[Family(p)][MinimumLengthKey(p)]) == Some(n)
    ensures !(p.All? || p.Sms?) ==> Decimal.ParseInt(table[Family(p)][FamilyMinimumLengthKey]) == Some(n)
  {
    match p
    case All => IntEntry(table, MiscFamily, "all_min_length")
    case Sms => IntEntry(table, MiscFamily, "sms_min_length")
    case Carrier(_) => FamilyMinimumLength(table, CarrierFamily)
    case Mvno(_) => FamilyMinimumLength(table, MvnoFamily)
    case IoT(_) => FamilyMinimumLength(table, IoTFamily)
    case DataOnly(_) => FamilyMinimumLength(table, DataOnlyFamily)
  }

  /** Every leaf of a family has the same minimum length. */
  lemma FamilySharesMinimumLength(table: RegexTable, p: Pattern, q: Pattern)
    requires Family(p) == Family(q) && !(p.All? || p.Sms?)
    requires HasMinimumLength(table, p)
    ensures HasMinimumLength(table, q) && MinimumLength(table, p) == MinimumLength(table, q)
  {
  }

  /** The two top-level categories read their own entries: their minimum
      lengths are independent table entries, not derived from the families. */
  lemma TopLevelEntriesAreOwn(table: RegexTable)
    ensures HasMinimumLength(table, Pattern.All) ==>
      Some(MinimumLength(table, Pattern.All)) == Decimal.ParseInt(table[MiscFamily]["all_min_length"])
    ensures HasMinimumLength(table, Sms) ==>
      Some(MinimumLength(table, Sms)) == Decimal.ParseInt(table[MiscFamily]["sms_min_length"])
    ensures HasPattern(table, Pattern.All) ==> PatternText(table, Pattern.All) == table[MiscFamily]["all"]
    ensures HasPattern(table, Sms) ==> PatternText(table, Sms) == table[MiscFamily]["sms"]
  {
  }

  /** No two categories read the same pattern entry, and a pattern entry is
      never a minimum-length entry. */
  lemma PatternEntriesDistinct(p: Pattern, q: Pattern)
    ensures Family(p) == Family(q) && PatternKey(p) == PatternKey(q) ==> p == q
    ensures PatternKey(p) != MinimumLengthKey(q)
  {
  }

  /** `Carrier.allCases`, in declaration order. */
  const CarrierCases: seq<CarrierCase> :=
    [CarrierCase.All, CarrierCase.ChinaMobile, CarrierCase.ChinaUnicom,
     CarrierCase.ChinaTelecom, CarrierCase.Inmarsat, CarrierCase.Miit]

  /** `MVNO.allCases`, `IoT.allCases` and `DataOnly.allCases`, in declaration order. */
  const OperatorCases: seq<OperatorCase> :=
    [OperatorCase.All, OperatorCase.ChinaMobile, OperatorCase.ChinaUnicom, OperatorCase.ChinaTelecom]

  /** `cs.map { .carrier($0) }`. */
  function WrapCarriers(cs: seq<CarrierCase>): (ps: seq<Pattern>)
    ensures |ps| == |cs| && forall i :: 0 <= i < |cs| ==> ps[i] == Carrier(cs[i])
  {
    seq(|cs|, i requires 0 <= i < |cs| => Carrier(cs[i]))
  }

  /** `os.map(wrap)` for one of the three operator families. */
  function WrapOperators(os: seq<OperatorCase>, wrap: OperatorCase -> Pattern): (ps: seq<Pattern>)
    ensures |ps| == |os| && forall i :: 0 <= i < |os| ==> ps[i] == wrap(os[i])
  {
    seq(|os|, i requires 0 <= i < |os| => wrap(os[i]))
  }

  /** `VSRegexPattern.allCases`. */
  function AllCases(): (cases: seq<Pattern>)
    ensures |cases| == 2 + |CarrierCases| + 3 * |OperatorCases|
    ensures cases[..2] == [Pattern.All, Sms]
  {
    [Pattern.All, Sms]
      + WrapCarriers(CarrierCases)
      + WrapOperators(OperatorCases, o => Mvno(o))
      + WrapOperators(OperatorCases, o => IoT(o))
      + WrapOperators(OperatorCases, o => DataOnly(o))
  }

  /** Where a category stands in `allCases`: the two top-level cases, then
      each family's cases in declaration order. */
  function Position(p: Pattern): (i: nat)
    ensures i < 20
  {
    match p
    case All => 0
    case Sms => 1
    case Carrier(c) => 2 + CarrierPosition(c)
    case Mvno(o) => 8 + OperatorPosition(o)
    case IoT(o) => 12 + OperatorPosition(o)
    case DataOnly(o) => 16 + OperatorPosition(o)
  }

  function CarrierPosition(c: CarrierCase): nat {
    match c
    case All => 0
    case ChinaMobile => 1
    case ChinaUnicom => 2
    case ChinaTelecom => 3
    case Inmarsat => 4
    case Miit => 5
  }

  function OperatorPosition(o: OperatorCase): nat {
    match o
    case All => 0
    case ChinaMobile => 1
    case ChinaUnicom => 2
    case ChinaTelecom => 3
  }

  /** The family cases listed in `allCases` stand at their `Position`. */
  lemma SubCasesInOrder()
    ensures forall c :: CarrierCases[CarrierPosition(c)] == c
    ensures forall o :: OperatorCases[OperatorPosition(o)] == o
    ensures forall k :: 0 <= k < |CarrierCases| ==> CarrierPosition(CarrierCases[k]) == k
    ensures forall k :: 0 <= k < |OperatorCases| ==> OperatorPosition(OperatorCases[k]) == k
  {
    forall k | 0 <= k < |CarrierCases| ensures CarrierPosition(CarrierCases[k]) == k {
      if k < 3 {} else {}
    }
  }

  /** Carrier case `c` stands at index `2 + CarrierPosition(c)` of `allCases`. */
  lemma CarrierAt(c: CarrierCase)
    ensures |AllCases()| == 20 && AllCases()[2 + CarrierPosition(c)] == Carrier(c)
  {
    SubCasesInOrder();
    var carriers := WrapCarriers(CarrierCases);
    assert carriers[CarrierPosition(c)] == Carrier(c);
    var head := [Pattern.All, Sms] + carriers;
    assert head[2 + CarrierPosition(c)] == Carrier(c);
  }

  /** Operator case `o` stands at index `8`, `12` and `16` plus
      `OperatorPosition(o)` of `allCases`, wrapped as an MVNO, IoT and
      data-only category. */
  lemma OperatorAt(o: OperatorCase)
    ensures |AllCases()| == 20
    ensures AllCases()[8 + OperatorPosition(o)] == Mvno(o)
    ensures AllCases()[12 + OperatorPosition(o)] == IoT(o)
    ensures AllCases()[16 + OperatorPosition(o)] == DataOnly(o)
  {
    SubCasesInOrder();
    var k := OperatorPosition(o);
    var a := [Pattern.All, Sms] + WrapCarriers(CarrierCases);
    var mvno := WrapOperators(OperatorCases, o => Mvno(o));
    var iot := WrapOperators(OperatorCases, o => IoT(o));
    var dataOnly := WrapOperators(OperatorCases, o => DataOnly(o));
    assert mvno[k] == Mvno(o) && iot[k] == IoT(o) && dataOnly[k] == DataOnly(o);
    assert (a + mvno)[8 + k] == Mvno(o);
    assert (a + mvno + iot)[12 + k] == IoT(o);
  }

  /** Every category stands at its `Position` in `allCases`. */
  lemma AtPosition(p: Pattern)
    ensures |AllCases()| == 20 && AllCases()[Position(p)] == p
  {
    match p
    case Carrier(c) => CarrierAt(c);
    case Mvno(o) => OperatorAt(o);
    case IoT(o) => OperatorAt(o);
    case DataOnly(o) => OperatorAt(o);
    case _ => CarrierAt(CarrierCase.All);
  }

  /** `allCases` lists 20 categories, `all` and `sms` first, and every
      category stands at its `Position`, so every category occurs. */
  lemma AllCasesLayout()
    ensures |AllCases()| == 20
    ensures AllCases()[0] == Pattern.All && AllCases()[1] == Sms
    ensures forall p: Pattern :: AllCases()[Position(p)] == p
    ensures forall p: Pattern :: p in AllCases()
  {
    AtPosition(Pattern.All);
    AtPosition(Sms);
    forall p: Pattern ensures AllCases()[Position(p)] == p && p in AllCases() {
      AtPosition(p);
    }
  }

  /** No category occurs twice in `allCases`: the entry at index `i` is the
      category whose `Position` is `i`. */
  lemma AllCasesExactlyOnce()
    ensures forall i :: 0 <= i < |AllCases()| ==> Position(AllCases()[i]) == i
    ensures forall i, j :: 0 <= i < j < |AllCases()| ==> AllCases()[i] != AllCases()[j]
  {
    SubCasesInOrder();
    var cases := AllCases();
    CarrierAt(CarrierCase.All);
    forall i | 0 <= i < |cases| ensures Position(cases[i]) == i {
      if i < 2 {
      } else if i < 8 {
        CarrierAt(CarrierCases[i - 2]);
      } else if i < 12 {
        OperatorAt(OperatorCases[i - 8]);
      } else if i < 16 {
        OperatorAt(OperatorCases[i - 12]);
      } else {
        OperatorAt(OperatorCases[i - 16]);
      }
    }
  }
}
