/** The chip kinds of machxo2_i2c_driver.h: the enum lm75_type and the
    I2C id table machxo2_idtable that maps each device name to its kind. */
module Lm75Ids {
  import opened Kernel

  /** enum lm75_type, in declaration order. */
  datatype Kind =
    | Adt75 | Ds1775 | Ds75 | Ds7505 | G751 | Lm75 | Lm75a | Max6625 | Max6626
    | Mcp980x | Stds75 | Tcn75 | Tmp100 | Tmp101 | Tmp105 | Tmp175 | Tmp275 | Tmp75

  /** The number of enumerators. */
  const KindCount := 18

  /** The kinds in declaration order: kind i has the C value i. */
  const Kinds: seq<Kind> := [
    Adt75, Ds1775, Ds75, Ds7505, G751, Lm75, Lm75a, Max6625, Max6626,
    Mcp980x, Stds75, Tcn75, Tmp100, Tmp101, Tmp105, Tmp175, Tmp275, Tmp75]

  /** The C value of an enumerator: its position in the declaration. */
  function KindValue(k: Kind): (v: nat)
    ensures v < KindCount && Kinds[v] == k
  {
    match k
    case Adt75 => 0
    case Ds1775 => 1
    case Ds75 => 2
    case Ds7505 => 3
    case G751 => 4
    case Lm75 => 5
    case Lm75a => 6
    case Max6625 => 7
    case Max6626 => 8
    case Mcp980x => 9
    case Stds75 => 10
    case Tcn75 => 11
    case Tmp100 => 12
    case Tmp101 => 13
    case Tmp105 => 14
    case Tmp175 => 15
    case Tmp275 => 16
    case Tmp75 => 17
  }

  /** The identifier of an enumerator, as written in the enum. */
  function KindName(k: Kind): string {
    match k
    case Adt75 => "adt75"
    case Ds1775 => "ds1775"
    case Ds75 => "ds75"
    case Ds7505 => "ds7505"
    case G751 => "g751"
    case Lm75 => "lm75"
    case Lm75a => "lm75a"
    case Max6625 => "max6625"
    case Max6626 => "max6626"
    case Mcp980x => "mcp980x"
    case Stds75 => "stds75"
    case Tcn75 => "tcn75"
    case Tmp100 => "tmp100"
    case Tmp101 => "tmp101"
    case Tmp105 => "tmp105"
    case Tmp175 => "tmp175"
    case Tmp275 => "tmp275"
    case Tmp75 => "tmp75"
  }

  /** struct i2c_device_id: a device name and its driver_data. The
      all-zero entry that ends the table has the empty name. */
  datatype DeviceId = DeviceId(name: string, driverData: nat)

  const ListEnd := DeviceId("", 0)

  /** machxo2_idtable. */
  const IdTable: seq<DeviceId> := [
    DeviceId("adt75", 0), DeviceId("ds1775", 1), DeviceId("ds75", 2),
    DeviceId("ds7505", 3), DeviceId("g751", 4), DeviceId("lm75", 5),
    DeviceId("lm75a", 6), DeviceId("max6625", 7), DeviceId("max6626", 8),
    DeviceId("mcp980x", 9), DeviceId("stds75", 10), DeviceId("tcn75", 11),
    DeviceId("tmp100", 12), DeviceId("tmp101", 13), DeviceId("tmp105", 14),
    DeviceId("tmp175", 15), DeviceId("tmp275", 16), DeviceId("tmp75", 17),
    ListEnd]

  /** Strict lexicographic order on strings, by character code. */
  predicate Before(a: string, b: string) {
    BeforeFrom(a, b, 0)
  }

  /** a and b, which agree before position n, are in strict order. */
  predicate BeforeFrom(a: string, b: string, n: nat)
    decreases |a| - n
  {
    if n >= |a| then n < |b|
    else if n >= |b| then false
    else a[n] < b[n] || (a[n] == b[n] && BeforeFrom(a, b, n + 1))
  }

  lemma {:induction false} BeforeIrreflexive(a: string, n: nat)
    ensures !BeforeFrom(a, a, n)
    decreases |a| - n
  {
    if n < |a| {
      BeforeIrreflexive(a, n + 1);
    }
  }

  lemma {:induction false} BeforeTransitive(a: string, b: string, c: string, n: nat)
    requires BeforeFrom(a, b, n) && BeforeFrom(b, c, n)
    ensures BeforeFrom(a, c, n)
    decreases |a| - n
  {
    if n < |a| && n < |b| && n < |c| && a[n] == b[n] && b[n] == c[n] {
      BeforeTransitive(a, b, c, n + 1);
    }
  }

  /** The lookup the I2C core does when it binds a device: the driver_data
      of the first entry, before the end of the table, whose name matches. */
  function LookupFrom(table: seq<DeviceId>, name: string): (r: Option<nat>)
    ensures r.Some? ==> exists j :: 0 <= j < |table| && table[j].name == name && table[j].driverData == r.value
  {
    if table == [] || table[0].name == "" then None
    else if table[0].name == name then Some(table[0].driverData)
    else LookupFrom(table[1..], name)
  }

  /** The table has one entry per kind and then the end marker. */
  lemma IdTableShape()
    ensures |IdTable| == KindCount + 1 && IdTable[KindCount] == ListEnd
    ensures forall i :: 0 <= i < KindCount ==> IdTable[i].name != ""
  {
  }

  /** Entry i carries the kind with C value i, under that kind's identifier:
      table order is enum order. */
  lemma IdTableMatchesEnum(k: Kind)
    ensures IdTable[KindValue(k)] == DeviceId(KindName(k), KindValue(k))
  {
  }

  /** The enum and the table are in alphabetical order, so the names are
      pairwise distinct. */
  lemma IdTableSorted(i: nat, j: nat)
    requires i < j < KindCount
    ensures Before(IdTable[i].name, IdTable[j].name)
    ensures IdTable[i].name != IdTable[j].name
    decreases j - i
  {
    if j == i + 1 {
      NextSortedAt(i);
    } else {
      IdTableSorted(i, j - 1);
      NextSortedAt(j - 1);
      BeforeTransitive(IdTable[i].name, IdTable[j - 1].name, IdTable[j].name, 0);
    }
    if IdTable[i].name == IdTable[j].name {
      BeforeIrreflexive(IdTable[i].name, 0);
    }
  }

  /** The kind declared after k. */
  function Next(k: Kind): (n: Kind)
    requires k != Tmp75
    ensures KindValue(n) == KindValue(k) + 1
  {
    Kinds[KindValue(k) + 1]
  }

  /** Each identifier comes before the next one declared. */
  lemma NextSorted(k: Kind)
    requires k != Tmp75
    ensures Before(KindName(k), KindName(Next(k)))
  {
    match k
    case Adt75 => assert Next(k) == Ds1775 && Before("adt75", "ds1775");
    case Ds1775 => assert Next(k) == Ds75 && Before("ds1775", "ds75");
    case Ds75 => assert Next(k) == Ds7505 && Before("ds75", "ds7505");
    case Ds7505 => assert Next(k) == G751 && Before("ds7505", "g751");
    case G751 => assert Next(k) == Lm75 && Before("g751", "lm75");
    case Lm75 => assert Next(k) == Lm75a && Before("lm75", "lm75a");
    case Lm75a => assert Next(k) == Max6625 && Before("lm75a", "max6625");
    case Max6625 => assert Next(k) == Max6626 && Before("max6625", "max6626");
    case Max6626 => assert Next(k) == Mcp980x && Before("max6626", "mcp980x");
    case Mcp980x => assert Next(k) == Stds75 && Before("mcp980x", "stds75");
    case Stds75 => assert Next(k) == Tcn75 && Before("stds75", "tcn75");
    case Tcn75 => assert Next(k) == Tmp100 && Before("tcn75", "tmp100");
    case Tmp100 => assert Next(k) == Tmp101 && Before("tmp100", "tmp101");
    case Tmp101 => assert Next(k) == Tmp105 && Before("tmp101", "tmp105");
    case Tmp105 => assert Next(k) == Tmp175 && Before("tmp105", "tmp175");
    case Tmp175 => assert Next(k) == Tmp275 && Before("tmp175", "tmp275");
    case Tmp275 => assert Next(k) == Tmp75 && Before("tmp275", "tmp75");
  }

  /** Entries i and i + 1 of the table are in order. */
  lemma NextSortedAt(i: nat)
    requires i + 1 < KindCount
    ensures Before(IdTable[i].name, IdTable[i + 1].name)
  {
    var k := Kinds[i];
    KindValueAt(i);
    KindValueAt(i + 1);
    NextSorted(k);
    IdTableMatchesEnum(k);
    IdTableMatchesEnum(Next(k));
  }

  /** Kinds lists each kind at its C value. */
  lemma KindValueAt(i: nat)
    requires i < KindCount
    ensures KindValue(Kinds[i]) == i
  {
  }

  /** The lookup finds the first entry with the name, if none before it is
      the end marker. */
  lemma {:induction false} LookupFromFinds(table: seq<DeviceId>, i: nat, name: string)
    requires i < |table| && table[i].name == name && name != ""
    requires forall j :: 0 <= j < i ==> table[j].name != name && table[j].name != ""
    ensures LookupFrom(table, name) == Some(table[i].driverData)
  {
    if i > 0 {
      LookupFromFinds(table[1..], i - 1, name);
    }
  }

  /** Binding a device by the name of a kind yields that kind's C value. */
  lemma LookupFindsKind(k: Kind)
    ensures LookupFrom(IdTable, KindName(k)) == Some(KindValue(k))
  {
    var i := KindValue(k);
    IdTableShape();
    IdTableMatchesEnum(k);
    forall j | 0 <= j < i
      ensures IdTable[j].name != KindName(k) && IdTable[j].name != ""
    {
      IdTableSorted(j, i);
    }
    LookupFromFinds(IdTable, i, KindName(k));
  }
}
