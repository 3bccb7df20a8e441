/**
 The unit check at the head of `unix_to_readable`: the unit name is looked up
 in a fixed table of scales, and any other name raises `ValueError` before any
 timestamp is converted.
 */
module Units {
  import opened Wrappers

  /** The four units the table knows, coarsest first. */
  datatype Unit = Seconds | Milliseconds | Microseconds | Nanoseconds

  /** The error `unix_to_readable` raises. */
  datatype Error = ValueError(message: string)

  const UnitMessage: string := "unit must be one of 's', 'ms', 'us', 'ns'"

  /** The key of a unit in the scale table. */
  function Symbol(u: Unit): string {
    match u
    case Seconds => "s"
    case Milliseconds => "ms"
    case Microseconds => "us"
    case Nanoseconds => "ns"
  }

  /** Position of a unit in the table, coarsest first. */
  function Rank(u: Unit): nat {
    match u
    case Seconds => 0
    case Milliseconds => 1
    case Microseconds => 2
    case Nanoseconds => 3
  }

  function Pow(b: nat, e: nat): nat {
    if e == 0 then 1 else b * Pow(b, e - 1)
  }

  /** The scale table of the source: unit name to ticks per second. */
  const ScaleTable: map<string, nat> := map["s" := 1, "ms" := 1_000, "us" := 1_000_000, "ns" := 1_000_000_000]

  /** Ticks of the unit per second, as the scale table gives them. */
  function Scale(u: Unit): (r: nat)
    ensures r == Pow(1000, Rank(u))
  {
    assert Pow(1000, 1) == 1000 * Pow(1000, 0);
    assert Pow(1000, 2) == 1000 * Pow(1000, 1);
    assert Pow(1000, 3) == 1000 * Pow(1000, 2);
    ScaleTable[Symbol(u)]
  }

  /** The unit a name denotes; a name that is not a key of the scale table is a `ValueError`. */
  function ParseUnit(unit: string): (r: Result<Unit, Error>)
    ensures r.Success? <==> unit in ScaleTable
    ensures r.Success? ==> Symbol(r.value) == unit && ScaleTable[unit] == Scale(r.value)
    ensures r.Failure? ==> r.error == ValueError(UnitMessage)
  {
    if unit == "s" then Success(Seconds)
    else if unit == "ms" then Success(Milliseconds)
    else if unit == "us" then Success(Microseconds)
    else if unit == "ns" then Success(Nanoseconds)
    else Failure(ValueError(UnitMessage))
  }

  /** Every unit's name is accepted and read back as that unit. */
  lemma ParseSymbol(u: Unit)
    ensures ParseUnit(Symbol(u)) == Success(u)
  {
  }

  /** The table has exactly the four unit names as keys, each mapped to its unit's scale. */
  lemma ScaleTableIsUnits()
    ensures forall unit :: unit in ScaleTable <==> exists u :: Symbol(u) == unit
    ensures forall u :: Symbol(u) in ScaleTable && ScaleTable[Symbol(u)] == Scale(u)
  {
    forall unit | unit in ScaleTable
      ensures exists u :: Symbol(u) == unit
    {
      var u := ParseUnit(unit).value;
      assert Symbol(u) == unit;
    }
  }

  /** The unit that is a thousandth of `u`, if any. */
  function Finer(u: Unit): (r: Option<Unit>)
    ensures r.Some? <==> u != Nanoseconds
    ensures r.Some? ==> Rank(r.value) == Rank(u) + 1
  {
    match u
    case Seconds => Some(Milliseconds)
    case Milliseconds => Some(Microseconds)
    case Microseconds => Some(Nanoseconds)
    case Nanoseconds => None
  }

  /** Each unit in the table is exactly 1000 times finer than the previous one. */
  lemma ScaleSteps(u: Unit)
    requires u != Nanoseconds
    ensures Scale(Finer(u).value) == 1000 * Scale(u)
  {
  }

  /**
   `unix_to_readable` with its conversion, which is foreign library work, as
   the parameter `convert`: the unit, seconds unless given, is checked first,
   and an unknown unit is an error whatever the timestamps and the conversion
   are.
   */
  function UnixToReadable<T, R>(ts: T, convert: (T, Unit) -> R, unit: string := "s"): (r: Result<R, Error>)
    ensures r.Failure? <==> unit !in ScaleTable
    ensures r.Failure? ==> r == Failure(ValueError(UnitMessage))
    ensures r.Success? ==> exists u :: Symbol(u) == unit && r.value == convert(ts, u)
  {
    match ParseUnit(unit)
    case Success(u) => Success(convert(ts, u))
    case Failure(e) => Failure(e)
  }

  /** Without a unit, the timestamps are read as seconds. */
  lemma DefaultUnitIsSeconds<T, R>(ts: T, convert: (T, Unit) -> R)
    ensures UnixToReadable(ts, convert) == Success(convert(ts, Seconds))
  {
  }

  /** The unit name is compared exactly: other spellings and cases are rejected. */
  lemma ExactSpelling()
    ensures ParseUnit("S").Failure? && ParseUnit("MS").Failure? && ParseUnit("sec").Failure?
    ensures ParseUnit("").Failure? && ParseUnit("ns ").Failure?
  {
  }
}
