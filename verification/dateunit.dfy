/** Time units in milliseconds (enums/DateUnit.java): each constant is defined as a multiple
    of the one before it and stored in a `long`. */
module DateUnits {

  const LONG_MAX: int := 0x7fff_ffff_ffff_ffff

  datatype DateUnit = MS | SECOND | MINUTE | HOUR | DAY | WEEK
  {
    /** `value()`: the millisecond count each constant was built with. */
    function Value(): (r: int)
      ensures 1 <= r <= LONG_MAX
      decreases Ordinal()
    {
      match this
      case MS => 1
      case SECOND => MS.Value() * 1000
      case MINUTE => SECOND.Value() * 60
      case HOUR => MINUTE.Value() * 60
      case DAY => HOUR.Value() * 24
      case WEEK => DAY.Value() * 7
    }

    /** The position in declaration order. */
    function Ordinal(): nat {
      match this
      case MS => 0
      case SECOND => 1
      case MINUTE => 2
      case HOUR => 3
      case DAY => 4
      case WEEK => 5
    }
  }

  /** The concrete values: a second is 1000 ms, a day 86 400 000 ms, a week 604 800 000 ms. */
  lemma Values()
    ensures MS.Value() == 1 && SECOND.Value() == 1000 && MINUTE.Value() == 60_000
    ensures HOUR.Value() == 3_600_000 && DAY.Value() == 86_400_000 && WEEK.Value() == 604_800_000
  {
  }

  /** Values strictly increase in declaration order, so comparing two units' values compares
      their sizes. */
  lemma Increasing(a: DateUnit, b: DateUnit)
    ensures a.Ordinal() < b.Ordinal() <==> a.Value() < b.Value()
  {
    Values();
  }
}
