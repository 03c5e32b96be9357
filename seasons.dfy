/** The seasonal indicator columns of `process_seasonal_patterns` in src/data_processor.py.
    The month is missing only for a missing date (`to_datetime` gives NaT), and `isin` is
    then false; a date that does not parse makes `to_datetime` raise, which the pipeline
    models as the seasonal step failing. */
module Seasons {
  import opened Wrappers

  datatype SeasonFlags = SeasonFlags(isSummer: int, isWinter: int, isShoulder: int)

  const SummerMonths: set<int> := {6, 7, 8}
  const WinterMonths: set<int> := {12, 1, 2}
  const ShoulderMonths: set<int> := {3, 4, 5, 9, 10, 11}

  /** `.astype(int)` of a boolean. */
  function Indicator(b: bool): int
  {
    if b then 1 else 0
  }

  predicate InMonths(month: Option<int>, months: set<int>)
  {
    month.Some? && month.value in months
  }

  /** The three flags of one row: each is 0 or 1, exactly one is set for a calendar
      month, and none is set for a missing or out-of-range month. */
  function Flags(month: Option<int>): (f: SeasonFlags)
    ensures f.isSummer in {0, 1} && f.isWinter in {0, 1} && f.isShoulder in {0, 1}
    ensures month.Some? && 1 <= month.value <= 12 ==> f.isSummer + f.isWinter + f.isShoulder == 1
    ensures !(month.Some? && 1 <= month.value <= 12) ==> f == SeasonFlags(0, 0, 0)
  {
    SeasonFlags(
      Indicator(InMonths(month, SummerMonths)),
      Indicator(InMonths(month, WinterMonths)),
      Indicator(InMonths(month, ShoulderMonths)))
  }

  /** Meteorological quarters: 0 for December to February, 1 for March to May, 2 for June
      to August, 3 for September to November. */
  function Quarter(month: int): int
  {
    (month % 12) / 3
  }

  /** The flags agree with the quarter of the year: summer is the third quarter, winter
      the first, and the shoulder months are the two in between. */
  lemma {:induction false} FlagsFollowQuarters(month: int)
    requires 1 <= month <= 12
    ensures Flags(Some(month)).isWinter == 1 <==> Quarter(month) == 0
    ensures Flags(Some(month)).isSummer == 1 <==> Quarter(month) == 2
    ensures Flags(Some(month)).isShoulder == 1 <==> Quarter(month) == 1 || Quarter(month) == 3
  {
    if month == 12 {
      assert Quarter(month) == 0;
    } else {
      assert month % 12 == month;
    }
  }

  /** The indicator columns, one row per month value. */
  function SeasonalIndicators(months: seq<Option<int>>): (r: seq<SeasonFlags>)
    ensures |r| == |months|
    ensures forall i :: 0 <= i < |months| ==> r[i] == Flags(months[i])
  {
    seq(|months|, i requires 0 <= i < |months| => Flags(months[i]))
  }
}
