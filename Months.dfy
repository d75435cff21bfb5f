/** English month names, as `strftime('%B')` writes them and
    `to_datetime(..., format='%B %Y')` reads them back. */
module Months {
  import opened Wrappers
  import opened Table

  const MonthNames: seq<string> := ["January", "February", "March", "April",
    "May", "June", "July", "August", "September", "October", "November", "December"]

  /** `strftime('%B')` of a date in month `m` (1 = January). */
  function MonthName(m: nat): (name: string)
    requires 1 <= m <= 12
    ensures name in MonthNames
  {
    MonthNames[m - 1]
  }

  /** The calendar index of a month name; None when the name is not one. */
  function MonthNumber(name: string): (m: Option<nat>)
    ensures m.None? <==> name !in MonthNames
    ensures m.Some? ==> 1 <= m.value <= 12 && MonthNames[m.value - 1] == name
  {
    if name in MonthNames then Some(FirstIndex(MonthNames, name) + 1) else None
  }

  /** Reading back a written month name gives the month. */
  lemma MonthRoundTrip(m: nat)
    requires 1 <= m <= 12
    ensures MonthNumber(MonthName(m)) == Some(m)
  {
    assert NoDuplicates(MonthNames);
  }
}
