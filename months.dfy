/** The month-name table and its lookup, with Python's list-subscript rules. */
module Months {
  import opened Wrappers

  /** `MONTHS`: the Russian names of the calendar months, January first. */
  const MONTHS: seq<string> := [
    "Январь", "Февраль", "Март", "Апрель", "Май", "Июнь",
    "Июль", "Август", "Сентябрь", "Октябрь", "Ноябрь", "Декабрь"
  ]

  /** Python's `IndexError: list index out of range`. Python's exception carries neither the
      index nor the length; the model records both to say which lookup failed. */
  datatype IndexError = IndexError(index: int, length: nat)

  /** `s[i]` on a Python list: a negative index counts from the end, and an index outside
      `-len(s) .. len(s) - 1` raises. */
  function PyIndex<T>(s: seq<T>, i: int): (r: Result<T, IndexError>)
    ensures r.Ok? <==> -|s| <= i < |s|
    ensures r.Ok? ==> r.value == s[i % |s|]
    ensures r.Err? ==> r.error == IndexError(i, |s|)
  {
    if 0 <= i < |s| then Ok(s[i])
    else if -|s| <= i < 0 then Ok(s[|s| + i])
    else Err(IndexError(i, |s|))
  }

  /** `MONTHS[month - 1]`: months 1..12 name themselves; 0 down to -11 wrap around to the end of
      the table (0 is December); anything above 12 or below -11 raises. */
  function MonthName(month: int): (r: Result<string, IndexError>)
    ensures r.Ok? <==> -11 <= month <= 12
    ensures 1 <= month <= 12 ==> r == Ok(MONTHS[month - 1])
    ensures -11 <= month <= 0 ==> r == Ok(MONTHS[month + 11])
    ensures month == 9 ==> r == Ok("Сентябрь")
    ensures month == 0 ==> r == Ok("Декабрь")
  {
    PyIndex(MONTHS, month - 1)
  }
}
