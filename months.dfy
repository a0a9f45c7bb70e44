/** The Portuguese month names: the capitalised list the page title and the month
    picker index with the 0-based month, and the lower-case list the export file name
    uses. An index outside 0..11 reads `undefined` from either list. */
module Months {
  import opened Wrappers
  import opened JsText

  function MonthNames(): seq<string> {
    ["Janeiro", "Fevereiro", "Mar\U{E7}o", "Abril", "Maio", "Junho",
     "Julho", "Agosto", "Setembro", "Outubro", "Novembro", "Dezembro"]
  }

  function LowerMonthNames(): seq<string> {
    ["janeiro", "fevereiro", "mar\U{E7}o", "abril", "maio", "junho",
     "julho", "agosto", "setembro", "outubro", "novembro", "dezembro"]
  }

  /** `getMonthName(month)`: `None` stands for `undefined`. */
  function MonthName(month: int): (r: Option<string>)
    ensures r.Some? <==> 0 <= month < 12
  {
    if 0 <= month < |MonthNames()| then Some(MonthNames()[month]) else None
  }

  /** `monthNames[selectedMonth]` of the export. */
  function LowerMonthName(month: int): (r: Option<string>)
    ensures r.Some? <==> 0 <= month < 12
  {
    if 0 <= month < |LowerMonthNames()| then Some(LowerMonthNames()[month]) else None
  }

  /** The export names the same month as the page, in lower case. */
  lemma LowerMonthNameAgrees(month: int)
    requires 0 <= month < 12
    ensures LowerMonthName(month) == Some(ToLower(MonthName(month).value))
  {
    var name := MonthNames()[month];
    CapitalisedLower(name);
    assert [(name[0] as int + 32) as char] + name[1..] == LowerMonthNames()[month] by {
      SameTail(month);
    }
  }

  /** Each lower-case name differs from the capitalised one in its first letter only. */
  lemma SameTail(month: int)
    requires 0 <= month < 12
    ensures MonthNames()[month][1..] == LowerMonthNames()[month][1..]
    ensures |LowerMonthNames()[month]| > 0 &&
            LowerMonthNames()[month][0] == (MonthNames()[month][0] as int + 32) as char
  {
  }

  /** A name with only its first letter in upper case is lowered by lowering that letter. */
  lemma CapitalisedLower(name: string)
    requires |name| > 0 && 'A' <= name[0] <= 'Z'
    requires forall i :: 1 <= i < |name| ==> !('A' <= name[i] <= 'Z')
    ensures ToLower(name) == [(name[0] as int + 32) as char] + name[1..]
  {
  }
}
