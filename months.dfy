/** Calendar months and the fixed probe table of tenpo.go. */
module Months {

  /** The twelve values of Go's `time.Month`. */
  datatype Month =
    | January | February | March | April | May | June
    | July | August | September | October | November | December

  /** `monthOrders`: the eleven months whose first day is compared with the
      1 January baseline, in the order they are probed. The entries are
      pairwise distinct and January, the baseline, is not among them. */
  function MonthOrders(): (s: seq<Month>)
    ensures |s| == 11
    ensures forall i, j :: 0 <= i < j < |s| ==> s[i] != s[j]
    ensures January !in s
  {
    [April, December, May, November, June, October, July, September, February, August, March]
  }

  /** The probe table holds every month except January, so together with the
      baseline the first day of every month of the year is sampled. */
  lemma MonthOrdersCoverAllButJanuary(m: Month)
    ensures m in MonthOrders() <==> m != January
  {
  }
}
