/** The pure parts of components/ResultsPanel.tsx: the colour band chosen for
    the overall percentage and the month shown under the title. */
module ResultsPanel {
  import opened Text

  /** The panel's four colour bands: slate (nothing scored yet), emerald,
      blue and rose. */
  datatype PanelBand = Neutral | Excellent | Pass | Fail

  /** The band for an integer percentage: neutral unless positive, then
      split at 90 and 70. */
  function PanelBandOf(percent: int): (band: PanelBand)
    ensures band == Neutral <==> percent <= 0
    ensures band == Excellent <==> 90 <= percent
    ensures band == Pass <==> 70 <= percent < 90
    ensures band == Fail <==> 0 < percent < 70
  {
    if percent > 0 then
      if percent >= 90 then Excellent
      else if percent >= 70 then Pass
      else Fail
    else Neutral
  }

  /** `selectedMonth.split('-').reverse().join('/')`. */
  function MonthLabel(selectedMonth: string): (shown: string)
    ensures '-' !in shown
    ensures '-' !in selectedMonth ==> shown == selectedMonth
  {
    var parts := Split(selectedMonth, '-');
    JoinAvoids(Reverse(parts), '/', '-');
    SplitSingle(selectedMonth, '-');
    JoinSplit(selectedMonth, '-');
    assert |parts| == 1 ==> Reverse(parts) == parts;
    Join(Reverse(parts), '/')
  }

  /** A month text of two pieces is shown as the second, "/", then the first. */
  lemma MonthLabelOfTwoPieces(selectedMonth: string)
    ensures var parts := Split(selectedMonth, '-');
      |parts| == 2 ==> MonthLabel(selectedMonth) == parts[1] + "/" + parts[0]
  {
    var parts := Split(selectedMonth, '-');
    if |parts| == 2 {
      assert Reverse(parts) == [parts[1], parts[0]];
      assert Join([parts[1], parts[0]], '/') == parts[1] + ['/'] + Join([parts[0]], '/');
    }
  }

  /** "YYYY-MM" is shown as "MM/YYYY". */
  lemma MonthLabelOfPeriod(year: string, month: string)
    requires '-' !in year && '-' !in month
    ensures MonthLabel(year + "-" + month) == month + "/" + year
  {
    SplitAtFirstSeparator(year, '-', month);
    SplitWithoutSeparator(month, '-');
    assert year + "-" + month == year + ['-'] + month;
    assert Split(year + "-" + month, '-') == [year, month];
    assert Reverse([year, month]) == [month, year];
    assert Join([month, year], '/') == month + "/" + year;
  }

  /** The label keeps every piece of the month text, in reverse order: splitting
      it at "/" and reversing gives back the pieces of the original. */
  lemma MonthLabelKeepsPieces(selectedMonth: string)
    requires '/' !in selectedMonth
    ensures Reverse(Split(MonthLabel(selectedMonth), '/')) == Split(selectedMonth, '-')
  {
    var parts := Split(selectedMonth, '-');
    SplitPiecesAvoid(selectedMonth, '-', '/');
    var reversed := Reverse(parts);
    assert forall i :: 0 <= i < |reversed| ==> reversed[i] == parts[|parts| - 1 - i];
    SplitJoin(reversed, '/');
    ReverseReverse(parts);
  }
}
