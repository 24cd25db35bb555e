/**
 * The month selector's two arrow buttons. The component keeps no state of
 * its own: each handler finds the selected month with `indexOf` and emits
 * a neighbour through the change callback, or emits nothing.
 */
module MonthNavigation {
  import opened Wrappers

  /** `months.indexOf(m)`: the first position of `m`, or -1. */
  function IndexOf(months: seq<string>, m: string): (i: int)
    ensures -1 <= i < |months|
    ensures i == -1 <==> m !in months
    ensures i >= 0 ==> months[i] == m && forall k :: 0 <= k < i ==> months[k] != m
  {
    if months == [] then -1
    else if months[0] == m then 0
    else
      var j := IndexOf(months[1..], m);
      assert m in months[1..] <==> m in months by {
        assert months == [months[0]] + months[1..];
      }
      if j == -1 then -1 else j + 1
  }

  /**
   * `goToPreviousMonth`: the month before the selected one, when its index
   * is above 0; a month that is absent or first emits nothing.
   */
  function GoToPreviousMonth(selectedMonth: string, availableMonths: seq<string>): (emitted: Option<string>)
    ensures emitted.Some? <==> selectedMonth in availableMonths && availableMonths[0] != selectedMonth
    ensures emitted.Some? ==> emitted.value in availableMonths && emitted.value != selectedMonth
  {
    var i := IndexOf(availableMonths, selectedMonth);
    if i > 0 then Some(availableMonths[i - 1]) else None
  }

  /**
   * `goToNextMonth`: the month after the selected one, when its index is
   * below the last; an absent month has index -1, so the first month.
   */
  function GoToNextMonth(selectedMonth: string, availableMonths: seq<string>): (emitted: Option<string>)
    ensures emitted.Some? ==> emitted.value in availableMonths
  {
    var i := IndexOf(availableMonths, selectedMonth);
    if i < |availableMonths| - 1 then Some(availableMonths[i + 1]) else None
  }

  /** `isPreviousDisabled`: the selected month is the first of the list. */
  predicate IsPreviousDisabled(selectedMonth: string, availableMonths: seq<string>): (disabled: bool)
    ensures disabled <==> availableMonths != [] && availableMonths[0] == selectedMonth
  {
    IndexOf(availableMonths, selectedMonth) == 0
  }

  /**
   * `isNextDisabled`: the selected month first occurs at the end of the
   * list, or the list is empty (-1 is then both the index and the last position).
   */
  predicate IsNextDisabled(selectedMonth: string, availableMonths: seq<string>): (disabled: bool)
    ensures disabled <==>
      (availableMonths == []
       || (availableMonths[|availableMonths| - 1] == selectedMonth
           && selectedMonth !in availableMonths[..|availableMonths| - 1]))
  {
    IndexOf(availableMonths, selectedMonth) == |availableMonths| - 1
  }

  /** The next button is enabled exactly when pressing it emits a month. */
  lemma NextEnabledIffEmits(selectedMonth: string, availableMonths: seq<string>)
    ensures !IsNextDisabled(selectedMonth, availableMonths) <==> GoToNextMonth(selectedMonth, availableMonths).Some?
  {
  }

  /**
   * A disabled previous button would emit nothing if pressed; an enabled
   * one emits exactly when the selected month is in the list.
   */
  lemma PreviousDisabledEmitsNothing(selectedMonth: string, availableMonths: seq<string>)
    ensures IsPreviousDisabled(selectedMonth, availableMonths) ==> GoToPreviousMonth(selectedMonth, availableMonths).None?
    ensures !IsPreviousDisabled(selectedMonth, availableMonths) ==>
      (GoToPreviousMonth(selectedMonth, availableMonths).Some? <==> selectedMonth in availableMonths)
  {
  }

  /**
   * The previous button is disabled only on the first month; for a month
   * that is not in the list it stays enabled but emits nothing.
   */
  lemma PreviousWhenAbsent(selectedMonth: string, availableMonths: seq<string>)
    requires selectedMonth !in availableMonths
    ensures !IsPreviousDisabled(selectedMonth, availableMonths)
    ensures GoToPreviousMonth(selectedMonth, availableMonths).None?
  {
  }

  /** A month not in a non-empty list moves forward to the first month. */
  lemma NextWhenAbsent(selectedMonth: string, availableMonths: seq<string>)
    requires selectedMonth !in availableMonths && |availableMonths| > 0
    ensures GoToNextMonth(selectedMonth, availableMonths) == Some(availableMonths[0])
  {
  }

  /** With an empty list, next is disabled and previous is not. */
  lemma EmptyList(selectedMonth: string)
    ensures IsNextDisabled(selectedMonth, []) && !IsPreviousDisabled(selectedMonth, [])
  {
  }

  predicate Distinct(months: seq<string>) {
    forall i, j :: 0 <= i < j < |months| ==> months[i] != months[j]
  }

  lemma IndexOfDistinct(months: seq<string>, i: nat)
    requires Distinct(months) && i < |months|
    ensures IndexOf(months, months[i]) == i
  {
    assert months[i] in months;
  }

  /** In a list without repeats, next then previous comes back to the selected month. */
  lemma NextThenPrevious(selectedMonth: string, availableMonths: seq<string>)
    requires Distinct(availableMonths) && selectedMonth in availableMonths
    requires GoToNextMonth(selectedMonth, availableMonths).Some?
    ensures GoToPreviousMonth(GoToNextMonth(selectedMonth, availableMonths).value, availableMonths) == Some(selectedMonth)
  {
    var i := IndexOf(availableMonths, selectedMonth);
    IndexOfDistinct(availableMonths, i + 1);
  }

  /** In a list without repeats, previous then next comes back to the selected month. */
  lemma PreviousThenNext(selectedMonth: string, availableMonths: seq<string>)
    requires Distinct(availableMonths)
    requires GoToPreviousMonth(selectedMonth, availableMonths).Some?
    ensures GoToNextMonth(GoToPreviousMonth(selectedMonth, availableMonths).value, availableMonths) == Some(selectedMonth)
  {
    var i := IndexOf(availableMonths, selectedMonth);
    IndexOfDistinct(availableMonths, i - 1);
  }

  /**
   * The arrows move from the month's first position, whatever copies of it
   * follow: next emits the month after that position, previous the one before.
   */
  lemma NavigateFromFirst(selectedMonth: string, availableMonths: seq<string>, i: nat)
    requires i < |availableMonths| && availableMonths[i] == selectedMonth
    requires forall k :: 0 <= k < i ==> availableMonths[k] != selectedMonth
    ensures i < |availableMonths| - 1 ==> GoToNextMonth(selectedMonth, availableMonths) == Some(availableMonths[i + 1])
    ensures i > 0 ==> GoToPreviousMonth(selectedMonth, availableMonths) == Some(availableMonths[i - 1])
  {
    assert selectedMonth in availableMonths;
  }

  /** An example: in `[a, b, a]` the arrows work from the first `a`. */
  lemma RepeatedMonth(a: string, b: string)
    requires a != b
    ensures GoToNextMonth(a, [a, b, a]) == Some(b)
    ensures GoToPreviousMonth(a, [a, b, a]).None?
  {
  }
}
