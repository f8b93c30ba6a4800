/** Calendar days and the date windows the endpoints query over. */
module Calendar {

  import opened Wrappers

  /** A calendar day, counted in whole days; time of day is not modelled. */
  type Day = int

  /** An inclusive window of days: from `first`, and up to `last` when it is
      bounded. The chart endpoints use a bounded window ending yesterday; the
      prediction endpoint uses one that is open towards the future. */
  datatype Window = Window(first: Day, last: Option<Day>) {
    predicate Contains(d: Day) {
      first <= d && (last.Some? ==> d <= last.value)
    }
  }

  /** From `days` days ago up to yesterday, as the week, 30-day and
      90-day series query it. */
  function TrailingWindow(today: Day, days: nat): (w: Window)
    ensures forall d :: w.Contains(d) <==> today - days <= d < today
  {
    Window(today - days, Some(today - 1))
  }

  /** Every day from `days` days ago on, as the prediction's rate query
      reads it: the window has no upper bound. */
  function SinceWindow(today: Day, days: nat): (w: Window)
    ensures forall d :: w.Contains(d) <==> today - days <= d
  {
    Window(today - days, None)
  }

  /** A non-empty set of days has a member to pick. */
  lemma NonEmptyHasDay(days: set<Day>)
    requires days != {}
    ensures exists d :: d in days
  {
    if forall d :: d !in days {
      assert false;
    }
  }
}
