/**
 * The admin save hook for subscriptions: before the row is written, a
 * missing start date becomes the current time and a missing end date, when a
 * plan is chosen, becomes the start date plus the plan's length in days.
 * The clock is a parameter (`now`, seconds).
 */
module Admin {
  import opened Wrappers
  import opened Http
  import opened Models

  const SecondsPerDay: nat := 86400

  /** The dates the hook leaves on the instance, given the ones the form supplied. */
  function DefaultedDates(start: Option<int>, end: Option<int>, plan: Option<SubscriptionPlan>, now: int): (dates: (Option<int>, Option<int>))
    ensures dates.0.Some?
    ensures start.Some? ==> dates.0 == start
    ensures start.None? ==> dates.0 == Some(now)
    ensures end.Some? ==> dates.1 == end
    ensures end.None? && plan.None? ==> dates.1.None?
    ensures end.None? && plan.Some? ==>
      dates.1 == Some(dates.0.value + plan.value.durationDays * SecondsPerDay)
  {
    var s := if start.None? then Some(now) else start;
    var e := if end.None? && plan.Some? then Some(s.value + plan.value.durationDays * SecondsPerDay) else end;
    (s, e)
  }

  /** A computed end date never precedes the start date, as plan lengths are non-negative. */
  lemma ComputedEndNotBeforeStart(start: Option<int>, plan: SubscriptionPlan, now: int)
    ensures var dates := DefaultedDates(start, None, Some(plan), now);
      dates.1.Some? && dates.0.value <= dates.1.value
  {
    var dates := DefaultedDates(start, None, Some(plan), now);
    assert dates.1.value == dates.0.value + plan.durationDays * SecondsPerDay;
  }

  /** Saving a second time changes nothing: every date the hook sets, it keeps afterwards. */
  lemma DefaultsIdempotent(start: Option<int>, end: Option<int>, plan: Option<SubscriptionPlan>, now: int, later: int)
    ensures var dates := DefaultedDates(start, end, plan, now);
      DefaultedDates(dates.0, dates.1, plan, later) == dates
  {
  }

  /** The row can be written exactly when it then has both dates, i.e. an end date was given or a plan chosen. */
  lemma SavableIffEndOrPlan(start: Option<int>, end: Option<int>, plan: Option<SubscriptionPlan>, now: int)
    ensures DefaultedDates(start, end, plan, now).1.Some? <==> end.Some? || plan.Some?
  {
  }

  /** A subscription being edited in the admin, before it is written. */
  class SubscriptionInstance {
    var user: UserId
    var plan: Option<SubscriptionPlan>
    var startDate: Option<int>
    var endDate: Option<int>
    var isActive: bool

    constructor (user: UserId, plan: Option<SubscriptionPlan>, startDate: Option<int>, endDate: Option<int>, isActive: bool)
      ensures this.user == user && this.plan == plan && this.startDate == startDate
      ensures this.endDate == endDate && this.isActive == isActive
    {
      this.user := user;
      this.plan := plan;
      this.startDate := startDate;
      this.endDate := endDate;
      this.isActive := isActive;
    }

    /** The subscription row the instance would be written as, once both dates are set. */
    function Row(): (row: Option<UserSubscription>)
      reads this
      ensures row.Some? <==> startDate.Some? && endDate.Some?
      ensures row.Some? ==> row.value.user == user && row.value.plan == plan && row.value.isActive == isActive
    {
      if startDate.Some? && endDate.Some? then
        Some(UserSubscription(user, plan, startDate, endDate, isActive))
      else None
    }

    /**
     * `save_model`: fills in the missing dates, then writes the row.  `saved`
     * is false when the end date is still missing, which the NOT NULL column
     * refuses.
     */
    method SaveModel(now: int) returns (saved: bool)
      modifies this
      ensures (startDate, endDate) == DefaultedDates(old(startDate), old(endDate), plan, now)
      ensures user == old(user) && plan == old(plan) && isActive == old(isActive)
      ensures saved <==> Row().Some?
      ensures saved <==> old(endDate).Some? || plan.Some?
    {
      if startDate.None? {
        startDate := Some(now);
      }
      if endDate.None? && plan.Some? {
        endDate := Some(startDate.value + plan.value.durationDays * SecondsPerDay);
      }
      saved := startDate.Some? && endDate.Some?;
    }
  }
}
