/** The calendar index: the events of the selected day and the days to highlight. */
module Calendar {
  import opened Events
  import opened Seqs
  import opened Wrappers
  import Store

  /** The selected day, falling back to the current day (passed in as `today`)
      when nothing is selected. */
  function SelectedDay(selected: Option<Date>, today: Date): (d: Date)
    ensures selected.Some? ==> d == selected.value
    ensures selected.None? ==> d == today
  {
    selected.GetOr(today)
  }

  function OnDate(d: Date): Event -> bool
  {
    (e: Event) => e.date == d
  }

  /** `getEventsForSelectedDate()`: the events whose calendar day is the selected
      one, whatever their time, in the order of the store (not the sorted order). */
  function EventsOn(events: seq<Event>, selected: Option<Date>, today: Date): (r: seq<Event>)
    ensures forall e :: e in r ==> e in events && e.date == SelectedDay(selected, today)
    ensures forall e :: e in events && e.date == SelectedDay(selected, today) ==> e in r
    ensures IsSubsequence(r, events)
    ensures forall e :: multiset(r)[e] == if e.date == SelectedDay(selected, today) then multiset(events)[e] else 0
  {
    var day := SelectedDay(selected, today);
    forall e
      ensures multiset(Filter(events, OnDate(day)))[e] == if e.date == day then multiset(events)[e] else 0
    {
      FilterCount(events, OnDate(day), e);
    }
    FilterMembers(events, OnDate(day));
    FilterIsSubsequence(events, OnDate(day));
    Filter(events, OnDate(day))
  }

  /** `datesWithEvents`: one date per event, in the order of the store, repeats
      included. */
  function DatesWithEvents(events: seq<Event>): (r: seq<Date>)
    ensures |r| == |events|
    ensures forall i :: 0 <= i < |events| ==> r[i] == events[i].date
  {
    seq(|events|, i requires 0 <= i < |events| => events[i].date)
  }

  /** A day is highlighted exactly when selecting it shows at least one event. */
  lemma HighlightedIffHasEvents(events: seq<Event>, d: Date, today: Date)
    ensures d in DatesWithEvents(events) <==> EventsOn(events, Some(d), today) != []
  {
    var dates, on := DatesWithEvents(events), EventsOn(events, Some(d), today);
    if d in dates {
      var i :| 0 <= i < |dates| && dates[i] == d;
      assert events[i] in on;
    }
    if on != [] {
      assert on[0] in on;
      var i :| 0 <= i < |events| && events[i] == on[0];
      assert dates[i] == d;
    }
  }

  /** A newly created event shows on its own day and on no other. */
  lemma CreatedShowsOnItsDay(events: seq<Event>, d: Details, now: int, other: Date, today: Date)
    requires other != d.date
    ensures Store.Created(d, now) in EventsOn(Store.Create(events, d, now), Some(d.date), today)
    ensures Store.Created(d, now) !in EventsOn(Store.Create(events, d, now), Some(other), today)
  {
    var s := Store.Create(events, d, now);
    assert s[|events|] in s;
  }
}
