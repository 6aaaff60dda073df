/** The event record every part of the dashboard operates on, and the instant
    (calendar date plus clock time) that orders events chronologically. */
module Events {

  /** A calendar day; `month` counts from 1 (the source's `new Date(2024, 2, 26)`
      counts months from 0 and is the day Date(2024, 3, 26) here). */
  datatype Date = Date(year: int, month: int, day: int)

  /** A 24-hour clock time, the `"HH:MM"` string of the form's time input. */
  datatype Time = Time(hour: int, minute: int)

  datatype Priority = Low | Medium | High

  /** `{id, title, date, time, description, priority, completed}`. The id is the
      number `Date.now()` returned when the event was created (or a seed number). */
  datatype Event = Event(id: int, title: string, date: Date, time: Time,
                         description: string, priority: Priority, completed: bool)

  /** Everything a saved form carries: an event without its id. */
  datatype Details = Details(title: string, date: Date, time: Time,
                             description: string, priority: Priority, completed: bool)

  /** The event with these details and this id. */
  function Stamp(d: Details, id: int): (e: Event)
    ensures e.id == id && DetailsOf(e) == d
  {
    Event(id, d.title, d.date, d.time, d.description, d.priority, d.completed)
  }

  function DetailsOf(e: Event): Details
  {
    Details(e.title, e.date, e.time, e.description, e.priority, e.completed)
  }

  // ---------------------------------------------------------------------------
  // Instants

  /** The moment an event takes place: its date composed with its time. */
  datatype Instant = Instant(date: Date, time: Time)

  function InstantOf(e: Event): Instant
  {
    Instant(e.date, e.time)
  }

  /** Strictly earlier, comparing year, month, day, hour and minute in turn: the
      sign of the difference of the two timestamps the sort's comparator subtracts.
      No instant is earlier than itself. */
  predicate Before(a: Instant, b: Instant): (r: bool)
    ensures r ==> a != b
  {
    var (x, y) := (a.date, b.date);
    x.year < y.year
    || (x.year == y.year && x.month < y.month)
    || (x.year == y.year && x.month == y.month && x.day < y.day)
    || (x == y && a.time.hour < b.time.hour)
    || (x == y && a.time.hour == b.time.hour && a.time.minute < b.time.minute)
  }

  /** The order on instants is a strict total order. */
  lemma BeforeIsStrictTotalOrder(a: Instant, b: Instant, c: Instant)
    ensures !Before(a, a)
    ensures Before(a, b) ==> !Before(b, a)
    ensures a == b || Before(a, b) || Before(b, a)
    ensures Before(a, b) && Before(b, c) ==> Before(a, c)
  {
  }

  /** A calendar day and clock time inside their ranges: month 1 to 12, day 1 to 31,
      hour 0 to 23, minute 0 to 59. */
  predicate InRange(a: Instant)
  {
    1 <= a.date.month <= 12 && 1 <= a.date.day <= 31
    && 0 <= a.time.hour < 24 && 0 <= a.time.minute < 60
  }

  /** A count of minutes that grows with the instant, as a `Date`'s timestamp does
      (months are given 31 days each so that the count never decreases). */
  function Minutes(a: Instant): int
  {
    ((((a.date.year * 12 + (a.date.month - 1)) * 31 + (a.date.day - 1)) * 24
      + a.time.hour) * 60) + a.time.minute
  }

  /** On in-range instants the lexicographic order is the order of the timestamps,
      so it is the order `dateA - dateB` sorts by. */
  lemma BeforeIffEarlierTimestamp(a: Instant, b: Instant)
    requires InRange(a) && InRange(b)
    ensures Before(a, b) <==> Minutes(a) < Minutes(b)
  {
    var (x, y) := (a.date, b.date);
    var da := (x.year * 12 + (x.month - 1)) * 31 + (x.day - 1);
    var db := (y.year * 12 + (y.month - 1)) * 31 + (y.day - 1);
    assert Minutes(a) == (da * 24 + a.time.hour) * 60 + a.time.minute;
    assert Minutes(b) == (db * 24 + b.time.hour) * 60 + b.time.minute;
    assert x.year < y.year ==> da < db;
    assert x.year == y.year && x.month < y.month ==> da < db;
    assert x.year == y.year && x.month == y.month && x.day < y.day ==> da < db;
    assert da == db ==> x == y;
  }

  /** Non-decreasing by instant: no event comes after a strictly later one. */
  ghost predicate Chronological(s: seq<Event>)
  {
    forall i, j :: 0 <= i < j < |s| ==> !Before(InstantOf(s[j]), InstantOf(s[i]))
  }

  // ---------------------------------------------------------------------------
  // Identity

  function Ids(s: seq<Event>): (r: set<int>)
    ensures forall e :: e in s ==> e.id in r
    ensures forall id :: id in r ==> exists e :: e in s && e.id == id
  {
    set e | e in s :: e.id
  }

  /** No two events of the list share an id. */
  ghost predicate UniqueIds(s: seq<Event>)
  {
    forall i, j :: 0 <= i < j < |s| ==> s[i].id != s[j].id
  }

  /** The four events the dashboard starts with. */
  function InitialEvents(): (s: seq<Event>)
    ensures |s| == 4 && UniqueIds(s)
  {
    [ Event(1, "Team Meeting", Date(2024, 3, 26), Time(14, 0),
            "Weekly team sync-up", Medium, false),
      Event(2, "Client Presentation", Date(2024, 3, 28), Time(10, 30),
            "Q1 project review", High, false),
      Event(3, "Project Deadline", Date(2024, 4, 5), Time(18, 0),
            "Final submission for Q1 project", High, false),
      Event(4, "Training Session", Date(2024, 3, 24), Time(9, 0),
            "New tools onboarding", Low, true) ]
  }
}
