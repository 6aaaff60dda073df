/** The dashboard's seed events worked through the views and commands. */
module Scenarios {
  import opened Events
  import opened Wrappers
  import opened Sorter
  import opened Query
  import opened Calendar
  import Store

  function Meeting(): Event { InitialEvents()[0] }
  function Presentation(): Event { InitialEvents()[1] }
  function Deadline(): Event { InitialEvents()[2] }
  function Training(): Event { InitialEvents()[3] }

  lemma SortOne(t: Event)
    ensures SortedEvents([t]) == [t]
  {
    var e: seq<Event> := [];
    assert [t] + e == [t];
    SortedEventsCons(t, e);
    InsertInFront(t, e);
  }

  lemma SortTwo(d: Event, t: Event)
    requires Before(InstantOf(t), InstantOf(d))
    ensures SortedEvents([d, t]) == [t, d]
  {
    var e: seq<Event> := [];
    assert [d] + [t] == [d, t] && [t] + e == [t] && [t] + [d] == [t, d];
    SortOne(t);
    SortedEventsCons(d, [t]);
    InsertBehind(d, t, e);
    InsertInFront(d, e);
  }

  lemma SortThree(p: Event, d: Event, t: Event)
    requires Before(InstantOf(t), InstantOf(d)) && Before(InstantOf(t), InstantOf(p))
    requires !Before(InstantOf(d), InstantOf(p))
    ensures SortedEvents([p, d, t]) == [t, p, d]
  {
    assert [p] + [d, t] == [p, d, t] && [t] + [d] == [t, d];
    assert [p] + [d] == [p, d] && [t] + [p, d] == [t, p, d];
    SortTwo(d, t);
    SortedEventsCons(p, [d, t]);
    InsertBehind(p, t, [d]);
    InsertInFront(p, [d]);
  }

  /** Four events on the days of the seeds (the training on 24 March at 09:00, the
      meeting on 26 March, the presentation on 28 March at 10:30, the deadline on
      5 April at 18:00), given in the store order m, p, d, t, come out sorted as
      t, m, p, d, whatever the meeting's time. */
  lemma SortFour(m: Event, p: Event, d: Event, t: Event)
    requires InstantOf(t) == Instant(Date(2024, 3, 24), Time(9, 0))
    requires m.date == Date(2024, 3, 26)
    requires InstantOf(p) == Instant(Date(2024, 3, 28), Time(10, 30))
    requires InstantOf(d) == Instant(Date(2024, 4, 5), Time(18, 0))
    ensures SortedEvents([m, p, d, t]) == [t, m, p, d]
  {
    SortThree(p, d, t);
    assert [m, p, d, t] == [m] + [p, d, t];
    SortedEventsCons(m, [p, d, t]);
    assert [t, p, d] == [t] + [p, d];
    InsertSecond(m, t, [p, d]);
    assert [t, m] + [p, d] == [t, m, p, d];
  }

  lemma InsertSecond(m: Event, t: Event, rest: seq<Event>)
    requires Before(InstantOf(t), InstantOf(m))
    requires rest == [] || !Before(InstantOf(rest[0]), InstantOf(m))
    ensures Insert(m, [t] + rest) == [t, m] + rest
  {
    InsertBehind(m, t, rest);
    InsertInFront(m, rest);
  }

  /** The sorted view of the seed events puts the training (24 March) first and
      the deadline (5 April) last. */
  lemma SeedSorted()
    ensures SortedEvents(InitialEvents()) == [Training(), Meeting(), Presentation(), Deadline()]
  {
    var m, p, d, t := Meeting(), Presentation(), Deadline(), Training();
    assert InitialEvents() == [m, p, d, t];
    SortFour(m, p, d, t);
  }

  function Keep(x: Event, p: Event -> bool): seq<Event>
  {
    if p(x) then [x] else []
  }

  lemma FilterOfFour(a: Event, b: Event, c: Event, d: Event, p: Event -> bool)
    ensures Seqs.Filter([a, b, c, d], p) == Keep(a, p) + Keep(b, p) + Keep(c, p) + Keep(d, p)
  {
    var e: seq<Event> := [];
    assert [a, b, c, d] == [a] + [b, c, d] && [b, c, d] == [b] + [c, d];
    assert [c, d] == [c] + [d] && [d] == [d] + e;
    Seqs.FilterCons(a, [b, c, d], p);
    Seqs.FilterCons(b, [c, d], p);
    Seqs.FilterCons(c, [d], p);
    Seqs.FilterCons(d, e, p);
  }

  /** The priority select on "high" over the sorted seed events. */
  lemma HighOfSorted(t: Event, m: Event, p: Event, d: Event)
    requires t.priority == Low && m.priority == Medium && p.priority == High && d.priority == High
    ensures PriorityFiltered([t, m, p, d], Only(High)) == [p, d]
  {
    var sel := HasPriority(High);
    FilterOfFour(t, m, p, d, sel);
    assert Keep(t, sel) == [] && Keep(m, sel) == [];
    assert Keep(p, sel) == [p] && Keep(d, sel) == [d];
  }

  lemma TabsOfPair(p: Event, d: Event)
    requires !p.completed && !d.completed
    ensures Upcoming([p, d]) == [p, d] && Completed([p, d]) == []
  {
    Seqs.FilterKeepsAll([p, d], IsPending);
    var e: seq<Event> := [];
    assert [p, d] == [p] + [d] && [d] == [d] + e;
    Seqs.FilterCons(p, [d], IsDone);
    Seqs.FilterCons(d, e, IsDone);
  }

  lemma TabsOfFour(t: Event, m: Event, p: Event, d: Event)
    requires t.completed && !m.completed && !p.completed && !d.completed
    ensures Upcoming([t, m, p, d]) == [m, p, d] && Completed([t, m, p, d]) == [t]
  {
    FilterOfFour(t, m, p, d, IsPending);
    assert Keep(t, IsPending) == [] && Keep(m, IsPending) == [m];
    assert Keep(p, IsPending) == [p] && Keep(d, IsPending) == [d];
    FilterOfFour(t, m, p, d, IsDone);
    assert Keep(t, IsDone) == [t] && Keep(m, IsDone) == [];
    assert Keep(p, IsDone) == [] && Keep(d, IsDone) == [];
  }

  /** With an empty search box, the priority select on "high" shows the client
      presentation and the project deadline, in that order, both upcoming; with
      "all" the completed tab holds only the training session. */
  lemma SeedTabs()
    ensures Views(InitialEvents(), "", Only(High)) == Tabs([Presentation(), Deadline()], [])
    ensures Views(InitialEvents(), "", All) == Tabs([Meeting(), Presentation(), Deadline()], [Training()])
  {
    var m, p, d, t := Meeting(), Presentation(), Deadline(), Training();
    assert t.priority == Low && m.priority == Medium && p.priority == High && d.priority == High;
    assert t.completed && !m.completed && !p.completed && !d.completed;
    SeedSorted();
    ViewsWithoutSearch(InitialEvents(), Only(High));
    ViewsWithoutSearch(InitialEvents(), All);
    HighOfSorted(t, m, p, d);
    TabsOfPair(p, d);
    TabsOfFour(t, m, p, d);
  }

  /** Marking the client presentation (id 2) done leaves it third in the
      chronological order. */
  lemma SeedTogglePresentationSorted()
    ensures SortedEvents(Store.Toggle(InitialEvents(), 2))
         == [Training(), Meeting(), Presentation().(completed := true), Deadline()]
  {
    var m, p, d, t := Meeting(), Presentation(), Deadline(), Training();
    SeedSorted();
    Store.ToggleKeepsSortedPosition(InitialEvents(), 2);
    ToggleThird(t, m, p, d);
  }

  lemma ToggleThird(a: Event, b: Event, c: Event, d: Event)
    requires a.id != c.id && b.id != c.id && d.id != c.id
    ensures Store.Toggle([a, b, c, d], c.id) == [a, b, c.(completed := !c.completed), d]
  {
    var l, r := Store.Toggle([a, b, c, d], c.id), [a, b, c.(completed := !c.completed), d];
    assert |l| == |r| == 4;
    assert l[0] == r[0] && l[1] == r[1] && l[2] == r[2] && l[3] == r[3];
  }

  /** Marking the presentation done also moves it from the upcoming tab to the completed tab. */
  lemma SeedTogglePresentationTab()
    ensures Presentation().(completed := true) in Views(Store.Toggle(InitialEvents(), 2), "", All).completed
    ensures Presentation().(completed := true) !in Views(Store.Toggle(InitialEvents(), 2), "", All).upcoming
  {
    var p' := Presentation().(completed := true);
    var toggled := Store.Toggle(InitialEvents(), 2);
    assert toggled[1] == p';
    ContainsEmpty(Lower(p'.title));
    ViewsExact(toggled, "", All, p');
  }

  /** Searching for "TEAM" in capitals finds the team meeting, as "team" does. */
  lemma SeedSearchCapitals()
    ensures Meeting() in SearchFiltered(InitialEvents(), "TEAM")
    ensures SearchFiltered(InitialEvents(), "TEAM") == SearchFiltered(InitialEvents(), "team")
  {
    var m := Meeting();
    assert m in InitialEvents();
    assert Lower("TEAM") == "team";
    assert Lower(m.title)[..4] == "team";
    assert MatchesSearch(m, "TEAM");
    assert EqualIgnoringCase("TEAM", "team");
    SearchCaseInsensitive(InitialEvents(), "TEAM", "team");
  }

  /** Moving the team meeting (id 1) from 14:00 to 09:00 on the same day keeps the
      chronological order: it is still second, after the training of 24 March. */
  lemma SeedEditMeetingTime()
    ensures SortedEvents(Store.Edit(InitialEvents(), 1, DetailsOf(Meeting()).(time := Time(9, 0))))
         == [Training(), Meeting().(time := Time(9, 0)), Presentation(), Deadline()]
  {
    var m, p, d, t := Meeting(), Presentation(), Deadline(), Training();
    var m' := m.(time := Time(9, 0));
    assert Store.Edit(InitialEvents(), 1, DetailsOf(m).(time := Time(9, 0))) == [m', p, d, t] by {
      assert m.id == 1 && p.id == 2 && d.id == 3 && t.id == 4;
      assert InitialEvents() == [m, p, d, t];
    }
    SortFour(m', p, d, t);
  }

  /** The calendar shows the team meeting on 26 March 2024 and nothing on the 27th. */
  lemma SeedCalendar(today: Date)
    ensures EventsOn(InitialEvents(), Some(Date(2024, 3, 26)), today) == [Meeting()]
    ensures EventsOn(InitialEvents(), Some(Date(2024, 3, 27)), today) == []
  {
    var m, p, d, t := Meeting(), Presentation(), Deadline(), Training();
    assert InitialEvents() == [m, p, d, t];
    var on26, on27 := OnDate(Date(2024, 3, 26)), OnDate(Date(2024, 3, 27));
    FilterOfFour(m, p, d, t, on26);
    assert Keep(m, on26) == [m] && Keep(p, on26) == [] && Keep(d, on26) == [] && Keep(t, on26) == [];
    FilterOfFour(m, p, d, t, on27);
    assert Keep(m, on27) == [] && Keep(p, on27) == [] && Keep(d, on27) == [] && Keep(t, on27) == [];
  }
}
