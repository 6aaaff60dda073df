/** The query engine: the views the dashboard derives from the sorted events, in
    the fixed order text search, then priority filter, then the upcoming/completed split. */
module Query {
  import opened Events
  import opened Seqs
  import opened Sorter

  // ---------------------------------------------------------------------------
  // Case-insensitive substring search

  /** `toLowerCase` on one character, for the ASCII letters A to Z: no capital
      remains, a capital becomes the small letter at the same place in the
      alphabet, and every other character is kept. */
  function LowerChar(c: char): (r: char)
    ensures !('A' <= r <= 'Z')
    ensures ('a' <= r <= 'z') <==> ('a' <= c <= 'z' || 'A' <= c <= 'Z')
    ensures 'A' <= c <= 'Z' ==> r as int - 'a' as int == c as int - 'A' as int
    ensures !('A' <= c <= 'Z') ==> r == c
  {
    if 'A' <= c <= 'Z' then (c as int + 32) as char else c
  }

  function Lower(s: string): (r: string)
    ensures |r| == |s|
    ensures forall i :: 0 <= i < |s| ==> r[i] == LowerChar(s[i])
  {
    seq(|s|, i requires 0 <= i < |s| => LowerChar(s[i]))
  }

  /** Lowercasing twice is lowercasing once. */
  lemma LowerIdempotent(s: string)
    ensures Lower(Lower(s)) == Lower(s)
  {
  }

  /** The capitals are lowercased letter by letter. */
  lemma LowerAlphabet()
    ensures Lower("ABCDEFGHIJKLMNOPQRSTUVWXYZ") == "abcdefghijklmnopqrstuvwxyz"
  {
  }

  /** Two characters that are the same letter, one of them perhaps capital, or
      the same other character. */
  predicate SameIgnoringCase(c: char, d: char)
  {
    c == d
    || ('A' <= c <= 'Z' && 'a' <= d <= 'z' && c as int - 'A' as int == d as int - 'a' as int)
    || ('a' <= c <= 'z' && 'A' <= d <= 'Z' && c as int - 'a' as int == d as int - 'A' as int)
  }

  /** Two strings that differ at most in the case of their letters. */
  predicate EqualIgnoringCase(a: string, b: string)
  {
    |a| == |b| && forall i :: 0 <= i < |a| ==> SameIgnoringCase(a[i], b[i])
  }

  /** Lowercasing identifies exactly the strings that differ only in letter case. */
  lemma LowerIffEqualIgnoringCase(a: string, b: string)
    ensures Lower(a) == Lower(b) <==> EqualIgnoringCase(a, b)
  {
    if Lower(a) == Lower(b) {
      forall i | 0 <= i < |a|
        ensures SameIgnoringCase(a[i], b[i])
      {
        assert LowerChar(a[i]) == Lower(a)[i] == Lower(b)[i] == LowerChar(b[i]);
      }
    }
    if EqualIgnoringCase(a, b) {
      forall i | 0 <= i < |a|
        ensures Lower(a)[i] == Lower(b)[i]
      {
        assert SameIgnoringCase(a[i], b[i]);
      }
    }
  }

  predicate StartsWith(s: string, prefix: string)
  {
    |prefix| <= |s| && s[..|prefix|] == prefix
  }

  /** `includes`: some suffix of `s` starts with `q`. A text holds only queries no
      longer than itself, and holds every prefix of itself. */
  predicate Contains(s: string, q: string): (r: bool)
    ensures r ==> |q| <= |s|
    ensures StartsWith(s, q) ==> r
    decreases |s|
  {
    StartsWith(s, q) || (s != [] && Contains(s[1..], q))
  }

  /** `q` occurs in `s` starting at position `i`. */
  predicate OccursAt(s: string, q: string, i: int)
  {
    0 <= i <= |s| - |q| && s[i..i + |q|] == q
  }

  /** `Contains` means: `q` occurs in `s` at some position. */
  lemma {:induction false} ContainsIffOccurs(s: string, q: string)
    ensures Contains(s, q) <==> exists i :: OccursAt(s, q, i)
    decreases |s|
  {
    if s != [] {
      ContainsIffOccurs(s[1..], q);
    }
    if Contains(s, q) {
      if StartsWith(s, q) {
        assert OccursAt(s, q, 0);
      } else {
        var i :| OccursAt(s[1..], q, i);
        assert s[1..][i..i + |q|] == s[i + 1..i + 1 + |q|];
        assert OccursAt(s, q, i + 1);
      }
    }
    if i :| OccursAt(s, q, i) {
      if i == 0 {
        assert s[..|q|] == s[0..|q|];
      } else {
        assert s[1..][i - 1..i - 1 + |q|] == s[i..i + |q|];
        assert OccursAt(s[1..], q, i - 1);
      }
    }
  }

  /** The empty string occurs in every string. */
  lemma ContainsEmpty(s: string)
    ensures Contains(s, "")
  {
    assert StartsWith(s, "");
  }

  /** The lowercased query occurs in the lowercased title or in the lowercased
      description. The empty query matches every event, and a matching query is no
      longer than the title or the description it occurs in. */
  predicate MatchesSearch(e: Event, query: string): (r: bool)
    ensures query == "" ==> r
    ensures r ==> |query| <= |e.title| || |query| <= |e.description|
  {
    ContainsEmpty(Lower(e.title));
    Contains(Lower(e.title), Lower(query)) || Contains(Lower(e.description), Lower(query))
  }

  function SearchPredicate(query: string): Event -> bool
  {
    (e: Event) => MatchesSearch(e, query)
  }

  /** `filteredEvents`: the events of `s` whose title or description contains the
      query, ignoring case, in the order of `s`. */
  function SearchFiltered(s: seq<Event>, query: string): (r: seq<Event>)
    ensures forall e :: e in r ==> e in s && MatchesSearch(e, query)
    ensures forall e :: e in s && MatchesSearch(e, query) ==> e in r
    ensures IsSubsequence(r, s)
  {
    FilterMembers(s, SearchPredicate(query));
    FilterIsSubsequence(s, SearchPredicate(query));
    Filter(s, SearchPredicate(query))
  }

  /** An empty search box keeps every event. */
  lemma SearchEmptyKeepsAll(s: seq<Event>)
    ensures SearchFiltered(s, "") == s
  {
    forall e | e in s
      ensures SearchPredicate("")(e)
    {
      ContainsEmpty(Lower(e.title));
    }
    FilterKeepsAll(s, SearchPredicate(""));
  }

  /** The case of the query does not matter: searching for it and for its
      lowercase form select the same events. */
  lemma SearchIgnoresQueryCase(s: seq<Event>, query: string)
    ensures SearchFiltered(s, query) == SearchFiltered(s, Lower(query))
  {
    LowerIdempotent(query);
    FilterExtensional(s, SearchPredicate(query), SearchPredicate(Lower(query)));
  }

  /** Queries that differ only in letter case select the same events. */
  lemma SearchCaseInsensitive(s: seq<Event>, q1: string, q2: string)
    requires EqualIgnoringCase(q1, q2)
    ensures SearchFiltered(s, q1) == SearchFiltered(s, q2)
  {
    LowerIffEqualIgnoringCase(q1, q2);
    FilterExtensional(s, SearchPredicate(q1), SearchPredicate(q2));
  }

  // ---------------------------------------------------------------------------
  // Priority filter

  /** The priority select: `"all"` or one of the three priorities. */
  datatype PriorityFilter = All | Only(level: Priority)

  function HasPriority(level: Priority): Event -> bool
  {
    (e: Event) => e.priority == level
  }

  /** `priorityFilteredEvents`. */
  function PriorityFiltered(s: seq<Event>, f: PriorityFilter): (r: seq<Event>)
    ensures f == All ==> r == s
    ensures f.Only? ==> forall e :: e in r ==> e in s && e.priority == f.level
    ensures f.Only? ==> forall e :: e in s && e.priority == f.level ==> e in r
    ensures IsSubsequence(r, s)
  {
    match f
    case All =>
      SubsequenceReflexive(s);
      s
    case Only(level) =>
      FilterMembers(s, HasPriority(level));
      FilterIsSubsequence(s, HasPriority(level));
      Filter(s, HasPriority(level))
  }

  // ---------------------------------------------------------------------------
  // Upcoming / completed

  predicate IsPending(e: Event) { !e.completed }

  predicate IsDone(e: Event) { e.completed }

  /** `upcomingEvents`: the events not marked completed, in order. */
  function Upcoming(s: seq<Event>): (r: seq<Event>)
    ensures forall e :: e in r ==> e in s && !e.completed
    ensures forall e :: e in s && !e.completed ==> e in r
    ensures IsSubsequence(r, s)
  {
    FilterMembers(s, IsPending);
    FilterIsSubsequence(s, IsPending);
    Filter(s, IsPending)
  }

  /** `completedEvents`: the events marked completed, in order. */
  function Completed(s: seq<Event>): (r: seq<Event>)
    ensures forall e :: e in r ==> e in s && e.completed
    ensures forall e :: e in s && e.completed ==> e in r
    ensures IsSubsequence(r, s)
  {
    FilterMembers(s, IsDone);
    FilterIsSubsequence(s, IsDone);
    Filter(s, IsDone)
  }

  /** The two tabs split a list: every event lands in exactly one of them, as
      often as it occurs in the list, and the lengths add up. */
  lemma PartitionComplete(s: seq<Event>)
    ensures |Upcoming(s)| + |Completed(s)| == |s|
    ensures multiset(Upcoming(s)) + multiset(Completed(s)) == multiset(s)
    ensures forall e :: e in s ==> (e in Upcoming(s) <==> !e.completed)
    ensures forall e :: e in s ==> (e in Completed(s) <==> e.completed)
  {
    FilterSplit(s, IsPending, IsDone);
  }

  // ---------------------------------------------------------------------------
  // The pipeline

  /** What the two event tabs show for the given store, search box and priority select. */
  datatype Tabs = Tabs(upcoming: seq<Event>, completed: seq<Event>)

  /** Sort, then search, then the priority filter, then the split. The tabs never
      hold more events than the store; with an empty search box and "all" they hold
      every event of the store, each on exactly one tab. */
  function Views(events: seq<Event>, query: string, f: PriorityFilter): (r: Tabs)
    ensures |r.upcoming| + |r.completed| <= |events|
    ensures query == "" && f == All ==> |r.upcoming| + |r.completed| == |events|
  {
    var shown := PriorityFiltered(SearchFiltered(SortedEvents(events), query), f);
    PartitionComplete(shown);
    SearchEmptyKeepsAll(SortedEvents(events));
    Tabs(Upcoming(shown), Completed(shown))
  }

  /** With an empty search box the tabs split the priority-filtered sorted list. */
  lemma ViewsWithoutSearch(events: seq<Event>, f: PriorityFilter)
    ensures Views(events, "", f)
         == Tabs(Upcoming(PriorityFiltered(SortedEvents(events), f)),
                 Completed(PriorityFiltered(SortedEvents(events), f)))
  {
    SearchEmptyKeepsAll(SortedEvents(events));
  }

  /** Both tabs are in chronological order. */
  lemma ViewsChronological(events: seq<Event>, query: string, f: PriorityFilter)
    ensures Chronological(Views(events, query, f).upcoming)
    ensures Chronological(Views(events, query, f).completed)
  {
    var sorted := SortedEvents(events);
    var found := SearchFiltered(sorted, query);
    var shown := PriorityFiltered(found, f);
    SortedEventsChronological(events);
    SubsequenceChronological(found, sorted);
    SubsequenceChronological(shown, found);
    SubsequenceChronological(Upcoming(shown), shown);
    SubsequenceChronological(Completed(shown), shown);
  }

  predicate Selected(e: Event, query: string, f: PriorityFilter)
  {
    MatchesSearch(e, query) && (f == All || e.priority == f.level)
  }

  /** The filters compose: an event of the store is on a tab exactly when it matches
      the search and the priority filter, and it is on the tab its flag names. */
  lemma ViewsExact(events: seq<Event>, query: string, f: PriorityFilter, e: Event)
    ensures e in Views(events, query, f).upcoming <==> e in events && Selected(e, query, f) && !e.completed
    ensures e in Views(events, query, f).completed <==> e in events && Selected(e, query, f) && e.completed
  {
    var sorted := SortedEvents(events);
    assert e in sorted <==> e in events by {
      SortedEventsPermutes(events);
      assert e in sorted <==> e in multiset(sorted);
    }
  }

  /** Every event that passes both filters is counted once across the two tabs
      for each time it occurs in the store. */
  lemma ViewsCount(events: seq<Event>, query: string, f: PriorityFilter, e: Event)
    ensures multiset(Views(events, query, f).upcoming)[e] + multiset(Views(events, query, f).completed)[e]
         == if Selected(e, query, f) then multiset(events)[e] else 0
  {
    var sorted := SortedEvents(events);
    var found := SearchFiltered(sorted, query);
    var shown := PriorityFiltered(found, f);
    PartitionComplete(shown);
    SortedEventsPermutes(events);
    FilterCount(sorted, SearchPredicate(query), e);
    if f.Only? {
      FilterCount(found, HasPriority(f.level), e);
    }
  }
}
