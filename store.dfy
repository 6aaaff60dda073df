/** The store commands of the dashboard: delete, toggle completion, and the two
    halves of save (edit in place, create at the end). Each is a function from the
    old list of events to the new one. */
module Store {
  import opened Events
  import opened Seqs
  import opened Wrappers
  import opened Sorter

  function NotId(id: int): Event -> bool
  {
    (e: Event) => e.id != id
  }

  /** Delete: the events whose id differs from `id`, in their order. */
  function Delete(s: seq<Event>, id: int): (r: seq<Event>)
    ensures forall e :: e in r ==> e in s && e.id != id
    ensures forall e :: e in s && e.id != id ==> e in r
    ensures id !in Ids(r)
    ensures IsSubsequence(r, s)
  {
    FilterMembers(s, NotId(id));
    FilterIsSubsequence(s, NotId(id));
    Filter(s, NotId(id))
  }

  /** Every event with another id keeps each of its occurrences. */
  lemma DeleteCount(s: seq<Event>, id: int, e: Event)
    ensures multiset(Delete(s, id))[e] == if e.id == id then 0 else multiset(s)[e]
  {
    FilterCount(s, NotId(id), e);
  }

  /** Deleting an id that no event has is a no-op. */
  lemma DeleteAbsent(s: seq<Event>, id: int)
    requires id !in Ids(s)
    ensures Delete(s, id) == s
  {
    FilterKeepsAll(s, NotId(id));
  }

  /** Deleting twice is deleting once. */
  lemma DeleteIdempotent(s: seq<Event>, id: int)
    ensures Delete(Delete(s, id), id) == Delete(s, id)
  {
    DeleteAbsent(Delete(s, id), id);
  }

  /** The event with `id` switched between done and not done. */
  function Toggled(e: Event, id: int): Event
  {
    if e.id == id then e.(completed := !e.completed) else e
  }

  /** Toggle: every event with id `id` has its completed flag flipped; the others
      stay as they are, each in its place. */
  function Toggle(s: seq<Event>, id: int): (r: seq<Event>)
    ensures |r| == |s|
    ensures forall i :: 0 <= i < |s| && s[i].id != id ==> r[i] == s[i]
    ensures forall i :: 0 <= i < |s| && s[i].id == id ==>
              r[i].completed != s[i].completed && r[i].(completed := s[i].completed) == s[i]
  {
    seq(|s|, i requires 0 <= i < |s| => Toggled(s[i], id))
  }

  /** Toggling twice restores the list. */
  lemma ToggleTwice(s: seq<Event>, id: int)
    ensures Toggle(Toggle(s, id), id) == s
  {
  }

  lemma ToggleCons(x: Event, t: seq<Event>, id: int)
    ensures Toggle([x] + t, id) == [Toggled(x, id)] + Toggle(t, id)
  {
    var l, r := Toggle([x] + t, id), [Toggled(x, id)] + Toggle(t, id);
    assert |l| == |r|;
    forall i | 0 <= i < |l|
      ensures l[i] == r[i]
    {
      if i > 0 {
        assert ([x] + t)[i] == t[i - 1];
      }
    }
  }

  lemma {:induction false} InsertToggle(x: Event, t: seq<Event>, id: int)
    ensures Insert(Toggled(x, id), Toggle(t, id)) == Toggle(Insert(x, t), id)
  {
    var x', t' := Toggled(x, id), Toggle(t, id);
    if t == [] {
      assert Insert(x, t) == [x] + t;
      ToggleCons(x, t, id);
    } else if !Before(InstantOf(t[0]), InstantOf(x)) {
      assert Insert(x, t) == [x] + t;
      ToggleCons(x, t, id);
    } else {
      assert t == [t[0]] + t[1..];
      ToggleCons(t[0], t[1..], id);
      InsertToggle(x, t[1..], id);
      ToggleCons(t[0], Insert(x, t[1..]), id);
    }
  }

  /** Toggling changes no instant, so it leaves every event where it was in the
      chronological order: sorting the toggled list is toggling the sorted list. */
  lemma {:induction false} ToggleKeepsSortedPosition(s: seq<Event>, id: int)
    ensures SortedEvents(Toggle(s, id)) == Toggle(SortedEvents(s), id)
  {
    if s != [] {
      assert s == [s[0]] + s[1..];
      ToggleCons(s[0], s[1..], id);
      ToggleKeepsSortedPosition(s[1..], id);
      InsertToggle(s[0], SortedEvents(s[1..]), id);
    }
  }

  /** Toggling keeps every id, so it keeps ids unique. */
  lemma ToggleKeepsIds(s: seq<Event>, id: int)
    ensures Ids(Toggle(s, id)) == Ids(s)
    ensures UniqueIds(s) ==> UniqueIds(Toggle(s, id))
  {
    MapsKeepIds(s, id, Details("", Date(0, 1, 1), Time(0, 0), "", Low, false));
  }

  /** The edited event: the saved details under the id the form was opened for. */
  function Edited(e: Event, id: int, d: Details): Event
  {
    if e.id == id then Stamp(d, id) else e
  }

  /** Edit: every event with id `id` is replaced by the saved details under that id;
      the others stay as they are, each in its place. */
  function Edit(s: seq<Event>, id: int, d: Details): (r: seq<Event>)
    ensures |r| == |s|
    ensures forall i :: 0 <= i < |s| && s[i].id != id ==> r[i] == s[i]
    ensures forall i :: 0 <= i < |s| && s[i].id == id ==> r[i].id == id && DetailsOf(r[i]) == d
  {
    seq(|s|, i requires 0 <= i < |s| => Edited(s[i], id, d))
  }

  /** Saving twice in a row is saving once, and a second save overrides the first. */
  lemma EditOverrides(s: seq<Event>, id: int, d1: Details, d2: Details)
    ensures Edit(Edit(s, id, d1), id, d2) == Edit(s, id, d2)
  {
  }

  /** Saving an event's own details back under its id leaves a list with unique ids unchanged. */
  lemma EditUnchangedIsNoOp(s: seq<Event>, e: Event)
    requires UniqueIds(s) && e in s
    ensures Edit(s, e.id, DetailsOf(e)) == s
  {
    var k :| 0 <= k < |s| && s[k] == e;
    forall i | 0 <= i < |s|
      ensures Edit(s, e.id, DetailsOf(e))[i] == s[i]
    {
      // only position k carries e's id
    }
  }

  /** The event create appends: the saved details with `completed: false`, under
      the clock value `now` (`Date.now()`). */
  function Created(d: Details, now: int): (e: Event)
    ensures e.id == now && !e.completed
    ensures DetailsOf(e) == d.(completed := false)
  {
    Stamp(d.(completed := false), now)
  }

  /** Create: the old events followed by the new one. */
  function Create(s: seq<Event>, d: Details, now: int): (r: seq<Event>)
    ensures |r| == |s| + 1 && r[..|s|] == s
    ensures r[|s|] == Created(d, now)
  {
    s + [Created(d, now)]
  }

  /** Creating with a fresh id and then deleting that id gives back the list. */
  lemma CreateThenDelete(s: seq<Event>, d: Details, now: int)
    requires now !in Ids(s)
    ensures Delete(Create(s, d, now), now) == s
  {
    FilterAppend(s, [Created(d, now)], NotId(now));
    FilterCons(Created(d, now), [], NotId(now));
    DeleteAbsent(s, now);
  }

  /** `handleSaveEvent`: edit under the id of the event the form was opened for,
      or create when it was opened for a new event. An edit keeps the number of
      events and replaces only events with the bound id; a create keeps every old
      event in place and adds the new one at the end. */
  function Save(s: seq<Event>, current: Option<Event>, d: Details, now: int): (r: seq<Event>)
    ensures current.Some? ==> |r| == |s|
    ensures current.Some? ==> forall i :: 0 <= i < |s| && s[i].id != current.value.id ==> r[i] == s[i]
    ensures current.Some? ==> forall i :: 0 <= i < |s| && s[i].id == current.value.id ==>
              r[i].id == current.value.id && DetailsOf(r[i]) == d
    ensures current.None? ==> |r| == |s| + 1 && r[..|s|] == s && r[|s|] == Created(d, now)
  {
    match current
    case Some(e) => Edit(s, e.id, d)
    case None => Create(s, d, now)
  }

  // ---------------------------------------------------------------------------
  // Identity

  /** Editing and toggling keep every id where it was. */
  lemma MapsKeepIds(s: seq<Event>, id: int, d: Details)
    ensures forall i :: 0 <= i < |s| ==> Toggle(s, id)[i].id == s[i].id && Edit(s, id, d)[i].id == s[i].id
    ensures Ids(Toggle(s, id)) == Ids(s) && Ids(Edit(s, id, d)) == Ids(s)
  {
    var t, u := Toggle(s, id), Edit(s, id, d);
    forall x | x in Ids(s)
      ensures x in Ids(t) && x in Ids(u)
    {
      var e :| e in s && e.id == x;
      var i :| 0 <= i < |s| && s[i] == e;
      assert t[i] in t && u[i] in u;
    }
    forall x | x in Ids(t)
      ensures x in Ids(s)
    {
      var e :| e in t && e.id == x;
      var i :| 0 <= i < |t| && t[i] == e;
      assert s[i] in s;
    }
    forall x | x in Ids(u)
      ensures x in Ids(s)
    {
      var e :| e in u && e.id == x;
      var i :| 0 <= i < |u| && u[i] == e;
      assert s[i] in s;
    }
  }

  /** Every command keeps ids unique, create provided the clock value is not in use. */
  lemma CommandsKeepIdsUnique(s: seq<Event>, id: int, d: Details, now: int)
    requires UniqueIds(s)
    ensures UniqueIds(Delete(s, id))
    ensures UniqueIds(Toggle(s, id))
    ensures UniqueIds(Edit(s, id, d))
    ensures now !in Ids(s) ==> UniqueIds(Create(s, d, now))
  {
    MapsKeepIds(s, id, d);
    SubsequenceUniqueIds(Delete(s, id), s);
    if now !in Ids(s) {
      var r := Create(s, d, now);
      forall i, j | 0 <= i < j < |r|
        ensures r[i].id != r[j].id
      {
        if j == |s| {
          assert r[i] == s[i] && s[i] in s;
        } else {
          assert r[i] == s[i] && r[j] == s[j];
        }
      }
    }
  }

  /** Saving an edit keeps the set of ids; saving a new event adds the clock value
      `now` to it. With unique ids before, ids stay unique, for a new event provided
      `now` is not in use yet. */
  lemma SaveKeepsIds(s: seq<Event>, current: Option<Event>, d: Details, now: int)
    ensures current.Some? ==> Ids(Save(s, current, d, now)) == Ids(s)
    ensures current.None? ==> Ids(Save(s, current, d, now)) == Ids(s) + {now}
    ensures UniqueIds(s) && (current.Some? || now !in Ids(s)) ==> UniqueIds(Save(s, current, d, now))
  {
    match current
    case Some(e) =>
      MapsKeepIds(s, e.id, d);
      if UniqueIds(s) {
        CommandsKeepIdsUnique(s, e.id, d, now);
      }
    case None =>
      var r := Create(s, d, now);
      assert r[|s|] in r;
      forall x | x in Ids(r)
        ensures x in Ids(s) + {now}
      {
        var e :| e in r && e.id == x;
        var i :| 0 <= i < |r| && r[i] == e;
        if i < |s| {
          assert r[i] == s[i] && s[i] in s;
        }
      }
      forall x | x in Ids(s)
        ensures x in Ids(r)
      {
        var e :| e in s && e.id == x;
        var i :| 0 <= i < |s| && s[i] == e;
        assert r[i] == e;
      }
      if UniqueIds(s) && now !in Ids(s) {
        CommandsKeepIdsUnique(s, 0, d, now);
      }
  }

  lemma {:induction false} SubsequenceUniqueIds(a: seq<Event>, b: seq<Event>)
    requires IsSubsequence(a, b) && UniqueIds(b)
    ensures UniqueIds(a)
    decreases |b|
  {
    if a != [] {
      var b' := b[1..];
      assert UniqueIds(b') by {
        forall i, j | 0 <= i < j < |b'|
          ensures b'[i].id != b'[j].id
        {
          assert b'[i] == b[i + 1] && b'[j] == b[j + 1];
        }
      }
      if a[0] == b[0] {
        SubsequenceUniqueIds(a[1..], b');
        SubsequenceMembers(a[1..], b');
        forall i, j | 0 <= i < j < |a|
          ensures a[i].id != a[j].id
        {
          assert a[j] == a[1..][j - 1];
          if i == 0 {
            assert a[j] in a[1..];
            var m :| 0 <= m < |b'| && b'[m] == a[j];
            assert b[m + 1] == a[j];
          } else {
            assert a[i] == a[1..][i - 1];
          }
        }
      } else {
        SubsequenceUniqueIds(a, b');
      }
    }
  }
}
