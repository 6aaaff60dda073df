/** The chronological sorter: a copy of the store sorted by the instant of each
    event, earliest first. `Array.prototype.sort` is required to be stable from
    the 2019 edition of ECMAScript on, so
    the model is a stable insertion sort by instant, and what is proved of it is
    what the library promises: a permutation, non-decreasing, ties in input order. */
module Sorter {
  import opened Events
  import opened Seqs

  /** Places `x` before the first element of `t` that is not strictly earlier than it. */
  function Insert(x: Event, t: seq<Event>): (r: seq<Event>)
    ensures |r| == |t| + 1
  {
    if t == [] then [x]
    else if !Before(InstantOf(t[0]), InstantOf(x)) then [x] + t
    else
      assert t == [t[0]] + t[1..];
      [t[0]] + Insert(x, t[1..])
  }

  /** The sorted copy of `s`; `s` itself is a value and stays as it is. */
  function SortedEvents(s: seq<Event>): (r: seq<Event>)
    ensures |r| == |s|
  {
    if s == [] then []
    else
      assert s == [s[0]] + s[1..];
      Insert(s[0], SortedEvents(s[1..]))
  }

  /** Inserting adds exactly `x` to the events of `t`. */
  lemma {:induction false} InsertPermutes(x: Event, t: seq<Event>)
    ensures multiset(Insert(x, t)) == multiset(t) + multiset{x}
  {
    if t != [] && Before(InstantOf(t[0]), InstantOf(x)) {
      assert t == [t[0]] + t[1..];
      InsertPermutes(x, t[1..]);
    }
  }

  /** The sorted list is a permutation of the input. */
  lemma {:induction false} SortedEventsPermutes(s: seq<Event>)
    ensures multiset(SortedEvents(s)) == multiset(s)
  {
    if s != [] {
      assert s == [s[0]] + s[1..];
      SortedEventsPermutes(s[1..]);
      InsertPermutes(s[0], SortedEvents(s[1..]));
    }
  }

  /** Putting an event in front of a chronological list that holds nothing earlier
      than it keeps the list chronological. */
  lemma ChronologicalCons(x: Event, t: seq<Event>)
    requires Chronological(t)
    requires forall y :: y in t ==> !Before(InstantOf(y), InstantOf(x))
    ensures Chronological([x] + t)
  {
    var r := [x] + t;
    forall i, j | 0 <= i < j < |r|
      ensures !Before(InstantOf(r[j]), InstantOf(r[i]))
    {
      assert r[j] == t[j - 1];
      if i > 0 {
        assert r[i] == t[i - 1];
      }
    }
  }

  /** Every element of a chronological list is at or after its head. */
  lemma HeadIsEarliest(t: seq<Event>)
    requires t != [] && Chronological(t)
    ensures forall y :: y in t ==> !Before(InstantOf(y), InstantOf(t[0]))
  {
    forall y | y in t
      ensures !Before(InstantOf(y), InstantOf(t[0]))
    {
      var j :| 0 <= j < |t| && t[j] == y;
      if j > 0 {
        assert !Before(InstantOf(t[j]), InstantOf(t[0]));
      }
    }
  }

  lemma ChronologicalTail(t: seq<Event>)
    requires t != [] && Chronological(t)
    ensures Chronological(t[1..])
  {
    forall i, j | 0 <= i < j < |t[1..]|
      ensures !Before(InstantOf(t[1..][j]), InstantOf(t[1..][i]))
    {
      assert t[1..][i] == t[i + 1] && t[1..][j] == t[j + 1];
    }
  }

  lemma InsertInFront(x: Event, t: seq<Event>)
    requires t == [] || !Before(InstantOf(t[0]), InstantOf(x))
    ensures Insert(x, t) == [x] + t
  {
  }

  lemma InsertBehind(x: Event, y: Event, t: seq<Event>)
    requires Before(InstantOf(y), InstantOf(x))
    ensures Insert(x, [y] + t) == [y] + Insert(x, t)
  {
    assert ([y] + t)[0] == y && ([y] + t)[1..] == t;
  }

  lemma SortedEventsCons(x: Event, t: seq<Event>)
    ensures SortedEvents([x] + t) == Insert(x, SortedEvents(t))
  {
    assert ([x] + t)[0] == x && ([x] + t)[1..] == t;
  }

  lemma {:induction false} InsertChronological(x: Event, t: seq<Event>)
    requires Chronological(t)
    ensures Chronological(Insert(x, t))
  {
    if t == [] {
      assert Insert(x, t) == [x] + t;
      ChronologicalCons(x, t);
    } else {
      var t0, t' := t[0], t[1..];
      HeadIsEarliest(t);
      if !Before(InstantOf(t0), InstantOf(x)) {
        assert Insert(x, t) == [x] + t;
        forall y | y in t
          ensures !Before(InstantOf(y), InstantOf(x))
        {
          BeforeIsStrictTotalOrder(InstantOf(y), InstantOf(t0), InstantOf(x));
          BeforeIsStrictTotalOrder(InstantOf(x), InstantOf(t0), InstantOf(y));
        }
        ChronologicalCons(x, t);
      } else {
        var rest := Insert(x, t');
        assert Insert(x, t) == [t0] + rest;
        ChronologicalTail(t);
        InsertChronological(x, t');
        InsertPermutes(x, t');
        forall y | y in rest
          ensures !Before(InstantOf(y), InstantOf(t0))
        {
          assert y in multiset(rest);
          if y != x {
            assert y in t';
            assert y in t;
          } else {
            BeforeIsStrictTotalOrder(InstantOf(t0), InstantOf(x), InstantOf(x));
          }
        }
        ChronologicalCons(t0, rest);
      }
    }
  }

  /** The sorted view is non-decreasing by (date, time). */
  lemma {:induction false} SortedEventsChronological(s: seq<Event>)
    ensures Chronological(SortedEvents(s))
  {
    if s != [] {
      SortedEventsChronological(s[1..]);
      InsertChronological(s[0], SortedEvents(s[1..]));
    }
  }

  // ---------------------------------------------------------------------------
  // Stability

  function SameInstant(t: Instant): Event -> bool
  {
    (e: Event) => InstantOf(e) == t
  }

  /** The events of `s` that take place exactly at `t`, in the order of `s`. */
  function AtInstant(s: seq<Event>, t: Instant): seq<Event>
  {
    Filter(s, SameInstant(t))
  }

  lemma {:induction false} InsertAtInstant(x: Event, t: seq<Event>, k: Instant)
    ensures AtInstant(Insert(x, t), k)
         == (if InstantOf(x) == k then [x] else []) + AtInstant(t, k)
  {
    var p := SameInstant(k);
    if t == [] || !Before(InstantOf(t[0]), InstantOf(x)) {
      assert Insert(x, t) == [x] + t;
      FilterCons(x, t, p);
    } else {
      var rest, t0, t' := Insert(x, t[1..]), t[0], t[1..];
      InsertAtInstant(x, t', k);
      assert Insert(x, t) == [t0] + rest;
      FilterCons(t0, rest, p);
      assert t == [t0] + t';
      FilterCons(t0, t', p);
      // t0 is strictly earlier than x, so at most one of the two is at instant k
      assert InstantOf(t0) != InstantOf(x);
    }
  }

  /** Stability: the events that share any one instant come out of the sort in
      the order they went in. */
  lemma {:induction false} SortedEventsStable(s: seq<Event>, k: Instant)
    ensures AtInstant(SortedEvents(s), k) == AtInstant(s, k)
  {
    if s != [] {
      SortedEventsStable(s[1..], k);
      InsertAtInstant(s[0], SortedEvents(s[1..]), k);
    }
  }

  /** Sorting a list that is already in chronological order changes nothing. */
  lemma {:induction false} SortedEventsOfChronological(s: seq<Event>)
    requires Chronological(s)
    ensures SortedEvents(s) == s
  {
    if s != [] {
      ChronologicalTail(s);
      SortedEventsOfChronological(s[1..]);
      if |s| > 1 {
        assert !Before(InstantOf(s[1]), InstantOf(s[0]));
      }
      assert s == [s[0]] + s[1..];
    }
  }

  /** A subsequence of a chronological list is chronological: every order-preserving
      view of the sorted list (the filters, the partition) is still sorted. */
  lemma {:induction false} SubsequenceChronological(a: seq<Event>, b: seq<Event>)
    requires IsSubsequence(a, b) && Chronological(b)
    ensures Chronological(a)
    decreases |b|
  {
    if a != [] {
      var b' := b[1..];
      ChronologicalTail(b);
      if a[0] == b[0] {
        SubsequenceChronological(a[1..], b');
        SubsequenceMembers(a[1..], b');
        forall i, j | 0 <= i < j < |a|
          ensures !Before(InstantOf(a[j]), InstantOf(a[i]))
        {
          if i == 0 {
            assert a[j] == a[1..][j - 1];
            assert a[j] in b';
            var m :| 0 <= m < |b'| && b'[m] == a[j];
            assert b[m + 1] == a[j];
          } else {
            assert a[i] == a[1..][i - 1] && a[j] == a[1..][j - 1];
          }
        }
      } else {
        SubsequenceChronological(a, b');
      }
    }
  }
}
