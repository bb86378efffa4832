/**
 * The `Events` table both controllers share, as a finite map from key to
 * event: the keying invariant the table keeps, the field copy an edit
 * performs, and the read query (an optional date-range filter followed by an
 * ascending sort on the start).
 */
module EventStore {
  import opened Wrappers
  import opened EventModel

  /**
   * Every entry sits under its own `Id`, a positive value below the next
   * value the identity column will hand out.
   */
  predicate Keyed(store: map<int, Event>, nextId: int) {
    0 < nextId && forall k :: k in store ==> 0 < k < nextId && store[k].id == k
  }

  /** `updated` is `existing` with the seven editable fields taken from `source`; the `Id` is kept. */
  predicate TakesEditableFields(updated: Event, existing: Event, source: Event) {
    && updated.id == existing.id
    && updated.title == source.title
    && updated.description == source.description
    && updated.startDate == source.startDate
    && updated.endDate == source.endDate
    && updated.location == source.location
    && updated.category == source.category
    && updated.isAllDay == source.isAllDay
  }

  /** Every key other than `id` keeps its entry, and the key set is unchanged. */
  predicate OnlyEntryChanged(store: map<int, Event>, before: map<int, Event>, id: int) {
    && store.Keys == before.Keys
    && forall k :: k in before && k != id ==> store[k] == before[k]
  }

  /**
   * The range filter: with a lower bound, events that end before it are
   * dropped; with an upper bound, events that start after it are dropped.
   */
  predicate InRange(e: Event, start: Option<Ticks>, end: Option<Ticks>) {
    && (start.None? || e.endDate >= start.value)
    && (end.None? || e.startDate <= end.value)
  }

  /** The keys among `keys` whose events pass the filter. */
  function MatchingKeys(store: map<int, Event>, keys: set<int>, start: Option<Ticks>, end: Option<Ticks>): set<int>
    requires keys <= store.Keys
  {
    set k | k in keys && InRange(store[k], start, end)
  }

  predicate SortedByStart(s: seq<Event>) {
    forall i, j :: 0 <= i < j < |s| ==> s[i].startDate <= s[j].startDate
  }

  predicate IsLeast(k: int, keys: set<int>) {
    k in keys && forall j :: j in keys ==> k <= j
  }

  lemma PickKey(keys: set<int>) returns (x: int)
    requires keys != {}
    ensures x in keys
  {
    if forall y :: y !in keys {
      assert false;
    } else {
      x :| x in keys;
    }
  }

  lemma {:induction false} LeastExists(keys: set<int>)
    requires keys != {}
    ensures exists k :: IsLeast(k, keys)
    decreases |keys|
  {
    var x := PickKey(keys);
    var rest := keys - {x};
    if rest == {} {
      assert keys == {x};
      assert IsLeast(x, keys);
    } else {
      LeastExists(rest);
      var m :| IsLeast(m, rest);
      var least := if x < m then x else m;
      forall j | j in keys ensures least <= j {
        if j != x {
          assert j in rest;
        }
      }
      assert IsLeast(least, keys);
    }
  }

  function LeastKey(keys: set<int>): (k: int)
    requires keys != {}
    ensures IsLeast(k, keys)
  {
    LeastExists(keys);
    var k :| IsLeast(k, keys); k
  }

  /**
   * The events under `keys` that pass the filter, in ascending key order:
   * exactly the events stored under `keys` that are in range, one per
   * matching key.
   */
  function Filtered(store: map<int, Event>, keys: set<int>, start: Option<Ticks>, end: Option<Ticks>): (r: seq<Event>)
    requires keys <= store.Keys
    ensures forall e :: e in r <==> InRange(e, start, end) && exists k :: k in keys && store[k] == e
    ensures |r| == |MatchingKeys(store, keys, start, end)|
    decreases keys
  {
    if keys == {} then
      assert MatchingKeys(store, keys, start, end) == {};
      []
    else
      var k := LeastKey(keys);
      var rest := keys - {k};
      var tail := Filtered(store, rest, start, end);
      if InRange(store[k], start, end) then
        assert MatchingKeys(store, keys, start, end) == MatchingKeys(store, rest, start, end) + {k};
        [store[k]] + tail
      else
        assert MatchingKeys(store, keys, start, end) == MatchingKeys(store, rest, start, end);
        tail
  }

  /** No event of `t` starts before `x`. */
  predicate StartsNoLaterThanAll(x: Event, t: seq<Event>) {
    forall i :: 0 <= i < |t| ==> x.startDate <= t[i].startDate
  }

  lemma PrependSorted(x: Event, t: seq<Event>)
    requires SortedByStart(t) && StartsNoLaterThanAll(x, t)
    ensures SortedByStart([x] + t)
  {
    var r := [x] + t;
    forall i, j | 0 <= i < j < |r| ensures r[i].startDate <= r[j].startDate {
      if i > 0 {
        assert r[i] == t[i - 1] && r[j] == t[j - 1];
      } else {
        assert r[j] == t[j - 1];
      }
    }
  }

  lemma LowerBoundFromMultiset(x: Event, t: seq<Event>, u: seq<Event>, e: Event)
    requires multiset(t) == multiset(u) + multiset{e}
    requires StartsNoLaterThanAll(x, u) && x.startDate <= e.startDate
    ensures StartsNoLaterThanAll(x, t)
  {
    forall i | 0 <= i < |t| ensures x.startDate <= t[i].startDate {
      assert t[i] in multiset(t);
      if t[i] != e {
        assert t[i] in multiset(u);
        var j :| 0 <= j < |u| && u[j] == t[i];
      }
    }
  }

  /** Inserts `e` into a start-sorted sequence, keeping it sorted. */
  function InsertByStart(e: Event, s: seq<Event>): (r: seq<Event>)
    requires SortedByStart(s)
    ensures SortedByStart(r)
    ensures multiset(r) == multiset(s) + multiset{e}
  {
    if s == [] || e.startDate <= s[0].startDate then
      PrependSorted(e, s);
      [e] + s
    else
      assert s == [s[0]] + s[1..];
      var rest := InsertByStart(e, s[1..]);
      LowerBoundFromMultiset(s[0], rest, s[1..], e);
      PrependSorted(s[0], rest);
      [s[0]] + rest
  }

  /** `OrderBy(e => e.StartDate)`: a start-sorted permutation of `s`. */
  function SortByStart(s: seq<Event>): (r: seq<Event>)
    ensures SortedByStart(r)
    ensures multiset(r) == multiset(s)
  {
    if s == [] then []
    else
      assert s == [s[0]] + s[1..];
      InsertByStart(s[0], SortByStart(s[1..]))
  }

  /**
   * The filtered, start-ordered listing of the table: sorted, a permutation
   * of the in-range contents, and so exactly the stored in-range events, one
   * entry per matching key.
   */
  function ListEvents(store: map<int, Event>, start: Option<Ticks>, end: Option<Ticks>): (r: seq<Event>)
    ensures SortedByStart(r)
    ensures multiset(r) == multiset(Filtered(store, store.Keys, start, end))
    ensures forall e :: e in r <==> InRange(e, start, end) && exists k :: k in store && store[k] == e
    ensures |r| == |MatchingKeys(store, store.Keys, start, end)|
  {
    var contents := Filtered(store, store.Keys, start, end);
    var r := SortByStart(contents);
    assert forall e :: e in r <==> e in contents by {
      forall e ensures e in r <==> e in contents {
        assert e in r <==> e in multiset(r);
        assert e in contents <==> e in multiset(contents);
      }
    }
    assert |r| == |contents| by {
      assert |r| == |multiset(r)|;
      assert |contents| == |multiset(contents)|;
    }
    r
  }
}
