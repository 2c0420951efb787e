/** Stable sorting of events by timestamp. */
module Sorting {
  import opened Contracts

  predicate InOrder(events: seq<Event>) {
    forall i, k :: 0 <= i < k < |events| ==> events[i].timestamp.instant <= events[k].timestamp.instant
  }

  /** The events with a given instant, in their order. */
  function At(events: seq<Event>, instant: int): seq<Event> {
    if events == [] then []
    else
      At(events[..|events| - 1], instant)
      + (if events[|events| - 1].timestamp.instant == instant then [events[|events| - 1]] else [])
  }

  ghost predicate SameAt(a: seq<Event>, b: seq<Event>) {
    forall t :: At(a, t) == At(b, t)
  }

  /** `sorted` is the stable sort of `events`: ordered by instant, keeping the order of equal instants. */
  ghost predicate IsStableSort(events: seq<Event>, sorted: seq<Event>) {
    InOrder(sorted) && SameAt(sorted, events)
  }

  function Insert(sorted: seq<Event>, e: Event): seq<Event> {
    if sorted == [] || sorted[|sorted| - 1].timestamp.instant <= e.timestamp.instant then sorted + [e]
    else Insert(sorted[..|sorted| - 1], e) + [sorted[|sorted| - 1]]
  }

  /** sort.SliceStable by timestamp */
  function StableSort(events: seq<Event>): seq<Event> {
    if events == [] then [] else Insert(StableSort(events[..|events| - 1]), events[|events| - 1])
  }

  lemma AtStep(events: seq<Event>, e: Event, t: int)
    ensures At(events + [e], t) == At(events, t) + (if e.timestamp.instant == t then [e] else [])
  {
    assert (events + [e])[..|events|] == events;
  }

  /** In an ordered sequence nothing has an instant beyond the last. */
  lemma {:induction false} AtBeyond(events: seq<Event>, t: int)
    requires forall i :: 0 <= i < |events| ==> events[i].timestamp.instant != t
    ensures At(events, t) == []
  {
    if events != [] {
      AtBeyond(events[..|events| - 1], t);
    }
  }

  lemma {:induction false} InsertSorts(sorted: seq<Event>, e: Event)
    requires InOrder(sorted)
    ensures InOrder(Insert(sorted, e))
    ensures forall i :: 0 <= i < |Insert(sorted, e)| ==>
      Insert(sorted, e)[i] == e || Insert(sorted, e)[i] in sorted
  {
    if !(sorted == [] || sorted[|sorted| - 1].timestamp.instant <= e.timestamp.instant) {
      var n := |sorted| - 1;
      InsertSorts(sorted[..n], e);
    }
  }

  lemma {:induction false} InsertAt(sorted: seq<Event>, e: Event, t: int)
    requires InOrder(sorted)
    ensures At(Insert(sorted, e), t) == At(sorted, t) + (if e.timestamp.instant == t then [e] else [])
  {
    if sorted == [] || sorted[|sorted| - 1].timestamp.instant <= e.timestamp.instant {
      AtStep(sorted, e, t);
    } else {
      var n := |sorted| - 1;
      var last := sorted[n];
      var before := At(sorted[..n], t);
      assert sorted == sorted[..n] + [last];
      InsertAt(sorted[..n], e, t);
      AtStep(Insert(sorted[..n], e), last, t);
      AtStep(sorted[..n], last, t);
      if e.timestamp.instant != t {
        assert before + [] == before;
      } else {
        assert before + [e] + [] == before + [e] && before + [] == before;
      }
    }
  }

  lemma {:induction false} SortIsStable(events: seq<Event>, t: int)
    ensures InOrder(StableSort(events)) && At(StableSort(events), t) == At(events, t)
  {
    if events != [] {
      var n := |events| - 1;
      SortIsStable(events[..n], t);
      InsertSorts(StableSort(events[..n]), events[n]);
      InsertAt(StableSort(events[..n]), events[n], t);
    }
  }

  lemma StableSortIsStableSort(events: seq<Event>)
    ensures IsStableSort(events, StableSort(events))
  {
    SortIsStable(events, 0);
    forall t ensures At(StableSort(events), t) == At(events, t) {
      SortIsStable(events, t);
    }
  }

  lemma AtLast(events: seq<Event>)
    requires events != []
    ensures var e := events[|events| - 1];
      var at := At(events, e.timestamp.instant);
      at != [] && at[|at| - 1] == e
  {}

  lemma SameLast(a: seq<Event>, b: seq<Event>)
    requires InOrder(a) && InOrder(b) && a != [] && b != [] && SameAt(a, b)
    ensures a[|a| - 1] == b[|b| - 1]
  {
    var tx, ty := a[|a| - 1].timestamp.instant, b[|b| - 1].timestamp.instant;
    AtLast(a);
    AtLast(b);
    assert At(a, tx) == At(b, tx) && At(a, ty) == At(b, ty);
    if ty < tx {
      AtBeyond(b, tx);
    } else if tx < ty {
      AtBeyond(a, ty);
    }
  }

  lemma NonEmpty(a: seq<Event>, b: seq<Event>)
    requires b != [] && SameAt(a, b)
    ensures a != []
  {
    AtLast(b);
  }

  /** There is only one stable sort. */
  lemma {:induction false} StableSortUnique(a: seq<Event>, b: seq<Event>)
    requires InOrder(a) && InOrder(b) && SameAt(a, b)
    ensures a == b
  {
    if b != [] {
      NonEmpty(a, b);
    }
    if a != [] {
      NonEmpty(b, a);
      var n, m := |a| - 1, |b| - 1;
      SameLast(a, b);
      assert SameAt(a[..n], b[..m]) by {
        forall t: int ensures At(a[..n], t) == At(b[..m], t) {
          assert a == a[..n] + [a[n]] && b == b[..m] + [a[n]];
          SameAtInit(a[..n], b[..m], a[n], t);
        }
      }
      StableSortUnique(a[..n], b[..m]);
      assert a == a[..n] + [a[n]] && b == b[..m] + [b[m]];
    }
  }

  lemma SameAtInit(a: seq<Event>, b: seq<Event>, e: Event, t: int)
    requires At(a + [e], t) == At(b + [e], t)
    ensures At(a, t) == At(b, t)
  {
    AtStep(a, e, t);
    AtStep(b, e, t);
    SameInit(At(a, t), At(b, t), if e.timestamp.instant == t then [e] else []);
  }

  lemma SameInit<T>(x: seq<T>, y: seq<T>, z: seq<T>)
    requires x + z == y + z
    ensures x == y
  {
    assert |x| == |y|;
    assert (x + z)[..|x|] == x && (y + z)[..|y|] == y;
  }

  // ---------------------------------------------------------------- sorting and selecting

  lemma {:induction false} SelectAt(filter: EventFilter, events: seq<Event>, t: int)
    ensures At(Select(filter, events), t) == Select(filter, At(events, t))
  {
    if events != [] {
      var n := |events| - 1;
      SelectAt(filter, events[..n], t);
      var init, e := Select(filter, events[..n]), events[n];
      AtStep(init, e, t);
      SelectStep(filter, At(events[..n], t), e);
      assert init + [] == init;
      assert At(events[..n], t) + [] == At(events[..n], t);
    }
  }

  lemma {:induction false} SelectInOrder(filter: EventFilter, events: seq<Event>)
    requires InOrder(events)
    ensures InOrder(Select(filter, events))
    ensures forall i :: 0 <= i < |Select(filter, events)| ==> Select(filter, events)[i] in events
  {
    if events != [] {
      SelectInOrder(filter, events[..|events| - 1]);
    }
  }

  /** Selecting then sorting equals sorting then selecting. */
  lemma SortSelectCommute(filter: EventFilter, events: seq<Event>)
    ensures StableSort(Select(filter, events)) == Select(filter, StableSort(events))
  {
    StableSortIsStableSort(Select(filter, events));
    StableSortIsStableSort(events);
    SelectInOrder(filter, StableSort(events));
    forall t ensures At(StableSort(Select(filter, events)), t) == At(Select(filter, StableSort(events)), t) {
      SelectAt(filter, events, t);
      SelectAt(filter, StableSort(events), t);
      assert At(StableSort(events), t) == At(events, t);
    }
    StableSortUnique(StableSort(Select(filter, events)), Select(filter, StableSort(events)));
  }

  // ---------------------------------------------------------------- multisets

  lemma {:induction false} InsertBag(sorted: seq<Event>, e: Event)
    ensures multiset(Insert(sorted, e)) == multiset(sorted) + multiset{e}
  {
    if !(sorted == [] || sorted[|sorted| - 1].timestamp.instant <= e.timestamp.instant) {
      var n := |sorted| - 1;
      InsertBag(sorted[..n], e);
      assert sorted == sorted[..n] + [sorted[n]];
    }
  }

  lemma {:induction false} SortBag(events: seq<Event>)
    ensures multiset(StableSort(events)) == multiset(events)
  {
    if events != [] {
      var n := |events| - 1;
      SortBag(events[..n]);
      InsertBag(StableSort(events[..n]), events[n]);
      assert events == events[..n] + [events[n]];
    }
  }

  lemma BagSnoc(xs: seq<Event>, x: Event, e: Event)
    ensures multiset(xs + [x])[e] == multiset(xs)[e] + (if x == e then 1 else 0)
  {}

  lemma {:induction false} SelectBag(filter: EventFilter, events: seq<Event>, e: Event)
    ensures multiset(Select(filter, events))[e] == if Selects(filter, e) then multiset(events)[e] else 0
  {
    if events != [] {
      var n := |events| - 1;
      SelectBag(filter, events[..n], e);
      assert events == events[..n] + [events[n]];
      BagSnoc(events[..n], events[n], e);
      SelectStep(filter, events[..n], events[n]);
      BagSnoc(Select(filter, events[..n]), events[n], e);
      assert Select(filter, events[..n]) + [] == Select(filter, events[..n]);
    }
  }

  lemma SelectSameBag(filter: EventFilter, a: seq<Event>, b: seq<Event>)
    requires multiset(a) == multiset(b)
    ensures multiset(Select(filter, a)) == multiset(Select(filter, b))
  {
    forall e ensures multiset(Select(filter, a))[e] == multiset(Select(filter, b))[e] {
      SelectBag(filter, a, e);
      SelectBag(filter, b, e);
    }
  }

  predicate StrictlyInOrder(events: seq<Event>) {
    forall i, k :: 0 <= i < k < |events| ==> events[i].timestamp.instant < events[k].timestamp.instant
  }

  lemma {:induction false} AtBag(events: seq<Event>, t: int, e: Event)
    ensures multiset(At(events, t))[e] == if e.timestamp.instant == t then multiset(events)[e] else 0
  {
    if events != [] {
      var n := |events| - 1;
      AtBag(events[..n], t, e);
      assert events == events[..n] + [events[n]];
      BagSnoc(events[..n], events[n], e);
      AtStep(events[..n], events[n], t);
      BagSnoc(At(events[..n], t), events[n], e);
      assert At(events[..n], t) + [] == At(events[..n], t);
    }
  }

  lemma {:induction false} AtMostOne(events: seq<Event>, t: int)
    requires StrictlyInOrder(events)
    ensures |At(events, t)| <= 1
  {
    if events != [] {
      var n := |events| - 1;
      if events[n].timestamp.instant == t {
        AtBeyond(events[..n], t);
      } else {
        AtMostOne(events[..n], t);
      }
    }
  }

  lemma ShortBags(a: seq<Event>, b: seq<Event>)
    requires multiset(a) == multiset(b) && |a| <= 1
    ensures a == b
  {
    assert |multiset(a)| == |a| && |multiset(b)| == |b|;
    if |a| == 1 {
      assert b[0] in multiset(a);
    }
  }

  /** A strictly ordered sequence is the sort of every permutation of itself. */
  lemma SortOfPermutation(events: seq<Event>, ordered: seq<Event>)
    requires StrictlyInOrder(ordered) && multiset(events) == multiset(ordered)
    ensures StableSort(events) == ordered
  {
    StableSortIsStableSort(events);
    forall t ensures At(StableSort(events), t) == At(ordered, t) {
      assert At(StableSort(events), t) == At(events, t);
      AtMostOne(ordered, t);
      forall e ensures multiset(At(events, t))[e] == multiset(At(ordered, t))[e] {
        AtBag(events, t, e);
        AtBag(ordered, t, e);
      }
      ShortBags(At(ordered, t), At(events, t));
    }
    StableSortUnique(StableSort(events), ordered);
  }
}
