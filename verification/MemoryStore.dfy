/** The in-memory event store. */
module MemoryStore {
  import opened Contracts
  import opened StorePort

  /** The loop shared by containsLevel and containsString. */
  method Contains(values: seq<Text>, value: Text) returns (found: bool)
    ensures found <==> value in values
  {
    for i := 0 to |values|
      invariant value !in values[..i]
    {
      if values[i] == value {
        return true;
      }
    }
    found := false;
  }

  /** Storage's filter: each non-empty criterion is checked in turn. */
  method MatchesFilter(event: Event, filter: EventFilter) returns (ok: bool)
    ensures ok <==> Selects(filter, event)
  {
    if |filter.levels| > 0 {
      var found := Contains(filter.levels, event.level);
      if !found {
        return false;
      }
    }
    if |filter.services| > 0 {
      var found := Contains(filter.services, event.service);
      if !found {
        return false;
      }
    }
    if |filter.eventTypes| > 0 {
      var found := Contains(filter.eventTypes, event.eventType);
      if !found {
        return false;
      }
    }
    ok := true;
  }

  class MemoryEventStore {
    var events: map<Text, Event>
    var order: seq<Text>
    var closed: bool

    /** The map and the order slice hold the same IDs, each once. */
    ghost predicate Valid()
      reads this
    {
      && (forall k :: 0 <= k < |order| ==> order[k] in events && order[k] != [])
      && (forall i, k :: 0 <= i < k < |order| ==> order[i] != order[k])
      && (forall id :: id in events ==> id in order && events[id].eventID == id)
    }

    /** The stored events in the order they were stored. */
    ghost function Contents(): (es: seq<Event>)
      requires Valid()
      reads this
      ensures UniqueIDs(es)
    {
      seq(|order|, k requires 0 <= k < |order| reads this requires Valid() => events[order[k]])
    }

    constructor ()
      ensures Valid() && Contents() == [] && !closed
    {
      events := map[];
      order := [];
      closed := false;
    }

    /** A store succeeds exactly for a new, non-empty ID on an open store, and appends the event;
        every error leaves the contents as they were. */
    method Store(cancelled: bool, event: Event) returns (outcome: Outcome)
      requires Valid()
      modifies this`events, this`order
      ensures Valid()
      ensures outcome.Ok? <==> !cancelled && !closed && NewID(old(Contents()), event)
      ensures Contents() == old(Contents()) + (if outcome.Ok? then [event] else [])
      ensures !outcome.Ok? ==>
        outcome == Err(if cancelled then Cancelled else if event.eventID == [] then MissingID
                       else if closed then Closed else Duplicate)
    {
      if cancelled {
        return Err(Cancelled);
      }
      if event.eventID == [] {
        return Err(MissingID);
      }
      if closed {
        return Err(Closed);
      }
      if event.eventID in events {
        ghost var k :| 0 <= k < |order| && order[k] == event.eventID;
        assert Contents()[k].eventID == event.eventID;
        return Err(Duplicate);
      }
      assert forall k :: 0 <= k < |order| ==> order[k] != event.eventID;
      events := events[event.eventID := event];
      order := order + [event.eventID];
      outcome := Ok;
    }

    /** A get finds exactly the stored event with that ID. */
    method Get(cancelled: bool, eventID: Text) returns (answer: Answer<Event>)
      requires Valid()
      ensures answer.Got? ==> answer.value in Contents() && answer.value.eventID == eventID
      ensures answer.Got? <==>
        !cancelled && !closed && exists k :: 0 <= k < |Contents()| && Contents()[k].eventID == eventID
      ensures answer.Failed? ==> answer.error == if cancelled then Cancelled else if closed then Closed else NotFound
    {
      if cancelled {
        return Failed(Cancelled);
      }
      if closed {
        return Failed(Closed);
      }
      if eventID !in events {
        return Failed(NotFound);
      }
      ghost var k :| 0 <= k < |order| && order[k] == eventID;
      assert Contents()[k] == events[eventID];
      answer := Got(events[eventID]);
    }

    /** A query returns the selected events in the order they were stored. */
    method Query(cancelled: bool, filter: EventFilter) returns (answer: Answer<seq<Event>>)
      requires Valid()
      ensures answer.Got? <==> !cancelled && !closed
      ensures answer.Got? ==> answer.value == Select(filter, Contents())
      ensures answer.Failed? ==> answer.error == if cancelled then Cancelled else Closed
    {
      if cancelled {
        return Failed(Cancelled);
      }
      if closed {
        return Failed(Closed);
      }
      var result: seq<Event> := [];
      for i := 0 to |order|
        invariant result == Select(filter, Contents()[..i])
      {
        var event := events[order[i]];
        assert Contents()[..i + 1] == Contents()[..i] + [event];
        SelectStep(filter, Contents()[..i], event);
        var ok := MatchesFilter(event, filter);
        if !ok {
          continue;
        }
        result := result + [event];
      }
      assert Contents()[..|order|] == Contents();
      answer := Got(result);
    }

    method Close()
      requires Valid()
      modifies this`closed
      ensures Valid() && closed && Contents() == old(Contents())
    {
      if closed {
        return;
      }
      closed := true;
    }
  }
}
