/** The wire contracts shared by every component: text, instants, free-form fields, events and filters. */
module Contracts {

  /** One element of a Go string as a range loop decodes it: a Unicode scalar value, or a byte that
      is not part of any valid UTF-8 encoding. */
  datatype Sym = Rune(c: char) | BadByte(value: nat)

  type Text = seq<Sym>

  function Lit(s: string): Text {
    seq(|s|, i requires 0 <= i < |s| => Rune(s[i]))
  }

  /** utf8.ValidString */
  predicate ValidUtf8(t: Text) {
    forall i :: 0 <= i < |t| ==> t[i].Rune?
  }

  /** An instant together with the offset of the zone it is expressed in; instant 0 is Go's zero time. */
  datatype Time = Time(instant: int, offset: int)

  /** A decoded JSON value.  `Foreign` is any dynamic type the event processor does not accept. */
  datatype Value =
    | Str(text: Text)
    | Obj(fields: Fields)
    | List(items: seq<Value>)
    | Number(digits: Text)
    | Bool(flag: bool)
    | Null
    | Foreign(tag: nat)

  /** A Go map[string]any, which may be nil. */
  datatype Fields = NilFields | Fields(entries: map<Text, Value>)

  datatype Event = Event(
    eventID: Text,
    timestamp: Time,
    level: Text,
    service: Text,
    component: Text,
    eventType: Text,
    message: Text,
    code: Text,
    sessionID: Text,
    userID: Text,
    correlationID: Text,
    traceID: Text,
    spanID: Text,
    context: Fields,
    metadata: Fields)

  datatype EventFilter = EventFilter(levels: seq<Text>, services: seq<Text>, eventTypes: seq<Text>)

  /** An empty criterion selects everything. */
  predicate Admits(criterion: seq<Text>, value: Text) {
    criterion == [] || value in criterion
  }

  /** What a filter promises: every non-empty criterion lists the event's value. */
  predicate Selects(filter: EventFilter, event: Event) {
    && Admits(filter.levels, event.level)
    && Admits(filter.services, event.service)
    && Admits(filter.eventTypes, event.eventType)
  }

  /** Each criterion reads its own field: a filter selects what its criteria select one by one, and a
      criterion of one value asks for that value. */
  lemma CriteriaReadTheirFields(filter: EventFilter, event: Event, value: Text)
    ensures Selects(filter, event) <==>
      && Selects(EventFilter(filter.levels, [], []), event)
      && Selects(EventFilter([], filter.services, []), event)
      && Selects(EventFilter([], [], filter.eventTypes), event)
    ensures Selects(EventFilter([value], [], []), event) <==> event.level == value
    ensures Selects(EventFilter([], [value], []), event) <==> event.service == value
    ensures Selects(EventFilter([], [], [value]), event) <==> event.eventType == value
    ensures Selects(EventFilter([], [], []), event)
  {}

  /** The events a filter selects, in their original order. */
  function Select(filter: EventFilter, events: seq<Event>): seq<Event> {
    if events == [] then []
    else
      Select(filter, events[..|events| - 1])
      + (if Selects(filter, events[|events| - 1]) then [events[|events| - 1]] else [])
  }

  lemma SelectStep(filter: EventFilter, events: seq<Event>, event: Event)
    ensures Select(filter, events + [event])
         == Select(filter, events) + (if Selects(filter, event) then [event] else [])
  {
    assert (events + [event])[..|events|] == events;
  }
}
