/** What every event store promises its callers. */
module StorePort {
  import opened Contracts

  datatype StoreError =
    | Cancelled
    | MissingID
    | Closed
    | Duplicate
    | NotFound
    | EncodeFailed
    | WriteFailed
    | ReadFailed
    | MissingDirectory

  datatype Outcome = Ok | Err(error: StoreError)

  datatype Answer<T> = Got(value: T) | Failed(error: StoreError)

  /** The event has an ID, and no event already stored has the same one. */
  predicate NewID(events: seq<Event>, event: Event) {
    event.eventID != [] && forall k :: 0 <= k < |events| ==> events[k].eventID != event.eventID
  }

  /** No two events share an ID, and none is without. */
  predicate UniqueIDs(events: seq<Event>) {
    && (forall k :: 0 <= k < |events| ==> events[k].eventID != [])
    && (forall i, k :: 0 <= i < k < |events| ==> events[i].eventID != events[k].eventID)
  }
}
