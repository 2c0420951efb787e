/** What ProcessEvent's acceptance means for the maps of the event as it arrives. */
module Arrivals {
  import opened Contracts
  import opened Texts
  import opened Redaction
  import opened Redactions
  import opened Processor
  import opened ProcessorTheorems

  // ---------------------------------------------------------------- the condition

  /** The value, found under `key`, is acceptable once it is redacted: what a sensitive key masks is not
      looked at, and bytes that are not valid UTF-8 do not matter. */
  ghost predicate Arrives(p: Patterns, lib: Library, v: Value, key: Text, depth: nat)
    decreases v
  {
    p.sensitiveKey(key) ||
    match v
    case Obj(fields) => FieldsArrive(p, lib, fields, depth)
    case List(items) =>
      depth < MAX_DEPTH && forall i :: 0 <= i < |items| ==> Arrives(p, lib, items[i], key, depth + 1)
    case Foreign(_) => false
    case _ => true
  }

  ghost predicate FieldsArrive(p: Patterns, lib: Library, f: Fields, depth: nat)
    decreases f
  {
    f.Fields? ==>
      && depth < MAX_DEPTH
      && forall k :: k in f.entries ==>
           !ProhibitedKey(lib, Sanitize(p, k)) && Arrives(p, lib, f.entries[k], k, depth + 1)
  }

  /** No two keys of a map that redaction looks into come out the same. */
  ghost predicate Distinct(p: Patterns, v: Value, key: Text)
    decreases v
  {
    p.sensitiveKey(key) ||
    match v
    case Obj(fields) => FieldsDistinct(p, fields)
    case List(items) => forall i :: 0 <= i < |items| ==> Distinct(p, items[i], key)
    case _ => true
  }

  ghost predicate FieldsDistinct(p: Patterns, f: Fields)
    decreases f
  {
    f.Fields? ==>
      && (forall k, l :: k in f.entries && l in f.entries && Sanitize(p, k) == Sanitize(p, l) ==> k == l)
      && forall k :: k in f.entries ==> Distinct(p, f.entries[k], k)
  }

  // ---------------------------------------------------------------- it suffices

  lemma SanitizedIsValid(p: Patterns, t: Text)
    ensures ValidUtf8(Sanitize(p, t))
  {
    CleanIdempotent(p.mask(t));
  }

  lemma {:induction false} ArrivalSuffices(p: Patterns, lib: Library, v: Value, key: Text, depth: nat, w: Value)
    requires RedactsTo(p, v, key, w) && Arrives(p, lib, v, key, depth)
    ensures Admissible(lib, w, depth)
    decreases v
  {
    if !p.sensitiveKey(key) {
      match v
      case Str(text) => SanitizedIsValid(p, text);
      case Obj(fields) => FieldsArrivalSuffices(p, lib, fields, depth, w.fields);
      case List(items) =>
        forall i | 0 <= i < |items| ensures Admissible(lib, w.items[i], depth + 1) {
          ArrivalSuffices(p, lib, items[i], key, depth + 1, w.items[i]);
        }
      case _ =>
    }
  }

  /** Whatever order redaction takes, maps that arrive acceptable stay so. */
  lemma {:induction false} FieldsArrivalSuffices(p: Patterns, lib: Library, f: Fields, depth: nat, g: Fields)
    requires FieldsRedactTo(p, f, g) && FieldsArrive(p, lib, f, depth)
    ensures FieldsAdmissible(lib, g, depth)
    decreases f
  {
    if f.Fields? {
      forall k' | k' in g.entries ensures KeyAdmissible(lib, k') && Admissible(lib, g.entries[k'], depth + 1) {
        var k :| k in f.entries && Sanitize(p, k) == k' && RedactsTo(p, f.entries[k], k, g.entries[k']);
        SanitizedIsValid(p, k);
        ArrivalSuffices(p, lib, f.entries[k], k, depth + 1, g.entries[k']);
      }
    }
  }

  // ---------------------------------------------------------------- it is necessary

  lemma {:induction false} ArrivalNeeded(p: Patterns, lib: Library, v: Value, key: Text, depth: nat, w: Value)
    requires RedactsTo(p, v, key, w) && Distinct(p, v, key) && Admissible(lib, w, depth)
    ensures Arrives(p, lib, v, key, depth)
    decreases v
  {
    if !p.sensitiveKey(key) {
      match v
      case Obj(fields) => FieldsArrivalNeeded(p, lib, fields, depth, w.fields);
      case List(items) =>
        forall i | 0 <= i < |items| ensures Arrives(p, lib, items[i], key, depth + 1) {
          ArrivalNeeded(p, lib, items[i], key, depth + 1, w.items[i]);
        }
      case _ =>
    }
  }

  lemma {:induction false} FieldsArrivalNeeded(p: Patterns, lib: Library, f: Fields, depth: nat, g: Fields)
    requires FieldsRedactTo(p, f, g) && FieldsDistinct(p, f) && FieldsAdmissible(lib, g, depth)
    ensures FieldsArrive(p, lib, f, depth)
    decreases f
  {
    if f.Fields? {
      forall k | k in f.entries
        ensures !ProhibitedKey(lib, Sanitize(p, k)) && Arrives(p, lib, f.entries[k], k, depth + 1)
      {
        var k' := Sanitize(p, k);
        assert k' in g.entries && KeyAdmissible(lib, k');
        ArrivalNeeded(p, lib, f.entries[k], k, depth + 1, g.entries[k']);
      }
    }
  }

  // ---------------------------------------------------------------- redaction as a function

  lemma {:induction false} OneRedaction(p: Patterns, v: Value, key: Text, w: Value, x: Value)
    requires Distinct(p, v, key) && RedactsTo(p, v, key, w) && RedactsTo(p, v, key, x)
    ensures w == x
    decreases v
  {
    if !p.sensitiveKey(key) {
      match v
      case Obj(fields) => OneFieldsRedaction(p, fields, w.fields, x.fields);
      case List(items) =>
        forall i | 0 <= i < |items| ensures w.items[i] == x.items[i] {
          OneRedaction(p, items[i], key, w.items[i], x.items[i]);
        }
        assert w.items == x.items;
      case _ =>
    }
  }

  /** Where no two keys collide there is only one redaction, whatever the iteration order. */
  lemma {:induction false} OneFieldsRedaction(p: Patterns, f: Fields, g: Fields, h: Fields)
    requires FieldsDistinct(p, f) && FieldsRedactTo(p, f, g) && FieldsRedactTo(p, f, h)
    ensures g == h
    decreases f
  {
    if f.Fields? {
      forall k' | k' in g.entries ensures k' in h.entries && g.entries[k'] == h.entries[k'] {
        var k :| k in f.entries && Sanitize(p, k) == k' && RedactsTo(p, f.entries[k], k, g.entries[k']);
        var l :| l in f.entries && Sanitize(p, l) == k' && RedactsTo(p, f.entries[l], l, h.entries[k']);
        OneRedaction(p, f.entries[k], k, g.entries[k'], h.entries[k']);
      }
      SameKeys(p, f, h, g);
      assert g.entries == h.entries;
    }
  }

  lemma SameKeys(p: Patterns, f: Fields, g: Fields, h: Fields)
    requires f.Fields? && FieldsRedactTo(p, f, g) && FieldsRedactTo(p, f, h)
    ensures forall k' :: k' in g.entries ==> k' in h.entries
  {}

  // ---------------------------------------------------------------- acceptance

  ghost predicate SmallEnough(p: Patterns, lib: Library, e: Event) {
    forall context, metadata ::
      FieldsRedactTo(p, e.context, context) && FieldsRedactTo(p, e.metadata, metadata) ==>
        SizeFits(lib, context, metadata)
  }

  ghost predicate EventArrives(p: Patterns, lib: Library, e: Event) {
    && TextsArrive(p, lib, e)
    && FieldsArrive(p, lib, e.context, 0)
    && FieldsArrive(p, lib, e.metadata, 0)
    && SmallEnough(p, lib, e)
  }

  /** An event that meets the conditions on arrival is accepted, whatever order its maps are iterated in;
      and where no two keys collide, only such an event is. */
  lemma AcceptedOnArrival(p: Patterns, lib: Library, e: Event, now: Time, freshID: Text, r: Result<Event>)
    requires MayReturn(p, lib, e, now, freshID, r)
    ensures EventArrives(p, lib, e) ==> r.Success?
    ensures r.Success? ==> TextsArrive(p, lib, e)
    ensures FieldsDistinct(p, e.context) && FieldsDistinct(p, e.metadata) ==> (r.Success? <==> EventArrives(p, lib, e))
  {
    var redacted :| EventRedactsTo(p, e, redacted) && Judges(lib, redacted, now, freshID, r);
    AcceptedExactly(p, lib, e, redacted, now, freshID, r);
    if FieldsArrive(p, lib, e.context, 0) && FieldsArrive(p, lib, e.metadata, 0) {
      FieldsArrivalSuffices(p, lib, e.context, 0, redacted.context);
      FieldsArrivalSuffices(p, lib, e.metadata, 0, redacted.metadata);
    }
    if FieldsDistinct(p, e.context) && FieldsDistinct(p, e.metadata) && r.Success? {
      FieldsArrivalNeeded(p, lib, e.context, 0, redacted.context);
      FieldsArrivalNeeded(p, lib, e.metadata, 0, redacted.metadata);
      OnlySize(p, lib, e, redacted);
    }
  }

  lemma OnlySize(p: Patterns, lib: Library, e: Event, redacted: Event)
    requires EventRedactsTo(p, e, redacted) && FieldsDistinct(p, e.context) && FieldsDistinct(p, e.metadata)
    requires SizeFits(lib, redacted.context, redacted.metadata)
    ensures SmallEnough(p, lib, e)
  {
    forall context, metadata | FieldsRedactTo(p, e.context, context) && FieldsRedactTo(p, e.metadata, metadata)
      ensures SizeFits(lib, context, metadata)
    {
      OneFieldsRedaction(p, e.context, context, redacted.context);
      OneFieldsRedaction(p, e.metadata, metadata, redacted.metadata);
    }
  }

  // ---------------------------------------------------------------- whatever the order

  lemma {:induction false} BadRedaction(p: Patterns, lib: Library, v: Value, key: Text, depth: nat) returns (w: Value)
    requires !Arrives(p, lib, v, key, depth)
    ensures RedactsTo(p, v, key, w) && !Admissible(lib, w, depth)
    decreases v
  {
    match v
    case Obj(fields) =>
      var g := BadFieldsRedaction(p, lib, fields, depth);
      w := Obj(g);
    case List(items) =>
      if depth >= MAX_DEPTH {
        w := SomeRedaction(p, v, key);
      } else {
        var i :| 0 <= i < |items| && !Arrives(p, lib, items[i], key, depth + 1);
        var item := BadRedaction(p, lib, items[i], key, depth + 1);
        w := ListRedactionWith(p, items, key, i, item);
      }
    case Foreign(_) => w := v;
    case _ =>
  }

  /** Maps that do not arrive acceptable have a redaction that is not. */
  lemma {:induction false} BadFieldsRedaction(p: Patterns, lib: Library, f: Fields, depth: nat) returns (g: Fields)
    requires !FieldsArrive(p, lib, f, depth)
    ensures FieldsRedactTo(p, f, g) && !FieldsAdmissible(lib, g, depth)
    decreases f
  {
    if depth >= MAX_DEPTH {
      g := DeepRedaction(p, lib, f, depth);
    } else {
      var k, known := Culprit(p, lib, f, depth);
      if known {
        g := KeyRedaction(p, lib, f, k, depth);
      } else {
        var w := BadRedaction(p, lib, f.entries[k], k, depth + 1);
        g := ValueRedaction(p, lib, f, k, w, depth);
      }
    }
  }

  lemma DeepRedaction(p: Patterns, lib: Library, f: Fields, depth: nat) returns (g: Fields)
    requires f.Fields? && depth >= MAX_DEPTH
    ensures FieldsRedactTo(p, f, g) && !FieldsAdmissible(lib, g, depth)
  {
    g := SomeFieldsRedaction(p, f);
  }

  lemma KeyRedaction(p: Patterns, lib: Library, f: Fields, k: Text, depth: nat) returns (g: Fields)
    requires f.Fields? && k in f.entries && ProhibitedKey(lib, Sanitize(p, k))
    ensures FieldsRedactTo(p, f, g) && !FieldsAdmissible(lib, g, depth)
  {
    var w := SomeRedaction(p, f.entries[k], k);
    g := RedactionEndingWith(p, f, k, w);
    BadKey(lib, g, Sanitize(p, k), depth);
  }

  lemma ValueRedaction(p: Patterns, lib: Library, f: Fields, k: Text, w: Value, depth: nat) returns (g: Fields)
    requires f.Fields? && k in f.entries && RedactsTo(p, f.entries[k], k, w) && !Admissible(lib, w, depth + 1)
    ensures FieldsRedactTo(p, f, g) && !FieldsAdmissible(lib, g, depth)
  {
    g := RedactionEndingWith(p, f, k, w);
    BadValue(lib, g, Sanitize(p, k), depth);
  }

  /** The entry that does not arrive acceptable: by its key, or by its value. */
  lemma Culprit(p: Patterns, lib: Library, f: Fields, depth: nat) returns (k: Text, known: bool)
    requires !FieldsArrive(p, lib, f, depth) && depth < MAX_DEPTH
    ensures f.Fields? && k in f.entries
    ensures if known then ProhibitedKey(lib, Sanitize(p, k)) else !Arrives(p, lib, f.entries[k], k, depth + 1)
  {
    k :| k in f.entries && (ProhibitedKey(lib, Sanitize(p, k)) || !Arrives(p, lib, f.entries[k], k, depth + 1));
    known := ProhibitedKey(lib, Sanitize(p, k));
  }

  lemma BadKey(lib: Library, g: Fields, k: Text, depth: nat)
    requires g.Fields? && k in g.entries && ProhibitedKey(lib, k)
    ensures !FieldsAdmissible(lib, g, depth)
  {}

  lemma BadValue(lib: Library, g: Fields, k: Text, depth: nat)
    requires g.Fields? && k in g.entries && !Admissible(lib, g.entries[k], depth + 1)
    ensures !FieldsAdmissible(lib, g, depth)
  {}

  /** Every redacted event gets a verdict. */
  lemma SomeVerdict(lib: Library, redacted: Event, now: Time, freshID: Text) returns (r: Result<Event>)
    ensures Judges(lib, redacted, now, freshID, r)
  {
    if ValidateEvent(lib, redacted).Fault? {
      r := Failure(ValidateEvent(lib, redacted).error);
    } else if !FieldsAdmissible(lib, redacted.context, 0) {
      FieldsFailureIsOrderIndependent(lib, redacted.context, 0);
      var e :| FieldsMayFail(lib, redacted.context, 0, e);
      r := Failure(e);
    } else if !FieldsAdmissible(lib, redacted.metadata, 0) {
      FieldsFailureIsOrderIndependent(lib, redacted.metadata, 0);
      var e :| FieldsMayFail(lib, redacted.metadata, 0, e);
      r := Failure(e);
    } else if ValidateMetadataSize(lib, redacted).Fault? {
      r := Failure(ValidateMetadataSize(lib, redacted).error);
    } else {
      r := Success(Enrich(lib, redacted, now, freshID));
    }
  }

  /** The redaction of an event with given redactions of its maps. */
  function RedactedWith(p: Patterns, e: Event, context: Fields, metadata: Fields): Event {
    e.(service := Sanitize(p, e.service), component := Sanitize(p, e.component),
       eventType := Sanitize(p, e.eventType), message := Sanitize(p, e.message),
       code := Sanitize(p, e.code), sessionID := Sanitize(p, e.sessionID),
       userID := Sanitize(p, e.userID), correlationID := Sanitize(p, e.correlationID),
       traceID := Sanitize(p, e.traceID), spanID := Sanitize(p, e.spanID),
       context := context, metadata := metadata)
  }

  /** An event that does not meet the conditions on arrival has a redaction that is rejected. */
  lemma BadMaps(p: Patterns, lib: Library, e: Event) returns (context: Fields, metadata: Fields)
    requires !EventArrives(p, lib, e)
    ensures FieldsRedactTo(p, e.context, context) && FieldsRedactTo(p, e.metadata, metadata)
    ensures !(TextsArrive(p, lib, e) && FieldsAdmissible(lib, context, 0) && FieldsAdmissible(lib, metadata, 0)
              && SizeFits(lib, context, metadata))
  {
    context := SomeFieldsRedaction(p, e.context);
    metadata := SomeFieldsRedaction(p, e.metadata);
    if !FieldsArrive(p, lib, e.context, 0) {
      context := BadFieldsRedaction(p, lib, e.context, 0);
    } else if !FieldsArrive(p, lib, e.metadata, 0) {
      metadata := BadFieldsRedaction(p, lib, e.metadata, 0);
    } else if !SmallEnough(p, lib, e) {
      context, metadata :| FieldsRedactTo(p, e.context, context) && FieldsRedactTo(p, e.metadata, metadata)
                           && !SizeFits(lib, context, metadata);
    }
  }

  /** An event is accepted whatever order its maps are iterated in if and only if it meets the conditions on
      arrival. */
  lemma AcceptedInEveryOrder(p: Patterns, lib: Library, e: Event, now: Time, freshID: Text)
    ensures (forall r :: MayReturn(p, lib, e, now, freshID, r) ==> r.Success?) <==> EventArrives(p, lib, e)
  {
    if EventArrives(p, lib, e) {
      forall r | MayReturn(p, lib, e, now, freshID, r) ensures r.Success? {
        AcceptedOnArrival(p, lib, e, now, freshID, r);
      }
    } else {
      var context, metadata := BadMaps(p, lib, e);
      var redacted := RedactedWith(p, e, context, metadata);
      assert EventRedactsTo(p, e, redacted);
      var r := SomeVerdict(lib, redacted, now, freshID);
      AcceptedExactly(p, lib, e, redacted, now, freshID, r);
      assert MayReturn(p, lib, e, now, freshID, r) && !r.Success?;
    }
  }
}
