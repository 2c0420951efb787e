/** What redaction's mask removes from texts does not reach the result. */
module MaskEffects {
  import opened Contracts
  import opened Texts
  import opened Redaction
  import opened Processor
  import opened ProcessorTheorems

  /** Nothing but the mask is needed: cleaning leaves the masked text alone. */
  predicate MaskIsEnough(p: Patterns, t: Text) {
    Stripped(p.mask(t)) && Tight(p.mask(t))
  }

  lemma MaskedText(p: Patterns, t: Text)
    requires MaskIsEnough(p, t)
    ensures Sanitize(p, t) == p.mask(t)
  {
    CleanFixes(p.mask(t));
  }

  /** Each text of an accepted event is the masked text of the event that arrived, where cleaning has nothing
      to add. */
  lemma AcceptedTextsAreMasked(p: Patterns, lib: Library, e: Event, now: Time, freshID: Text, out: Event)
    requires MayReturn(p, lib, e, now, freshID, Success(out))
    ensures MaskIsEnough(p, e.service) ==> out.service == p.mask(e.service)
    ensures MaskIsEnough(p, e.component) ==> out.component == p.mask(e.component)
    ensures MaskIsEnough(p, e.eventType) ==> out.eventType == p.mask(e.eventType)
    ensures MaskIsEnough(p, e.message) ==> out.message == p.mask(e.message)
    ensures MaskIsEnough(p, e.code) ==> out.code == p.mask(e.code)
    ensures MaskIsEnough(p, e.sessionID) ==> out.sessionID == p.mask(e.sessionID)
    ensures MaskIsEnough(p, e.userID) ==> out.userID == p.mask(e.userID)
    ensures MaskIsEnough(p, e.correlationID) ==> out.correlationID == p.mask(e.correlationID)
    ensures MaskIsEnough(p, e.traceID) ==> out.traceID == p.mask(e.traceID)
    ensures MaskIsEnough(p, e.spanID) ==> out.spanID == p.mask(e.spanID)
  {
    ResultIsRedaction(p, lib, e, now, freshID, out);
    forall t | MaskIsEnough(p, t) ensures Sanitize(p, t) == p.mask(t) {
      MaskedText(p, t);
    }
  }

  // ---------------------------------------------------------------- values at any depth

  /** The mask is enough for every text and key that redaction looks at. */
  ghost predicate MaskIsEnoughFor(p: Patterns, v: Value, key: Text)
    decreases v
  {
    p.sensitiveKey(key) ||
    match v
    case Str(text) => MaskIsEnough(p, text)
    case Obj(fields) => MaskIsEnoughForFields(p, fields)
    case List(items) => forall i :: 0 <= i < |items| ==> MaskIsEnoughFor(p, items[i], key)
    case _ => true
  }

  ghost predicate MaskIsEnoughForFields(p: Patterns, f: Fields)
    decreases f
  {
    f.Fields? ==> forall k :: k in f.entries ==> MaskIsEnough(p, k) && MaskIsEnoughFor(p, f.entries[k], k)
  }

  /** `w` is `v` with every text and key masked, and the marker under sensitive keys. */
  ghost predicate MasksTo(p: Patterns, v: Value, key: Text, w: Value)
    decreases v, 0
  {
    if p.sensitiveKey(key) then w == Str(Lit("[REDACTED]"))
    else match v
      case Str(text) => w == Str(p.mask(text))
      case Obj(fields) => w.Obj? && FieldsMaskTo(p, fields, w.fields)
      case List(items) =>
        w.List? && |w.items| == |items| && forall i :: 0 <= i < |items| ==> MasksTo(p, items[i], key, w.items[i])
      case _ => w == v
  }

  ghost predicate FieldsMaskTo(p: Patterns, f: Fields, g: Fields)
    decreases f, 0
  {
    match f
    case NilFields => g.NilFields?
    case Fields(entries) =>
      && g.Fields?
      && (forall k :: k in entries ==> p.mask(k) in g.entries)
      && (forall word :: word in g.entries ==>
            exists k :: k in entries && MaskedEntry(p, k, entries[k], word, g.entries[word]))
  }

  ghost predicate MaskedEntry(p: Patterns, k: Text, v: Value, word: Text, w: Value)
    decreases v, 1
  {
    p.mask(k) == word && MasksTo(p, v, k, w)
  }

  lemma {:induction false} RedactedIsMasked(p: Patterns, v: Value, key: Text, w: Value)
    requires RedactsTo(p, v, key, w) && MaskIsEnoughFor(p, v, key)
    ensures MasksTo(p, v, key, w)
    decreases v, 1
  {
    if !p.sensitiveKey(key) {
      match v
      case Str(text) => MaskedText(p, text);
      case Obj(fields) => RedactedFieldsAreMasked(p, fields, w.fields);
      case List(items) =>
        forall i | 0 <= i < |items| ensures MasksTo(p, items[i], key, w.items[i]) {
          RedactedIsMasked(p, items[i], key, w.items[i]);
        }
      case _ =>
    }
  }

  /** Where cleaning has nothing to add, redaction masks every text and key, at any depth, and does nothing
      else; under a sensitive key it leaves the marker. */
  lemma {:induction false} RedactedFieldsAreMasked(p: Patterns, f: Fields, g: Fields)
    requires FieldsRedactTo(p, f, g) && MaskIsEnoughForFields(p, f)
    ensures FieldsMaskTo(p, f, g)
    decreases f, 1
  {
    if f.Fields? {
      MaskedKeys(p, f, g);
      MaskedEntries(p, f, g);
    }
  }

  lemma MaskedKeys(p: Patterns, f: Fields, g: Fields)
    requires f.Fields? && FieldsRedactTo(p, f, g) && MaskIsEnoughForFields(p, f)
    ensures forall k :: k in f.entries ==> p.mask(k) in g.entries
  {
    forall k | k in f.entries ensures p.mask(k) in g.entries {
      MaskedText(p, k);
    }
  }

  lemma {:induction false} MaskedEntries(p: Patterns, f: Fields, g: Fields)
    requires f.Fields? && FieldsRedactTo(p, f, g) && MaskIsEnoughForFields(p, f)
    ensures forall word :: word in g.entries ==>
      exists k :: k in f.entries && MaskedEntry(p, k, f.entries[k], word, g.entries[word])
    decreases f, 0
  {
    forall word | word in g.entries
      ensures exists k :: k in f.entries && MaskedEntry(p, k, f.entries[k], word, g.entries[word])
    {
      var k :| k in f.entries && Sanitize(p, k) == word && RedactsTo(p, f.entries[k], k, g.entries[word]);
      MaskedText(p, k);
      RedactedIsMasked(p, f.entries[k], k, g.entries[word]);
      assert MaskedEntry(p, k, f.entries[k], word, g.entries[word]);
    }
  }

  // ---------------------------------------------------------------- events that mask alike

  predicate KeysAlike(p: Patterns, k: Text, l: Text) {
    p.mask(k) == p.mask(l) && (p.sensitiveKey(k) <==> p.sensitiveKey(l))
  }

  /** The values differ only in what the mask removes, and under sensitive keys in anything at all. */
  ghost predicate Alike(p: Patterns, v: Value, w: Value)
    decreases v, 0
  {
    match v
    case Str(text) => w.Str? && p.mask(text) == p.mask(w.text)
    case Obj(fields) => w.Obj? && FieldsAlike(p, fields, w.fields)
    case List(items) =>
      w.List? && |w.items| == |items| && forall i :: 0 <= i < |items| ==> Alike(p, items[i], w.items[i])
    case _ => w == v
  }

  ghost predicate EntriesAlike(p: Patterns, k: Text, v: Value, l: Text, w: Value)
    decreases v, 1
  {
    KeysAlike(p, k, l) && (p.sensitiveKey(k) || Alike(p, v, w))
  }

  ghost predicate FieldsAlike(p: Patterns, f: Fields, g: Fields)
    decreases f, 1
  {
    if f.NilFields? then g.NilFields? else g.Fields? && Covered(p, f, g) && Covers(p, f, g)
  }

  /** Every entry on the left has one alike on the right. */
  ghost predicate Covered(p: Patterns, f: Fields, g: Fields)
    decreases f, 0
  {
    f.Fields? && g.Fields? ==>
      forall k :: k in f.entries ==> exists l :: l in g.entries && EntriesAlike(p, k, f.entries[k], l, g.entries[l])
  }

  /** Every entry on the right has one alike on the left. */
  ghost predicate Covers(p: Patterns, f: Fields, g: Fields)
    decreases f, 0
  {
    f.Fields? && g.Fields? ==>
      forall l :: l in g.entries ==> exists k :: k in f.entries && EntriesAlike(p, k, f.entries[k], l, g.entries[l])
  }

  lemma {:induction false} AlikeRedact(p: Patterns, v: Value, key: Text, v': Value, key': Text, w: Value)
    requires EntriesAlike(p, key, v, key', v') && RedactsTo(p, v, key, w)
    ensures RedactsTo(p, v', key', w)
    decreases v, 1
  {
    if !p.sensitiveKey(key) {
      match v
      case Obj(fields) => AlikeFieldsRedact(p, fields, v'.fields, w.fields);
      case List(items) =>
        forall i | 0 <= i < |items| ensures RedactsTo(p, v'.items[i], key', w.items[i]) {
          AlikeRedact(p, items[i], key, v'.items[i], key', w.items[i]);
        }
      case _ =>
    }
  }

  lemma {:induction false} AlikeFieldsRedact(p: Patterns, f: Fields, f': Fields, g: Fields)
    requires FieldsAlike(p, f, f') && FieldsRedactTo(p, f, g)
    ensures FieldsRedactTo(p, f', g)
    decreases f, 1
  {
    if f.Fields? {
      AlikeKeys(p, f, f', g);
      AlikeEntries(p, f, f', g);
      FieldsRedacted(p, f', g);
    }
  }

  ghost predicate KeysReach(p: Patterns, entries: map<Text, Value>, out: map<Text, Value>) {
    forall k :: k in entries ==> Sanitize(p, k) in out
  }

  ghost predicate EntriesReach(p: Patterns, entries: map<Text, Value>, out: map<Text, Value>) {
    forall word :: word in out ==>
      exists k :: k in entries && Sanitize(p, k) == word && RedactsTo(p, entries[k], k, out[word])
  }

  lemma FieldsRedacted(p: Patterns, f: Fields, g: Fields)
    requires f.Fields? && g.Fields? && KeysReach(p, f.entries, g.entries) && EntriesReach(p, f.entries, g.entries)
    ensures FieldsRedactTo(p, f, g)
  {}

  lemma AlikeKeys(p: Patterns, f: Fields, f': Fields, g: Fields)
    requires f.Fields? && f'.Fields? && Covers(p, f, f') && FieldsRedactTo(p, f, g)
    ensures KeysReach(p, f'.entries, g.entries)
  {
    forall l | l in f'.entries ensures Sanitize(p, l) in g.entries {
      var k :| k in f.entries && EntriesAlike(p, k, f.entries[k], l, f'.entries[l]);
      assert Sanitize(p, k) == Sanitize(p, l);
    }
  }

  lemma {:induction false} AlikeEntries(p: Patterns, f: Fields, f': Fields, g: Fields)
    requires f.Fields? && f'.Fields? && Covered(p, f, f') && FieldsRedactTo(p, f, g)
    ensures EntriesReach(p, f'.entries, g.entries)
    decreases f, 0
  {
    forall word | word in g.entries
      ensures exists l :: l in f'.entries && Sanitize(p, l) == word && RedactsTo(p, f'.entries[l], l, g.entries[word])
    {
      var k :| k in f.entries && Sanitize(p, k) == word && RedactsTo(p, f.entries[k], k, g.entries[word]);
      var l :| l in f'.entries && EntriesAlike(p, k, f.entries[k], l, f'.entries[l]);
      AlikeRedact(p, f.entries[k], k, f'.entries[l], l, g.entries[word]);
      assert Sanitize(p, l) == Sanitize(p, k);
    }
  }

  lemma {:induction false} AlikeSymmetric(p: Patterns, v: Value, w: Value)
    requires Alike(p, v, w)
    ensures Alike(p, w, v)
    decreases v, 0
  {
    match v
    case Obj(fields) => FieldsAlikeSymmetric(p, fields, w.fields);
    case List(items) =>
      forall i | 0 <= i < |items| ensures Alike(p, w.items[i], items[i]) {
        AlikeSymmetric(p, items[i], w.items[i]);
      }
    case _ =>
  }

  lemma {:induction false} FieldsAlikeSymmetric(p: Patterns, f: Fields, g: Fields)
    requires FieldsAlike(p, f, g)
    ensures FieldsAlike(p, g, f)
    decreases f, 2
  {
    CoveredSymmetric(p, f, g);
    CoversSymmetric(p, f, g);
  }

  lemma {:induction false} CoveredSymmetric(p: Patterns, f: Fields, g: Fields)
    requires Covered(p, f, g)
    ensures Covers(p, g, f)
    decreases f, 1
  {
    if f.Fields? && g.Fields? {
      forall k | k in f.entries ensures exists l :: l in g.entries && EntriesAlike(p, l, g.entries[l], k, f.entries[k]) {
        var l :| l in g.entries && EntriesAlike(p, k, f.entries[k], l, g.entries[l]);
        EntriesAlikeSymmetric(p, k, f.entries[k], l, g.entries[l]);
      }
    }
  }

  lemma {:induction false} CoversSymmetric(p: Patterns, f: Fields, g: Fields)
    requires Covers(p, f, g)
    ensures Covered(p, g, f)
    decreases f, 1
  {
    if f.Fields? && g.Fields? {
      forall l | l in g.entries ensures exists k :: k in f.entries && EntriesAlike(p, l, g.entries[l], k, f.entries[k]) {
        var k :| k in f.entries && EntriesAlike(p, k, f.entries[k], l, g.entries[l]);
        EntriesAlikeSymmetric(p, k, f.entries[k], l, g.entries[l]);
      }
    }
  }

  lemma {:induction false} EntriesAlikeSymmetric(p: Patterns, k: Text, v: Value, l: Text, w: Value)
    requires EntriesAlike(p, k, v, l, w)
    ensures EntriesAlike(p, l, w, k, v)
    decreases v, 1
  {
    if !p.sensitiveKey(k) {
      AlikeSymmetric(p, v, w);
    }
  }

  // ---------------------------------------------------------------- whole events

  /** The events differ only in what the mask removes from their texts and maps. */
  ghost predicate EventsAlike(p: Patterns, e: Event, d: Event) {
    && e.eventID == d.eventID && e.timestamp == d.timestamp && e.level == d.level
    && p.mask(e.service) == p.mask(d.service) && p.mask(e.component) == p.mask(d.component)
    && p.mask(e.eventType) == p.mask(d.eventType) && p.mask(e.message) == p.mask(d.message)
    && p.mask(e.code) == p.mask(d.code) && p.mask(e.sessionID) == p.mask(d.sessionID)
    && p.mask(e.userID) == p.mask(d.userID) && p.mask(e.correlationID) == p.mask(d.correlationID)
    && p.mask(e.traceID) == p.mask(d.traceID) && p.mask(e.spanID) == p.mask(d.spanID)
    && FieldsAlike(p, e.context, d.context) && FieldsAlike(p, e.metadata, d.metadata)
  }

  lemma AlikeEventsRedact(p: Patterns, e: Event, d: Event, r: Event)
    requires EventsAlike(p, e, d) && EventRedactsTo(p, e, r)
    ensures EventRedactsTo(p, d, r)
  {
    AlikeFieldsRedact(p, e.context, d.context, r.context);
    AlikeFieldsRedact(p, e.metadata, d.metadata, r.metadata);
  }

  lemma EventsAlikeSymmetric(p: Patterns, e: Event, d: Event)
    requires EventsAlike(p, e, d)
    ensures EventsAlike(p, d, e)
  {
    FieldsAlikeSymmetric(p, e.context, d.context);
    FieldsAlikeSymmetric(p, e.metadata, d.metadata);
  }

  lemma AlikeEventsReturn(p: Patterns, lib: Library, e: Event, d: Event, now: Time, freshID: Text, r: Result<Event>)
    requires EventsAlike(p, e, d) && MayReturn(p, lib, e, now, freshID, r)
    ensures MayReturn(p, lib, d, now, freshID, r)
  {
    var redacted :| EventRedactsTo(p, e, redacted) && Judges(lib, redacted, now, freshID, r);
    AlikeEventsRedact(p, e, d, redacted);
  }

  /** ProcessEvent has the same possible outcomes for events that differ only in what the mask removes, or
      under sensitive keys: none of that reaches the store, or decides whether the event does. */
  lemma MaskedPartsDoNotMatter(p: Patterns, lib: Library, e: Event, d: Event, now: Time, freshID: Text, r: Result<Event>)
    requires EventsAlike(p, e, d)
    ensures MayReturn(p, lib, e, now, freshID, r) <==> MayReturn(p, lib, d, now, freshID, r)
  {
    EventsAlikeSymmetric(p, e, d);
    if MayReturn(p, lib, e, now, freshID, r) {
      AlikeEventsReturn(p, lib, e, d, now, freshID, r);
    }
    if MayReturn(p, lib, d, now, freshID, r) {
      AlikeEventsReturn(p, lib, d, e, now, freshID, r);
    }
  }
}
