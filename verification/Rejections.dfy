/** Why ProcessEvent rejects an event, with the limits and names spelled out. */
module Rejections {
  import opened Contracts
  import opened Texts
  import opened Redaction
  import opened Processor
  import opened ProcessorTheorems
  import opened Arrivals

  /** The words a level may be, once trimmed and folded. */
  predicate LevelWord(word: Text) {
    || word == Lit("trace") || word == Lit("debug") || word == Lit("info") || word == Lit("warn")
    || word == Lit("error") || word == Lit("fatal") || word == Lit("information") || word == Lit("warning")
  }

  function LevelComplaint(lib: Library, level: Text): Check {
    if !ValidUtf8(level) then Fault(InvalidUtf8)
    else if level == [] then Fault(MissingRequiredField)
    else if !LevelWord(ToLower(lib.lowerOther, Trim(level))) then Fault(UnsupportedEventLevel)
    else Pass
  }

  function TextComplaint(t: Text, limit: nat): Check {
    if t == [] then Fault(MissingRequiredField) else if |t| > limit then Fault(InvalidEvent) else Pass
  }

  function RestComplaint(lib: Library, component: Text, timestamp: Time): Check {
    if |component| > 128 || (timestamp.instant != 0 && lib.year(timestamp.instant + timestamp.offset) < 2000)
    then Fault(InvalidEvent) else Pass
  }

  function First(a: Check, b: Check, c: Check, d: Check, e: Check): Check {
    if a.Fault? then a else if b.Fault? then b else if c.Fault? then c else if d.Fault? then d else e
  }

  /** The first complaint about the texts of an arriving event, if any. */
  function Complaint(p: Patterns, lib: Library, e: Event): Check {
    First(LevelComplaint(lib, e.level),
          TextComplaint(Clean(p.mask(e.service)), 128),
          TextComplaint(Clean(p.mask(e.eventType)), 128),
          TextComplaint(Clean(p.mask(e.message)), 4096),
          RestComplaint(lib, Clean(p.mask(e.component)), e.timestamp))
  }

  lemma KnownWords(lib: Library, level: Text)
    ensures MapEventLevel(lib, level) in Levels() <==> LevelWord(ToLower(lib.lowerOther, Trim(level)))
  {
    LevelNames(lib, level);
  }

  lemma EmptyLevel(lib: Library)
    ensures MapEventLevel(lib, []) !in Levels()
  {
    LevelsAreShort();
    assert |Lit("information")| == 11 && |Lit("warning")| == 7;
    assert ToLower(lib.lowerOther, Trim([])) == [];
  }

  /** The level check of validateEvent. */
  function LevelVerdict(lib: Library, level: Text): Check {
    if !ValidUtf8(level) then Fault(InvalidUtf8)
    else if MapEventLevel(lib, level) in Levels() then Pass
    else Fault(if level == [] then MissingRequiredField else UnsupportedEventLevel)
  }

  lemma LevelVerdictIs(lib: Library, level: Text)
    ensures LevelVerdict(lib, level) == LevelComplaint(lib, level)
  {
    KnownWords(lib, level);
    EmptyLevel(lib);
  }

  lemma RequiredVerdictIs(t: Text, limit: nat)
    ensures CheckRequired(Clean(t), limit) == TextComplaint(Clean(t), limit)
  {
    CleanBlank(t);
  }

  lemma ValidateInParts(lib: Library, r: Event)
    requires ValidUtf8(r.service) && ValidUtf8(r.eventType) && ValidUtf8(r.message)
    ensures ValidateEvent(lib, r) ==
      First(LevelVerdict(lib, r.level), CheckRequired(r.service, 128), CheckRequired(r.eventType, 128),
            CheckRequired(r.message, 4096), RestComplaint(lib, r.component, r.timestamp))
  {}

  lemma ComplaintIsVerdict(p: Patterns, lib: Library, e: Event, redacted: Event)
    requires EventRedactsTo(p, e, redacted)
    ensures ValidateEvent(lib, redacted) == Complaint(p, lib, e)
  {
    RedactedIsValidUtf8(p, lib, e, redacted);
    ValidateInParts(lib, redacted);
    LevelVerdictIs(lib, e.level);
    RequiredVerdictIs(p.mask(e.service), 128);
    RequiredVerdictIs(p.mask(e.eventType), 128);
    RequiredVerdictIs(p.mask(e.message), 4096);
  }

  /** An event whose texts give cause for complaint is rejected for the first of them. */
  lemma TextsDecide(p: Patterns, lib: Library, e: Event, now: Time, freshID: Text, r: Result<Event>)
    requires MayReturn(p, lib, e, now, freshID, r) && Complaint(p, lib, e).Fault?
    ensures r == Failure(Complaint(p, lib, e).error)
  {
    var redacted :| EventRedactsTo(p, e, redacted) && Judges(lib, redacted, now, freshID, r);
    ComplaintIsVerdict(p, lib, e, redacted);
  }

  // ---------------------------------------------------------------- maps

  /** With acceptable texts and maps, an event is rejected as too large if and only if the encoder gives its
      redacted maps more than 64 KiB. */
  lemma SizeDecides(p: Patterns, lib: Library, e: Event, now: Time, freshID: Text, r: Result<Event>)
    requires MayReturn(p, lib, e, now, freshID, r) && Complaint(p, lib, e).Pass?
    requires FieldsArrive(p, lib, e.context, 0) && FieldsArrive(p, lib, e.metadata, 0)
    ensures (forall g, h :: FieldsRedactTo(p, e.context, g) && FieldsRedactTo(p, e.metadata, h) ==>
               lib.encodedSize(g, h).Success? && lib.encodedSize(g, h).value > 65_536) ==> r == Failure(MetadataTooLarge)
    ensures (forall g, h :: FieldsRedactTo(p, e.context, g) && FieldsRedactTo(p, e.metadata, h) ==>
               lib.encodedSize(g, h).Success? && lib.encodedSize(g, h).value <= 65_536) ==> r.Success?
    ensures (forall g, h :: FieldsRedactTo(p, e.context, g) && FieldsRedactTo(p, e.metadata, h) ==>
               lib.encodedSize(g, h).Failure?) ==> r == Failure(InvalidEvent)
  {
    var redacted :| EventRedactsTo(p, e, redacted) && Judges(lib, redacted, now, freshID, r);
    ComplaintIsVerdict(p, lib, e, redacted);
    FieldsArrivalSuffices(p, lib, e.context, 0, redacted.context);
    FieldsArrivalSuffices(p, lib, e.metadata, 0, redacted.metadata);
  }

  /** A context with one entry: a prohibited key is a sensitive field, and a value of a foreign type under any
      other key that is not sensitive makes the event invalid. */
  lemma EntryDecides(p: Patterns, lib: Library, e: Event, key: Text, v: Value, now: Time, freshID: Text, r: Result<Event>)
    requires MayReturn(p, lib, e, now, freshID, r) && Complaint(p, lib, e).Pass?
    requires e.context == Fields(map[key := v])
    ensures ProhibitedKey(lib, Sanitize(p, key)) ==> r == Failure(SensitiveField)
    ensures !ProhibitedKey(lib, Sanitize(p, key)) && !p.sensitiveKey(key) && v.Foreign? ==> r == Failure(InvalidEvent)
  {
    var redacted :| EventRedactsTo(p, e, redacted) && Judges(lib, redacted, now, freshID, r);
    ComplaintIsVerdict(p, lib, e, redacted);
    var g, word := redacted.context, Sanitize(p, key);
    SanitizedIsValid(p, key);
    OneEntry(p, key, v, g);
    if ProhibitedKey(lib, word) {
      OnlyKeyFails(lib, g, word, 0);
    } else if !p.sensitiveKey(key) && v.Foreign? {
      OnlyValueFails(lib, g, word, 0);
    }
  }

  lemma OnlyKeyFails(lib: Library, g: Fields, word: Text, depth: nat)
    requires g.Fields? && (forall k :: k in g.entries <==> k == word) && depth < MAX_DEPTH
    requires ValidUtf8(word) && ProhibitedKey(lib, word)
    ensures !FieldsAdmissible(lib, g, depth) && forall e :: FieldsMayFail(lib, g, depth, e) ==> e == SensitiveField
  {
    BadKey(lib, g, word, depth);
    forall e | FieldsMayFail(lib, g, depth, e) ensures e == SensitiveField {
      var k :| k in g.entries && EntryMayFail(lib, k, g.entries[k], depth + 1, e);
    }
  }

  lemma OnlyValueFails(lib: Library, g: Fields, word: Text, depth: nat)
    requires g.Fields? && (forall k :: k in g.entries <==> k == word) && depth < MAX_DEPTH
    requires KeyAdmissible(lib, word) && g.entries[word].Foreign?
    ensures !FieldsAdmissible(lib, g, depth) && forall e :: FieldsMayFail(lib, g, depth, e) ==> e == InvalidEvent
  {
    BadValue(lib, g, word, depth);
    forall e | FieldsMayFail(lib, g, depth, e) ensures e == InvalidEvent {
      var k :| k in g.entries && EntryMayFail(lib, k, g.entries[k], depth + 1, e);
      ForeignFails(lib, k, g.entries[k], depth + 1, e);
    }
  }

  lemma ForeignFails(lib: Library, k: Text, v: Value, depth: nat, e: Error)
    requires KeyAdmissible(lib, k) && v.Foreign? && EntryMayFail(lib, k, v, depth, e)
    ensures e == InvalidEvent
  {}

  lemma OneEntry(p: Patterns, key: Text, v: Value, g: Fields)
    requires FieldsRedactTo(p, Fields(map[key := v]), g)
    ensures g.Fields? && (forall k :: k in g.entries <==> k == Sanitize(p, key))
    ensures RedactsTo(p, v, key, g.entries[Sanitize(p, key)])
  {
    assert key in map[key := v];
    assert Sanitize(p, key) in g.entries;
  }

  // ---------------------------------------------------------------- depth

  lemma {:induction false} LeavesFailOnlyByDepth(lib: Library, v: Value, depth: nat, e: Error)
    requires LeavesAdmissible(lib, v) && MayFail(lib, v, depth, e)
    ensures e == NestedTooDeep
    decreases v
  {
    match v
    case Obj(fields) => FieldsFailOnlyByDepth(lib, fields, depth, e);
    case List(items) =>
      if depth < MAX_DEPTH {
        var i :| 0 <= i < |items| && MayFail(lib, items[i], depth + 1, e);
        LeavesFailOnlyByDepth(lib, items[i], depth + 1, e);
      }
    case _ =>
  }

  /** Maps whose keys and scalars are acceptable can only be nested too deep. */
  lemma {:induction false} FieldsFailOnlyByDepth(lib: Library, f: Fields, depth: nat, e: Error)
    requires FieldLeavesAdmissible(lib, f) && FieldsMayFail(lib, f, depth, e)
    ensures e == NestedTooDeep
    decreases f
  {
    if depth < MAX_DEPTH {
      var k :| k in f.entries && EntryMayFail(lib, k, f.entries[k], depth + 1, e);
      LeavesFailOnlyByDepth(lib, f.entries[k], depth + 1, e);
    }
  }
}
