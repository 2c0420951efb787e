/** The second pass: validation, normalisation and enrichment of a redacted event. */
module Processor {
  import opened Contracts
  import opened Texts
  import opened Redaction

  datatype Error =
    | InvalidEvent
    | UnsupportedEventLevel
    | MissingRequiredField
    | SensitiveField
    | MetadataTooLarge
    | InvalidUtf8
    | NestedTooDeep

  datatype Result<T> = Success(value: T) | Failure(error: Error)

  /** Library behaviour the processor depends on: case folding outside ASCII, the civil year of an instant,
      and the length json.Marshal gives the two maps, if it can encode them. */
  datatype Library = Library(
    lowerOther: char -> char,
    year: int -> int,
    encodedSize: (Fields, Fields) -> Result<nat>)

  const MAX_SERVICE := 128
  const MAX_COMPONENT := 128
  const MAX_EVENT_TYPE := 128
  const MAX_MESSAGE := 4096
  const MAX_METADATA_BYTES := 64 * 1024
  const MAX_DEPTH := 8

  function ProhibitedFields(): set<Text> {
    {Lit("authorization"), Lit("cookie"), Lit("cookies"), Lit("password"), Lit("passwd"), Lit("secret"),
     Lit("token"), Lit("accesstoken"), Lit("refreshtoken"), Lit("apikey"), Lit("privatekey"), Lit("sessionsecret")}
  }

  function Levels(): set<Text> {
    {Lit("trace"), Lit("debug"), Lit("info"), Lit("warn"), Lit("error"), Lit("fatal")}
  }

  function MapEventLevel(lib: Library, level: Text): Text {
    var folded := ToLower(lib.lowerOther, Trim(level));
    if folded == Lit("information") then Lit("info")
    else if folded == Lit("warning") then Lit("warn")
    else folded
  }

  function NormalizeFieldName(lib: Library, t: Text): Text {
    Without(Without(Without(ToLower(lib.lowerOther, Trim(t)), '-'), '_'), ' ')
  }

  predicate ProhibitedKey(lib: Library, key: Text) {
    NormalizeFieldName(lib, key) in ProhibitedFields()
  }

  /** The loop of sanitizeText. */
  method SanitizeText(value: Text) returns (r: Text)
    ensures r == Clean(value)
  {
    var builder: Text := [];
    for i := 0 to |value|
      invariant builder == Strip(value[..i])
    {
      assert value[..i + 1][..i] == value[..i];
      if IsControl(value[i]) && value[i].c != '\t' {
        continue;
      }
      builder := builder + [Written(value[i])];
    }
    assert value[..|value|] == value;
    r := Trim(builder);
  }

  // ---------------------------------------------------------------- the recursive pass, specified

  /** What the pass may turn a value into; colliding keys make it a relation. */
  ghost predicate CleansTo(v: Value, w: Value)
    decreases v
  {
    match v
    case Str(text) => w == Str(Clean(text))
    case Obj(fields) => w.Obj? && FieldsCleanTo(fields, w.fields)
    case List(items) =>
      w.List? && |w.items| == |items| && forall i :: 0 <= i < |items| ==> CleansTo(items[i], w.items[i])
    case _ => w == v
  }

  ghost predicate FieldsCleanTo(f: Fields, g: Fields)
    decreases f
  {
    match f
    case NilFields => g.NilFields?
    case Fields(entries) =>
      && g.Fields?
      && (forall k :: k in entries ==> Clean(k) in g.entries)
      && (forall k' :: k' in g.entries ==>
            exists k :: k in entries && Clean(k) == k' && CleansTo(entries[k], g.entries[k']))
  }

  /** When the pass succeeds, whatever order maps are iterated in. */
  ghost predicate Admissible(lib: Library, v: Value, depth: nat)
    decreases v
  {
    match v
    case Str(text) => ValidUtf8(text)
    case Obj(fields) => FieldsAdmissible(lib, fields, depth)
    case List(items) => depth < MAX_DEPTH && forall i :: 0 <= i < |items| ==> Admissible(lib, items[i], depth + 1)
    case Foreign(_) => false
    case _ => true
  }

  ghost predicate FieldsAdmissible(lib: Library, f: Fields, depth: nat)
    decreases f
  {
    f.Fields? ==>
      && depth < MAX_DEPTH
      && forall k :: k in f.entries ==> KeyAdmissible(lib, k) && Admissible(lib, f.entries[k], depth + 1)
  }

  predicate KeyAdmissible(lib: Library, k: Text) {
    ValidUtf8(k) && !ProhibitedKey(lib, k)
  }

  /** The errors the pass may report: in a list the first failing item's, in a map any failing entry's. */
  ghost predicate MayFail(lib: Library, v: Value, depth: nat, e: Error)
    decreases v, 0
  {
    match v
    case Str(text) => !ValidUtf8(text) && e == InvalidUtf8
    case Obj(fields) => FieldsMayFail(lib, fields, depth, e)
    case List(items) =>
      if depth >= MAX_DEPTH then e == NestedTooDeep
      else exists i :: 0 <= i < |items| && MayFail(lib, items[i], depth + 1, e)
             && forall j :: 0 <= j < i ==> Admissible(lib, items[j], depth + 1)
    case Foreign(_) => e == InvalidEvent
    case _ => false
  }

  ghost predicate FieldsMayFail(lib: Library, f: Fields, depth: nat, e: Error)
    decreases f, 0
  {
    f.Fields? &&
    if depth >= MAX_DEPTH then e == NestedTooDeep
    else exists k :: k in f.entries && EntryMayFail(lib, k, f.entries[k], depth + 1, e)
  }

  ghost predicate EntryMayFail(lib: Library, k: Text, v: Value, depth: nat, e: Error)
    decreases v, 1
  {
    if KeyAdmissible(lib, k) then MayFail(lib, v, depth, e)
    else e == if !ValidUtf8(k) then InvalidUtf8 else SensitiveField
  }

  // ---------------------------------------------------------------- the recursive pass itself

  /** `out` is what the entries outside `remaining` have been cleaned into. */
  ghost predicate CleanedSoFar(entries: map<Text, Value>, remaining: set<Text>, out: map<Text, Value>) {
    && (forall k :: k in entries && k !in remaining ==> Clean(k) in out)
    && (forall k' :: k' in out ==> exists k :: k in entries && Clean(k) == k' && CleansTo(entries[k], out[k']))
  }

  lemma CleanedStep(entries: map<Text, Value>, remaining: set<Text>, out: map<Text, Value>, key: Text, w: Value)
    requires CleanedSoFar(entries, remaining, out) && key in entries && CleansTo(entries[key], w)
    ensures CleanedSoFar(entries, remaining - {key}, out[Clean(key) := w])
  {}

  ghost predicate AdmissibleSoFar(lib: Library, entries: map<Text, Value>, remaining: set<Text>, depth: nat) {
    forall k :: k in entries && k !in remaining ==> KeyAdmissible(lib, k) && Admissible(lib, entries[k], depth)
  }

  /** One failing entry fails the map. */
  lemma EntryFails(lib: Library, entries: map<Text, Value>, key: Text, depth: nat, e: Error)
    requires key in entries && depth < MAX_DEPTH && EntryMayFail(lib, key, entries[key], depth + 1, e)
    ensures FieldsMayFail(lib, Fields(entries), depth, e)
  {}

  method SanitizeMap(lib: Library, values: Fields, depth: nat) returns (r: Result<Fields>)
    ensures r.Success? <==> FieldsAdmissible(lib, values, depth)
    ensures r.Success? ==> FieldsCleanTo(values, r.value)
    ensures r.Failure? ==> FieldsMayFail(lib, values, depth, r.error)
    decreases values
  {
    if values.NilFields? {
      return Success(NilFields);
    }
    if depth >= MAX_DEPTH {
      return Failure(NestedTooDeep);
    }
    var entries := values.entries;
    var sanitized: map<Text, Value> := map[];
    var remaining := entries.Keys;
    while remaining != {}
      invariant remaining <= entries.Keys
      invariant AdmissibleSoFar(lib, entries, remaining, depth + 1)
      invariant CleanedSoFar(entries, remaining, sanitized)
      decreases remaining
    {
      var key :| key in remaining;
      assert key in entries;
      if !ValidUtf8(key) {
        EntryFails(lib, entries, key, depth, InvalidUtf8);
        return Failure(InvalidUtf8);
      }
      if ProhibitedKey(lib, key) {
        EntryFails(lib, entries, key, depth, SensitiveField);
        return Failure(SensitiveField);
      }
      var cleanKey := SanitizeText(key);
      var cleanValue := SanitizeValue(lib, entries[key], depth + 1);
      if cleanValue.Failure? {
        EntryFails(lib, entries, key, depth, cleanValue.error);
        return Failure(cleanValue.error);
      }
      CleanedStep(entries, remaining, sanitized, key, cleanValue.value);
      sanitized := sanitized[cleanKey := cleanValue.value];
      remaining := remaining - {key};
    }
    r := Success(Fields(sanitized));
  }

  method SanitizeValue(lib: Library, value: Value, depth: nat) returns (r: Result<Value>)
    ensures r.Success? <==> Admissible(lib, value, depth)
    ensures r.Success? ==> CleansTo(value, r.value)
    ensures r.Failure? ==> MayFail(lib, value, depth, r.error)
    decreases value
  {
    match value
    case Str(text) =>
      if !ValidUtf8(text) {
        return Failure(InvalidUtf8);
      }
      var cleaned := SanitizeText(text);
      r := Success(Str(cleaned));
    case Obj(fields) =>
      var inner := SanitizeMap(lib, fields, depth);
      r := if inner.Success? then Success(Obj(inner.value)) else Failure(inner.error);
    case List(items) =>
      if depth >= MAX_DEPTH {
        return Failure(NestedTooDeep);
      }
      var sanitized: seq<Value> := [];
      for i := 0 to |items|
        invariant |sanitized| == i
        invariant forall j :: 0 <= j < i ==> Admissible(lib, items[j], depth + 1) && CleansTo(items[j], sanitized[j])
      {
        var item := SanitizeValue(lib, items[i], depth + 1);
        if item.Failure? {
          return Failure(item.error);
        }
        sanitized := sanitized + [item.value];
      }
      r := Success(List(sanitized));
    case Foreign(_) => r := Failure(InvalidEvent);
    case _ => r := Success(value);
  }

  // ---------------------------------------------------------------- validation

  datatype Check = Pass | Fault(error: Error)

  function CheckRequired(value: Text, limit: nat): Check {
    if Blank(value) then Fault(MissingRequiredField)
    else if |value| > limit then Fault(InvalidEvent)
    else Pass
  }

  function ValidateEvent(lib: Library, e: Event): Check {
    if !ValidUtf8(e.level) || !ValidUtf8(e.service) || !ValidUtf8(e.eventType) || !ValidUtf8(e.message) then
      Fault(InvalidUtf8)
    else if MapEventLevel(lib, e.level) !in Levels() then
      Fault(if e.level == [] then MissingRequiredField else UnsupportedEventLevel)
    else if CheckRequired(e.service, MAX_SERVICE).Fault? then CheckRequired(e.service, MAX_SERVICE)
    else if CheckRequired(e.eventType, MAX_EVENT_TYPE).Fault? then CheckRequired(e.eventType, MAX_EVENT_TYPE)
    else if CheckRequired(e.message, MAX_MESSAGE).Fault? then CheckRequired(e.message, MAX_MESSAGE)
    else if |e.component| > MAX_COMPONENT then Fault(InvalidEvent)
    else if e.timestamp.instant != 0 && lib.year(e.timestamp.instant + e.timestamp.offset) < 2000 then
      Fault(InvalidEvent)
    else Pass
  }

  function ValidateMetadataSize(lib: Library, e: Event): Check {
    match lib.encodedSize(e.context, e.metadata)
    case Failure(_) => Fault(InvalidEvent)
    case Success(size) => if size > MAX_METADATA_BYTES then Fault(MetadataTooLarge) else Pass
  }

  /** The fields the service fills in or canonicalises. */
  function Enrich(lib: Library, e: Event, now: Time, freshID: Text): Event {
    e.(level := MapEventLevel(lib, e.level),
       eventID := if e.eventID == [] then freshID else e.eventID,
       timestamp := Time(if e.timestamp.instant == 0 then now.instant else e.timestamp.instant, 0))
  }

  // ---------------------------------------------------------------- the second pass is the identity

  lemma {:induction false} CleaningFixed(v: Value, w: Value)
    requires FixedValue(v) && CleansTo(v, w)
    ensures w == v
    decreases v
  {
    match v
    case Str(text) => CleanFixes(text);
    case Obj(fields) => CleaningFixedFields(fields, w.fields);
    case List(items) =>
      forall i | 0 <= i < |items| ensures w.items[i] == items[i] {
        CleaningFixed(items[i], w.items[i]);
      }
      assert w.items == items;
    case _ =>
  }

  /** Cleaning fields whose texts are already clean changes nothing, whatever the iteration order. */
  lemma {:induction false} CleaningFixedFields(f: Fields, g: Fields)
    requires FixedFields(f) && FieldsCleanTo(f, g)
    ensures g == f
    decreases f
  {
    if f.Fields? {
      forall k | k in f.entries ensures Clean(k) == k {
        CleanFixes(k);
      }
      forall k' | k' in g.entries
        ensures k' in f.entries && g.entries[k'] == f.entries[k']
      {
        var k :| k in f.entries && Clean(k) == k' && CleansTo(f.entries[k], g.entries[k']);
        CleaningFixed(f.entries[k], g.entries[k']);
      }
      assert g.entries == f.entries;
    }
  }

  /** The second sanitisation of a redacted event's maps is the identity. */
  lemma SecondPassIsIdentity(p: Patterns, f: Fields, g: Fields, h: Fields)
    requires FieldsRedactTo(p, f, g) && FieldsCleanTo(g, h)
    ensures h == g
  {
    RedactionFixesFields(p, f, g);
    CleaningFixedFields(g, h);
  }

  /** The verdict on a redacted event: the checks in order, each error one that its check gives. */
  ghost predicate Judges(lib: Library, redacted: Event, now: Time, freshID: Text, r: Result<Event>) {
    if ValidateEvent(lib, redacted).Fault? then r == Failure(ValidateEvent(lib, redacted).error)
    else if !FieldsAdmissible(lib, redacted.context, 0) then
      r.Failure? && FieldsMayFail(lib, redacted.context, 0, r.error)
    else if !FieldsAdmissible(lib, redacted.metadata, 0) then
      r.Failure? && FieldsMayFail(lib, redacted.metadata, 0, r.error)
    else if ValidateMetadataSize(lib, redacted).Fault? then r == Failure(ValidateMetadataSize(lib, redacted).error)
    else r == Success(Enrich(lib, redacted, now, freshID))
  }

  /** What ProcessEvent may return: on success a redaction of the event with only the level, the ID and
      the timestamp changed. */
  ghost predicate MayReturn(p: Patterns, lib: Library, event: Event, now: Time, freshID: Text, r: Result<Event>) {
    exists redacted :: EventRedactsTo(p, event, redacted) && Judges(lib, redacted, now, freshID, r)
  }

  /** ProcessEvent, with the clock reading and the generated ID as arguments. */
  method ProcessEvent(p: Patterns, lib: Library, event: Event, now: Time, freshID: Text) returns (r: Result<Event>)
    ensures MayReturn(p, lib, event, now, freshID, r)
  {
    var e := RedactEvent(p, event);
    ghost var redacted := e;
    r := Complete(p, lib, event, e, now, freshID);
    assert EventRedactsTo(p, event, redacted) && Judges(lib, redacted, now, freshID, r);
  }

  /** The steps after redaction. */
  method Complete(p: Patterns, lib: Library, ghost event: Event, redacted: Event, now: Time, freshID: Text)
    returns (r: Result<Event>)
    requires EventRedactsTo(p, event, redacted)
    ensures Judges(lib, redacted, now, freshID, r)
  {
    var e := redacted;
    var check := ValidateEvent(lib, e);
    if check.Fault? {
      return Failure(check.error);
    }
    e := Enrich(lib, e, now, freshID);
    e := SanitizeFields(p, event, redacted, e);
    var context := SanitizeMap(lib, e.context, 0);
    if context.Failure? {
      return Failure(context.error);
    }
    SecondPassIsIdentity(p, event.context, redacted.context, context.value);
    e := e.(context := context.value);
    var metadata := SanitizeMap(lib, e.metadata, 0);
    if metadata.Failure? {
      return Failure(metadata.error);
    }
    SecondPassIsIdentity(p, event.metadata, redacted.metadata, metadata.value);
    e := e.(metadata := metadata.value);
    check := ValidateMetadataSize(lib, e);
    if check.Fault? {
      return Failure(check.error);
    }
    r := Success(e);
  }

  /** The ten text fields are sanitised a second time, to no effect. */
  method SanitizeFields(p: Patterns, ghost event: Event, ghost redacted: Event, e: Event) returns (r: Event)
    requires EventRedactsTo(p, event, redacted)
    requires e == redacted.(level := e.level, eventID := e.eventID, timestamp := e.timestamp)
    ensures r == e
  {
    CleanIdempotent(p.mask(event.service));
    CleanIdempotent(p.mask(event.component));
    CleanIdempotent(p.mask(event.eventType));
    CleanIdempotent(p.mask(event.message));
    CleanIdempotent(p.mask(event.code));
    CleanIdempotent(p.mask(event.sessionID));
    CleanIdempotent(p.mask(event.userID));
    CleanIdempotent(p.mask(event.correlationID));
    CleanIdempotent(p.mask(event.traceID));
    CleanIdempotent(p.mask(event.spanID));
    var service := SanitizeText(e.service);
    var component := SanitizeText(e.component);
    var eventType := SanitizeText(e.eventType);
    var message := SanitizeText(e.message);
    var code := SanitizeText(e.code);
    var sessionID := SanitizeText(e.sessionID);
    var userID := SanitizeText(e.userID);
    var correlationID := SanitizeText(e.correlationID);
    var traceID := SanitizeText(e.traceID);
    var spanID := SanitizeText(e.spanID);
    r := e.(service := service, component := component, eventType := eventType, message := message, code := code,
            sessionID := sessionID, userID := userID, correlationID := correlationID, traceID := traceID,
            spanID := spanID);
  }
}
