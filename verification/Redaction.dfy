/** The first pass over an event: secrets are masked and text is cleaned. */
module Redaction {
  import opened Contracts
  import opened Texts

  /** The two regular expressions, as a predicate on keys and a replacement on text. */
  datatype Patterns = Patterns(sensitiveKey: Text -> bool, mask: Text -> Text)

  function Redacted(): Text {
    Lit("[REDACTED]")
  }

  function Sanitize(p: Patterns, t: Text): Text {
    Clean(p.mask(t))
  }

  /** The loop of sanitize. */
  method SanitizeText(p: Patterns, value: Text) returns (r: Text)
    ensures r == Sanitize(p, value)
  {
    var masked := p.mask(value);
    var builder: Text := [];
    for i := 0 to |masked|
      invariant builder == Strip(masked[..i])
    {
      assert masked[..i + 1][..i] == masked[..i];
      if IsControl(masked[i]) && masked[i].c != '\t' {
        continue;
      }
      builder := builder + [Written(masked[i])];
    }
    assert masked[..|masked|] == masked;
    r := Trim(builder);
  }

  // ---------------------------------------------------------------- specification

  /** `w` is a possible redaction of `v` found under `key`.  Where several keys of a map clean to the same
      text, the iteration order decides which value survives, so redaction is a relation. */
  ghost predicate RedactsTo(p: Patterns, v: Value, key: Text, w: Value)
    decreases v
  {
    if p.sensitiveKey(key) then w == Str(Redacted())
    else match v
      case Str(text) => w == Str(Sanitize(p, text))
      case Obj(fields) => w.Obj? && FieldsRedactTo(p, fields, w.fields)
      case List(items) =>
        w.List? && |w.items| == |items| && forall i :: 0 <= i < |items| ==> RedactsTo(p, items[i], key, w.items[i])
      case _ => w == v
  }

  ghost predicate FieldsRedactTo(p: Patterns, f: Fields, g: Fields)
    decreases f
  {
    match f
    case NilFields => g.NilFields?
    case Fields(entries) =>
      && g.Fields?
      && (forall k :: k in entries ==> Sanitize(p, k) in g.entries)
      && (forall k' :: k' in g.entries ==>
            exists k :: k in entries && Sanitize(p, k) == k' && RedactsTo(p, entries[k], k, g.entries[k']))
  }

  ghost predicate EventRedactsTo(p: Patterns, e: Event, r: Event) {
    && FieldsRedactTo(p, e.context, r.context)
    && FieldsRedactTo(p, e.metadata, r.metadata)
    && r == e.(service := Sanitize(p, e.service), component := Sanitize(p, e.component),
               eventType := Sanitize(p, e.eventType), message := Sanitize(p, e.message),
               code := Sanitize(p, e.code), sessionID := Sanitize(p, e.sessionID),
               userID := Sanitize(p, e.userID), correlationID := Sanitize(p, e.correlationID),
               traceID := Sanitize(p, e.traceID), spanID := Sanitize(p, e.spanID),
               context := r.context, metadata := r.metadata)
  }

  // ---------------------------------------------------------------- the pass itself

  method RedactMap(p: Patterns, values: Fields) returns (redacted: Fields)
    ensures FieldsRedactTo(p, values, redacted)
    decreases values
  {
    if values.NilFields? {
      return NilFields;
    }
    var entries := values.entries;
    var out: map<Text, Value> := map[];
    var remaining := entries.Keys;
    while remaining != {}
      invariant remaining <= entries.Keys
      invariant forall k :: k in entries && k !in remaining ==> Sanitize(p, k) in out
      invariant forall k' :: k' in out ==>
        exists k :: k in entries && Sanitize(p, k) == k' && RedactsTo(p, entries[k], k, out[k'])
      decreases remaining
    {
      var key :| key in remaining;
      var cleanKey := SanitizeText(p, key);
      var value := RedactValue(p, entries[key], key);
      out := out[cleanKey := value];
      remaining := remaining - {key};
    }
    redacted := Fields(out);
  }

  method RedactValue(p: Patterns, value: Value, key: Text) returns (redacted: Value)
    ensures RedactsTo(p, value, key, redacted)
    decreases value
  {
    if p.sensitiveKey(key) {
      return Str(Redacted());
    }
    match value
    case Str(text) =>
      var cleaned := SanitizeText(p, text);
      redacted := Str(cleaned);
    case Obj(fields) =>
      var inner := RedactMap(p, fields);
      redacted := Obj(inner);
    case List(items) =>
      var out: seq<Value> := [];
      for i := 0 to |items|
        invariant |out| == i
        invariant forall j :: 0 <= j < i ==> RedactsTo(p, items[j], key, out[j])
      {
        var item := RedactValue(p, items[i], key);
        out := out + [item];
      }
      redacted := List(out);
    case _ => redacted := value;
  }

  method RedactEvent(p: Patterns, event: Event) returns (r: Event)
    ensures EventRedactsTo(p, event, r)
  {
    r := event;
    var text := SanitizeText(p, event.service);
    r := r.(service := text);
    text := SanitizeText(p, event.component);
    r := r.(component := text);
    text := SanitizeText(p, event.eventType);
    r := r.(eventType := text);
    text := SanitizeText(p, event.message);
    r := r.(message := text);
    text := SanitizeText(p, event.code);
    r := r.(code := text);
    text := SanitizeText(p, event.sessionID);
    r := r.(sessionID := text);
    text := SanitizeText(p, event.userID);
    r := r.(userID := text);
    text := SanitizeText(p, event.correlationID);
    r := r.(correlationID := text);
    text := SanitizeText(p, event.traceID);
    r := r.(traceID := text);
    text := SanitizeText(p, event.spanID);
    r := r.(spanID := text);
    var fields := RedactMap(p, event.context);
    r := r.(context := fields);
    fields := RedactMap(p, event.metadata);
    r := r.(metadata := fields);
  }

  // ---------------------------------------------------------------- what the pass establishes

  /** Every text of a value, keys included, is as cleaning leaves it. */
  ghost predicate FixedValue(v: Value)
    decreases v
  {
    match v
    case Str(text) => Stripped(text) && Tight(text)
    case Obj(fields) => FixedFields(fields)
    case List(items) => forall i :: 0 <= i < |items| ==> FixedValue(items[i])
    case _ => true
  }

  ghost predicate FixedFields(f: Fields)
    decreases f
  {
    f.Fields? ==> forall k :: k in f.entries ==> Stripped(k) && Tight(k) && FixedValue(f.entries[k])
  }

  lemma {:induction false} RedactionFixes(p: Patterns, v: Value, key: Text, w: Value)
    requires RedactsTo(p, v, key, w)
    ensures FixedValue(w)
    decreases v
  {
    if !p.sensitiveKey(key) {
      match v
      case Str(text) => CleanIdempotent(p.mask(text));
      case Obj(fields) => RedactionFixesFields(p, fields, w.fields);
      case List(items) =>
        forall i | 0 <= i < |items| ensures FixedValue(w.items[i]) {
          RedactionFixes(p, items[i], key, w.items[i]);
        }
      case _ =>
    }
  }

  lemma {:induction false} RedactionFixesFields(p: Patterns, f: Fields, g: Fields)
    requires FieldsRedactTo(p, f, g)
    ensures FixedFields(g)
    decreases f
  {
    if f.Fields? {
      forall k' | k' in g.entries
        ensures Stripped(k') && Tight(k') && FixedValue(g.entries[k'])
      {
        var k :| k in f.entries && Sanitize(p, k) == k' && RedactsTo(p, f.entries[k], k, g.entries[k']);
        CleanIdempotent(p.mask(k));
        RedactionFixes(p, f.entries[k], k, g.entries[k']);
      }
    }
  }

  /** Where every key that cleans to `word` is sensitive, the value is masked whatever it was. */
  lemma SensitiveKeysMasked(p: Patterns, f: Fields, g: Fields, word: Text)
    requires f.Fields? && FieldsRedactTo(p, f, g)
    requires forall k :: k in f.entries && Sanitize(p, k) == word ==> p.sensitiveKey(k)
    ensures word in g.entries ==> g.entries[word] == Str(Redacted())
    ensures word in g.entries <==> exists k :: k in f.entries && Sanitize(p, k) == word
  {
    if word in g.entries {
      var k :| k in f.entries && Sanitize(p, k) == word && RedactsTo(p, f.entries[k], k, g.entries[word]);
    }
  }
}
