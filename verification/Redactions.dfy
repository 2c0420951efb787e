/** Building redactions, entry by entry. */
module Redactions {
  import opened Contracts
  import opened Redaction

  /** `out` is what the entries outside `remaining` have been redacted into. */
  ghost predicate RedactedSoFar(p: Patterns, entries: map<Text, Value>, remaining: set<Text>, out: map<Text, Value>) {
    && (forall k :: k in entries && k !in remaining ==> Sanitize(p, k) in out)
    && (forall k' :: k' in out ==> exists k :: k in entries && Sanitize(p, k) == k' && RedactsTo(p, entries[k], k, out[k']))
  }

  lemma RedactedStep(p: Patterns, entries: map<Text, Value>, remaining: set<Text>, out: map<Text, Value>, key: Text,
                     w: Value)
    requires RedactedSoFar(p, entries, remaining, out) && key in entries && RedactsTo(p, entries[key], key, w)
    ensures RedactedSoFar(p, entries, remaining - {key}, out[Sanitize(p, key) := w])
  {}

  /** Every value can be redacted. */
  lemma {:induction false} SomeRedaction(p: Patterns, v: Value, key: Text) returns (w: Value)
    ensures RedactsTo(p, v, key, w)
    decreases v
  {
    if p.sensitiveKey(key) {
      return Str(Redacted());
    }
    match v
    case Str(text) => w := Str(Sanitize(p, text));
    case Obj(fields) =>
      var g := SomeFieldsRedaction(p, fields);
      w := Obj(g);
    case List(items) =>
      var redacted: seq<Value> := [];
      for i := 0 to |items|
        invariant |redacted| == i && forall j :: 0 <= j < i ==> RedactsTo(p, items[j], key, redacted[j])
      {
        var item := SomeRedaction(p, items[i], key);
        redacted := redacted + [item];
      }
      w := List(redacted);
    case _ => w := v;
  }

  lemma {:induction false} SomeFieldsRedaction(p: Patterns, f: Fields) returns (g: Fields)
    ensures FieldsRedactTo(p, f, g)
    decreases f
  {
    if f.NilFields? {
      return NilFields;
    }
    var out: map<Text, Value> := map[];
    var remaining := f.entries.Keys;
    while remaining != {}
      invariant remaining <= f.entries.Keys && RedactedSoFar(p, f.entries, remaining, out)
      decreases remaining
    {
      var key :| key in remaining;
      var w := SomeRedaction(p, f.entries[key], key);
      RedactedStep(p, f.entries, remaining, out, key, w);
      out := out[Sanitize(p, key) := w];
      remaining := remaining - {key};
    }
    g := Fields(out);
  }

  /** A redaction in which a given entry is redacted last, to a given value. */
  lemma RedactionEndingWith(p: Patterns, f: Fields, key: Text, w: Value) returns (g: Fields)
    requires f.Fields? && key in f.entries && RedactsTo(p, f.entries[key], key, w)
    ensures FieldsRedactTo(p, f, g) && g.Fields?
    ensures Sanitize(p, key) in g.entries && g.entries[Sanitize(p, key)] == w
  {
    var some := SomeFieldsRedaction(p, f);
    RedactedStep(p, f.entries, {}, some.entries, key, w);
    assert {} - {key} == {};
    g := Fields(some.entries[Sanitize(p, key) := w]);
  }

  /** A redaction of a list with a given item redacted to a given value. */
  lemma ListRedactionWith(p: Patterns, items: seq<Value>, key: Text, i: nat, w: Value) returns (x: Value)
    requires !p.sensitiveKey(key) && i < |items| && RedactsTo(p, items[i], key, w)
    ensures RedactsTo(p, List(items), key, x) && x.List? && i < |x.items| && x.items[i] == w
  {
    var some := SomeRedaction(p, List(items), key);
    x := List(some.items[i := w]);
  }
}
