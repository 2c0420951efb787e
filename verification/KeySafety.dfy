/** When sanitizeMap alone would keep prohibited keys out. */
module KeySafety {
  import opened Contracts
  import opened Texts
  import opened Processor
  import opened ProcessorTheorems

  /** No key at any depth is prohibited once it is cleaned. */
  ghost predicate CleanKeysClear(lib: Library, v: Value)
    decreases v
  {
    match v
    case Obj(fields) => FieldsCleanKeysClear(lib, fields)
    case List(items) => forall i :: 0 <= i < |items| ==> CleanKeysClear(lib, items[i])
    case _ => true
  }

  ghost predicate FieldsCleanKeysClear(lib: Library, f: Fields)
    decreases f
  {
    f.Fields? ==> forall k :: k in f.entries ==> !ProhibitedKey(lib, Clean(k)) && CleanKeysClear(lib, f.entries[k])
  }

  // ---------------------------------------------------------------- the condition suffices

  lemma {:induction false} CleanedIsClear(lib: Library, v: Value, w: Value)
    requires CleanKeysClear(lib, v) && CleansTo(v, w)
    ensures KeysClear(lib, w)
    decreases v
  {
    match v
    case Obj(fields) => CleanedFieldsAreClear(lib, fields, w.fields);
    case List(items) =>
      forall i | 0 <= i < |items| ensures KeysClear(lib, w.items[i]) {
        CleanedIsClear(lib, items[i], w.items[i]);
      }
    case _ =>
  }

  lemma {:induction false} CleanedFieldsAreClear(lib: Library, f: Fields, g: Fields)
    requires FieldsCleanKeysClear(lib, f) && FieldsCleanTo(f, g)
    ensures FieldsClear(lib, g)
    decreases f
  {
    if f.Fields? {
      forall k' | k' in g.entries ensures !ProhibitedKey(lib, k') && KeysClear(lib, g.entries[k']) {
        var k :| k in f.entries && Clean(k) == k' && CleansTo(f.entries[k], g.entries[k']);
        CleanedIsClear(lib, f.entries[k], g.entries[k']);
      }
    }
  }

  // ---------------------------------------------------------------- the condition is necessary

  /** Every value can be cleaned. */
  lemma {:induction false} SomeCleaning(v: Value) returns (w: Value)
    ensures CleansTo(v, w)
    decreases v
  {
    match v
    case Str(text) => w := Str(Clean(text));
    case Obj(fields) =>
      var g := SomeFieldsCleaning(fields);
      w := Obj(g);
    case List(items) =>
      var cleaned: seq<Value> := [];
      for i := 0 to |items|
        invariant |cleaned| == i && forall j :: 0 <= j < i ==> CleansTo(items[j], cleaned[j])
      {
        var item := SomeCleaning(items[i]);
        cleaned := cleaned + [item];
      }
      w := List(cleaned);
    case _ => w := v;
  }

  lemma {:induction false} SomeFieldsCleaning(f: Fields) returns (g: Fields)
    ensures FieldsCleanTo(f, g)
    decreases f
  {
    if f.NilFields? {
      return NilFields;
    }
    var out: map<Text, Value> := map[];
    var remaining := f.entries.Keys;
    while remaining != {}
      invariant remaining <= f.entries.Keys && CleanedSoFar(f.entries, remaining, out)
      decreases remaining
    {
      var key :| key in remaining;
      var w := SomeCleaning(f.entries[key]);
      CleanedStep(f.entries, remaining, out, key, w);
      out := out[Clean(key) := w];
      remaining := remaining - {key};
    }
    g := Fields(out);
  }

  /** Where the condition fails, some cleaning holds a prohibited key. */
  lemma {:induction false} DirtyCleaning(lib: Library, v: Value) returns (w: Value)
    requires !CleanKeysClear(lib, v)
    ensures CleansTo(v, w) && !KeysClear(lib, w)
    decreases v
  {
    match v
    case Obj(fields) =>
      var g := DirtyFieldsCleaning(lib, fields);
      w := Obj(g);
    case List(items) =>
      var i :| 0 <= i < |items| && !CleanKeysClear(lib, items[i]);
      var cleaned := SomeCleaning(v);
      var item := DirtyCleaning(lib, items[i]);
      w := List(cleaned.items[i := item]);
      assert w.items[i] == item;
    case _ =>
  }

  lemma {:induction false} DirtyFieldsCleaning(lib: Library, f: Fields) returns (g: Fields)
    requires !FieldsCleanKeysClear(lib, f)
    ensures FieldsCleanTo(f, g) && !FieldsClear(lib, g)
    decreases f
  {
    var k :| k in f.entries && (ProhibitedKey(lib, Clean(k)) || !CleanKeysClear(lib, f.entries[k]));
    var cleaned := SomeFieldsCleaning(f);
    var w;
    if CleanKeysClear(lib, f.entries[k]) {
      w := SomeCleaning(f.entries[k]);
    } else {
      w := DirtyCleaning(lib, f.entries[k]);
    }
    CleanedStep(f.entries, {}, cleaned.entries, k, w);
    g := Fields(cleaned.entries[Clean(k) := w]);
    assert {} - {k} == {};
    assert Clean(k) in g.entries && g.entries[Clean(k)] == w;
  }

  /** sanitizeMap alone keeps prohibited keys out, whatever the iteration order, if and only if no key is
      prohibited once it is cleaned. */
  lemma SecondPassAloneSafe(lib: Library, f: Fields)
    ensures (forall g :: FieldsCleanTo(f, g) ==> FieldsClear(lib, g)) <==> FieldsCleanKeysClear(lib, f)
  {
    if FieldsCleanKeysClear(lib, f) {
      forall g | FieldsCleanTo(f, g) ensures FieldsClear(lib, g) {
        CleanedFieldsAreClear(lib, f, g);
      }
    } else {
      var g := DirtyFieldsCleaning(lib, f);
    }
  }
}
