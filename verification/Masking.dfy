/** When redaction masks every value under a key that is sensitive in its result. */
module Masking {
  import opened Contracts
  import opened Texts
  import opened Redaction
  import opened Redactions
  import opened Processor
  import opened ProcessorTheorems

  /** At every depth, a value under a sensitive key is the marker. */
  ghost predicate Masked(p: Patterns, v: Value)
    decreases v
  {
    match v
    case Obj(fields) => FieldsMasked(p, fields)
    case List(items) => forall i :: 0 <= i < |items| ==> Masked(p, items[i])
    case _ => true
  }

  ghost predicate FieldsMasked(p: Patterns, f: Fields)
    decreases f
  {
    f.Fields? ==> forall k :: k in f.entries ==>
      && (p.sensitiveKey(k) ==> f.entries[k] == Str(Redacted()))
      && Masked(p, f.entries[k])
  }

  /** The key is sensitive as it arrives if it is once it is cleaned, or its value becomes the marker anyway. */
  predicate KeySafe(p: Patterns, k: Text, v: Value) {
    p.sensitiveKey(Sanitize(p, k)) ==> p.sensitiveKey(k) || (v.Str? && Sanitize(p, v.text) == Redacted())
  }

  /** Every key that redaction looks at is safe. */
  ghost predicate Safe(p: Patterns, v: Value)
    decreases v
  {
    match v
    case Obj(fields) => FieldsSafe(p, fields)
    case List(items) => forall i :: 0 <= i < |items| ==> Safe(p, items[i])
    case _ => true
  }

  ghost predicate FieldsSafe(p: Patterns, f: Fields)
    decreases f
  {
    f.Fields? ==> forall k :: k in f.entries ==>
      KeySafe(p, k, f.entries[k]) && (p.sensitiveKey(k) || Safe(p, f.entries[k]))
  }

  // ---------------------------------------------------------------- the condition suffices

  lemma {:induction false} SafeIsMasked(p: Patterns, v: Value, key: Text, w: Value)
    requires RedactsTo(p, v, key, w) && (p.sensitiveKey(key) || Safe(p, v))
    ensures Masked(p, w)
    decreases v
  {
    if !p.sensitiveKey(key) {
      match v
      case Obj(fields) => SafeFieldsAreMasked(p, fields, w.fields);
      case List(items) =>
        forall i | 0 <= i < |items| ensures Masked(p, w.items[i]) {
          SafeIsMasked(p, items[i], key, w.items[i]);
        }
      case _ =>
    }
  }

  lemma {:induction false} SafeFieldsAreMasked(p: Patterns, f: Fields, g: Fields)
    requires FieldsRedactTo(p, f, g) && FieldsSafe(p, f)
    ensures FieldsMasked(p, g)
    decreases f
  {
    if f.Fields? {
      forall k' | k' in g.entries
        ensures (p.sensitiveKey(k') ==> g.entries[k'] == Str(Redacted())) && Masked(p, g.entries[k'])
      {
        var k :| k in f.entries && Sanitize(p, k) == k' && RedactsTo(p, f.entries[k], k, g.entries[k']);
        SafeIsMasked(p, f.entries[k], k, g.entries[k']);
      }
    }
  }

  // ---------------------------------------------------------------- the condition is necessary

  lemma {:induction false} BareRedaction(p: Patterns, v: Value, key: Text) returns (w: Value)
    requires !p.sensitiveKey(key) && !Safe(p, v)
    ensures RedactsTo(p, v, key, w) && !Masked(p, w)
    decreases v
  {
    match v
    case Obj(fields) =>
      var g := BareFieldsRedaction(p, fields);
      w := Obj(g);
    case List(items) =>
      var i :| 0 <= i < |items| && !Safe(p, items[i]);
      var item := BareRedaction(p, items[i], key);
      w := ListRedactionWith(p, items, key, i, item);
    case _ =>
  }

  lemma {:induction false} BareFieldsRedaction(p: Patterns, f: Fields) returns (g: Fields)
    requires !FieldsSafe(p, f)
    ensures FieldsRedactTo(p, f, g) && !FieldsMasked(p, g)
    decreases f
  {
    var k :| k in f.entries && !(KeySafe(p, k, f.entries[k]) && (p.sensitiveKey(k) || Safe(p, f.entries[k])));
    var w;
    if KeySafe(p, k, f.entries[k]) {
      w := BareRedaction(p, f.entries[k], k);
    } else {
      w := SomeRedaction(p, f.entries[k], k);
    }
    g := RedactionEndingWith(p, f, k, w);
  }

  /** In every result of redaction a value under a sensitive key is the marker, at any depth, if and only if
      every key it looks at that is sensitive once cleaned is sensitive as it arrives, or holds a text that
      becomes the marker. */
  lemma MaskedExactly(p: Patterns, f: Fields)
    ensures (forall g :: FieldsRedactTo(p, f, g) ==> FieldsMasked(p, g)) <==> FieldsSafe(p, f)
  {
    if FieldsSafe(p, f) {
      forall g | FieldsRedactTo(p, f, g) ensures FieldsMasked(p, g) {
        SafeFieldsAreMasked(p, f, g);
      }
    } else {
      var g := BareFieldsRedaction(p, f);
    }
  }

  // ---------------------------------------------------------------- a map for which it fails

  /** A sensitive name with a control character in the middle. */
  function SplitKey(): Text {
    Lit("user_tok") + [Rune('\U{01}')] + Lit("en")
  }

  function JoinedKey(): Text {
    Lit("user_token")
  }

  lemma SplitKeyCleans()
    ensures Clean(SplitKey()) == JoinedKey()
  {
    StripSplit(Lit("user_tok"), Rune('\U{01}'), Lit("en"));
    assert JoinedKey() == Lit("user_tok") + Lit("en");
    assert Tight(JoinedKey());
    CleanFixes(JoinedKey());
    StripKeeps(JoinedKey());
  }

  lemma JoinedKeyAdmissible(lib: Library)
    ensures KeyAdmissible(lib, JoinedKey())
  {
    assert JoinedKey() == Lit("user") + [Rune('_')] + Lit("token");
    SeparatorsIgnored(lib, Lit("user"), Rune('_'), Lit("token"));
    UserTokenAllowed(lib);
  }

  lemma UserTokenAllowed(lib: Library)
    ensures !ProhibitedKey(lib, Lit("user") + Lit("token"))
  {
    PlainKey(lib, Lit("user") + Lit("token"));
    NoneOfNine();
  }

  lemma NoneOfNine()
    ensures forall word :: word in ProhibitedFields() ==> |word| != 9
  {}

  /** With a pattern that matches `user_token` but not the same name with a control character in it, redaction
      and the second pass accept a map whose result holds a value in clear under the first name. */
  lemma SplitKeyUnmasked(p: Patterns, lib: Library) returns (f: Fields, g: Fields)
    requires p.sensitiveKey(JoinedKey()) && !p.sensitiveKey(SplitKey()) && p.mask(SplitKey()) == SplitKey()
    ensures FieldsRedactTo(p, f, g) && FieldsAdmissible(lib, g, 0) && !FieldsMasked(p, g)
  {
    f, g := Fields(map[SplitKey() := Bool(true)]), Fields(map[JoinedKey() := Bool(true)]);
    SplitKeyCleans();
    JoinedKeyAdmissible(lib);
    OneEntryRedacts(p, SplitKey(), JoinedKey());
    assert JoinedKey() in g.entries && g.entries[JoinedKey()] == Bool(true);
  }

  lemma OneEntryRedacts(p: Patterns, key: Text, word: Text)
    requires !p.sensitiveKey(key) && Sanitize(p, key) == word
    ensures FieldsRedactTo(p, Fields(map[key := Bool(true)]), Fields(map[word := Bool(true)]))
  {
    assert RedactsTo(p, Bool(true), key, Bool(true));
  }
}
