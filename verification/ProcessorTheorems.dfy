/** Guarantees of the two passes together. */
module ProcessorTheorems {
  import opened Contracts
  import opened Texts
  import opened Redaction
  import opened Processor

  // ---------------------------------------------------------------- prohibited keys

  /** No key at any depth normalises to a prohibited name. */
  ghost predicate KeysClear(lib: Library, v: Value)
    decreases v
  {
    match v
    case Obj(fields) => FieldsClear(lib, fields)
    case List(items) => forall i :: 0 <= i < |items| ==> KeysClear(lib, items[i])
    case _ => true
  }

  ghost predicate FieldsClear(lib: Library, f: Fields)
    decreases f
  {
    f.Fields? ==> forall k :: k in f.entries ==> !ProhibitedKey(lib, k) && KeysClear(lib, f.entries[k])
  }

  lemma {:induction false} AdmissibleIsClear(lib: Library, v: Value, depth: nat)
    requires Admissible(lib, v, depth)
    ensures KeysClear(lib, v)
    decreases v
  {
    match v
    case Obj(fields) => FieldsAdmissibleIsClear(lib, fields, depth);
    case List(items) =>
      forall i | 0 <= i < |items| ensures KeysClear(lib, items[i]) {
        AdmissibleIsClear(lib, items[i], depth + 1);
      }
    case _ =>
  }

  lemma {:induction false} FieldsAdmissibleIsClear(lib: Library, f: Fields, depth: nat)
    requires FieldsAdmissible(lib, f, depth)
    ensures FieldsClear(lib, f)
    decreases f
  {
    if f.Fields? {
      forall k | k in f.entries ensures KeysClear(lib, f.entries[k]) {
        AdmissibleIsClear(lib, f.entries[k], depth + 1);
      }
    }
  }

  /** Whatever order the maps are iterated in, an accepted event's context and metadata hold no key, at any
      depth, that normalises to a prohibited name. */
  lemma NoProhibitedKeys(p: Patterns, lib: Library, e: Event, now: Time, freshID: Text, out: Event)
    requires MayReturn(p, lib, e, now, freshID, Success(out))
    ensures FieldsClear(lib, out.context) && FieldsClear(lib, out.metadata)
  {
    FieldsAdmissibleIsClear(lib, out.context, 0);
    FieldsAdmissibleIsClear(lib, out.metadata, 0);
  }

  /** ToLower leaves lower-case ASCII letters and control characters alone. */
  lemma LowerKeeps(other: char -> char, t: Text)
    requires forall i :: 0 <= i < |t| ==> t[i].Rune? && t[i].c < '\U{80}' && !('A' <= t[i].c <= 'Z')
    ensures ToLower(other, t) == t
  {}

  lemma {:induction false} WithoutKeeps(t: Text, c: char)
    requires Rune(c) !in t
    ensures Without(t, c) == t
  {
    if t != [] {
      var n := |t| - 1;
      WithoutKeeps(t[..n], c);
      assert t == t[..n] + [t[n]];
    }
  }

  lemma PlainKey(lib: Library, t: Text)
    requires Tight(t) && Rune('-') !in t && Rune('_') !in t && Rune(' ') !in t
    requires forall i :: 0 <= i < |t| ==> t[i].Rune? && t[i].c < '\U{80}' && !('A' <= t[i].c <= 'Z')
    ensures NormalizeFieldName(lib, t) == t
  {
    LowerKeeps(lib.lowerOther, t);
    WithoutKeeps(t, '-');
    WithoutKeeps(t, '_');
    WithoutKeeps(t, ' ');
  }

  lemma {:induction false} WithoutConcat(a: Text, b: Text, c: char)
    ensures Without(a + b, c) == Without(a, c) + Without(b, c)
  {
    if b == [] {
      assert a + b == a;
    } else {
      var n := |b| - 1;
      assert (a + b)[..|a| + n] == a + b[..n];
      WithoutConcat(a, b[..n], c);
    }
  }

  predicate Separator(s: Sym) {
    s == Rune('-') || s == Rune('_') || s == Rune(' ')
  }

  function WithoutSeparators(t: Text): Text {
    Without(Without(Without(t, '-'), '_'), ' ')
  }

  lemma SeparatorsConcat(a: Text, b: Text)
    ensures WithoutSeparators(a + b) == WithoutSeparators(a) + WithoutSeparators(b)
  {
    WithoutConcat(a, b, '-');
    WithoutConcat(Without(a, '-'), Without(b, '-'), '_');
    WithoutConcat(Without(Without(a, '-'), '_'), Without(Without(b, '-'), '_'), ' ');
  }

  lemma SeparatorVanishes(s: Sym)
    requires Separator(s)
    ensures WithoutSeparators([s]) == []
  {
    WithoutOne(s, '-');
    WithoutOne(s, '_');
    WithoutOne(s, ' ');
  }

  lemma WithoutOne(s: Sym, c: char)
    ensures Without([s], c) == if s == Rune(c) then [] else [s]
    ensures Without([], c) == []
  {
    assert [s][..0] == [];
  }

  /** Separators inside a key do not hide it. */
  lemma SeparatorsIgnored(lib: Library, a: Text, s: Sym, b: Text)
    requires Separator(s) && a != [] && b != [] && !IsSpace(a[0]) && !IsSpace(b[|b| - 1])
    ensures ProhibitedKey(lib, a + [s] + b) <==> ProhibitedKey(lib, a + b)
  {
    var low := (t: Text) => ToLower(lib.lowerOther, t);
    assert Trim(a + [s] + b) == a + [s] + b && Trim(a + b) == a + b;
    assert low(a + [s] + b) == (low(a) + [s]) + low(b);
    assert low(a + b) == low(a) + low(b);
    SeparatorVanishes(s);
    SeparatorsConcat(low(a), [s]);
    SeparatorsConcat(low(a) + [s], low(b));
    SeparatorsConcat(low(a), low(b));
    assert WithoutSeparators(low(a)) + [] == WithoutSeparators(low(a));
  }

  /** Nor does the case of ASCII letters. */
  lemma CaseIgnored(lib: Library, a: Text, b: Text)
    requires Tight(a) && Tight(b) && |a| == |b|
    requires forall i :: 0 <= i < |a| ==>
      a[i] == b[i] || (a[i].Rune? && b[i].Rune? && 'A' <= a[i].c <= 'Z' && b[i].c == a[i].c - 'A' + 'a')
    ensures ProhibitedKey(lib, a) <==> ProhibitedKey(lib, b)
  {
    assert ToLower(lib.lowerOther, a) == ToLower(lib.lowerOther, b);
  }

  /** A prohibited name with a control character in the middle. */
  function SplitToken(): Text {
    Lit("tok") + [Rune('\U{01}')] + Lit("en")
  }

  lemma SplitTokenAdmissible(lib: Library)
    ensures KeyAdmissible(lib, SplitToken())
  {
    PlainKey(lib, SplitToken());
    assert SplitToken()[3] == Rune('\U{01}') && |SplitToken()| == 6;
  }

  lemma StripDropped(s: Sym)
    requires Dropped(s)
    ensures Strip([s]) == []
  {
    assert [s][..0] == [] && Strip([]) == [];
  }

  lemma StripSplit(head: Text, s: Sym, tail: Text)
    requires Stripped(head) && Dropped(s) && Stripped(tail)
    ensures Strip(head + [s] + tail) == head + tail
  {
    StripAppend(head + [s], tail);
    StripAppend(head, [s]);
    StripKeeps(head);
    StripKeeps(tail);
    StripDropped(s);
    assert head + [] == head;
  }

  lemma SplitTokenCleans()
    ensures Clean(SplitToken()) == Lit("token")
  {
    StripSplit(Lit("tok"), Rune('\U{01}'), Lit("en"));
    assert Lit("token") == Lit("tok") + Lit("en");
    assert Tight(Lit("token"));
  }

  lemma TokenProhibited(lib: Library)
    ensures ProhibitedKey(lib, Lit("token"))
  {
    PlainKey(lib, Lit("token"));
  }

  /** Renaming the only key of a map. */
  lemma OneEntryCleans(key: Text, word: Text)
    requires Clean(key) == word
    ensures FieldsCleanTo(Fields(map[key := Null]), Fields(map[word := Null]))
  {
    assert CleansTo(Null, Null);
  }

  /** sanitizeMap alone does not give this guarantee: it checks keys before it strips them. */
  lemma SecondPassAloneLetsKeysThrough(lib: Library) returns (f: Fields, g: Fields)
    ensures FieldsAdmissible(lib, f, 0) && FieldsCleanTo(f, g) && !FieldsClear(lib, g)
  {
    var key, word := SplitToken(), Lit("token");
    f, g := Fields(map[key := Null]), Fields(map[word := Null]);
    assert FieldsAdmissible(lib, f, 0) by {
      SplitTokenAdmissible(lib);
    }
    assert FieldsCleanTo(f, g) by {
      SplitTokenCleans();
      OneEntryCleans(key, word);
    }
    assert !FieldsClear(lib, g) by {
      TokenProhibited(lib);
      assert word in g.entries;
    }
  }

  lemma {:induction false} StripAppend(a: Text, b: Text)
    ensures Strip(a + b) == Strip(a) + Strip(b)
  {
    if b == [] {
      assert a + b == a;
    } else {
      var n := |b| - 1;
      assert (a + b)[..|a| + n] == a + b[..n];
      StripAppend(a, b[..n]);
    }
  }

  // ---------------------------------------------------------------- nesting depth

  ghost function MaxOf(s: set<nat>): (m: nat)
    ensures forall x :: x in s ==> x <= m
    ensures s == {} ==> m == 0
    ensures s != {} ==> m in s
  {
    if s == {} then 0
    else
      var x :| x in s;
      var rest := MaxOf(s - {x});
      assert s == (s - {x}) + {x};
      if x > rest || s == {x} then x else rest
  }

  /** How deeply containers nest; a nil map counts zero. */
  ghost function Nesting(v: Value): nat
    decreases v
  {
    match v
    case Obj(fields) => FieldsNesting(fields)
    case List(items) => 1 + MaxOf(set i | 0 <= i < |items| :: Nesting(items[i]))
    case _ => 0
  }

  ghost function FieldsNesting(f: Fields): nat
    decreases f
  {
    match f
    case NilFields => 0
    case Fields(entries) => 1 + MaxOf(set k | k in entries :: Nesting(entries[k]))
  }

  /** Keys and scalars are individually acceptable at every depth. */
  ghost predicate LeavesAdmissible(lib: Library, v: Value)
    decreases v
  {
    match v
    case Str(text) => ValidUtf8(text)
    case Obj(fields) => FieldLeavesAdmissible(lib, fields)
    case List(items) => forall i :: 0 <= i < |items| ==> LeavesAdmissible(lib, items[i])
    case Foreign(_) => false
    case _ => true
  }

  ghost predicate FieldLeavesAdmissible(lib: Library, f: Fields)
    decreases f
  {
    f.Fields? ==> forall k :: k in f.entries ==> KeyAdmissible(lib, k) && LeavesAdmissible(lib, f.entries[k])
  }

  predicate Fits(nesting: nat, depth: nat) {
    nesting == 0 || depth + nesting <= MAX_DEPTH
  }

  lemma {:induction false} DepthOfValue(lib: Library, v: Value, depth: nat)
    requires LeavesAdmissible(lib, v)
    ensures Admissible(lib, v, depth) <==> Fits(Nesting(v), depth)
    decreases v
  {
    match v
    case Obj(fields) => DepthOfFields(lib, fields, depth);
    case List(items) =>
      var depths := set i | 0 <= i < |items| :: Nesting(items[i]);
      forall i | 0 <= i < |items|
        ensures Nesting(items[i]) in depths
        ensures Admissible(lib, items[i], depth + 1) <==> Fits(Nesting(items[i]), depth + 1)
      {
        DepthOfValue(lib, items[i], depth + 1);
      }
    case _ =>
  }

  /** When keys and scalars are acceptable, sanitizeMap succeeds if and only if containers nest within
      the limit. */
  lemma {:induction false} DepthOfFields(lib: Library, f: Fields, depth: nat)
    requires FieldLeavesAdmissible(lib, f)
    ensures FieldsAdmissible(lib, f, depth) <==> Fits(FieldsNesting(f), depth)
    decreases f
  {
    if f.Fields? {
      var depths := set k | k in f.entries :: Nesting(f.entries[k]);
      forall k | k in f.entries
        ensures Nesting(f.entries[k]) in depths
        ensures Admissible(lib, f.entries[k], depth + 1) <==> Fits(Nesting(f.entries[k]), depth + 1)
      {
        DepthOfValue(lib, f.entries[k], depth + 1);
      }
    }
  }

  lemma MaxBelow(a: set<nat>, b: set<nat>)
    requires forall x :: x in a ==> exists y :: y in b && x <= y
    ensures MaxOf(a) <= MaxOf(b)
  {
    if a != {} {
      var y :| y in b && MaxOf(a) <= y;
    }
  }

  lemma {:induction false} RedactionNesting(p: Patterns, v: Value, key: Text, w: Value)
    requires RedactsTo(p, v, key, w)
    ensures Nesting(w) <= Nesting(v)
    decreases v
  {
    if !p.sensitiveKey(key) {
      match v
      case Obj(fields) => RedactionFieldsNesting(p, fields, w.fields);
      case List(items) =>
        var before := set i | 0 <= i < |items| :: Nesting(items[i]);
        var after := set i | 0 <= i < |items| :: Nesting(w.items[i]);
        forall i | 0 <= i < |items|
          ensures Nesting(w.items[i]) <= Nesting(items[i]) && Nesting(items[i]) in before
        {
          RedactionNesting(p, items[i], key, w.items[i]);
        }
        assert after == set i | 0 <= i < |w.items| :: Nesting(w.items[i]);
        MaxBelow(after, before);
      case _ =>
    }
  }

  /** Redaction never nests containers deeper. */
  lemma {:induction false} RedactionFieldsNesting(p: Patterns, f: Fields, g: Fields)
    requires FieldsRedactTo(p, f, g)
    ensures FieldsNesting(g) <= FieldsNesting(f)
    decreases f
  {
    if f.Fields? {
      var before := set k | k in f.entries :: Nesting(f.entries[k]);
      var after := set k | k in g.entries :: Nesting(g.entries[k]);
      forall k' | k' in g.entries
        ensures exists y :: y in before && Nesting(g.entries[k']) <= y
      {
        var k :| k in f.entries && Sanitize(p, k) == k' && RedactsTo(p, f.entries[k], k, g.entries[k']);
        RedactionNesting(p, f.entries[k], k, g.entries[k']);
        assert Nesting(f.entries[k]) in before;
      }
      MaxBelow(after, before);
    }
  }

  /** Success at depth 0 means nesting of at most 8. */
  lemma DepthLimit(lib: Library, f: Fields)
    requires FieldLeavesAdmissible(lib, f)
    ensures FieldsAdmissible(lib, f, 0) <==> FieldsNesting(f) <= 8
  {
    DepthOfFields(lib, f, 0);
  }

  ghost predicate Faultless(lib: Library, v: Value, depth: nat) {
    forall e :: !MayFail(lib, v, depth, e)
  }

  ghost predicate FieldsFaultless(lib: Library, f: Fields, depth: nat) {
    forall e :: !FieldsMayFail(lib, f, depth, e)
  }

  ghost predicate EntryFaultless(lib: Library, k: Text, v: Value, depth: nat) {
    forall e :: !EntryMayFail(lib, k, v, depth, e)
  }

  /** Success does not depend on the iteration order: some order reports an error exactly when the value
      is not admissible. */
  lemma {:induction false} FailureIsOrderIndependent(lib: Library, v: Value, depth: nat)
    ensures Admissible(lib, v, depth) <==> Faultless(lib, v, depth)
    decreases v, 0
  {
    match v
    case Str(text) => assert !ValidUtf8(text) ==> MayFail(lib, v, depth, InvalidUtf8);
    case Obj(fields) =>
      FieldsFailureIsOrderIndependent(lib, fields, depth);
      forall e ensures MayFail(lib, v, depth, e) <==> FieldsMayFail(lib, fields, depth, e) {}
    case List(items) =>
      if depth >= MAX_DEPTH {
        assert MayFail(lib, v, depth, NestedTooDeep);
      } else {
        forall i | 0 <= i < |items|
          ensures Admissible(lib, items[i], depth + 1) <==> Faultless(lib, items[i], depth + 1)
        {
          FailureIsOrderIndependent(lib, items[i], depth + 1);
        }
        if !Admissible(lib, v, depth) {
          var i := FirstInadmissible(lib, items, depth + 1);
          var e :| MayFail(lib, items[i], depth + 1, e);
          assert MayFail(lib, v, depth, e);
        } else {
          forall e ensures !MayFail(lib, v, depth, e) {
            forall i | 0 <= i < |items| ensures !MayFail(lib, items[i], depth + 1, e) {
              assert Faultless(lib, items[i], depth + 1);
            }
          }
        }
      }
    case Foreign(_) => assert MayFail(lib, v, depth, InvalidEvent);
    case _ =>
  }

  lemma {:induction false} FirstInadmissible(lib: Library, items: seq<Value>, depth: nat) returns (i: nat)
    requires exists j :: 0 <= j < |items| && !Admissible(lib, items[j], depth)
    ensures i < |items| && !Admissible(lib, items[i], depth)
    ensures forall j :: 0 <= j < i ==> Admissible(lib, items[j], depth)
  {
    i := 0;
    while Admissible(lib, items[i], depth)
      invariant i < |items|
      invariant forall j :: 0 <= j < i ==> Admissible(lib, items[j], depth)
      decreases |items| - i
    {
      i := i + 1;
    }
  }

  lemma {:induction false} FieldsFailureIsOrderIndependent(lib: Library, f: Fields, depth: nat)
    ensures FieldsAdmissible(lib, f, depth) <==> FieldsFaultless(lib, f, depth)
    decreases f, 0
  {
    if f.Fields? {
      if depth >= MAX_DEPTH {
        assert FieldsMayFail(lib, f, depth, NestedTooDeep);
      } else {
        forall k | k in f.entries
          ensures KeyAdmissible(lib, k) && Admissible(lib, f.entries[k], depth + 1)
             <==> EntryFaultless(lib, k, f.entries[k], depth + 1)
        {
          FailureIsOrderIndependent(lib, f.entries[k], depth + 1);
          EntryFailure(lib, k, f.entries[k], depth + 1);
        }
        if !FieldsAdmissible(lib, f, depth) {
          var k :| k in f.entries && !EntryFaultless(lib, k, f.entries[k], depth + 1);
          var e :| EntryMayFail(lib, k, f.entries[k], depth + 1, e);
          assert FieldsMayFail(lib, f, depth, e);
        } else {
          forall e ensures !FieldsMayFail(lib, f, depth, e) {
            forall k | k in f.entries ensures !EntryMayFail(lib, k, f.entries[k], depth + 1, e) {
              assert EntryFaultless(lib, k, f.entries[k], depth + 1);
            }
          }
        }
      }
    }
  }

  lemma EntryFailure(lib: Library, k: Text, v: Value, depth: nat)
    ensures EntryFaultless(lib, k, v, depth) <==> KeyAdmissible(lib, k) && Faultless(lib, v, depth)
  {
    if KeyAdmissible(lib, k) {
      forall e ensures EntryMayFail(lib, k, v, depth, e) <==> MayFail(lib, v, depth, e) {}
    } else {
      assert EntryMayFail(lib, k, v, depth, if !ValidUtf8(k) then InvalidUtf8 else SensitiveField);
    }
  }

  // ---------------------------------------------------------------- too deep

  lemma {:induction false} TooDeep(lib: Library, v: Value, depth: nat)
    requires MayFail(lib, v, depth, NestedTooDeep)
    ensures depth + Nesting(v) > MAX_DEPTH
    decreases v
  {
    match v
    case Obj(fields) => FieldsTooDeep(lib, fields, depth);
    case List(items) =>
      if depth < MAX_DEPTH {
        var i :| 0 <= i < |items| && MayFail(lib, items[i], depth + 1, NestedTooDeep);
        TooDeep(lib, items[i], depth + 1);
        var depths := set i | 0 <= i < |items| :: Nesting(items[i]);
        assert Nesting(items[i]) in depths;
      }
    case _ =>
  }

  lemma {:induction false} FieldsTooDeep(lib: Library, f: Fields, depth: nat)
    requires FieldsMayFail(lib, f, depth, NestedTooDeep)
    ensures depth + FieldsNesting(f) > MAX_DEPTH
    decreases f
  {
    if depth < MAX_DEPTH {
      var k :| k in f.entries && EntryMayFail(lib, k, f.entries[k], depth + 1, NestedTooDeep);
      TooDeep(lib, f.entries[k], depth + 1);
      var depths := set k | k in f.entries :: Nesting(f.entries[k]);
      assert Nesting(f.entries[k]) in depths;
    }
  }

  lemma OtherFaults(lib: Library, r: Event)
    ensures ValidateEvent(lib, r) != Fault(NestedTooDeep) && ValidateMetadataSize(lib, r) != Fault(NestedTooDeep)
  {}

  /** Only an event that arrives nested more than eight deep is rejected as too deep. */
  lemma TooDeepOnArrival(p: Patterns, lib: Library, e: Event, now: Time, freshID: Text)
    requires MayReturn(p, lib, e, now, freshID, Failure(NestedTooDeep))
    ensures FieldsNesting(e.context) > 8 || FieldsNesting(e.metadata) > 8
  {
    var r :| EventRedactsTo(p, e, r) && Judges(lib, r, now, freshID, Failure(NestedTooDeep));
    OtherFaults(lib, r);
    RedactionFieldsNesting(p, e.context, r.context);
    RedactionFieldsNesting(p, e.metadata, r.metadata);
    if FieldsAdmissible(lib, r.context, 0) {
      FieldsTooDeep(lib, r.metadata, 0);
    } else {
      FieldsTooDeep(lib, r.context, 0);
    }
  }

  // ---------------------------------------------------------------- invalid UTF-8

  lemma {:induction false} FixedHasNoUtf8Fault(lib: Library, v: Value, depth: nat)
    requires FixedValue(v)
    ensures !MayFail(lib, v, depth, InvalidUtf8)
    decreases v
  {
    match v
    case Obj(fields) => FixedFieldsHaveNoUtf8Fault(lib, fields, depth);
    case List(items) =>
      forall i | 0 <= i < |items| ensures !MayFail(lib, items[i], depth + 1, InvalidUtf8) {
        FixedHasNoUtf8Fault(lib, items[i], depth + 1);
      }
    case _ =>
  }

  lemma {:induction false} FixedFieldsHaveNoUtf8Fault(lib: Library, f: Fields, depth: nat)
    requires FixedFields(f)
    ensures !FieldsMayFail(lib, f, depth, InvalidUtf8)
    decreases f
  {
    if f.Fields? {
      forall k | k in f.entries ensures !EntryMayFail(lib, k, f.entries[k], depth + 1, InvalidUtf8) {
        FixedHasNoUtf8Fault(lib, f.entries[k], depth + 1);
      }
    }
  }

  lemma RedactedIsValidUtf8(p: Patterns, lib: Library, e: Event, r: Event)
    requires EventRedactsTo(p, e, r)
    ensures ValidUtf8(r.service) && ValidUtf8(r.eventType) && ValidUtf8(r.message)
    ensures !FieldsMayFail(lib, r.context, 0, InvalidUtf8)
    ensures !FieldsMayFail(lib, r.metadata, 0, InvalidUtf8)
  {
    CleanIdempotent(p.mask(e.service));
    CleanIdempotent(p.mask(e.eventType));
    CleanIdempotent(p.mask(e.message));
    RedactionFixesFields(p, e.context, r.context);
    RedactionFixesFields(p, e.metadata, r.metadata);
    FixedFieldsHaveNoUtf8Fault(lib, r.context, 0);
    FixedFieldsHaveNoUtf8Fault(lib, r.metadata, 0);
  }

  /** The design asks for events with invalid UTF-8 to be rejected.  The first pass replaces such bytes
      before anything is checked, so the error is reported if and only if the level is invalid UTF-8. */
  lemma InvalidUtf8OnlyInLevel(p: Patterns, lib: Library, e: Event, now: Time, freshID: Text, r: Result<Event>)
    requires MayReturn(p, lib, e, now, freshID, r)
    ensures r == Failure(InvalidUtf8) <==> !ValidUtf8(e.level)
  {
    var redacted :| EventRedactsTo(p, e, redacted) && Judges(lib, redacted, now, freshID, r);
    RedactedIsValidUtf8(p, lib, e, redacted);
    CheckedFaults(lib, redacted);
  }

  lemma CheckedFaults(lib: Library, r: Event)
    ensures ValidateEvent(lib, r) == Fault(InvalidUtf8) <==>
      !ValidUtf8(r.level) || !ValidUtf8(r.service) || !ValidUtf8(r.eventType) || !ValidUtf8(r.message)
    ensures ValidateMetadataSize(lib, r) != Fault(InvalidUtf8)
  {}

  /** An event whose message is a single byte that is not valid UTF-8. */
  function BrokenEvent(): Event {
    Event([], Time(0, 0), Lit("info"), Lit("s"), [], Lit("t"), [BadByte(255)], [], [], [], [], [], [],
          NilFields, NilFields)
  }

  /** The texts of the event hold nothing to mask. */
  predicate NothingToMask(p: Patterns) {
    && p.mask([]) == [] && p.mask(Lit("s")) == Lit("s") && p.mask(Lit("t")) == Lit("t")
    && p.mask([BadByte(255)]) == [BadByte(255)]
  }

  lemma BrokenRedacts(p: Patterns)
    requires NothingToMask(p)
    ensures EventRedactsTo(p, BrokenEvent(), BrokenEvent().(message := [REPLACEMENT]))
  {
    SingleSym(Rune('s'));
    SingleSym(Rune('t'));
    SingleSym(BadByte(255));
    assert Lit("s") == [Rune('s')] && Lit("t") == [Rune('t')];
    assert Sanitize(p, []) == [] && Sanitize(p, Lit("s")) == Lit("s") && Sanitize(p, Lit("t")) == Lit("t");
    assert Sanitize(p, [BadByte(255)]) == [REPLACEMENT];
  }

  lemma BrokenIsValid(lib: Library)
    ensures ValidateEvent(lib, BrokenEvent().(message := [REPLACEMENT])).Pass?
  {
    CanonicalLevel(lib, Lit("info"));
    NotBlank(Rune('s'));
    NotBlank(Rune('t'));
    NotBlank(REPLACEMENT);
    assert Lit("s") == [Rune('s')] && Lit("t") == [Rune('t')];
    ValidExactly(lib, BrokenEvent().(message := [REPLACEMENT]));
  }

  lemma NotBlank(s: Sym)
    requires s.Rune? && !Dropped(s) && !IsSpace(s)
    ensures !Blank([s])
  {
    SingleSym(s);
    CleanBlank([s]);
  }

  /** A caller that hands over text which is not valid UTF-8 has it accepted, with the replacement character
      in the byte's place.  Two absent maps are encoded as an empty object. */
  lemma InvalidBytesAccepted(p: Patterns, lib: Library, now: Time, freshID: Text) returns (out: Event)
    requires NothingToMask(p)
    requires lib.encodedSize(NilFields, NilFields) == Success(2)
    ensures !ValidUtf8(BrokenEvent().message) && out.message == [REPLACEMENT]
    ensures MayReturn(p, lib, BrokenEvent(), now, freshID, Success(out))
  {
    var redacted := BrokenEvent().(message := [REPLACEMENT]);
    out := Enrich(lib, redacted, now, freshID);
    BrokenRedacts(p);
    BrokenIsValid(lib);
    assert Judges(lib, redacted, now, freshID, Success(out));
    assert BrokenEvent().message[0] == BadByte(255);
  }

  lemma OneStripped(s: Sym)
    requires !Dropped(s)
    ensures Strip([s]) == [Written(s)]
  {
    assert [s][..0] == [] && Strip([]) == [];
  }

  lemma SingleSym(s: Sym)
    requires !Dropped(s) && !IsSpace(s)
    ensures Clean([s]) == [Written(s)]
  {
    OneStripped(s);
    ReplacementKept();
    var w := Written(s);
    assert w.Rune? && !Dropped(w) && !IsSpace(w);
    assert Stripped([w]) && Tight([w]);
    StripKeeps([Written(s)]);
    CleanFixes([Written(s)]);
  }

  // ---------------------------------------------------------------- what is stored

  lemma CanonicalLevel(lib: Library, level: Text)
    requires level in Levels()
    ensures MapEventLevel(lib, level) == level
  {
    assert Tight(level);
    assert forall i :: 0 <= i < |level| ==> level[i].Rune? && 'a' <= level[i].c <= 'z';
    LowerKeeps(lib.lowerOther, level);
    assert level[0] == Rune('i') ==> |level| == 4;
    assert level[0] == Rune('w') ==> |level| == 4;
  }

  /** A level is accepted if and only if, trimmed and folded to lower case, it is one of eight names; the
      compatibility names `information` and `warning` become canonical and the others stay as they are.
      The configuration value `off` is no level. */
  lemma LevelNames(lib: Library, level: Text)
    ensures var word := ToLower(lib.lowerOther, Trim(level));
      && (MapEventLevel(lib, level) in Levels() <==> word in Levels() + {Lit("information"), Lit("warning")})
      && (word == Lit("information") ==> MapEventLevel(lib, level) == Lit("info"))
      && (word == Lit("warning") ==> MapEventLevel(lib, level) == Lit("warn"))
      && (word in Levels() ==> MapEventLevel(lib, level) == word)
      && (word == Lit("off") ==> MapEventLevel(lib, level) !in Levels())
  {
    LevelsAreShort();
    assert |Lit("information")| == 11 && |Lit("warning")| == 7;
    var off := Lit("off");
    assert |off| == 3;
    assert forall l :: l in Levels() ==> |l| > 3;
  }

  lemma LevelsAreShort()
    ensures forall l :: l in Levels() ==> 3 < |l| < 6
  {}

  predicate StoredText(t: Text, limit: nat) {
    Trim(t) == t && t != [] && |t| <= limit && Stripped(t)
  }

  /** What is returned is exactly what redaction alone gives, but for the level, the ID and the timestamp:
      nothing after redaction alters a text or a field. */
  lemma ResultIsRedaction(p: Patterns, lib: Library, e: Event, now: Time, freshID: Text, out: Event)
    requires MayReturn(p, lib, e, now, freshID, Success(out))
    ensures EventRedactsTo(p, e, out.(level := e.level, eventID := e.eventID, timestamp := e.timestamp))
  {
    var r :| EventRedactsTo(p, e, r) && Judges(lib, r, now, freshID, Success(out));
    assert out.(level := e.level, eventID := e.eventID, timestamp := e.timestamp) == r;
  }

  /** An accepted event has a canonical level, an ID, a UTC timestamp, and required texts that are non-blank,
      within their limits and free of control characters: the checks made before the second sanitisation
      hold of what is returned. */
  lemma AcceptedEvent(p: Patterns, lib: Library, e: Event, now: Time, freshID: Text, out: Event)
    requires MayReturn(p, lib, e, now, freshID, Success(out)) && freshID != []
    ensures out.level in Levels() && MapEventLevel(lib, out.level) == out.level
    ensures out.eventID == (if e.eventID != [] then e.eventID else freshID) && out.eventID != []
    ensures out.timestamp.offset == 0
    ensures out.timestamp.instant == if e.timestamp.instant != 0 then e.timestamp.instant else now.instant
    ensures StoredText(out.service, MAX_SERVICE)
    ensures StoredText(out.eventType, MAX_EVENT_TYPE)
    ensures StoredText(out.message, MAX_MESSAGE)
    ensures |out.component| <= MAX_COMPONENT
  {
    var r :| EventRedactsTo(p, e, r) && Judges(lib, r, now, freshID, Success(out));
    CanonicalLevel(lib, MapEventLevel(lib, r.level));
    RequiredText(p.mask(e.service), MAX_SERVICE);
    RequiredText(p.mask(e.eventType), MAX_EVENT_TYPE);
    RequiredText(p.mask(e.message), MAX_MESSAGE);
  }

  predicate Present(t: Text, limit: nat) {
    0 < |t| <= limit
  }

  /** The text fields, level and timestamp are acceptable as they arrive. */
  predicate TextsArrive(p: Patterns, lib: Library, e: Event) {
    TextsFit(lib, e.level, Sanitize(p, e.service), Sanitize(p, e.eventType), Sanitize(p, e.message),
             Sanitize(p, e.component), e.timestamp)
  }

  predicate TextsFit(lib: Library, level: Text, service: Text, eventType: Text, message: Text, component: Text,
                     timestamp: Time) {
    && KnownLevel(lib, level)
    && Present(service, MAX_SERVICE) && Present(eventType, MAX_EVENT_TYPE) && Present(message, MAX_MESSAGE)
    && |component| <= MAX_COMPONENT
    && (timestamp.instant == 0 || lib.year(timestamp.instant + timestamp.offset) >= 2000)
  }

  predicate SizeFits(lib: Library, context: Fields, metadata: Fields) {
    match lib.encodedSize(context, metadata)
    case Failure(_) => false
    case Success(size) => size <= MAX_METADATA_BYTES
  }

  /** What validation looks at, of a redacted event. */
  predicate SameTexts(p: Patterns, e: Event, redacted: Event) {
    && redacted.level == e.level && redacted.timestamp == e.timestamp
    && redacted.service == Sanitize(p, e.service) && redacted.eventType == Sanitize(p, e.eventType)
    && redacted.message == Sanitize(p, e.message) && redacted.component == Sanitize(p, e.component)
  }

  lemma TextsExactly(p: Patterns, lib: Library, e: Event, redacted: Event)
    requires SameTexts(p, e, redacted)
    ensures ValidTexts(lib, redacted) <==> TextsArrive(p, lib, e)
  {
    RequiredExactly(p, e.service, MAX_SERVICE);
    RequiredExactly(p, e.eventType, MAX_EVENT_TYPE);
    RequiredExactly(p, e.message, MAX_MESSAGE);
    SameConditions(lib, redacted);
  }

  lemma SameConditions(lib: Library, e: Event)
    requires Present(e.service, MAX_SERVICE) <==> Required(e.service, MAX_SERVICE)
    requires Present(e.eventType, MAX_EVENT_TYPE) <==> Required(e.eventType, MAX_EVENT_TYPE)
    requires Present(e.message, MAX_MESSAGE) <==> Required(e.message, MAX_MESSAGE)
    ensures ValidTexts(lib, e)
       <==> TextsFit(lib, e.level, e.service, e.eventType, e.message, e.component, e.timestamp)
  {}

  lemma RequiredExactly(p: Patterns, t: Text, limit: nat)
    ensures Present(Sanitize(p, t), limit) <==> Required(Sanitize(p, t), limit)
  {
    CleanBlank(p.mask(t));
  }

  /** Exactly when a redacted event is accepted: a known level, required texts that survive masking and
      cleaning and fit, a component that fits, a timestamp that is absent or of the year 2000 or later in its
      own zone, and maps that redaction leaves admissible and small enough. */
  lemma AcceptedExactly(p: Patterns, lib: Library, e: Event, redacted: Event, now: Time, freshID: Text, r: Result<Event>)
    requires EventRedactsTo(p, e, redacted) && Judges(lib, redacted, now, freshID, r)
    ensures r.Success? <==>
      && TextsArrive(p, lib, e)
      && FieldsAdmissible(lib, redacted.context, 0) && FieldsAdmissible(lib, redacted.metadata, 0)
      && SizeFits(lib, redacted.context, redacted.metadata)
  {
    RedactedIsValidUtf8(p, lib, e, redacted);
    ValidExactly(lib, redacted);
    TextsExactly(p, lib, e, redacted);
    JudgedExactly(lib, redacted, now, freshID, r);
  }

  predicate KnownLevel(lib: Library, level: Text) {
    ValidUtf8(level) && MapEventLevel(lib, level) in Levels()
  }

  predicate Required(t: Text, limit: nat) {
    !Blank(t) && |t| <= limit
  }

  predicate ValidTexts(lib: Library, e: Event) {
    && KnownLevel(lib, e.level)
    && Required(e.service, MAX_SERVICE) && Required(e.eventType, MAX_EVENT_TYPE) && Required(e.message, MAX_MESSAGE)
    && |e.component| <= MAX_COMPONENT
    && (e.timestamp.instant == 0 || lib.year(e.timestamp.instant + e.timestamp.offset) >= 2000)
  }

  lemma ValidExactly(lib: Library, e: Event)
    requires ValidUtf8(e.service) && ValidUtf8(e.eventType) && ValidUtf8(e.message)
    ensures ValidateEvent(lib, e).Pass? <==> ValidTexts(lib, e)
  {}

  lemma JudgedExactly(lib: Library, redacted: Event, now: Time, freshID: Text, r: Result<Event>)
    requires Judges(lib, redacted, now, freshID, r)
    ensures r.Success? <==>
      && ValidateEvent(lib, redacted).Pass?
      && FieldsAdmissible(lib, redacted.context, 0) && FieldsAdmissible(lib, redacted.metadata, 0)
      && ValidateMetadataSize(lib, redacted).Pass?
  {}

  lemma CleanBlank(t: Text)
    ensures Blank(Clean(t)) <==> Clean(t) == []
  {
    CleanIdempotent(t);
    StrippedTrim(Clean(t));
  }

  lemma RequiredText(t: Text, limit: nat)
    requires CheckRequired(Clean(t), limit).Pass?
    ensures StoredText(Clean(t), limit)
  {
    CleanIdempotent(t);
    StrippedTrim(Clean(t));
  }

  lemma StrippedTrim(t: Text)
    requires Stripped(t) && Tight(t)
    ensures Trim(t) == t
  {
    StripKeeps(t);
    CleanFixes(t);
  }
}
