/** The keys that are refused, spelled out. */
module KeyNames {
  import opened Contracts
  import opened Texts
  import opened Processor
  import opened ProcessorTheorems

  function RefusedNames(): seq<string> {
    ["authorization", "cookie", "cookies", "password", "passwd", "secret", "token", "accesstoken", "refreshtoken",
     "apikey", "privatekey", "sessionsecret"]
  }

  predicate Ascii(t: Text) {
    forall i :: 0 <= i < |t| ==> t[i].Rune? && t[i].c as int < 128
  }

  /** A key without its hyphens, underscores and spaces, in lower case. */
  function Bare(t: Text): string
    requires Ascii(t)
  {
    if t == [] then ""
    else
      var c := t[|t| - 1].c;
      Bare(t[..|t| - 1])
      + (if c == '-' || c == '_' || c == ' ' then ""
         else [LowerAscii(c)])
  }

  function LowerAscii(c: char): char {
    if 65 <= c as int <= 90 then (c as int + 32) as char else c
  }

  lemma LitAppend(a: string, b: string)
    ensures Lit(a + b) == Lit(a) + Lit(b)
  {}

  lemma LitInjective(a: string, b: string)
    ensures Lit(a) == Lit(b) <==> a == b
  {
    if Lit(a) == Lit(b) {
      assert |Lit(a)| == |a| && |Lit(b)| == |b|;
      forall i | 0 <= i < |a| ensures a[i] == b[i] {
        assert Lit(a)[i] == Rune(a[i]) && Lit(b)[i] == Rune(b[i]);
      }
    }
  }

  lemma LowerIsLower(other: char -> char, c: char)
    requires c as int < 128
    ensures LowerChar(other, c) == LowerAscii(c)
  {
    assert 'A' as int == 65 && 'Z' as int == 90 && 'a' as int == 97;
    if 65 <= c as int <= 90 {
      assert (c - 'A' + 'a') as int == c as int + 32;
    }
  }

  lemma LowerOne(other: char -> char, c: char)
    requires c as int < 128
    ensures ToLower(other, [Rune(c)]) == [Rune(LowerAscii(c))]
  {
    LowerIsLower(other, c);
    assert Written(Rune(c)).c == c;
  }

  lemma OneSeparator(s: Sym)
    ensures WithoutSeparators([s]) == if Separator(s) then [] else [s]
  {
    WithoutOne(s, '-');
    WithoutOne(s, '_');
    WithoutOne(s, ' ');
  }

  lemma LowerSeparator(c: char)
    ensures Separator(Rune(LowerAscii(c))) <==> c == '-' || c == '_' || c == ' '
  {
    assert '-' as int == 45 && '_' as int == 95 && ' ' as int == 32;
    if 65 <= c as int <= 90 {
      assert LowerAscii(c) as int == c as int + 32;
    }
  }

  lemma BareOne(s: Sym)
    requires s.Rune? && s.c as int < 128
    ensures Ascii([s])
    ensures Bare([s]) == if s.c == '-' || s.c == '_' || s.c == ' ' then "" else [LowerAscii(s.c)]
  {
    assert [s][..0] == [] && Bare([]) == "";
  }

  lemma BareChar(lib: Library, s: Sym)
    requires s.Rune? && s.c as int < 128
    ensures Ascii([s])
    ensures WithoutSeparators(ToLower(lib.lowerOther, [s])) == Lit(Bare([s]))
  {
    LowerOne(lib.lowerOther, s.c);
    assert [s] == [Rune(s.c)];
    OneSeparator(Rune(LowerAscii(s.c)));
    LowerSeparator(s.c);
    BareOne(s);
  }

  lemma LowerAppend(other: char -> char, a: Text, b: Text)
    ensures ToLower(other, a + b) == ToLower(other, a) + ToLower(other, b)
  {}

  lemma BareSnoc(t: Text, s: Sym)
    requires Ascii(t) && s.Rune? && s.c as int < 128
    ensures Ascii(t + [s]) && Ascii([s]) && Bare(t + [s]) == Bare(t) + Bare([s])
  {
    assert forall i :: 0 <= i < |t| ==> (t + [s])[i] == t[i];
    assert (t + [s])[..|t|] == t;
    BareOne(s);
  }

  lemma {:induction false} BareText(lib: Library, t: Text)
    requires Ascii(t)
    ensures WithoutSeparators(ToLower(lib.lowerOther, t)) == Lit(Bare(t))
  {
    if t != [] {
      var init, last := t[..|t| - 1], t[|t| - 1];
      assert t == init + [last];
      BareText(lib, init);
      BareChar(lib, last);
      LowerAppend(lib.lowerOther, init, [last]);
      SeparatorsConcat(ToLower(lib.lowerOther, init), ToLower(lib.lowerOther, [last]));
      BareSnoc(init, last);
      LitAppend(Bare(init), Bare([last]));
    }
  }

  lemma RefusedAsSet(name: string)
    ensures Lit(name) in ProhibitedFields() <==> name in RefusedNames()
  {
    var names := RefusedNames();
    LitInjective(name, names[0]);
    LitInjective(name, names[1]);
    LitInjective(name, names[2]);
    LitInjective(name, names[3]);
    LitInjective(name, names[4]);
    LitInjective(name, names[5]);
    LitInjective(name, names[6]);
    LitInjective(name, names[7]);
    LitInjective(name, names[8]);
    LitInjective(name, names[9]);
    LitInjective(name, names[10]);
    LitInjective(name, names[11]);
  }

  /** A key of ASCII characters without surrounding space is prohibited if and only if, without separators and
      in lower case, it is one of the twelve names. */
  lemma ProhibitedExactly(lib: Library, key: Text)
    requires Ascii(key) && Tight(key)
    ensures ProhibitedKey(lib, key) <==> Bare(key) in RefusedNames()
    ensures KeyAdmissible(lib, key) <==> Bare(key) !in RefusedNames()
  {
    TightTrim(key);
    BareText(lib, key);
    RefusedAsSet(Bare(key));
  }

  lemma TightTrim(t: Text)
    requires Tight(t)
    ensures Trim(t) == t
  {}

  /** Surrounding space does not hide a key. */
  lemma SpaceIgnored(lib: Library, key: Text)
    ensures ProhibitedKey(lib, key) <==> ProhibitedKey(lib, Trim(key))
  {
    TrimTightens(key);
    TightTrim(Trim(key));
  }

  // ---------------------------------------------------------------- whole maps

  /** At every depth, no ASCII key is one of the twelve names in disguise. */
  ghost predicate NoneRefused(v: Value)
    decreases v
  {
    match v
    case Obj(fields) => FieldsNoneRefused(fields)
    case List(items) => forall i :: 0 <= i < |items| ==> NoneRefused(items[i])
    case _ => true
  }

  ghost predicate FieldsNoneRefused(f: Fields)
    decreases f
  {
    f.Fields? ==> forall k :: k in f.entries ==>
      (Ascii(k) && Tight(k) ==> Bare(k) !in RefusedNames()) && NoneRefused(f.entries[k])
  }

  lemma {:induction false} ClearMeansNoneRefused(lib: Library, v: Value)
    requires KeysClear(lib, v)
    ensures NoneRefused(v)
    decreases v
  {
    match v
    case Obj(fields) => ClearFieldsNoneRefused(lib, fields);
    case List(items) =>
      forall i | 0 <= i < |items| ensures NoneRefused(items[i]) {
        ClearMeansNoneRefused(lib, items[i]);
      }
    case _ =>
  }

  lemma {:induction false} ClearFieldsNoneRefused(lib: Library, f: Fields)
    requires FieldsClear(lib, f)
    ensures FieldsNoneRefused(f)
    decreases f
  {
    if f.Fields? {
      forall k | k in f.entries
        ensures (Ascii(k) && Tight(k) ==> Bare(k) !in RefusedNames()) && NoneRefused(f.entries[k])
      {
        ClearMeansNoneRefused(lib, f.entries[k]);
        if Ascii(k) && Tight(k) {
          ProhibitedExactly(lib, k);
        }
      }
    }
  }

  /** sanitizeMap fails on a map with such a key, at any depth. */
  lemma RefusedMapsFail(lib: Library, f: Fields)
    requires FieldsAdmissible(lib, f, 0)
    ensures FieldsNoneRefused(f)
  {
    FieldsAdmissibleIsClear(lib, f, 0);
    ClearFieldsNoneRefused(lib, f);
  }

  /** And no accepted event holds one. */
  lemma NoRefusedNames(p: Redaction.Patterns, lib: Library, e: Event, now: Time, freshID: Text, out: Event)
    requires MayReturn(p, lib, e, now, freshID, Success(out))
    ensures FieldsNoneRefused(out.context) && FieldsNoneRefused(out.metadata)
  {
    NoProhibitedKeys(p, lib, e, now, freshID, out);
    ClearFieldsNoneRefused(lib, out.context);
    ClearFieldsNoneRefused(lib, out.metadata);
  }
}
