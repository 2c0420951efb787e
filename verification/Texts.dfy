/** The parts of Go's strings and unicode packages the service uses. */
module Texts {
  import opened Contracts

  /** unicode.IsControl: category Cc. */
  predicate IsControl(s: Sym) {
    s.Rune? && (s.c <= '\U{1F}' || '\U{7F}' <= s.c <= '\U{9F}')
  }

  /** unicode.IsSpace: the White_Space property. */
  predicate IsSpace(s: Sym) {
    s.Rune? &&
    ('\t' <= s.c <= '\r' || s.c == ' ' || s.c == '\U{85}' || s.c == '\U{A0}' || s.c == '\U{1680}'
     || '\U{2000}' <= s.c <= '\U{200A}' || s.c == '\U{2028}' || s.c == '\U{2029}' || s.c == '\U{202F}'
     || s.c == '\U{205F}' || s.c == '\U{3000}')
  }

  function TrimLeft(t: Text): Text {
    if t != [] && IsSpace(t[0]) then TrimLeft(t[1..]) else t
  }

  function TrimRight(t: Text): Text {
    if t != [] && IsSpace(t[|t| - 1]) then TrimRight(t[..|t| - 1]) else t
  }

  /** strings.TrimSpace */
  function Trim(t: Text): Text {
    TrimRight(TrimLeft(t))
  }

  predicate Blank(t: Text) {
    Trim(t) == []
  }

  const REPLACEMENT: Sym := Rune('\U{FFFD}')

  /** The replacement character is neither a control character nor a space. */
  lemma ReplacementKept()
    ensures !IsControl(REPLACEMENT) && !IsSpace(REPLACEMENT)
  {
    var c := REPLACEMENT.c;
    assert c as int == 0xFFFD;
    assert '\U{1F}' as int == 0x1F && '\U{9F}' as int == 0x9F;
    assert '\r' as int == 13 && ' ' as int == 32 && '\U{85}' as int == 0x85 && '\U{A0}' as int == 0xA0;
    assert '\U{1680}' as int == 0x1680 && '\U{200A}' as int == 0x200A && '\U{2028}' as int == 0x2028;
    assert '\U{2029}' as int == 0x2029 && '\U{202F}' as int == 0x202F && '\U{205F}' as int == 0x205F;
    assert '\U{3000}' as int == 0x3000;
  }

  /** The control characters both sanitisers drop. */
  predicate Dropped(s: Sym) {
    IsControl(s) && s.c != '\t'
  }

  /** A string builder writes the replacement character for a byte that is not valid UTF-8. */
  function Written(s: Sym): Sym {
    if s.Rune? then s else REPLACEMENT
  }

  function Strip(t: Text): Text {
    if t == [] then []
    else Strip(t[..|t| - 1]) + (if Dropped(t[|t| - 1]) then [] else [Written(t[|t| - 1])])
  }

  /** Both sanitisers: drop control characters, then trim. */
  function Clean(t: Text): Text {
    Trim(Strip(t))
  }

  // ---------------------------------------------------------------- idempotence

  predicate Stripped(t: Text) {
    forall i :: 0 <= i < |t| ==> t[i].Rune? && !Dropped(t[i])
  }

  predicate Tight(t: Text) {
    t == [] || (!IsSpace(t[0]) && !IsSpace(t[|t| - 1]))
  }

  lemma {:induction false} StripStrips(t: Text)
    ensures Stripped(Strip(t))
  {
    if t != [] {
      StripStrips(t[..|t| - 1]);
    }
  }

  lemma {:induction false} StripKeeps(t: Text)
    requires Stripped(t)
    ensures Strip(t) == t
  {
    if t != [] {
      StripKeeps(t[..|t| - 1]);
      assert t == t[..|t| - 1] + [t[|t| - 1]];
    }
  }

  lemma {:induction false} TrimLeftSlices(t: Text) returns (k: nat)
    ensures k <= |t| && TrimLeft(t) == t[k..]
    ensures TrimLeft(t) == [] || !IsSpace(TrimLeft(t)[0])
  {
    if t != [] && IsSpace(t[0]) {
      var n := TrimLeftSlices(t[1..]);
      k := n + 1;
    } else {
      k := 0;
    }
  }

  lemma {:induction false} TrimRightSlices(t: Text) returns (k: nat)
    ensures k <= |t| && TrimRight(t) == t[..k]
    ensures k == 0 || !IsSpace(t[k - 1])
  {
    if t != [] && IsSpace(t[|t| - 1]) {
      k := TrimRightSlices(t[..|t| - 1]);
      assert t[..|t| - 1][..k] == t[..k];
    } else {
      k := |t|;
    }
  }

  lemma TrimTightens(t: Text)
    ensures Tight(Trim(t)) && |Trim(t)| <= |t|
    ensures Stripped(t) ==> Stripped(Trim(t))
  {
    var i := TrimLeftSlices(t);
    var k := TrimRightSlices(TrimLeft(t));
  }

  /** Cleaning leaves nothing more to clean. */
  lemma CleanIdempotent(t: Text)
    ensures Clean(Clean(t)) == Clean(t)
    ensures Stripped(Clean(t)) && Tight(Clean(t))
  {
    StripStrips(t);
    TrimTightens(Strip(t));
    CleanFixes(Clean(t));
  }

  lemma CleanFixes(t: Text)
    requires Stripped(t) && Tight(t)
    ensures Clean(t) == t
  {
    StripKeeps(t);
  }

  // ---------------------------------------------------------------- which characters stay

  /** A tab, or a character that is no control character. */
  predicate Plain(s: Sym) {
    s.Rune? && (s.c as int == 9 || (s.c as int >= 32 && !(127 <= s.c as int <= 159)))
  }

  lemma PlainIsKept(s: Sym)
    ensures Plain(s) <==> s.Rune? && !Dropped(s)
  {
    assert '\t' as int == 9 && '\U{1F}' as int == 31 && '\U{7F}' as int == 127 && '\U{9F}' as int == 159;
  }

  /** Cleaning leaves only plain characters, and leaves plain text without surrounding space as it is. */
  lemma CleanedIsPlain(t: Text)
    ensures forall i :: 0 <= i < |Clean(t)| ==> Plain(Clean(t)[i])
    ensures (forall i :: 0 <= i < |t| ==> Plain(t[i])) && Tight(t) ==> Clean(t) == t
  {
    CleanIdempotent(t);
    forall s ensures Plain(s) <==> s.Rune? && !Dropped(s) {
      PlainIsKept(s);
    }
    if (forall i :: 0 <= i < |t| ==> Plain(t[i])) && Tight(t) {
      CleanFixes(t);
    }
  }

  // ---------------------------------------------------------------- case folding

  /** unicode.ToLower: exact on ASCII, `other` elsewhere. */
  function LowerChar(other: char -> char, c: char): char {
    if 'A' <= c <= 'Z' then c - 'A' + 'a'
    else if c < '\U{80}' then c
    else other(c)
  }

  /** strings.ToLower */
  function ToLower(other: char -> char, t: Text): Text {
    seq(|t|, i requires 0 <= i < |t| => Rune(LowerChar(other, Written(t[i]).c)))
  }

  /** strings.ReplaceAll(t, c, "") */
  function Without(t: Text, c: char): Text {
    if t == [] then []
    else Without(t[..|t| - 1], c) + (if t[|t| - 1] == Rune(c) then [] else [t[|t| - 1]])
  }
}
