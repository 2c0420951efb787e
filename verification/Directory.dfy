/** The event directory: files in name order, as Glob and sort.Strings list them. */
module Directory {

  type Byte = x: int | 0 <= x < 256

  type Bytes = seq<Byte>

  datatype File = File(name: string, data: Bytes, modified: int)

  /** sort.Strings orders names lexicographically. */
  predicate Less(a: string, b: string) {
    b != [] && (a == [] || a[0] < b[0] || (a[0] == b[0] && Less(a[1..], b[1..])))
  }

  lemma {:induction false} LessTransitive(a: string, b: string, c: string)
    requires Less(a, b) && Less(b, c)
    ensures Less(a, c)
  {
    if a != [] && a[0] == b[0] == c[0] {
      LessTransitive(a[1..], b[1..], c[1..]);
    }
  }

  lemma {:induction false} LessTotal(a: string, b: string)
    ensures Less(a, b) || Less(b, a) || a == b
    ensures !(Less(a, b) && Less(b, a))
    ensures !Less(a, a)
  {
    if a != [] {
      LessTotal(a[1..], a[1..]);
      if b != [] && a[0] == b[0] {
        LessTotal(a[1..], b[1..]);
        assert a == [a[0]] + a[1..] && b == [b[0]] + b[1..];
      }
    }
  }

  predicate Sorted(dir: seq<File>) {
    forall i, k :: 0 <= i < k < |dir| ==> Less(dir[i].name, dir[k].name)
  }

  predicate Has(dir: seq<File>, name: string) {
    exists i :: 0 <= i < |dir| && dir[i].name == name
  }

  /** The contents of a file, empty if there is none. */
  function DataOf(dir: seq<File>, name: string): Bytes {
    if dir == [] then []
    else if dir[0].name == name then dir[0].data
    else DataOf(dir[1..], name)
  }

  /** Open for appending, creating the file if need be, write, close. */
  function Append(dir: seq<File>, name: string, bytes: Bytes, now: int): seq<File> {
    if dir == [] || Less(name, dir[0].name) then [File(name, bytes, now)] + dir
    else if dir[0].name == name then [File(name, dir[0].data + bytes, now)] + dir[1..]
    else [dir[0]] + Append(dir[1..], name, bytes, now)
  }

  /** The files modified at or after the cutoff. */
  function Survivors(dir: seq<File>, cutoff: int): seq<File> {
    if dir == [] then []
    else (if dir[0].modified < cutoff then [] else [dir[0]]) + Survivors(dir[1..], cutoff)
  }

  lemma HasTail(dir: seq<File>, name: string)
    requires dir != []
    ensures Has(dir, name) <==> dir[0].name == name || Has(dir[1..], name)
  {
    if Has(dir, name) && dir[0].name != name {
      var i :| 0 <= i < |dir| && dir[i].name == name;
      assert dir[1..][i - 1].name == name;
    }
    if Has(dir[1..], name) {
      var i :| 0 <= i < |dir[1..]| && dir[1..][i].name == name;
      assert dir[i + 1].name == name;
    }
  }

  lemma {:induction false} AbsentData(dir: seq<File>, name: string)
    requires !Has(dir, name)
    ensures DataOf(dir, name) == []
  {
    if dir != [] {
      HasTail(dir, name);
      AbsentData(dir[1..], name);
    }
  }

  /** A name before the first is not in a sorted directory. */
  lemma BeforeFirst(dir: seq<File>, name: string)
    requires Sorted(dir) && dir != [] && Less(name, dir[0].name)
    ensures !Has(dir, name)
  {
    forall i | 0 <= i < |dir| ensures dir[i].name != name {
      if i > 0 {
        LessTransitive(name, dir[0].name, dir[i].name);
      }
      LessTotal(name, dir[i].name);
    }
  }

  /** Appending changes one file only and keeps the listing sorted. */
  lemma {:induction false} AppendEffect(dir: seq<File>, name: string, bytes: Bytes, now: int, other: string)
    requires Sorted(dir)
    ensures Has(Append(dir, name, bytes, now), other) <==> other == name || Has(dir, other)
    ensures DataOf(Append(dir, name, bytes, now), other)
         == if other == name then DataOf(dir, name) + bytes else DataOf(dir, other)
  {
    var dir' := Append(dir, name, bytes, now);
    HasTail(dir', other);
    if dir == [] {
    } else if Less(name, dir[0].name) {
      BeforeFirst(dir, name);
      AbsentData(dir, name);
      assert dir'[1..] == dir;
    } else if dir[0].name == name {
      HasTail(dir, other);
      assert dir'[1..] == dir[1..];
    } else {
      HasTail(dir, other);
      AppendEffect(dir[1..], name, bytes, now, other);
      assert dir'[1..] == Append(dir[1..], name, bytes, now);
    }
  }

  lemma {:induction false} AppendNames(dir: seq<File>, name: string, bytes: Bytes, now: int, i: nat)
    requires i < |Append(dir, name, bytes, now)|
    ensures Append(dir, name, bytes, now)[i].name == name
            || Has(dir, Append(dir, name, bytes, now)[i].name)
  {
    var dir' := Append(dir, name, bytes, now);
    if dir == [] {
    } else if Less(name, dir[0].name) {
      assert i > 0 ==> dir'[i] == dir[i - 1];
    } else if dir[0].name == name {
      assert i > 0 ==> dir'[i] == dir[i];
    } else if i > 0 {
      AppendNames(dir[1..], name, bytes, now, i - 1);
      HasTail(dir, dir'[i].name);
    }
  }

  lemma {:induction false} AppendSorted(dir: seq<File>, name: string, bytes: Bytes, now: int)
    requires Sorted(dir)
    ensures Sorted(Append(dir, name, bytes, now))
  {
    if dir == [] {
    } else if Less(name, dir[0].name) {
      forall i | 0 <= i < |dir| ensures Less(name, dir[i].name) {
        if i > 0 {
          LessTransitive(name, dir[0].name, dir[i].name);
        }
      }
    } else if dir[0].name != name {
      var tail := Append(dir[1..], name, bytes, now);
      AppendSorted(dir[1..], name, bytes, now);
      forall i | 0 <= i < |tail| ensures Less(dir[0].name, tail[i].name) {
        AppendNames(dir[1..], name, bytes, now, i);
        LessTotal(name, dir[0].name);
        if tail[i].name != name {
          var k :| 0 <= k < |dir[1..]| && dir[1..][k].name == tail[i].name;
          assert Less(dir[0].name, dir[k + 1].name);
        }
      }
    }
  }

  lemma {:induction false} SurvivorsAmong(dir: seq<File>, cutoff: int, i: nat) returns (k: nat)
    requires i < |Survivors(dir, cutoff)|
    ensures i <= k < |dir| && Survivors(dir, cutoff)[i] == dir[k] && dir[k].modified >= cutoff
  {
    if dir[0].modified < cutoff {
      k := SurvivorsAmong(dir[1..], cutoff, i);
      k := k + 1;
    } else if i == 0 {
      k := 0;
    } else {
      k := SurvivorsAmong(dir[1..], cutoff, i - 1);
      k := k + 1;
    }
  }

  lemma {:induction false} SurvivorsSorted(dir: seq<File>, cutoff: int)
    requires Sorted(dir)
    ensures Sorted(Survivors(dir, cutoff))
  {
    if dir != [] {
      SurvivorsSorted(dir[1..], cutoff);
      var rest := Survivors(dir[1..], cutoff);
      forall i | 0 <= i < |rest| ensures Less(dir[0].name, rest[i].name) {
        var k := SurvivorsAmong(dir[1..], cutoff, i);
        assert dir[1..][k] == dir[k + 1];
      }
    }
  }

  /** Rotation removes exactly the files last modified before the cutoff. */
  lemma {:induction false} SurvivorsExactly(dir: seq<File>, cutoff: int, f: File)
    ensures f in Survivors(dir, cutoff) <==> f in dir && f.modified >= cutoff
  {
    if dir != [] {
      SurvivorsExactly(dir[1..], cutoff, f);
    }
  }
}
