/** The storage week and the names of its files. */
module Naming {
  import opened Directory

  /** 24 hours in nanoseconds; instants count from Go's zero time, midnight on a Monday. */
  const DAY: int := 86_400_000_000_000

  const WEEK: int := 7 * DAY

  /** time.Weekday, with Sunday as 0. */
  function Weekday(instant: int): int {
    (instant / DAY + 1) % 7
  }

  /** startOfWeek as the code computes it: back to Monday, then down to midnight. */
  function StartOfWeek(instant: int): int {
    var daysSinceMonday := (Weekday(instant) + 6) % 7;
    var monday := instant - daysSinceMonday * DAY;
    monday - monday % DAY
  }

  /** The code's week start is the latest Monday midnight: the multiple of a week at or below the instant. */
  lemma WeekStart(instant: int)
    ensures Weekday(StartOfWeek(instant)) == 1 && StartOfWeek(instant) % WEEK == 0
    ensures StartOfWeek(instant) <= instant < StartOfWeek(instant) + WEEK
  {
    var day := instant / DAY;
    var back := (Weekday(instant) + 6) % 7;
    assert back == day % 7;
    assert instant == day * DAY + instant % DAY;
    var monday := instant - back * DAY;
    assert monday == (day - back) * DAY + instant % DAY;
    assert monday % DAY == instant % DAY by {
      ModAdd(day - back, instant % DAY);
    }
    var week := day / 7;
    assert day - back == 7 * week;
    assert StartOfWeek(instant) == (7 * week) * DAY == week * WEEK;
    ModAdd(7 * week, 0);
  }

  lemma ModAdd(q: int, r: int)
    requires 0 <= r < DAY
    ensures (q * DAY + r) % DAY == r && (q * DAY + r) / DAY == q
  {}

  /** A week, named by the instant it starts at. */
  type Week = w: int | w % WEEK == 0

  /** startOfWeek, as the week it names. */
  function WeekOf(instant: int): Week {
    WeekStart(instant);
    StartOfWeek(instant)
  }

  // ---------------------------------------------------------------- file names

  function Digit(d: nat): char
    requires d < 10
  {
    '0' + d as char
  }

  function Decimal(n: nat): string {
    if n < 10 then [Digit(n)] else Decimal(n / 10) + [Digit(n % 10)]
  }

  /** fmt's %02d */
  function Padded(n: nat): string {
    if n < 10 then ['0', Digit(n)] else Decimal(n)
  }

  function ValueOf(s: string): int {
    if s == [] then 0 else 10 * ValueOf(s[..|s| - 1]) + (s[|s| - 1] as int - '0' as int)
  }

  lemma {:induction false} DecimalValue(n: nat)
    ensures ValueOf(Decimal(n)) == n
  {
    var s := Decimal(n);
    if n >= 10 {
      DecimalValue(n / 10);
      assert s[..|s| - 1] == Decimal(n / 10);
    } else {
      assert s[..0] == [];
    }
  }

  lemma PaddedValue(n: nat)
    ensures ValueOf(Padded(n)) == n
  {
    DecimalValue(n);
    if n < 10 {
      var s := Padded(n);
      assert s[..1] == ['0'] && s[..1][..0] == [];
    }
  }

  /** `stamp` is the compact date of a week's first day: it holds no underscore, and different weeks have
      different dates. */
  ghost predicate ValidStamps(stamp: Week -> string) {
    && (forall w: Week :: '_' !in stamp(w))
    && (forall w: Week, v: Week :: stamp(w) == stamp(v) ==> w == v)
  }

  function FileName(stamp: Week -> string, week: Week, index: nat): string {
    "events_" + stamp(week) + "_" + Padded(index) + ".jsonl"
  }

  /** Where two texts agree, the underscore of the shorter beginning lies inside the longer one. */
  lemma UnderscoreBefore(a: string, x: string, b: string, y: string)
    requires a + ['_'] + x == b + ['_'] + y
    ensures |b| < |a| ==> '_' in a
  {
    if |b| < |a| {
      assert a[|b|] == (a + ['_'] + x)[|b|] == (b + ['_'] + y)[|b|];
    }
  }

  lemma SplitAtUnderscore(a: string, x: string, b: string, y: string)
    requires a + ['_'] + x == b + ['_'] + y && '_' !in a && '_' !in b
    ensures a == b && x == y
  {
    UnderscoreBefore(a, x, b, y);
    UnderscoreBefore(b, y, a, x);
    assert (a + ['_'] + x)[..|a|] == a && (b + ['_'] + y)[..|a|] == b;
    assert (a + ['_'] + x)[|a| + 1..] == x && (b + ['_'] + y)[|a| + 1..] == y;
  }

  lemma NameShape(date: string, number: string)
    ensures "events_" + date + "_" + number + ".jsonl" == "events_" + (date + ['_'] + (number + ".jsonl"))
  {}

  lemma SameBeginning(a: string, b: string, suffix: string)
    requires a + suffix == b + suffix
    ensures a == b
  {
    assert |a| == |b|;
    assert (a + suffix)[..|a|] == a && (b + suffix)[..|a|] == b;
  }

  lemma AfterPrefix(prefix: string, a: string, b: string)
    requires prefix + a == prefix + b
    ensures a == b
  {
    assert (prefix + a)[|prefix|..] == a && (prefix + b)[|prefix|..] == b;
  }

  /** Different weeks and different indices give different files. */
  lemma NamesDiffer(stamp: Week -> string, week: Week, i: nat, week': Week, i': nat)
    requires ValidStamps(stamp) && FileName(stamp, week, i) == FileName(stamp, week', i')
    ensures week == week' && i == i'
  {
    var rest, rest' := Padded(i) + ".jsonl", Padded(i') + ".jsonl";
    NameShape(stamp(week), Padded(i));
    NameShape(stamp(week'), Padded(i'));
    AfterPrefix("events_", stamp(week) + ['_'] + rest, stamp(week') + ['_'] + rest');
    SplitAtUnderscore(stamp(week), rest, stamp(week'), rest');
    SameBeginning(Padded(i), Padded(i'), ".jsonl");
    PaddedValue(i);
    PaddedValue(i');
  }

  // ---------------------------------------------------------------- listing order

  lemma {:induction false} LessAfterPrefix(prefix: string, a: string, b: string)
    ensures Less(prefix + a, prefix + b) <==> Less(a, b)
  {
    if prefix == [] {
      assert prefix + a == a && prefix + b == b;
    } else {
      assert (prefix + a)[1..] == prefix[1..] + a && (prefix + b)[1..] == prefix[1..] + b;
      LessAfterPrefix(prefix[1..], a, b);
    }
  }

  lemma LessAtOnce(a: char, x: string, b: char, y: string)
    ensures Less([a] + x, [b] + y) <==> a < b || (a == b && Less(x, y))
  {
    assert ([a] + x)[1..] == x && ([b] + y)[1..] == y;
  }

  lemma TwoDigits(n: nat)
    requires n < 100
    ensures Padded(n) == [Digit(n / 10)] + [Digit(n % 10)]
  {
    if n >= 10 {
      assert Decimal(n / 10) == [Digit(n / 10)];
    }
  }

  lemma DigitsInOrder(a: nat, b: nat)
    requires a < 10 && b < 10
    ensures (Digit(a) < Digit(b) <==> a < b) && (Digit(a) == Digit(b) <==> a == b)
  {
    assert Digit(a) as int == '0' as int + a && Digit(b) as int == '0' as int + b;
  }

  lemma NumbersInOrder(i: nat, k: nat, suffix: string)
    requires i < k < 100
    ensures Less(Padded(i) + suffix, Padded(k) + suffix)
  {
    TwoDigits(i);
    TwoDigits(k);
    DigitsInOrder(i / 10, k / 10);
    DigitsInOrder(i % 10, k % 10);
    LessAtOnce(Digit(i % 10), suffix, Digit(k % 10), suffix);
    LessAtOnce(Digit(i / 10), [Digit(i % 10)] + suffix, Digit(k / 10), [Digit(k % 10)] + suffix);
    assert Padded(i) + suffix == [Digit(i / 10)] + ([Digit(i % 10)] + suffix);
    assert Padded(k) + suffix == [Digit(k / 10)] + ([Digit(k % 10)] + suffix);
  }

  lemma NameParts(stamp: Week -> string, week: Week, index: nat)
    ensures FileName(stamp, week, index) == ("events_" + stamp(week) + "_") + (Padded(index) + ".jsonl")
  {}

  /** The first hundred files of a week are listed in the order of their numbers. */
  lemma ListedInOrder(stamp: Week -> string, week: Week, i: nat, k: nat)
    requires i < k < 100
    ensures Less(FileName(stamp, week, i), FileName(stamp, week, k))
  {
    NumbersInOrder(i, k, ".jsonl");
    NameParts(stamp, week, i);
    NameParts(stamp, week, k);
    LessAfterPrefix("events_" + stamp(week) + "_", Padded(i) + ".jsonl", Padded(k) + ".jsonl");
  }

  /** The next file is listed before the last of them. */
  lemma HundredthFileComesEarly(stamp: Week -> string, week: Week)
    ensures FileName(stamp, week, 0) == "events_" + stamp(week) + "_00.jsonl"
    ensures FileName(stamp, week, 99) == "events_" + stamp(week) + "_99.jsonl"
    ensures FileName(stamp, week, 100) == "events_" + stamp(week) + "_100.jsonl"
    ensures Less(FileName(stamp, week, 100), FileName(stamp, week, 99))
  {
    assert Padded(0) == "00" && Padded(99) == "99";
    assert Decimal(1) == "1" && Decimal(10) == "10" && Padded(100) == "100";
    NameParts(stamp, week, 99);
    NameParts(stamp, week, 100);
    LessAfterPrefix("events_" + stamp(week) + "_", Padded(100) + ".jsonl", Padded(99) + ".jsonl");
  }

  /** A directory that holds files 0 to n - 1 of a week has at least n entries. */
  lemma Pigeonhole(stamp: Week -> string, dir: seq<File>, week: Week, n: nat)
    requires ValidStamps(stamp)
    requires forall j: nat :: j < n ==> Has(dir, FileName(stamp, week, j))
    ensures n <= |dir|
  {
    var names := set i | 0 <= i < |dir| :: dir[i].name;
    NameCount(dir);
    var wanted := WeekNames(stamp, week, n);
    WeekNamesSize(stamp, week, n);
    forall name | name in wanted ensures name in names {
      WeekNamesMember(stamp, week, n, name);
      var i :| 0 <= i < |dir| && dir[i].name == name;
    }
    assert names == wanted + (names - wanted);
  }

  lemma {:induction false} NameCount(dir: seq<File>)
    ensures |set i | 0 <= i < |dir| :: dir[i].name| <= |dir|
  {
    var names := set i | 0 <= i < |dir| :: dir[i].name;
    if dir == [] {
      assert names == {};
    } else {
      var n := |dir| - 1;
      var rest := set i | 0 <= i < |dir[..n]| :: dir[..n][i].name;
      NameCount(dir[..n]);
      assert names == rest + {dir[n].name} by {
        forall name | name in names ensures name in rest + {dir[n].name} {
          var i :| 0 <= i < |dir| && dir[i].name == name;
          assert i < n ==> dir[..n][i].name == name;
        }
        forall name | name in rest ensures name in names {
          var i :| 0 <= i < |dir[..n]| && dir[..n][i].name == name;
          assert dir[i].name == name;
        }
        assert dir[n].name in names;
      }
    }
  }

  function WeekNames(stamp: Week -> string, week: Week, n: nat): set<string> {
    if n == 0 then {} else WeekNames(stamp, week, n - 1) + {FileName(stamp, week, n - 1)}
  }

  lemma {:induction false} WeekNamesMember(stamp: Week -> string, week: Week, n: nat, name: string)
    requires name in WeekNames(stamp, week, n)
    ensures exists j: nat :: j < n && name == FileName(stamp, week, j)
  {
    if name != FileName(stamp, week, n - 1) {
      WeekNamesMember(stamp, week, n - 1, name);
    }
  }

  lemma {:induction false} WeekNamesSize(stamp: Week -> string, week: Week, n: nat)
    requires ValidStamps(stamp)
    ensures |WeekNames(stamp, week, n)| == n
  {
    if n > 0 {
      WeekNamesSize(stamp, week, n - 1);
      var last := FileName(stamp, week, n - 1);
      if last in WeekNames(stamp, week, n - 1) {
        WeekNamesMember(stamp, week, n - 1, last);
        var j: nat :| j < n - 1 && last == FileName(stamp, week, j);
        NamesDiffer(stamp, week, n - 1, week, j);
      }
    }
  }
}
