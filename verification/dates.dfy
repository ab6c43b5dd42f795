/** The date ordering of the status page (app.py:301-307): each date
    directory name is parsed with `datetime.strptime(s, "%Y-%m-%d")`, a name
    that does not parse counts as `datetime.min`, and the names are sorted
    newest first with Python's stable `sorted(..., reverse=True)`.
 */
module Dates {
  import opened Outcomes
  import opened Text

  datatype Date = Date(year: int, month: int, day: int)

  /** `datetime.min`, the key of every name that does not parse. */
  const MinDate := Date(1, 1, 1)

  /** `a < b` for dates. */
  predicate Older(a: Date, b: Date) {
    a.year < b.year
    || (a.year == b.year && a.month < b.month)
    || (a.year == b.year && a.month == b.month && a.day < b.day)
  }

  predicate IsLeap(y: int) {
    y % 4 == 0 && (y % 100 != 0 || y % 400 == 0)
  }

  function DaysInMonth(y: int, m: int): int
    requires 1 <= m <= 12
  {
    if m == 2 then (if IsLeap(y) then 29 else 28)
    else if m == 4 || m == 6 || m == 9 || m == 11 then 30
    else 31
  }

  /** A date `datetime` can represent, with a four-digit year. */
  predicate Valid(d: Date) {
    1 <= d.year <= 9999 && 1 <= d.month <= 12 && 1 <= d.day <= DaysInMonth(d.year, d.month)
  }

  function DigitValue(c: char): int
    requires IsDigit(c)
  {
    c as int - '0' as int
  }

  /** The decimal value of a string of digits. */
  function Number(s: string): (n: nat)
    requires Digits(s)
    ensures n < Pow10(|s|)
  {
    if |s| == 0 then 0 else Number(s[..|s| - 1]) * 10 + DigitValue(s[|s| - 1])
  }

  function Pow10(k: nat): nat {
    if k == 0 then 1 else 10 * Pow10(k - 1)
  }

  /** A field matched by a directive: its value and how many characters it
      took. */
  datatype Field = Field(value: int, width: nat)

  /** `%m` is `1[0-2]|0[1-9]|[1-9]`, and must be followed by the `-` of the
      format. */
  function MonthField(t: string): (r: Option<Field>)
    ensures r.Some? ==> 1 <= r.value.value <= 12 && 1 <= r.value.width < |t| && t[r.value.width] == '-'
  {
    if |t| >= 3 && t[0] == '1' && '0' <= t[1] <= '2' && t[2] == '-' then Some(Field(10 + DigitValue(t[1]), 2))
    else if |t| >= 3 && t[0] == '0' && '1' <= t[1] <= '9' && t[2] == '-' then Some(Field(DigitValue(t[1]), 2))
    else if |t| >= 2 && '1' <= t[0] <= '9' && t[1] == '-' then Some(Field(DigitValue(t[0]), 1))
    else None
  }

  /** `%d` is `3[01]|[12]\d|0[1-9]|[1-9]| [1-9]`; it ends the pattern, so
      the first alternative that matches a prefix wins. */
  function DayField(t: string): (r: Option<Field>)
    ensures r.Some? ==> 1 <= r.value.value <= 31 && 1 <= r.value.width <= |t|
  {
    if |t| >= 2 && t[0] == '3' && (t[1] == '0' || t[1] == '1') then Some(Field(30 + DigitValue(t[1]), 2))
    else if |t| >= 2 && (t[0] == '1' || t[0] == '2') && IsDigit(t[1]) then Some(Field(10 * DigitValue(t[0]) + DigitValue(t[1]), 2))
    else if |t| >= 2 && t[0] == '0' && '1' <= t[1] <= '9' then Some(Field(DigitValue(t[1]), 2))
    else if |t| >= 1 && '1' <= t[0] <= '9' then Some(Field(DigitValue(t[0]), 1))
    else if |t| >= 2 && t[0] == ' ' && '1' <= t[1] <= '9' then Some(Field(DigitValue(t[1]), 2))
    else None
  }

  /** `datetime.strptime(s, "%Y-%m-%d")`: `%Y` is exactly four digits;
      characters left over after the day are an error; so is a day the month
      does not have, and year 0. */
  function ParseDate(s: string): (r: Option<Date>)
    ensures r.Some? ==> Valid(r.value)
  {
    if |s| < 5 || !Digits(s[..4]) || s[4] != '-' then None
    else
      match MonthField(s[5..])
      case None => None
      case Some(month) =>
        var rest := s[5 + month.width + 1..];
        match DayField(rest)
        case None => None
        case Some(day) =>
          var year := Number(s[..4]);
          if day.width != |rest| then None
          else if year < 1 || day.value > DaysInMonth(year, month.value) then None
          else Some(Date(year, month.value, day.value))
  }

  function DigitChar(n: int): (c: char)
    requires 0 <= n <= 9
    ensures IsDigit(c) && DigitValue(c) == n
  {
    ('0' as int + n) as char
  }

  /** A number as exactly `k` decimal digits, zero-padded. */
  function Padded(n: nat, k: nat): (s: string)
    requires n < Pow10(k)
    ensures |s| == k && Digits(s) && Number(s) == n
  {
    if k == 0 then ""
    else
      var s := Padded(n / 10, k - 1) + [DigitChar(n % 10)];
      assert s[..|s| - 1] == Padded(n / 10, k - 1);
      s
  }

  /** The canonical `YYYY-MM-DD` spelling of a date. */
  function Format(d: Date): string
    requires Valid(d)
  {
    Padded(d.year, 4) + "-" + Padded(d.month, 2) + "-" + Padded(d.day, 2)
  }

  /** Two-digit padding spelled out digit by digit. */
  lemma PaddedTwo(n: nat)
    requires n < 100
    ensures Padded(n, 2) == [DigitChar(n / 10), DigitChar(n % 10)]
  {
    assert Padded(n / 10, 1) == [DigitChar(n / 10 % 10)];
  }

  /** `%m` reads back a padded month followed by `-`. */
  lemma MonthFieldPadded(m: int, rest: string)
    requires 1 <= m <= 12
    ensures MonthField(Padded(m, 2) + "-" + rest) == Some(Field(m, 2))
  {
    var hi, lo := m / 10, m % 10;
    assert m == 10 * hi + lo && 0 <= lo < 10;
    PaddedTwo(m);
    MonthFieldDigits(hi, lo, rest);
  }

  lemma MonthFieldDigits(hi: int, lo: int, rest: string)
    requires 0 <= hi <= 1 && 0 <= lo <= 9 && 1 <= 10 * hi + lo <= 12
    ensures MonthField([DigitChar(hi), DigitChar(lo)] + "-" + rest) == Some(Field(10 * hi + lo, 2))
  {
    var t := [DigitChar(hi), DigitChar(lo)] + "-" + rest;
    assert t[0] == DigitChar(hi) && t[1] == DigitChar(lo) && t[2] == '-';
    if hi == 1 {
      assert t[0] == '1' && '0' <= t[1] <= '2';
    } else {
      assert t[0] == '0' && '1' <= t[1] <= '9';
    }
  }

  /** `%d` reads back a padded day. */
  lemma DayFieldPadded(d: int)
    requires 1 <= d <= 31
    ensures DayField(Padded(d, 2)) == Some(Field(d, 2))
  {
    var hi, lo := d / 10, d % 10;
    assert d == 10 * hi + lo && 0 <= lo < 10;
    PaddedTwo(d);
    DayFieldDigits(hi, lo);
  }

  lemma DayFieldDigits(hi: int, lo: int)
    requires 0 <= hi <= 3 && 0 <= lo <= 9 && 1 <= 10 * hi + lo <= 31
    ensures DayField([DigitChar(hi), DigitChar(lo)]) == Some(Field(10 * hi + lo, 2))
  {
    var t := [DigitChar(hi), DigitChar(lo)];
    if hi == 3 {
      assert t[0] == '3' && (t[1] == '0' || t[1] == '1');
    } else if hi == 0 {
      assert !(t[0] == '3' || t[0] == '1' || t[0] == '2');
      assert t[0] == '0' && '1' <= t[1] <= '9';
    } else {
      assert t[0] != '3' && (t[0] == '1' || t[0] == '2');
    }
  }

  /** Every valid date is read back from its canonical spelling. */
  lemma ParseFormat(d: Date)
    requires Valid(d)
    ensures ParseDate(Format(d)) == Some(d)
  {
    var s := Format(d);
    var y, m, dd := Padded(d.year, 4), Padded(d.month, 2), Padded(d.day, 2);
    assert s[..4] == y;
    assert s[5..] == m + "-" + dd;
    MonthFieldPadded(d.month, dd);
    assert s[8..] == dd;
    DayFieldPadded(d.day);
  }

  /** The sort key: the parsed date, or `datetime.min`. */
  function Key(name: string): Date {
    match ParseDate(name)
    case Some(d) => d
    case None => MinDate
  }

  /** Newest first, by the given key. */
  predicate NewestFirst(r: seq<string>, key: string -> Date) {
    forall i, j :: 0 <= i < j < |r| ==> !Older(key(r[i]), key(r[j]))
  }

  /** The names whose key is `k`, in their order in `s`. */
  function WithKey(s: seq<string>, key: string -> Date, k: Date): seq<string> {
    if |s| == 0 then []
    else (if key(s[0]) == k then [s[0]] else []) + WithKey(s[1..], key, k)
  }

  lemma {:induction false} WithKeyAppend(a: seq<string>, b: seq<string>, key: string -> Date, k: Date)
    ensures WithKey(a + b, key, k) == WithKey(a, key, k) + WithKey(b, key, k)
  {
    if |a| > 0 {
      WithKeyAppend(a[1..], b, key, k);
      assert (a + b)[1..] == a[1..] + b;
    } else {
      assert a + b == b;
    }
  }

  lemma {:induction false} WithKeyNone(s: seq<string>, key: string -> Date, k: Date)
    requires forall i :: 0 <= i < |s| ==> key(s[i]) != k
    ensures WithKey(s, key, k) == []
  {
    if |s| > 0 {
      WithKeyNone(s[1..], key, k);
    }
  }

  /** Puts `x` in front of the first name strictly older than it, so after
      every name at least as new: equal keys keep their arrival order. */
  function InsertNewestFirst(s: seq<string>, x: string, key: string -> Date): (r: seq<string>)
    requires NewestFirst(s, key)
    ensures multiset(r) == multiset(s) + multiset{x}
    ensures NewestFirst(r, key)
  {
    if |s| == 0 then [x]
    else if Older(key(s[0]), key(x)) then [x] + s
    else
      var rest := InsertNewestFirst(s[1..], x, key);
      assert multiset(s) == multiset{s[0]} + multiset(s[1..]) by {
        assert s == [s[0]] + s[1..];
      }
      InsertBounded(s, x, key, rest);
      [s[0]] + rest
  }

  /** Nothing that `s` sorts after its head is newer than the head. */
  lemma InsertBounded(s: seq<string>, x: string, key: string -> Date, rest: seq<string>)
    requires NewestFirst(s, key) && |s| > 0 && !Older(key(s[0]), key(x))
    requires multiset(rest) == multiset(s[1..]) + multiset{x}
    ensures forall k :: 0 <= k < |rest| ==> !Older(key(s[0]), key(rest[k]))
  {
    forall k | 0 <= k < |rest| ensures !Older(key(s[0]), key(rest[k])) {
      assert rest[k] in multiset(rest);
      if rest[k] in multiset(s[1..]) {
        var j :| 0 <= j < |s[1..]| && s[1..][j] == rest[k];
        assert !Older(key(s[0]), key(s[j + 1]));
      }
    }
  }

  /** A name put in front of strictly older names comes first among its key. */
  lemma InsertInFront(s: seq<string>, x: string, key: string -> Date, k: Date)
    requires NewestFirst(s, key)
    requires |s| > 0 && Older(key(s[0]), key(x))
    ensures WithKey([x] + s, key, k) == WithKey(s, key, k) + (if key(x) == k then [x] else [])
  {
    assert ([x] + s)[1..] == s;
    if key(x) == k {
      forall i | 0 <= i < |s| ensures key(s[i]) != k {
        if i > 0 {
          assert !Older(key(s[0]), key(s[i]));
        }
      }
      WithKeyNone(s, key, k);
    }
  }

  /** Inserting adds the new name after all names already of its key. */
  lemma {:induction false} InsertKeepsOrder(s: seq<string>, x: string, key: string -> Date, k: Date)
    requires NewestFirst(s, key)
    ensures WithKey(InsertNewestFirst(s, x, key), key, k) == WithKey(s, key, k) + (if key(x) == k then [x] else [])
  {
    if |s| == 0 {
    } else if Older(key(s[0]), key(x)) {
      InsertInFront(s, x, key, k);
    } else {
      var tail := s[1..];
      assert NewestFirst(tail, key) by {
        forall i, j | 0 <= i < j < |tail| ensures !Older(key(tail[i]), key(tail[j])) {
          assert tail[i] == s[i + 1] && tail[j] == s[j + 1];
        }
      }
      InsertKeepsOrder(tail, x, key, k);
      var rest := InsertNewestFirst(tail, x, key);
      assert InsertNewestFirst(s, x, key) == [s[0]] + rest;
      assert ([s[0]] + rest)[1..] == rest;
      var head := if key(s[0]) == k then [s[0]] else [];
      assert WithKey([s[0]] + rest, key, k) == head + WithKey(rest, key, k);
      assert WithKey(s, key, k) == head + WithKey(tail, key, k);
    }
  }

  /** Python's stable `sorted(s, key=key, reverse=True)`: the same names,
      newest first, names with equal keys in their input order. */
  function SortNewestFirst(s: seq<string>, key: string -> Date): (r: seq<string>)
    ensures multiset(r) == multiset(s)
    ensures NewestFirst(r, key)
    ensures forall k :: WithKey(r, key, k) == WithKey(s, key, k)
  {
    if |s| == 0 then []
    else
      var init, last := s[..|s| - 1], s[|s| - 1];
      assert s == init + [last];
      var r := InsertNewestFirst(SortNewestFirst(init, key), last, key);
      assert forall k :: WithKey(r, key, k) == WithKey(s, key, k) by {
        forall k ensures WithKey(r, key, k) == WithKey(s, key, k) {
          InsertKeepsOrder(SortNewestFirst(init, key), last, key, k);
          WithKeyAppend(init, [last], key, k);
          assert WithKey([last], key, k) == if key(last) == k then [last] else [];
        }
      }
      r
  }

  /** `_sort_dates`: date names newest first, every name that does not
      parse keyed as `datetime.min`. */
  function SortDates(s: seq<string>): (r: seq<string>)
    ensures multiset(r) == multiset(s)
    ensures NewestFirst(r, Key)
    ensures forall k :: WithKey(r, Key, k) == WithKey(s, Key, k)
  {
    SortNewestFirst(s, Key)
  }

  /** No parseable date is older than `datetime.min`. */
  lemma MinDateIsOldest(s: string)
    ensures !Older(Key(s), MinDate)
  {
  }

  /** A name that does not parse sorts as the oldest: everything after it
      also has key `datetime.min`, so is unparseable or is `0001-01-01`. */
  lemma UnparseableSortLast(s: seq<string>, i: int, j: int)
    requires 0 <= i < j < |SortDates(s)|
    requires ParseDate(SortDates(s)[i]).None?
    ensures Key(SortDates(s)[j]) == MinDate
  {
    var r := SortDates(s);
    assert !Older(Key(r[i]), Key(r[j]));
    MinDateIsOldest(r[j]);
  }

  lemma KeyJune()
    ensures Key("2025-06-30") == Date(2025, 6, 30)
  {
    var s := "2025-06-30";
    assert s[..4] == "2025" && s[5..] == "06-30" && s[8..] == "30";
    assert Number("2025") == 2025 by {
      assert "2025"[..3] == "202" && "202"[..2] == "20" && "20"[..1] == "2" && "2"[..0] == "";
    }
    assert MonthField("06-30") == Some(Field(6, 2));
    assert DayField("30") == Some(Field(30, 2));
  }

  lemma KeyJuly()
    ensures Key("2025-07-01") == Date(2025, 7, 1)
  {
    var s := "2025-07-01";
    assert s[..4] == "2025" && s[5..] == "07-01" && s[8..] == "01";
    assert Number("2025") == 2025 by {
      assert "2025"[..3] == "202" && "202"[..2] == "20" && "20"[..1] == "2" && "2"[..0] == "";
    }
    assert MonthField("07-01") == Some(Field(7, 2));
    assert DayField("01") == Some(Field(1, 2));
  }

  lemma KeyMisc()
    ensures Key("misc") == MinDate
  {
    assert !IsDigit('m');
  }

  /** Three names, the last strictly newest and the middle no newer than
      the first, come out last first. */
  lemma SortThree(a: string, b: string, c: string, key: string -> Date)
    requires !Older(key(a), key(b)) && Older(key(a), key(c))
    ensures SortNewestFirst([a, b, c], key) == [c, a, b]
  {
    SortTwo(a, b, key);
    var s := [a, b, c];
    assert s[..2] == [a, b] && s[2] == c;
    assert SortNewestFirst(s, key) == InsertNewestFirst([a, b], c, key);
  }

  lemma SortTwo(a: string, b: string, key: string -> Date)
    requires !Older(key(a), key(b))
    ensures SortNewestFirst([a, b], key) == [a, b]
  {
    assert [a, b][..1] == [a] && [a][..0] == [];
    assert SortNewestFirst([a], key) == [a];
    assert [a][1..] == [];
  }

  /** The status page's example: July before June, an odd name last. */
  lemma SortDatesExample()
    ensures SortDates(["2025-06-30", "misc", "2025-07-01"]) == ["2025-07-01", "2025-06-30", "misc"]
  {
    KeyJune();
    KeyJuly();
    KeyMisc();
    SortThree("2025-06-30", "misc", "2025-07-01", Key);
  }
}
