/** The Python `str` operations the vault relies on, over `seq<char>`:
    `startswith`, `endswith`, the `in` substring test, `split(sep)`,
    `sep.join(...)` and `replace(pat, "")`.
 */
module Text {

  /** An ASCII decimal digit. */
  predicate IsDigit(c: char) {
    '0' <= c <= '9'
  }

  predicate Digits(s: string) {
    forall i :: 0 <= i < |s| ==> IsDigit(s[i])
  }

  /** `s.startswith(p)` */
  predicate StartsWith(s: string, p: string) {
    |p| <= |s| && s[..|p|] == p
  }

  /** `s.endswith(p)` */
  predicate EndsWith(s: string, p: string) {
    |p| <= |s| && s[|s| - |p|..] == p
  }

  /** `p` occurs in `s` starting at index `i`. */
  predicate OccursAt(s: string, p: string, i: int) {
    0 <= i <= |s| - |p| && s[i..i + |p|] == p
  }

  /** `p in s`: `p` occurs as a contiguous substring of `s`. */
  predicate Contains(s: string, p: string) {
    exists i | 0 <= i <= |s| - |p| :: OccursAt(s, p, i)
  }

  /** `EndsWith` of a concatenation with the suffix itself. */
  lemma EndsWithAppend(x: string, p: string)
    ensures EndsWith(x + p, p)
  {
    assert (x + p)[|x + p| - |p|..] == p;
  }

  /** A suffix of the tail is a suffix of the whole. */
  lemma EndsWithConcat(a: string, b: string, p: string)
    requires EndsWith(b, p)
    ensures EndsWith(a + b, p)
  {
    assert (a + b)[|a + b| - |p|..] == b[|b| - |p|..];
  }

  /** A joined string ends the way its last part does. */
  lemma {:induction false} JoinEndsWith(parts: seq<string>, sep: char, p: string)
    requires |parts| >= 1 && EndsWith(parts[|parts| - 1], p)
    ensures EndsWith(Join(parts, sep), p)
  {
    if |parts| > 1 {
      JoinEndsWith(parts[1..], sep, p);
      EndsWithConcat(parts[0] + [sep], Join(parts[1..], sep), p);
    }
  }

  /** `s.split(sep)` for a one-character separator: the pieces between the
      separators, always at least one, empty pieces kept. */
  function Split(s: string, sep: char): (r: seq<string>)
    ensures |r| >= 1
    ensures forall k :: 0 <= k < |r| ==> sep !in r[k]
    ensures Join(r, sep) == s
  {
    if |s| == 0 then [""]
    else
      var rest := Split(s[1..], sep);
      if s[0] == sep then
        assert Join([""] + rest, sep) == [sep] + Join(rest, sep) by {
          JoinCons("", rest, sep);
        }
        [""] + rest
      else
        var r := [[s[0]] + rest[0]] + rest[1..];
        assert Join(r, sep) == s by {
          JoinCons([s[0]] + rest[0], rest[1..], sep);
          if |rest| > 1 {
            JoinCons(rest[0], rest[1..], sep);
            assert rest == [rest[0]] + rest[1..];
          } else {
            assert rest == [rest[0]];
          }
        }
        r
  }

  /** `sep.join(parts)`. */
  function Join(parts: seq<string>, sep: char): string
  {
    if |parts| == 0 then ""
    else if |parts| == 1 then parts[0]
    else parts[0] + [sep] + Join(parts[1..], sep)
  }

  lemma JoinCons(head: string, tail: seq<string>, sep: char)
    ensures Join([head] + tail, sep) == if |tail| == 0 then head else head + [sep] + Join(tail, sep)
  {
    assert ([head] + tail)[1..] == tail;
  }

  /** Splitting undoes joining, as long as no part contains the separator:
      the two are inverse on separator-free parts. */
  lemma {:induction false} SplitJoin(parts: seq<string>, sep: char)
    requires |parts| >= 1
    requires forall k :: 0 <= k < |parts| ==> sep !in parts[k]
    ensures Split(Join(parts, sep), sep) == parts
  {
    if |parts| == 1 {
      SplitNoSep(parts[0], sep);
    } else {
      SplitJoin(parts[1..], sep);
      SplitAround(parts[0], Join(parts[1..], sep), sep);
      assert parts == [parts[0]] + parts[1..];
    }
  }

  /** A string without the separator splits into itself. */
  lemma {:induction false} SplitNoSep(s: string, sep: char)
    requires sep !in s
    ensures Split(s, sep) == [s]
  {
    if |s| > 0 {
      SplitNoSep(s[1..], sep);
      assert [s[0]] + s[1..] == s;
    }
  }

  /** Splitting `a + sep + b` where `a` holds no separator peels `a` off. */
  lemma {:induction false} SplitAround(a: string, b: string, sep: char)
    requires sep !in a
    ensures Split(a + [sep] + b, sep) == [a] + Split(b, sep)
  {
    if |a| == 0 {
      assert a + [sep] + b == [sep] + b;
      assert ([sep] + b)[1..] == b;
    } else {
      SplitAround(a[1..], b, sep);
      assert (a + [sep] + b)[1..] == a[1..] + [sep] + b;
      assert [a[0]] + a[1..] == a;
    }
  }

  /** `s.replace(p, "")`: every non-overlapping occurrence of `p`, scanned
      left to right, is deleted; the result is not re-scanned. */
  function RemoveAll(s: string, p: string): (r: string)
    requires |p| > 0
    ensures |r| <= |s|
    ensures !Contains(s, p) ==> r == s
    ensures Contains(s, p) ==> |r| <= |s| - |p|
    ensures (|s| - |r|) % |p| == 0
    decreases |s|
  {
    if |s| < |p| then s
    else if s[..|p|] == p then
      assert OccursAt(s, p, 0);
      var r := RemoveAll(s[|p|..], p);
      ModShift(|s| - |p| - |r|, |p|);
      r
    else
      ContainsPastMiss(s, p);
      [s[0]] + RemoveAll(s[1..], p)
  }

  /** Past a first character that starts no occurrence, the occurrences
      are those of the rest. */
  lemma ContainsPastMiss(s: string, p: string)
    requires |p| > 0 && |s| >= |p| && s[..|p|] != p
    ensures Contains(s, p) <==> Contains(s[1..], p)
  {
    if Contains(s[1..], p) {
      var i :| 0 <= i <= |s[1..]| - |p| && OccursAt(s[1..], p, i);
      assert s[1..][i..i + |p|] == s[i + 1..i + 1 + |p|];
      assert OccursAt(s, p, i + 1);
    }
    if Contains(s, p) {
      var i :| 0 <= i <= |s| - |p| && OccursAt(s, p, i);
      assert i != 0;
      assert s[1..][i - 1..i - 1 + |p|] == s[i..i + |p|];
      assert OccursAt(s[1..], p, i - 1);
    }
  }

  /** `replace` scans left to right: everything before the first occurrence
      of `p` is kept, that occurrence is dropped, and the scan resumes right
      after it. With the unchanged result for a string without `p`, this
      determines the result completely. */
  lemma RemoveAllLeftmost(s: string, p: string, i: int)
    requires |p| > 0
    requires OccursAt(s, p, i)
    requires forall j | 0 <= j < i :: !OccursAt(s, p, j)
    ensures RemoveAll(s, p) == s[..i] + RemoveAll(s[i + |p|..], p)
  {
    RemoveAllSkip(s, p, 0, i);
    RemoveAllHit(s[i..], p);
    assert s[i..][..|p|] == s[i..i + |p|];
    assert s[i..][|p|..] == s[i + |p|..];
    assert s[0..] == s;
  }

  /** The scan copies every character that starts no occurrence. */
  lemma {:induction false} RemoveAllSkip(s: string, p: string, k: int, i: int)
    requires |p| > 0 && 0 <= k <= i && OccursAt(s, p, i)
    requires forall j | k <= j < i :: !OccursAt(s, p, j)
    ensures RemoveAll(s[k..], p) == s[k..i] + RemoveAll(s[i..], p)
    decreases i - k
  {
    if k == i {
      assert s[k..i] == [];
    } else {
      RemoveAllMissAt(s, p, k);
      RemoveAllSkip(s, p, k + 1, i);
      ConsSlice(s, k, i);
      Glue(RemoveAll(s[k..], p), s[k], RemoveAll(s[k + 1..], p), s[k + 1..i], RemoveAll(s[i..], p), s[k..i]);
    }
  }

  /** One step of the scan at an occurrence. */
  lemma RemoveAllHit(s: string, p: string)
    requires |p| > 0 && |s| >= |p| && s[..|p|] == p
    ensures RemoveAll(s, p) == RemoveAll(s[|p|..], p)
  {
  }

  /** One step of the scan past a character at `k` that starts no occurrence
      but is followed by one. */
  lemma RemoveAllMissAt(s: string, p: string, k: int)
    requires |p| > 0 && 0 <= k && k + |p| < |s| && !OccursAt(s, p, k)
    ensures RemoveAll(s[k..], p) == [s[k]] + RemoveAll(s[k + 1..], p)
  {
    var u := s[k..];
    assert u[..|p|] == s[k..k + |p|];
    assert u[..|p|] != p;
    assert u[1..] == s[k + 1..];
  }

  lemma ConsSlice(s: string, k: int, i: int)
    requires 0 <= k < i <= |s|
    ensures s[k..i] == [s[k]] + s[k + 1..i]
  {
  }

  /** Chaining the equations of one scan step. */
  lemma Glue(a: string, c: char, b: string, pre: string, y: string, whole: string)
    requires a == [c] + b
    requires b == pre + y
    requires whole == [c] + pre
    ensures a == whole + y
  {
    assert [c] + (pre + y) == ([c] + pre) + y;
  }

  /** Removing one more copy of `p` keeps the removed length a multiple of `|p|`. */
  lemma ModShift(x: int, n: int)
    requires n > 0 && x % n == 0
    ensures (x + n) % n == 0
  {
    var q := x / n;
    assert x == n * q;
    var q2, r2 := (x + n) / n, (x + n) % n;
    assert x + n == n * q2 + r2;
    MulDistrib(n, q + 1, q2);
    assert r2 == n * (q + 1 - q2);
    MulUnit(n, q + 1 - q2);
  }

  lemma MulDistrib(n: int, a: int, b: int)
    ensures n * a - n * b == n * (a - b)
  {
  }

  /** The only multiple of a positive `n` in `[0, n)` is zero. */
  lemma MulUnit(n: int, d: int)
    requires n > 0 && 0 <= n * d < n
    ensures d == 0
  {
    if d >= 1 { MulMono(n, d); }
    else if d <= -1 { MulMono(n, -d); }
  }

  lemma MulMono(n: int, d: int)
    requires n > 0 && d >= 1
    ensures n * d >= n
  {
  }
}
