/** Python's ordering of `str` values (code point by code point, a proper
    prefix first) and the two sorts the vault performs with it: `sorted` over
    the entries of a directory, and `list.sort()` over the OpenSMILE slot
    names.
 */
module Order {

  /** `a < b` on Python strings. */
  predicate Below(a: string, b: string)
    decreases |a|
  {
    if |a| == 0 then |b| > 0
    else if |b| == 0 then false
    else if a[0] != b[0] then a[0] < b[0]
    else Below(a[1..], b[1..])
  }

  /** `a <= b` on Python strings. */
  predicate NotAbove(a: string, b: string) {
    a == b || Below(a, b)
  }

  lemma {:induction false} BelowIrreflexive(a: string)
    ensures !Below(a, a)
    decreases |a|
  {
    if |a| > 0 {
      BelowIrreflexive(a[1..]);
    }
  }

  lemma {:induction false} BelowTransitive(a: string, b: string, c: string)
    requires Below(a, b) && Below(b, c)
    ensures Below(a, c)
    decreases |a|
  {
    if |a| > 0 && a[0] == b[0] && b[0] == c[0] {
      BelowTransitive(a[1..], b[1..], c[1..]);
    }
  }

  /** Any two distinct strings are ordered one way or the other. */
  lemma {:induction false} BelowTotal(a: string, b: string)
    requires a != b
    ensures Below(a, b) || Below(b, a)
    decreases |a|
  {
    if |a| > 0 && |b| > 0 && a[0] == b[0] {
      assert a == [a[0]] + a[1..] && b == [b[0]] + b[1..];
      BelowTotal(a[1..], b[1..]);
    }
  }

  lemma BelowAsymmetric(a: string, b: string)
    requires Below(a, b)
    ensures !Below(b, a)
  {
    if Below(b, a) {
      BelowTransitive(a, b, a);
      BelowIrreflexive(a);
    }
  }

  /** The facts above, for every pair and triple at once. */
  lemma BelowIsStrictTotalOrder()
    ensures forall a :: !Below(a, a)
    ensures forall a, b, c :: Below(a, b) && Below(b, c) ==> Below(a, c)
    ensures forall a, b :: a != b ==> Below(a, b) || Below(b, a)
  {
    forall a: string ensures !Below(a, a) {
      BelowIrreflexive(a);
    }
    forall a: string, b: string, c: string | Below(a, b) && Below(b, c) ensures Below(a, c) {
      BelowTransitive(a, b, c);
    }
    forall a: string, b: string | a != b ensures Below(a, b) || Below(b, a) {
      BelowTotal(a, b);
    }
  }

  /** Every non-empty finite set of strings has a least element. */
  lemma {:induction false} LeastExists(s: set<string>)
    requires s != {}
    ensures exists m :: m in s && forall y :: y in s ==> NotAbove(m, y)
    decreases |s|
  {
    var x :| x in s;
    if s == {x} {
      assert forall y :: y in s ==> NotAbove(x, y);
    } else {
      LeastExists(s - {x});
      var m :| m in s - {x} && forall y :: y in s - {x} ==> NotAbove(m, y);
      if Below(x, m) {
        forall y | y in s ensures NotAbove(x, y) {
          if y != x {
            assert NotAbove(m, y);
            if Below(m, y) {
              BelowTransitive(x, m, y);
            }
          }
        }
      } else {
        BelowTotal(x, m);
        assert forall y :: y in s ==> NotAbove(m, y);
      }
    }
  }

  /** The least element of a non-empty set of strings. */
  function Least(s: set<string>): (m: string)
    requires s != {}
    ensures m in s
    ensures forall y :: y in s ==> NotAbove(m, y)
  {
    LeastExists(s);
    BelowIsStrictTotalOrder();
    var m :| m in s && forall y :: y in s ==> NotAbove(m, y);
    m
  }

  /** Strictly increasing in Python's string order (so also duplicate-free). */
  predicate StrictlyAscending(r: seq<string>) {
    forall i, j :: 0 <= i < j < |r| ==> Below(r[i], r[j])
  }

  /** Non-decreasing in Python's string order. */
  predicate Ascending(r: seq<string>) {
    forall i, j :: 0 <= i < j < |r| ==> NotAbove(r[i], r[j])
  }

  /** `sorted(s)` for a set of names: the members of `s`, each once, least
      first (`SortSetAscending` states the order). */
  function SortSet(s: set<string>): (r: seq<string>)
    ensures |r| == |s|
    ensures forall x :: x in r <==> x in s
    decreases |s|
  {
    if s == {} then []
    else
      var m := Least(s);
      [m] + SortSet(s - {m})
  }

  /** `sorted` lists a set in strictly increasing order. */
  lemma {:induction false} SortSetAscending(s: set<string>)
    ensures StrictlyAscending(SortSet(s))
    decreases |s|
  {
    if s != {} {
      var m := Least(s);
      var rest := SortSet(s - {m});
      SortSetAscending(s - {m});
      var r := [m] + rest;
      assert SortSet(s) == r;
      forall i, j | 0 <= i < j < |r| ensures Below(r[i], r[j]) {
        if i == 0 {
          assert r[j] == rest[j - 1] && r[j] in s - {m};
          assert NotAbove(m, r[j]);
        } else {
          assert r[i] == rest[i - 1] && r[j] == rest[j - 1];
        }
      }
    }
  }

  /** The sorted listing of a set is unique: any strictly ascending sequence
      holding exactly the members of `s` is `SortSet(s)`. */
  lemma {:induction false} SortSetUnique(s: set<string>, r: seq<string>)
    requires StrictlyAscending(r)
    requires forall x :: x in r <==> x in s
    ensures r == SortSet(s)
    decreases |r|
  {
    if |r| > 0 {
      assert r[0] in s;
      var m := Least(s);
      assert r[0] == m by {
        assert r[0] in s;
        assert m in r;
        var k :| 0 <= k < |r| && r[k] == m;
        if k > 0 {
          assert NotAbove(m, r[0]);
          BelowAsymmetric(r[0], m);
        }
      }
      var t := r[1..];
      assert StrictlyAscending(t) by {
        forall i, j | 0 <= i < j < |t| ensures Below(t[i], t[j]) {
          assert t[i] == r[i + 1] && t[j] == r[j + 1];
        }
      }
      forall x ensures x in t <==> x in s - {m} {
        if x in t {
          var k :| 0 <= k < |t| && t[k] == x;
          assert Below(r[0], r[k + 1]);
          BelowIrreflexive(x);
        }
        if x in s - {m} {
          var k :| 0 <= k < |r| && r[k] == x;
          assert k > 0;
          assert t[k - 1] == x;
        }
      }
      SortSetUnique(s - {m}, t);
      assert r == [m] + t;
    }
  }

  /** Inserts `x` into the ascending sequence `s` in front of the first
      element above it. */
  function Insert(s: seq<string>, x: string): (r: seq<string>)
    requires Ascending(s)
    ensures multiset(r) == multiset(s) + multiset{x}
    ensures Ascending(r)
  {
    if |s| == 0 then [x]
    else if NotAbove(x, s[0]) then
      assert forall k :: 0 <= k < |s| ==> NotAbove(x, s[k]) by {
        forall k | 0 <= k < |s| ensures NotAbove(x, s[k]) {
          if k > 0 && x != s[0] && s[0] != s[k] {
            BelowTransitive(x, s[0], s[k]);
          }
        }
      }
      [x] + s
    else
      var rest := Insert(s[1..], x);
      assert multiset(s) == multiset{s[0]} + multiset(s[1..]) by {
        assert s == [s[0]] + s[1..];
      }
      assert forall k :: 0 <= k < |rest| ==> NotAbove(s[0], rest[k]) by {
        BelowTotal(x, s[0]);
        forall k | 0 <= k < |rest| ensures NotAbove(s[0], rest[k]) {
          assert rest[k] in multiset(s[1..]) + multiset{x};
          if rest[k] in multiset(s[1..]) {
            var j :| 0 <= j < |s[1..]| && s[1..][j] == rest[k];
            assert NotAbove(s[0], s[j + 1]);
          }
        }
      }
      [s[0]] + rest
  }

  /** `list.sort()` for strings: the same names, duplicates kept, in
      non-decreasing order. */
  function SortStrings(s: seq<string>): (r: seq<string>)
    ensures multiset(r) == multiset(s)
    ensures Ascending(r)
  {
    if |s| == 0 then []
    else
      assert s == s[..|s| - 1] + [s[|s| - 1]];
      Insert(SortStrings(s[..|s| - 1]), s[|s| - 1])
  }
}
