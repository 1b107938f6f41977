/**
 * Python's `sorted(values, key=...)` for the keys the snapshot code uses:
 * strings and tuples of strings, compared lexicographically. `sorted` is
 * stable, so values with equal keys keep their order.
 */
module Sorting {

  /** Python's `a < b` on strings: code point by code point, a proper prefix first. */
  predicate StrLt(a: string, b: string)
  {
    |b| > 0 && (|a| == 0 || a[0] < b[0] || (a[0] == b[0] && StrLt(a[1..], b[1..])))
  }

  lemma {:induction false} StrLtIrreflexive(a: string)
    ensures !StrLt(a, a)
  {
    if |a| > 0 {
      StrLtIrreflexive(a[1..]);
    }
  }

  lemma {:induction false} StrLtTransitive(a: string, b: string, c: string)
    requires StrLt(a, b) && StrLt(b, c)
    ensures StrLt(a, c)
  {
    if |a| > 0 && a[0] == b[0] && b[0] == c[0] {
      StrLtTransitive(a[1..], b[1..], c[1..]);
    }
  }

  lemma {:induction false} StrLtTotal(a: string, b: string)
    ensures a == b || StrLt(a, b) || StrLt(b, a)
  {
    if |a| > 0 && |b| > 0 && a[0] == b[0] {
      StrLtTotal(a[1..], b[1..]);
      if a[1..] == b[1..] {
        assert a == [a[0]] + a[1..] && b == [b[0]] + b[1..];
      }
    }
  }

  /** A sort key: a Python string or tuple of strings, as the sequence of its components. */
  type SortKey = seq<string>

  /** Python's `<` on tuples of strings. */
  predicate KeyLt(a: SortKey, b: SortKey)
  {
    |b| > 0 && (|a| == 0 || StrLt(a[0], b[0]) || (a[0] == b[0] && KeyLt(a[1..], b[1..])))
  }

  predicate KeyLe(a: SortKey, b: SortKey)
  {
    a == b || KeyLt(a, b)
  }

  lemma {:induction false} KeyLtIrreflexive(a: SortKey)
    ensures !KeyLt(a, a)
  {
    if |a| > 0 {
      StrLtIrreflexive(a[0]);
      KeyLtIrreflexive(a[1..]);
    }
  }

  lemma {:induction false} KeyLtTransitive(a: SortKey, b: SortKey, c: SortKey)
    requires KeyLt(a, b) && KeyLt(b, c)
    ensures KeyLt(a, c)
  {
    if |a| > 0 {
      if StrLt(a[0], b[0]) && StrLt(b[0], c[0]) {
        StrLtTransitive(a[0], b[0], c[0]);
      } else if a[0] == b[0] && b[0] == c[0] {
        KeyLtTransitive(a[1..], b[1..], c[1..]);
      }
    }
  }

  lemma {:induction false} KeyLtTotal(a: SortKey, b: SortKey)
    ensures a == b || KeyLt(a, b) || KeyLt(b, a)
  {
    if |a| > 0 && |b| > 0 {
      StrLtTotal(a[0], b[0]);
      if a[0] == b[0] {
        KeyLtTotal(a[1..], b[1..]);
        if a[1..] == b[1..] {
          assert a == [a[0]] + a[1..] && b == [b[0]] + b[1..];
        }
      }
    }
  }

  lemma KeyLeTransitive(a: SortKey, b: SortKey, c: SortKey)
    requires KeyLe(a, b) && KeyLe(b, c)
    ensures KeyLe(a, c)
  {
    if KeyLt(a, b) && KeyLt(b, c) {
      KeyLtTransitive(a, b, c);
    }
  }

  /** Ascending by key. */
  ghost predicate SortedBy<V>(s: seq<V>, key: V -> SortKey)
  {
    forall i, j :: 0 <= i < j < |s| ==> KeyLe(key(s[i]), key(s[j]))
  }

  /** The values whose key is `k`, in their order in `s`. */
  function KeyFilter<V>(s: seq<V>, key: V -> SortKey, k: SortKey): seq<V>
  {
    if |s| == 0 then []
    else (if key(s[0]) == k then [s[0]] else []) + KeyFilter(s[1..], key, k)
  }

  /** Puts `x` after every value whose key is not greater than its own. */
  function Insert<V>(x: V, s: seq<V>, key: V -> SortKey): (r: seq<V>)
    ensures |r| == |s| + 1
    ensures multiset(r) == multiset(s) + multiset{x}
  {
    if |s| == 0 then [x]
    else if KeyLt(key(x), key(s[0])) then [x] + s
    else
      assert s == [s[0]] + s[1..];
      [s[0]] + Insert(x, s[1..], key)
  }

  /** `sorted(s, key=key)`: insertion of each value, first to last, into the sorted prefix. */
  function StableSort<V>(s: seq<V>, key: V -> SortKey): (r: seq<V>)
    ensures |r| == |s|
    ensures multiset(r) == multiset(s)
  {
    if |s| == 0 then []
    else
      assert s == s[..|s| - 1] + [s[|s| - 1]];
      Insert(s[|s| - 1], StableSort(s[..|s| - 1], key), key)
  }

  lemma {:induction false} InsertSorted<V>(x: V, s: seq<V>, key: V -> SortKey)
    requires SortedBy(s, key)
    ensures SortedBy(Insert(x, s, key), key)
  {
    if |s| > 0 {
      if KeyLt(key(x), key(s[0])) {
        forall j | 0 <= j < |s|
          ensures KeyLe(key(x), key(s[j]))
        {
          if KeyLt(key(s[0]), key(s[j])) {
            KeyLtTransitive(key(x), key(s[0]), key(s[j]));
          }
        }
        var r := [x] + s;
        assert forall i :: 0 < i < |r| ==> r[i] == s[i - 1];
      } else {
        KeyLtTotal(key(x), key(s[0]));
        assert KeyLe(key(s[0]), key(x));
        var tail := Insert(x, s[1..], key);
        InsertSorted(x, s[1..], key);
        forall j | 0 <= j < |tail|
          ensures KeyLe(key(s[0]), key(tail[j]))
        {
          assert tail[j] in multiset(tail);
          assert tail[j] in multiset(s[1..]) || tail[j] == x;
          if tail[j] != x {
            var m :| 0 <= m < |s[1..]| && s[1..][m] == tail[j];
            assert s[m + 1] == tail[j];
          }
        }
        var r := [s[0]] + tail;
        assert forall i :: 0 < i < |r| ==> r[i] == tail[i - 1];
      }
    }
  }

  /** `sorted` returns its input in ascending key order. */
  lemma {:induction false} StableSortSorted<V>(s: seq<V>, key: V -> SortKey)
    ensures SortedBy(StableSort(s, key), key)
  {
    if |s| > 0 {
      StableSortSorted(s[..|s| - 1], key);
      InsertSorted(s[|s| - 1], StableSort(s[..|s| - 1], key), key);
    }
  }

  lemma {:induction false} KeyFilterNone<V>(s: seq<V>, key: V -> SortKey, k: SortKey)
    requires forall j :: 0 <= j < |s| ==> key(s[j]) != k
    ensures KeyFilter(s, key, k) == []
  {
    if |s| > 0 {
      KeyFilterNone(s[1..], key, k);
    }
  }

  lemma {:induction false} KeyFilterAppend<V>(a: seq<V>, b: seq<V>, key: V -> SortKey, k: SortKey)
    ensures KeyFilter(a + b, key, k) == KeyFilter(a, key, k) + KeyFilter(b, key, k)
  {
    if |a| > 0 {
      assert (a + b)[1..] == a[1..] + b;
      KeyFilterAppend(a[1..], b, key, k);
    } else {
      assert a + b == b;
    }
  }

  /** No value of a sorted sequence has a key below its first one. */
  lemma BelowSortedAbsent<V>(x: V, s: seq<V>, key: V -> SortKey)
    requires SortedBy(s, key) && |s| > 0 && KeyLt(key(x), key(s[0]))
    ensures KeyFilter(s, key, key(x)) == []
  {
    forall j | 0 <= j < |s|
      ensures key(s[j]) != key(x)
    {
      if KeyLt(key(s[0]), key(s[j])) {
        KeyLtTransitive(key(x), key(s[0]), key(s[j]));
      }
      KeyLtIrreflexive(key(x));
    }
    KeyFilterNone(s, key, key(x));
  }

  lemma {:induction false} InsertKeyFilter<V>(x: V, s: seq<V>, key: V -> SortKey, k: SortKey)
    requires SortedBy(s, key)
    ensures KeyFilter(Insert(x, s, key), key, k) ==
            KeyFilter(s, key, k) + (if key(x) == k then [x] else [])
  {
    if |s| > 0 {
      if KeyLt(key(x), key(s[0])) {
        var r := [x] + s;
        assert r[1..] == s;
        if key(x) == k {
          BelowSortedAbsent(x, s, key);
        }
      } else {
        InsertKeyFilter(x, s[1..], key, k);
        var r := [s[0]] + Insert(x, s[1..], key);
        assert r[1..] == Insert(x, s[1..], key);
      }
    }
  }

  lemma KeyFilterSnoc<V>(init: seq<V>, last: V, key: V -> SortKey, k: SortKey)
    ensures KeyFilter(init + [last], key, k) == KeyFilter(init, key, k) + (if key(last) == k then [last] else [])
  {
    KeyFilterAppend(init, [last], key, k);
    assert [last][1..] == [];
  }

  /** `sorted` is stable: for every key, the values with that key come out in their input order. */
  lemma {:induction false} StableSortStable<V>(s: seq<V>, key: V -> SortKey, k: SortKey)
    ensures KeyFilter(StableSort(s, key), key, k) == KeyFilter(s, key, k)
  {
    if |s| > 0 {
      var init, last := s[..|s| - 1], s[|s| - 1];
      var tail := if key(last) == k then [last] else [];
      assert s == init + [last];
      calc {
        KeyFilter(StableSort(s, key), key, k);
        KeyFilter(Insert(last, StableSort(init, key), key), key, k);
        { StableSortSorted(init, key); InsertKeyFilter(last, StableSort(init, key), key, k); }
        KeyFilter(StableSort(init, key), key, k) + tail;
        { StableSortStable(init, key, k); }
        KeyFilter(init, key, k) + tail;
        { KeyFilterSnoc(init, last, key, k); }
        KeyFilter(s, key, k);
      }
    }
  }
}
