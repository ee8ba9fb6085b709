/**
 * Ordering of query results. A Django `Meta.ordering` (or `.order_by(...)`)
 * lists fields; rows are compared on the first field, ties are broken by the
 * next one, and so on. Text fields are compared character by character by
 * code point (the collation of the database is not modelled).
 */
module Ordering {

  /** Lexicographic "less than or equal" on strings, by code point. */
  predicate StrLe(a: string, b: string)
  {
    if |a| == 0 then true
    else if |b| == 0 then false
    else if a[0] == b[0] then StrLe(a[1..], b[1..])
    else a[0] < b[0]
  }

  lemma {:induction false} StrLeTotal(a: string, b: string)
    ensures StrLe(a, b) || StrLe(b, a)
  {
    if |a| != 0 && |b| != 0 && a[0] == b[0] {
      StrLeTotal(a[1..], b[1..]);
    }
  }

  lemma {:induction false} StrLeReflexive(a: string)
    ensures StrLe(a, a)
  {
    if |a| != 0 {
      StrLeReflexive(a[1..]);
    }
  }

  lemma {:induction false} StrLeAntisymmetric(a: string, b: string)
    requires StrLe(a, b) && StrLe(b, a)
    ensures a == b
  {
    if |a| != 0 && |b| != 0 {
      StrLeAntisymmetric(a[1..], b[1..]);
      assert a == [a[0]] + a[1..];
      assert b == [b[0]] + b[1..];
    }
  }

  lemma {:induction false} StrLeTransitive(a: string, b: string, c: string)
    requires StrLe(a, b) && StrLe(b, c)
    ensures StrLe(a, c)
  {
    if |a| != 0 && |b| != 0 && |c| != 0 && a[0] == b[0] && b[0] == c[0] {
      StrLeTransitive(a[1..], b[1..], c[1..]);
    }
  }

  /** An ordering key: the values of the ordering fields, most significant first. */
  type Key = seq<string>

  /** Rows compare on the first field, ties broken by the following fields. */
  predicate KeyLe(k1: Key, k2: Key)
  {
    if |k1| == 0 then true
    else if |k2| == 0 then false
    else if k1[0] == k2[0] then KeyLe(k1[1..], k2[1..])
    else StrLe(k1[0], k2[0])
  }

  lemma {:induction false} KeyLeTotal(k1: Key, k2: Key)
    ensures KeyLe(k1, k2) || KeyLe(k2, k1)
  {
    if |k1| != 0 && |k2| != 0 {
      if k1[0] == k2[0] {
        KeyLeTotal(k1[1..], k2[1..]);
      } else {
        StrLeTotal(k1[0], k2[0]);
      }
    }
  }

  lemma {:induction false} KeyLeTransitive(k1: Key, k2: Key, k3: Key)
    requires KeyLe(k1, k2) && KeyLe(k2, k3)
    ensures KeyLe(k1, k3)
  {
    if |k1| != 0 && |k2| != 0 && |k3| != 0 {
      if k1[0] == k2[0] && k2[0] == k3[0] {
        KeyLeTransitive(k1[1..], k2[1..], k3[1..]);
      } else {
        StrLeReflexive(k2[0]);
        StrLeTransitive(k1[0], k2[0], k3[0]);
        if k1[0] == k3[0] {
          StrLeAntisymmetric(k1[0], k2[0]);
        }
      }
    }
  }

  /** Every earlier row's key is at most every later row's key. */
  ghost predicate SortedBy<T>(s: seq<T>, key: T -> Key)
  {
    forall i, j :: 0 <= i < j < |s| ==> KeyLe(key(s[i]), key(s[j]))
  }

  function Insert<T>(x: T, s: seq<T>, key: T -> Key): seq<T>
  {
    if s == [] then [x]
    else if KeyLe(key(x), key(s[0])) then [x] + s
    else [s[0]] + Insert(x, s[1..], key)
  }

  lemma {:induction false} InsertKeeps<T>(x: T, s: seq<T>, key: T -> Key)
    ensures multiset(Insert(x, s, key)) == multiset(s) + multiset{x}
  {
    if s != [] && !KeyLe(key(x), key(s[0])) {
      InsertKeeps(x, s[1..], key);
      assert s == [s[0]] + s[1..];
    }
  }

  /** `b` is at most the key of every row of `s`. */
  ghost predicate LowerBound<T>(b: Key, s: seq<T>, key: T -> Key)
  {
    forall i :: 0 <= i < |s| ==> KeyLe(b, key(s[i]))
  }

  /** Inserting a row whose key is at least `b` keeps `b` a lower bound. */
  lemma {:induction false} InsertLowerBound<T>(b: Key, x: T, s: seq<T>, key: T -> Key)
    requires LowerBound(b, s, key) && KeyLe(b, key(x))
    ensures LowerBound(b, Insert(x, s, key), key)
  {
    if s != [] && !KeyLe(key(x), key(s[0])) {
      InsertLowerBound(b, x, s[1..], key);
    }
  }

  lemma {:induction false} InsertSorted<T>(x: T, s: seq<T>, key: T -> Key)
    requires SortedBy(s, key)
    ensures SortedBy(Insert(x, s, key), key)
  {
    if s == [] {
    } else if KeyLe(key(x), key(s[0])) {
      var r := [x] + s;
      forall i, j | 0 <= i < j < |r| ensures KeyLe(key(r[i]), key(r[j])) {
        if i == 0 && j > 1 {
          KeyLeTransitive(key(x), key(s[0]), key(s[j - 1]));
        }
      }
    } else {
      KeyLeTotal(key(x), key(s[0]));
      InsertSorted(x, s[1..], key);
      InsertLowerBound(key(s[0]), x, s[1..], key);
      var tail := Insert(x, s[1..], key);
      var r := [s[0]] + tail;
      assert r == Insert(x, s, key);
      forall i, j | 0 <= i < j < |r| ensures KeyLe(key(r[i]), key(r[j])) {
        if i == 0 {
          assert r[j] == tail[j - 1];
        } else {
          assert r[i] == tail[i - 1] && r[j] == tail[j - 1];
        }
      }
    }
  }

  /**
   * The rows of `s` arranged by `key` (insertion sort). Which of two rows with
   * equal keys comes first is left to the database and not promised here.
   */
  function OrderBy<T>(s: seq<T>, key: T -> Key): (r: seq<T>)
    ensures multiset(r) == multiset(s)
    ensures |r| == |s|
    ensures SortedBy(r, key)
  {
    if s == [] then []
    else
      var rest := OrderBy(s[1..], key);
      InsertKeeps(s[0], rest, key);
      InsertSorted(s[0], rest, key);
      assert s == [s[0]] + s[1..];
      Insert(s[0], rest, key)
  }
}
