/** The order Python's sorted() uses for the CTO tab's tuple keys, and a stable sort by it.

    Strings compare code point by code point, a proper prefix first (Python's str "<").
    Tuples compare component by component. sorted() is stable: items with equal keys
    keep their input order. */
module Ordering {

  /** Python's `a <= b` on str. */
  predicate StrLe(a: string, b: string)
    decreases |a|
  {
    |a| == 0 || (|b| > 0 && (a[0] < b[0] || (a[0] == b[0] && StrLe(a[1..], b[1..]))))
  }

  /** Python's `a < b` on str. */
  predicate StrLt(a: string, b: string) {
    StrLe(a, b) && a != b
  }

  lemma {:induction false} StrLeReflexive(a: string)
    ensures StrLe(a, a)
    decreases |a|
  {
    if |a| > 0 { StrLeReflexive(a[1..]); }
  }

  lemma {:induction false} StrLeTotal(a: string, b: string)
    ensures StrLe(a, b) || StrLe(b, a)
    decreases |a|
  {
    if |a| > 0 && |b| > 0 && a[0] == b[0] { StrLeTotal(a[1..], b[1..]); }
  }

  lemma {:induction false} StrLeAntisymmetric(a: string, b: string)
    requires StrLe(a, b) && StrLe(b, a)
    ensures a == b
    decreases |a|
  {
    if |a| > 0 {
      StrLeAntisymmetric(a[1..], b[1..]);
      assert a == [a[0]] + a[1..] && b == [b[0]] + b[1..];
    }
  }

  lemma {:induction false} StrLeTransitive(a: string, b: string, c: string)
    requires StrLe(a, b) && StrLe(b, c)
    ensures StrLe(a, c)
    decreases |a|
  {
    if |a| > 0 && a[0] == b[0] && b[0] == c[0] {
      StrLeTransitive(a[1..], b[1..], c[1..]);
    }
  }

  /** The key tuples of the CTO ordering: (RPC group, model, role, person number).
      The machine-row key (group, model) is the same tuple with an empty role and
      person 0 for every row, which orders rows exactly as the pair does. */
  datatype SortKey = SortKey(group: int, model: string, role: string, person: int)

  /** Python's `<=` on the key tuples: lexicographic, component by component. */
  predicate KeyLe(a: SortKey, b: SortKey) {
    || a.group < b.group
    || (a.group == b.group && StrLt(a.model, b.model))
    || (a.group == b.group && a.model == b.model && StrLt(a.role, b.role))
    || (a.group == b.group && a.model == b.model && a.role == b.role && a.person <= b.person)
  }

  /** KeyLe is a total order on keys. */
  lemma KeyLeTotalOrder(a: SortKey, b: SortKey, c: SortKey)
    ensures KeyLe(a, a)
    ensures KeyLe(a, b) || KeyLe(b, a)
    ensures KeyLe(a, b) && KeyLe(b, a) ==> a == b
    ensures KeyLe(a, b) && KeyLe(b, c) ==> KeyLe(a, c)
  {
    StrLeTotal(a.model, b.model);
    StrLeTotal(a.role, b.role);
    if StrLe(a.model, b.model) && StrLe(b.model, a.model) { StrLeAntisymmetric(a.model, b.model); }
    if StrLe(a.role, b.role) && StrLe(b.role, a.role) { StrLeAntisymmetric(a.role, b.role); }
    if KeyLe(a, b) && KeyLe(b, c) {
      if StrLe(a.model, b.model) && StrLe(b.model, c.model) {
        StrLeTransitive(a.model, b.model, c.model);
        if StrLe(c.model, a.model) {
          StrLeAntisymmetric(a.model, c.model);
          StrLeAntisymmetric(a.model, b.model);
        }
      }
      if StrLe(a.role, b.role) && StrLe(b.role, c.role) {
        StrLeTransitive(a.role, b.role, c.role);
        if StrLe(c.role, a.role) {
          StrLeAntisymmetric(a.role, c.role);
          StrLeAntisymmetric(a.role, b.role);
        }
      }
    }
  }

  /** Two keys in order have their groups in order, and within a group their models. */
  lemma KeyLeGroupThenModel(a: SortKey, b: SortKey)
    requires KeyLe(a, b)
    ensures a.group <= b.group
    ensures a.group == b.group ==> StrLe(a.model, b.model)
  {
    if a.model == b.model { StrLeReflexive(a.model); }
  }

  /** Every earlier item's key is at most every later item's key. */
  ghost predicate SortedBy<T>(s: seq<T>, key: T -> SortKey) {
    forall i, j :: 0 <= i < j < |s| ==> KeyLe(key(s[i]), key(s[j]))
  }

  /** The items of s whose key is k, in their order in s. */
  function Select<T>(s: seq<T>, key: T -> SortKey, k: SortKey): seq<T> {
    if s == [] then []
    else (if key(s[0]) == k then [s[0]] else []) + Select(s[1..], key, k)
  }

  /** x placed before the first item whose key is at least x's key. */
  function Insert<T>(x: T, s: seq<T>, key: T -> SortKey): (r: seq<T>)
    ensures multiset(r) == multiset(s) + multiset{x}
  {
    if s == [] || KeyLe(key(x), key(s[0])) then [x] + s
    else
      assert s == [s[0]] + s[1..];
      [s[0]] + Insert(x, s[1..], key)
  }

  /** Inserting into a sorted sequence keeps it sorted. */
  lemma {:induction false} InsertSorted<T>(x: T, s: seq<T>, key: T -> SortKey)
    requires SortedBy(s, key)
    ensures SortedBy(Insert(x, s, key), key)
  {
    var r := Insert(x, s, key);
    if s == [] || KeyLe(key(x), key(s[0])) {
      assert r[1..] == s;
      forall i, j | 0 <= i < j < |r| ensures KeyLe(key(r[i]), key(r[j])) {
        if i == 0 && j > 1 { KeyLeTotalOrder(key(x), key(s[0]), key(r[j])); }
      }
    } else {
      var rest := Insert(x, s[1..], key);
      InsertSorted(x, s[1..], key);
      assert r == [s[0]] + rest;
      KeyLeTotalOrder(key(x), key(s[0]), key(x));
      forall i, j | 0 <= i < j < |r| ensures KeyLe(key(r[i]), key(r[j])) {
        if i == 0 {
          assert r[j] == rest[j - 1];
          assert r[j] in multiset(rest);
          assert r[j] in multiset(s[1..]) + multiset{x};
          if r[j] != x {
            assert r[j] in s[1..];
            var m :| 0 <= m < |s[1..]| && s[1..][m] == r[j];
            assert s[m + 1] == r[j];
          }
        } else {
          assert r[i] == rest[i - 1] && r[j] == rest[j - 1];
        }
      }
    }
  }

  /** Inserting into a sorted sequence puts x ahead of the items whose key equals x's:
      for every key, the items with that key keep their relative order. */
  lemma {:induction false} InsertSelect<T>(x: T, s: seq<T>, key: T -> SortKey, k: SortKey)
    requires SortedBy(s, key)
    ensures Select(Insert(x, s, key), key, k) == (if key(x) == k then [x] else []) + Select(s, key, k)
  {
    var r := Insert(x, s, key);
    if s == [] || KeyLe(key(x), key(s[0])) {
      assert r[1..] == s;
    } else {
      var rest := Insert(x, s[1..], key);
      assert r == [s[0]] + rest && r[1..] == rest;
      KeyLeTotalOrder(key(x), key(s[0]), key(x));
      assert key(s[0]) != key(x);
      InsertSelect(x, s[1..], key, k);
    }
  }

  /** Python's sorted(s, key=key): a stable insertion sort. */
  function SortBy<T>(s: seq<T>, key: T -> SortKey): (r: seq<T>)
    ensures multiset(r) == multiset(s)
    ensures SortedBy(r, key)
    ensures forall k :: Select(r, key, k) == Select(s, key, k)
  {
    if s == [] then []
    else
      var sorted := SortBy(s[1..], key);
      assert s == [s[0]] + s[1..];
      InsertSorted(s[0], sorted, key);
      assert forall k :: Select(Insert(s[0], sorted, key), key, k) == Select(s, key, k) by {
        forall k ensures Select(Insert(s[0], sorted, key), key, k) == Select(s, key, k) {
          InsertSelect(s[0], sorted, key, k);
        }
      }
      Insert(s[0], sorted, key)
  }
}
