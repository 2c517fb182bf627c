/**
 The canonical ordering of the contract evaluator: texts compare by their UTF-16 code units, sort keys are
 tuples of texts, and `Sort` is the stable sort that every output list goes through.
 */
module CanonicalOrder {
  import opened Sequences

  type Units = seq<nat>
  type Key = seq<Units>

  /** The code units of one Unicode scalar value. */
  function CharUnits(c: char): Units {
    var n := c as int;
    if n < 0x10000 then [n] else [0xD800 + (n - 0x10000) / 0x400, 0xDC00 + (n - 0x10000) % 0x400]
  }

  function Utf16(s: string): Units {
    if s == [] then [] else CharUnits(s[0]) + Utf16(s[1..])
  }

  lemma {:induction false} Utf16Injective(s: string, t: string)
    requires Utf16(s) == Utf16(t)
    ensures s == t
  {
    if s == [] || t == [] {
      assert s == t;
    } else {
      var a, b := Utf16(s), Utf16(t);
      assert a[0] == CharUnits(s[0])[0] && b[0] == CharUnits(t[0])[0];
      CharUnitsPrefixFree(s[0], t[0], a);
      assert Utf16(s[1..]) == a[|CharUnits(s[0])|..];
      assert Utf16(t[1..]) == b[|CharUnits(t[0])|..];
      Utf16Injective(s[1..], t[1..]);
      assert s == [s[0]] + s[1..] && t == [t[0]] + t[1..];
    }
  }

  lemma CharUnitsPrefixFree(c: char, d: char, units: Units)
    requires CharUnits(c) <= units && CharUnits(d) <= units
    ensures c == d
  {
    assert units[0] == CharUnits(c)[0] == CharUnits(d)[0];
    if c as int >= 0x10000 && d as int >= 0x10000 {
      assert units[1] == CharUnits(c)[1] == CharUnits(d)[1];
    }
  }

  predicate UnitsLe(a: Units, b: Units) {
    a == [] || (b != [] && (a[0] < b[0] || (a[0] == b[0] && UnitsLe(a[1..], b[1..]))))
  }

  lemma {:induction false} UnitsTotal(a: Units, b: Units)
    ensures UnitsLe(a, b) || UnitsLe(b, a)
    ensures UnitsLe(a, b) && UnitsLe(b, a) ==> a == b
  {
    if a != [] && b != [] && a[0] == b[0] {
      UnitsTotal(a[1..], b[1..]);
      assert a == [a[0]] + a[1..] && b == [b[0]] + b[1..];
    }
  }

  lemma {:induction false} UnitsTransitive(a: Units, b: Units, c: Units)
    requires UnitsLe(a, b) && UnitsLe(b, c)
    ensures UnitsLe(a, c)
  {
    if a != [] && a[0] == b[0] && b[0] == c[0] {
      UnitsTransitive(a[1..], b[1..], c[1..]);
    }
  }

  function CodePoints(s: string): Units {
    if s == "" then [] else [s[0] as nat] + CodePoints(s[1..])
  }

  lemma {:induction false} CodePointsInjective(s: string, t: string)
    requires CodePoints(s) == CodePoints(t)
    ensures s == t
  {
    if s != "" && t != "" {
      assert CodePoints(s)[1..] == CodePoints(s[1..]) && CodePoints(t)[1..] == CodePoints(t[1..]);
      assert CodePoints(s)[0] == s[0] as nat && CodePoints(t)[0] == t[0] as nat;
      CodePointsInjective(s[1..], t[1..]);
      assert s == [s[0]] + s[1..] && t == [t[0]] + t[1..];
    }
  }

  /** Code point order, as of texts compared outside the sort keys. */
  predicate TextLe(a: string, b: string) { UnitsLe(CodePoints(a), CodePoints(b)) }

  predicate KeyLe(a: Key, b: Key) {
    a == [] || (b != [] && UnitsLe(a[0], b[0]) && (a[0] == b[0] ==> KeyLe(a[1..], b[1..])))
  }

  lemma {:induction false} KeyTotal(a: Key, b: Key)
    ensures KeyLe(a, b) || KeyLe(b, a)
    ensures KeyLe(a, b) && KeyLe(b, a) ==> a == b
  {
    if a != [] && b != [] {
      UnitsTotal(a[0], b[0]);
      if a[0] == b[0] {
        KeyTotal(a[1..], b[1..]);
        assert a == [a[0]] + a[1..] && b == [b[0]] + b[1..];
      }
    }
  }

  lemma {:induction false} KeyTransitive(a: Key, b: Key, c: Key)
    requires KeyLe(a, b) && KeyLe(b, c)
    ensures KeyLe(a, c)
  {
    if a != [] {
      UnitsTransitive(a[0], b[0], c[0]);
      if a[0] == c[0] {
        UnitsTotal(a[0], b[0]);
        KeyTransitive(a[1..], b[1..], c[1..]);
      }
    }
  }

  /** The tuple of texts a sort key is written as, in code units. */
  function KeyOf(parts: seq<string>): Key {
    Map(parts, Utf16)
  }

  lemma KeyOfInjective(p: seq<string>, q: seq<string>)
    requires KeyOf(p) == KeyOf(q)
    ensures p == q
  {
    MapAt(p, Utf16);
    MapAt(q, Utf16);
    forall i | 0 <= i < |p| ensures p[i] == q[i] {
      assert KeyOf(p)[i] == Utf16(p[i]) && KeyOf(q)[i] == Utf16(q[i]);
      Utf16Injective(p[i], q[i]);
    }
  }

  function Insert<T>(x: T, sorted: seq<T>, key: T -> Key): seq<T> {
    if sorted == [] || KeyLe(key(x), key(sorted[0])) then [x] + sorted
    else [sorted[0]] + Insert(x, sorted[1..], key)
  }

  /** Stable sort: equal keys keep their input order. */
  function Sort<T>(xs: seq<T>, key: T -> Key): seq<T> {
    if xs == [] then [] else Insert(xs[0], Sort(xs[1..], key), key)
  }

  ghost predicate Sorted<T>(xs: seq<T>, key: T -> Key) {
    forall i, j :: 0 <= i < j < |xs| ==> KeyLe(key(xs[i]), key(xs[j]))
  }

  lemma {:induction false} InsertPermutes<T>(x: T, s: seq<T>, key: T -> Key)
    ensures multiset(Insert(x, s, key)) == multiset(s) + multiset{x}
  {
    if !(s == [] || KeyLe(key(x), key(s[0]))) {
      InsertPermutes(x, s[1..], key);
      assert s == [s[0]] + s[1..];
    }
  }

  lemma {:induction false} SortPermutes<T>(xs: seq<T>, key: T -> Key)
    ensures multiset(Sort(xs, key)) == multiset(xs)
  {
    if xs != [] {
      SortPermutes(xs[1..], key);
      InsertPermutes(xs[0], Sort(xs[1..], key), key);
      assert xs == [xs[0]] + xs[1..];
    }
  }

  lemma {:induction false} InsertSorted<T>(x: T, s: seq<T>, key: T -> Key)
    requires Sorted(s, key)
    ensures Sorted(Insert(x, s, key), key)
  {
    var r := Insert(x, s, key);
    if s == [] {
    } else if KeyLe(key(x), key(s[0])) {
      forall i, j | 0 <= i < j < |r| ensures KeyLe(key(r[i]), key(r[j])) {
        if i == 0 {
          if j > 1 {
            KeyTransitive(key(x), key(s[0]), key(s[j - 1]));
          }
        } else {
          assert r[i] == s[i - 1] && r[j] == s[j - 1];
        }
      }
    } else {
      InsertSorted(x, s[1..], key);
      KeyTotal(key(x), key(s[0]));
      InsertPermutes(x, s[1..], key);
      var rest := Insert(x, s[1..], key);
      forall j | 0 <= j < |rest| ensures KeyLe(key(s[0]), key(rest[j])) {
        assert rest[j] in multiset(rest);
        assert rest[j] == x || rest[j] in s[1..];
      }
    }
  }

  lemma {:induction false} SortSorted<T>(xs: seq<T>, key: T -> Key)
    ensures Sorted(Sort(xs, key), key)
  {
    if xs != [] {
      SortSorted(xs[1..], key);
      InsertSorted(xs[0], Sort(xs[1..], key), key);
    }
  }

  lemma SortMembers<T>(xs: seq<T>, key: T -> Key)
    ensures forall x :: x in Sort(xs, key) <==> x in xs
    ensures |Sort(xs, key)| == |xs|
  {
    SortPermutes(xs, key);
    PermutedMembers(Sort(xs, key), xs);
  }

  lemma SortMember<T>(xs: seq<T>, key: T -> Key, x: T)
    ensures x in Sort(xs, key) <==> x in xs
  {
    SortPermutes(xs, key);
    assert x in xs <==> x in multiset(xs);
    assert x in Sort(xs, key) <==> x in multiset(Sort(xs, key));
  }

  /** A sorted list is determined by its contents wherever equal keys mean equal elements. */
  lemma {:induction false} SortedUnique<T>(s: seq<T>, t: seq<T>, key: T -> Key)
    requires Sorted(s, key) && Sorted(t, key)
    requires multiset(s) == multiset(t)
    requires forall x, y :: x in s && y in s && key(x) == key(y) ==> x == y
    ensures s == t
    decreases |s|
  {
    if s == [] {
      assert |multiset(t)| == 0;
    } else {
      SortedHeads(s, t, key);
      SameTails(s, t);
      assert s == [s[0]] + s[1..] && t == [t[0]] + t[1..];
      SortedUnique(s[1..], t[1..], key);
    }
  }

  lemma SortedHeads<T>(s: seq<T>, t: seq<T>, key: T -> Key)
    requires Sorted(s, key) && Sorted(t, key) && s != []
    requires multiset(s) == multiset(t)
    requires forall x, y :: x in s && y in s && key(x) == key(y) ==> x == y
    ensures t != [] && s[0] == t[0]
  {
    PermutedMembers(s, t);
    assert s[0] in t && t[0] in s;
    var i :| 0 <= i < |t| && t[i] == s[0];
    var j :| 0 <= j < |s| && s[j] == t[0];
    KeyTotal(key(s[0]), key(t[0]));
  }

  lemma SameTails<T>(s: seq<T>, t: seq<T>)
    requires s != [] && t != [] && s[0] == t[0] && multiset(s) == multiset(t)
    ensures multiset(s[1..]) == multiset(t[1..])
  {
    assert s == [s[0]] + s[1..] && t == [t[0]] + t[1..];
    assert multiset(s[1..]) == multiset(s) - multiset{s[0]};
    assert multiset(t[1..]) == multiset(t) - multiset{t[0]};
  }

  /** Whatever order the input came in, a sort whose key tells elements apart gives one output. */
  lemma SortCanonical<T>(xs: seq<T>, ys: seq<T>, key: T -> Key)
    requires multiset(xs) == multiset(ys)
    requires forall x, y :: x in xs && y in xs && key(x) == key(y) ==> x == y
    ensures Sort(xs, key) == Sort(ys, key)
  {
    var s, t := Sort(xs, key), Sort(ys, key);
    SortPermutes(xs, key);
    SortPermutes(ys, key);
    SortSorted(xs, key);
    SortSorted(ys, key);
    assert forall x :: x in s ==> x in multiset(xs);
    SortedUnique(s, t, key);
  }

  /** Even when ties are left in input order, the sequence of keys does not depend on the input order. */
  lemma SortKeysCanonical<T>(xs: seq<T>, ys: seq<T>, key: T -> Key)
    requires multiset(xs) == multiset(ys)
    ensures Map(Sort(xs, key), key) == Map(Sort(ys, key), key)
  {
    var s, t := Sort(xs, key), Sort(ys, key);
    SortPermutes(xs, key);
    SortPermutes(ys, key);
    SortSorted(xs, key);
    SortSorted(ys, key);
    MapPermuted(s, t, key);
    MapAt(s, key);
    MapAt(t, key);
    SortedUnique(Map(s, key), Map(t, key), (k: Key) => k);
  }

  lemma {:induction false} FilterInsert<T>(x: T, s: seq<T>, key: T -> Key, keep: T -> bool)
    requires Sorted(s, key)
    ensures Filter(Insert(x, s, key), keep)
         == if keep(x) then Insert(x, Filter(s, keep), key) else Filter(s, keep)
  {
    FilterMembers(s, keep);
    if s == [] || KeyLe(key(x), key(s[0])) {
      assert ([x] + s)[1..] == s;
      var f := Filter(s, keep);
      if f != [] {
        FilterMember(s, keep, f[0]);
        var i :| 0 <= i < |s| && s[i] == f[0];
        if i > 0 {
          KeyTransitive(key(x), key(s[0]), key(s[i]));
        }
      }
    } else {
      FilterInsert(x, s[1..], key, keep);
      assert Insert(x, s, key)[1..] == Insert(x, s[1..], key);
      if keep(s[0]) {
        assert Filter(s, keep)[1..] == Filter(s[1..], keep);
      }
    }
  }

  /** Sorting commutes with selecting a subset. */
  lemma {:induction false} FilterSort<T>(xs: seq<T>, key: T -> Key, keep: T -> bool)
    ensures Filter(Sort(xs, key), keep) == Sort(Filter(xs, keep), key)
  {
    if xs != [] {
      FilterSort(xs[1..], key, keep);
      SortSorted(xs[1..], key);
      FilterInsert(xs[0], Sort(xs[1..], key), key, keep);
      if keep(xs[0]) {
        assert Filter(xs, keep)[1..] == Filter(xs[1..], keep);
      }
    }
  }

  lemma {:induction false} InsertBefore<T>(x: T, s: seq<T>, t: seq<T>, key: T -> Key)
    requires forall y :: y in t ==> KeyLe(key(x), key(y))
    ensures Insert(x, s + t, key) == Insert(x, s, key) + t
  {
    if s == [] {
      assert s + t == t;
    } else if !KeyLe(key(x), key(s[0])) {
      assert (s + t)[1..] == s[1..] + t;
      InsertBefore(x, s[1..], t, key);
    }
  }

  /** Deliveries that all come later can be sorted on their own and appended. */
  lemma {:induction false} SortAppend<T>(xs: seq<T>, ys: seq<T>, key: T -> Key)
    requires forall x, y :: x in xs && y in ys ==> KeyLe(key(x), key(y))
    ensures Sort(xs + ys, key) == Sort(xs, key) + Sort(ys, key)
  {
    if xs == [] {
      assert xs + ys == ys;
    } else {
      assert (xs + ys)[1..] == xs[1..] + ys;
      SortAppend(xs[1..], ys, key);
      var t := Sort(ys, key);
      SortPermutes(ys, key);
      forall y | y in t ensures KeyLe(key(xs[0]), key(y)) {
        assert y in multiset(ys);
      }
      InsertBefore(xs[0], Sort(xs[1..], key), t, key);
    }
  }
}
