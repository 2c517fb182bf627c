/** What the orders on texts and keys mean: the first place where two texts differ decides. */
module TextOrder {
  import opened Sequences
  import opened CanonicalOrder

  /** Where two lists first differ, the first is at its end or has the smaller element. */
  ghost predicate Precedes<T(!new)>(s: seq<T>, t: seq<T>, less: (T, T) -> bool) {
    exists k: nat :: k <= |s| && k < |t| && s[..k] == t[..k] && (k == |s| || less(s[k], t[k]))
  }

  ghost predicate Irreflexive<T(!new)>(less: (T, T) -> bool) {
    forall x :: !less(x, x)
  }

  lemma PrecedesStep<T(!new)>(s: seq<T>, t: seq<T>, less: (T, T) -> bool)
    requires Irreflexive(less)
    ensures Precedes(s, t, less)
       <==> t != [] && (s == [] || less(s[0], t[0]) || (s[0] == t[0] && Precedes(s[1..], t[1..], less)))
  {
    if k: nat :| k <= |s| && k < |t| && s[..k] == t[..k] && (k == |s| || less(s[k], t[k])) {
      if k > 0 {
        assert s[..k][0] == t[..k][0] && s[1..][..k - 1] == s[..k][1..] && t[1..][..k - 1] == t[..k][1..];
      }
    }
    if t != [] && s != [] && s[0] == t[0] && Precedes(s[1..], t[1..], less) {
      var k: nat :| k <= |s[1..]| && k < |t[1..]| && s[1..][..k] == t[1..][..k]
                    && (k == |s[1..]| || less(s[1..][k], t[1..][k]));
      assert s[..k + 1] == [s[0]] + s[1..][..k] && t[..k + 1] == [t[0]] + t[1..][..k];
    }
    if t != [] && s != [] && less(s[0], t[0]) {
      assert s[..0] == t[..0];
    }
    if t != [] && s == [] {
      assert s[..0] == t[..0];
    }
  }

  // ---- Texts ----

  /**
   Characters in the order of their first differing UTF-16 code unit: those written with a surrogate pair come after
   U+D7FF and before U+E000.
   */
  predicate UnitBefore(c: char, d: char) {
    if (c as int >= 0x10000) == (d as int >= 0x10000) then c < d
    else if c as int >= 0x10000 then d as int >= 0xE000
    else (c as int) < 0xE000
  }

  predicate PointBefore(c: char, d: char) { c < d }

  ghost predicate TextBefore(s: string, t: string) { Precedes(s, t, UnitBefore) }

  lemma UnitsOfDifferent(c: char, d: char, x: Units, y: Units)
    requires c != d
    ensures UnitsLe(CharUnits(c) + x, CharUnits(d) + y) <==> UnitBefore(c, d)
  {
    var a, b := CharUnits(c) + x, CharUnits(d) + y;
    assert a[0] == CharUnits(c)[0] && b[0] == CharUnits(d)[0];
    if c as int >= 0x10000 && d as int >= 0x10000 {
      assert a[1..][0] == CharUnits(c)[1] && b[1..][0] == CharUnits(d)[1];
    }
  }

  lemma {:induction false} UnitsOfSame(u: Units, x: Units, y: Units)
    ensures UnitsLe(u + x, u + y) <==> UnitsLe(x, y)
  {
    if u == [] {
      assert u + x == x && u + y == y;
    } else {
      assert (u + x)[1..] == u[1..] + x && (u + y)[1..] == u[1..] + y;
      UnitsOfSame(u[1..], x, y);
    }
  }

  /** The order of UTF-16 code units, said of the characters. */
  lemma {:induction false} Utf16OrderMeans(s: string, t: string)
    ensures TextBefore(s, t) <==> UnitsLe(Utf16(s), Utf16(t)) && s != t
  {
    PrecedesStep(s, t, UnitBefore);
    if s != [] && t != [] {
      if s[0] == t[0] {
        UnitsOfSame(CharUnits(s[0]), Utf16(s[1..]), Utf16(t[1..]));
        Utf16OrderMeans(s[1..], t[1..]);
        assert s == [s[0]] + s[1..] && t == [t[0]] + t[1..];
      } else {
        UnitsOfDifferent(s[0], t[0], Utf16(s[1..]), Utf16(t[1..]));
      }
    }
  }

  /** Outside the sort keys texts compare by code points. */
  lemma {:induction false} TextOrderMeans(s: string, t: string)
    ensures Precedes(s, t, PointBefore) <==> TextLe(s, t) && s != t
  {
    PrecedesStep(s, t, PointBefore);
    if s != [] && t != [] {
      var a, b := CodePoints(s), CodePoints(t);
      assert a[0] == s[0] as nat && b[0] == t[0] as nat && a[1..] == CodePoints(s[1..]) && b[1..] == CodePoints(t[1..]);
      if s[0] == t[0] {
        TextOrderMeans(s[1..], t[1..]);
        assert s == [s[0]] + s[1..] && t == [t[0]] + t[1..];
      }
    }
  }

  // ---- Lists of texts ----

  ghost predicate PartsBefore(p: seq<string>, q: seq<string>) { Precedes(p, q, TextBefore) }

  lemma TextBeforeIrreflexive()
    ensures Irreflexive(TextBefore)
  {
    forall s ensures !TextBefore(s, s) {
      Utf16OrderMeans(s, s);
    }
  }

  /** Sort keys order by the first part in which they differ. */
  lemma {:induction false} KeyOrderMeans(p: seq<string>, q: seq<string>)
    ensures PartsBefore(p, q) <==> KeyLe(KeyOf(p), KeyOf(q)) && p != q
  {
    TextBeforeIrreflexive();
    PrecedesStep(p, q, TextBefore);
    if p != [] && q != [] {
      assert KeyOf(p)[0] == Utf16(p[0]) && KeyOf(p)[1..] == KeyOf(p[1..]);
      assert KeyOf(q)[0] == Utf16(q[0]) && KeyOf(q)[1..] == KeyOf(q[1..]);
      Utf16OrderMeans(p[0], q[0]);
      if p[0] == q[0] {
        KeyOrderMeans(p[1..], q[1..]);
        UnitsTotal(Utf16(p[0]), Utf16(q[0]));
        assert p == [p[0]] + p[1..] && q == [q[0]] + q[1..];
      } else if Utf16(p[0]) == Utf16(q[0]) {
        Utf16Injective(p[0], q[0]);
      }
    }
  }

  ghost predicate PointTextBefore(s: string, t: string) { Precedes(s, t, PointBefore) }

  /** The same of lists compared by code points. */
  lemma {:induction false} PointKeyOrderMeans(p: seq<string>, q: seq<string>)
    ensures Precedes(p, q, PointTextBefore) <==> KeyLe(Map(p, CodePoints), Map(q, CodePoints)) && p != q
  {
    forall s ensures !PointTextBefore(s, s) {
      TextOrderMeans(s, s);
    }
    PrecedesStep(p, q, PointTextBefore);
    if p != [] && q != [] {
      TextOrderMeans(p[0], q[0]);
      if p[0] == q[0] {
        PointKeyOrderMeans(p[1..], q[1..]);
        UnitsTotal(CodePoints(p[0]), CodePoints(q[0]));
        assert p == [p[0]] + p[1..] && q == [q[0]] + q[1..];
      } else if CodePoints(p[0]) == CodePoints(q[0]) {
        CodePointsInjective(p[0], q[0]);
      }
    }
  }
}
