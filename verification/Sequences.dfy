/** Filtering and mapping of sequences, and how both interact with concatenation and permutation. */
module Sequences {

  function Filter<T>(xs: seq<T>, keep: T -> bool): seq<T> {
    if xs == [] then []
    else if keep(xs[0]) then [xs[0]] + Filter(xs[1..], keep)
    else Filter(xs[1..], keep)
  }

  function Map<T, U>(xs: seq<T>, f: T -> U): seq<U> {
    if xs == [] then [] else [f(xs[0])] + Map(xs[1..], f)
  }

  lemma {:induction false} FilterMembers<T>(xs: seq<T>, keep: T -> bool)
    ensures forall x :: x in Filter(xs, keep) <==> x in xs && keep(x)
    ensures |Filter(xs, keep)| <= |xs|
  {
    if xs != [] {
      FilterMembers(xs[1..], keep);
      assert xs == [xs[0]] + xs[1..];
    }
  }

  lemma {:induction false} FilterMember<T>(xs: seq<T>, keep: T -> bool, x: T)
    ensures x in Filter(xs, keep) <==> x in xs && keep(x)
  {
    if xs != [] {
      FilterMember(xs[1..], keep, x);
      assert xs == [xs[0]] + xs[1..];
    }
  }

  lemma {:induction false} FilterConcat<T>(xs: seq<T>, ys: seq<T>, keep: T -> bool)
    ensures Filter(xs + ys, keep) == Filter(xs, keep) + Filter(ys, keep)
  {
    if xs == [] {
      assert xs + ys == ys;
    } else {
      assert (xs + ys)[1..] == xs[1..] + ys;
      FilterConcat(xs[1..], ys, keep);
    }
  }

  lemma {:induction false} FilterPermuted<T>(xs: seq<T>, ys: seq<T>, keep: T -> bool)
    requires multiset(xs) == multiset(ys)
    ensures multiset(Filter(xs, keep)) == multiset(Filter(ys, keep))
    ensures |Filter(xs, keep)| == |Filter(ys, keep)|
    decreases |xs|
  {
    if xs == [] {
      assert |multiset(ys)| == 0;
    } else {
      var i := IndexOf(ys, xs[0], multiset(xs));
      var rest := ys[..i] + ys[i + 1..];
      RemoveHead(xs, ys, i);
      FilterPermuted(xs[1..], rest, keep);
      FilterConcat(ys[..i], ys[i + 1..], keep);
      FilterConcat(ys[..i], [ys[i]] + ys[i + 1..], keep);
      FilterConcat([ys[i]], ys[i + 1..], keep);
    }
  }

  lemma IndexOf<T>(ys: seq<T>, x: T, contents: multiset<T>) returns (i: nat)
    requires multiset(ys) == contents && x in contents
    ensures i < |ys| && ys[i] == x
  {
    i :| 0 <= i < |ys| && ys[i] == x;
  }

  lemma RemoveHead<T>(xs: seq<T>, ys: seq<T>, i: nat)
    requires xs != [] && multiset(xs) == multiset(ys) && i < |ys| && ys[i] == xs[0]
    ensures multiset(xs[1..]) == multiset(ys[..i] + ys[i + 1..])
    ensures ys == ys[..i] + ([ys[i]] + ys[i + 1..])
  {
    assert ys == ys[..i] + ([ys[i]] + ys[i + 1..]);
    assert xs == [xs[0]] + xs[1..];
    assert multiset(ys[..i] + ys[i + 1..]) == multiset(ys) - multiset{ys[i]};
    assert multiset(xs[1..]) == multiset(xs) - multiset{xs[0]};
  }

  lemma {:induction false} FilterAgree<T>(xs: seq<T>, keep: T -> bool, keep': T -> bool)
    requires forall x :: x in xs ==> keep(x) == keep'(x)
    ensures Filter(xs, keep) == Filter(xs, keep')
  {
    if xs != [] {
      FilterAgree(xs[1..], keep, keep');
    }
  }

  /** Filtering by `outer` first changes nothing for a filter that only keeps what `outer` keeps. */
  lemma {:induction false} FilterWithin<T>(xs: seq<T>, outer: T -> bool, inner: T -> bool)
    requires forall x :: x in xs && inner(x) ==> outer(x)
    ensures Filter(Filter(xs, outer), inner) == Filter(xs, inner)
  {
    if xs != [] {
      FilterWithin(xs[1..], outer, inner);
      if outer(xs[0]) {
        assert Filter(xs, outer)[1..] == Filter(xs[1..], outer);
      }
    }
  }

  lemma {:induction false} FilterBoth<T>(xs: seq<T>, p: T -> bool, q: T -> bool, both: T -> bool)
    requires forall x :: both(x) == (p(x) && q(x))
    ensures Filter(Filter(xs, p), q) == Filter(xs, both)
  {
    if xs != [] {
      FilterBoth(xs[1..], p, q, both);
      if p(xs[0]) {
        assert Filter(xs, p)[1..] == Filter(xs[1..], p);
      }
    }
  }

  lemma {:induction false} FilterCount<T>(xs: seq<T>, keep: T -> bool, x: T)
    requires keep(x)
    ensures multiset(Filter(xs, keep))[x] == multiset(xs)[x]
  {
    if xs != [] {
      FilterCount(xs[1..], keep, x);
      assert xs == [xs[0]] + xs[1..];
    }
  }

  lemma {:induction false} FilterSwap<T>(xs: seq<T>, p: T -> bool, q: T -> bool)
    ensures Filter(Filter(xs, p), q) == Filter(Filter(xs, q), p)
  {
    if xs != [] {
      FilterSwap(xs[1..], p, q);
      if p(xs[0]) {
        assert Filter(xs, p)[1..] == Filter(xs[1..], p);
      }
      if q(xs[0]) {
        assert Filter(xs, q)[1..] == Filter(xs[1..], q);
      }
    }
  }

  lemma {:induction false} FilterAll<T>(xs: seq<T>, keep: T -> bool)
    requires forall x :: x in xs ==> keep(x)
    ensures Filter(xs, keep) == xs
  {
    if xs != [] {
      FilterAll(xs[1..], keep);
    }
  }

  lemma {:induction false} FilterNone<T>(xs: seq<T>, keep: T -> bool)
    requires forall x :: x in xs ==> !keep(x)
    ensures Filter(xs, keep) == []
  {
    if xs != [] {
      FilterNone(xs[1..], keep);
    }
  }

  lemma {:induction false} MapAt<T, U>(xs: seq<T>, f: T -> U)
    ensures |Map(xs, f)| == |xs|
    ensures forall i :: 0 <= i < |xs| ==> Map(xs, f)[i] == f(xs[i])
  {
    if xs != [] {
      MapAt(xs[1..], f);
    }
  }

  lemma {:induction false} MapConcat<T, U>(xs: seq<T>, ys: seq<T>, f: T -> U)
    ensures Map(xs + ys, f) == Map(xs, f) + Map(ys, f)
  {
    if xs == [] {
      assert xs + ys == ys;
    } else {
      assert (xs + ys)[1..] == xs[1..] + ys;
      MapConcat(xs[1..], ys, f);
    }
  }

  lemma {:induction false} MapLast<T, U>(xs: seq<T>, f: T -> U)
    requires xs != []
    ensures Map(xs, f) == Map(xs[..|xs| - 1], f) + [f(xs[|xs| - 1])]
  {
    if |xs| > 1 {
      MapLast(xs[1..], f);
      assert xs[1..][..|xs| - 2] == xs[..|xs| - 1][1..];
    }
  }

  lemma {:induction false} MapAgree<T, U>(xs: seq<T>, f: T -> U, f': T -> U)
    requires forall x :: x in xs ==> f(x) == f'(x)
    ensures Map(xs, f) == Map(xs, f')
  {
    if xs != [] {
      MapAgree(xs[1..], f, f');
    }
  }

  lemma {:induction false} MapFilter<T, U>(xs: seq<T>, f: T -> U, keep: T -> bool, keepImage: U -> bool)
    requires forall x :: x in xs ==> keep(x) == keepImage(f(x))
    ensures Filter(Map(xs, f), keepImage) == Map(Filter(xs, keep), f)
  {
    if xs != [] {
      MapFilter(xs[1..], f, keep, keepImage);
      assert Map(xs, f)[1..] == Map(xs[1..], f);
      if keep(xs[0]) {
        assert Filter(xs, keep)[1..] == Filter(xs[1..], keep);
      }
    }
  }

  lemma {:induction false} MapPermuted<T, U>(xs: seq<T>, ys: seq<T>, f: T -> U)
    requires multiset(xs) == multiset(ys)
    ensures multiset(Map(xs, f)) == multiset(Map(ys, f))
    decreases |xs|
  {
    if xs == [] {
      assert |multiset(ys)| == 0;
      assert ys == [];
    } else {
      var i := IndexOf(ys, xs[0], multiset(xs));
      var rest := ys[..i] + ys[i + 1..];
      RemoveHead(xs, ys, i);
      MapPermuted(xs[1..], rest, f);
      MapConcat(ys[..i], ys[i + 1..], f);
      MapConcat(ys[..i], [ys[i]] + ys[i + 1..], f);
      MapConcat([ys[i]], ys[i + 1..], f);
      assert Map([ys[i]], f) == [f(ys[i])];
    }
  }

  lemma PermutedMembers<T>(xs: seq<T>, ys: seq<T>)
    requires multiset(xs) == multiset(ys)
    ensures forall x :: x in xs <==> x in ys
    ensures |xs| == |ys|
  {
    assert forall x :: x in xs <==> x in multiset(xs);
    assert forall x :: x in ys <==> x in multiset(ys);
    assert |multiset(xs)| == |multiset(ys)|;
  }

  /** A filter that keeps two positions keeps at least two elements. */
  lemma FilterTwo<T>(xs: seq<T>, keep: T -> bool, i: nat, j: nat)
    requires i < j < |xs| && keep(xs[i]) && keep(xs[j])
    ensures |Filter(xs, keep)| >= 2
  {
    assert xs == xs[..j] + xs[j..];
    FilterConcat(xs[..j], xs[j..], keep);
    assert xs[i] == xs[..j][i] && xs[j] == xs[j..][0];
    FilterMember(xs[..j], keep, xs[i]);
    FilterMember(xs[j..], keep, xs[j]);
  }

  /** Two elements of a list that some filter keeps exactly one of must be the same element. */
  lemma OnlyOneKept<T>(xs: seq<T>, keep: T -> bool, x: T, y: T)
    requires |Filter(xs, keep)| == 1
    requires x in xs && y in xs && keep(x) && keep(y)
    ensures x == y
  {
    FilterMember(xs, keep, x);
    FilterMember(xs, keep, y);
  }

  lemma {:induction false} MapMember<T, U>(xs: seq<T>, f: T -> U, y: U)
    ensures y in Map(xs, f) <==> exists x :: x in xs && f(x) == y
  {
    if xs != [] {
      MapMember(xs[1..], f, y);
      assert xs == [xs[0]] + xs[1..];
    }
  }

  ghost predicate Distinct<T>(xs: seq<T>) {
    forall i, j :: 0 <= i < j < |xs| ==> xs[i] != xs[j]
  }

  lemma {:induction false} FilterDistinct<T>(xs: seq<T>, keep: T -> bool)
    requires Distinct(xs)
    ensures Distinct(Filter(xs, keep))
  {
    if xs != [] {
      FilterDistinct(xs[1..], keep);
      FilterMember(xs[1..], keep, xs[0]);
    }
  }

  lemma {:induction false} DistinctPermuted<T>(xs: seq<T>, ys: seq<T>)
    requires multiset(xs) == multiset(ys) && Distinct(xs)
    ensures Distinct(ys)
    decreases |xs|
  {
    PermutedMembers(xs, ys);
    if xs != [] {
      var i := IndexOf(ys, xs[0], multiset(xs));
      var rest := ys[..i] + ys[i + 1..];
      RemoveHead(xs, ys, i);
      DistinctPermuted(xs[1..], rest);
      PermutedMembers(xs[1..], rest);
      forall j, k | 0 <= j < k < |ys| ensures ys[j] != ys[k] {
        var j', k' := if j < i then j else j - 1, if k < i then k else k - 1;
        if j != i {
          assert rest[j'] == ys[j] && ys[j] in rest;
        }
        if k != i {
          assert rest[k'] == ys[k] && ys[k] in rest;
        }
        assert ys[i] == xs[0] && xs[0] !in xs[1..];
      }
    }
  }

  lemma {:induction false} DistinctCount<T>(xs: seq<T>, x: T)
    requires Distinct(xs) && x in xs
    ensures multiset(xs)[x] == 1
  {
    assert xs == [xs[0]] + xs[1..];
    if x in xs[1..] {
      DistinctCount(xs[1..], x);
    }
  }

  lemma RepeatedCount<T>(xs: seq<T>, i: nat, j: nat)
    requires i < j < |xs| && xs[i] == xs[j]
    ensures multiset(xs)[xs[i]] >= 2
  {
    assert xs == xs[..j] + xs[j..];
    assert xs[i] == xs[..j][i] && xs[j] == xs[j..][0];
    assert multiset(xs) == multiset(xs[..j]) + multiset(xs[j..]);
    assert xs[i] in xs[..j] && xs[i] in xs[j..];
  }
}

/** Splitting a list into groups, and counting by class. */
module Partitions {
  import opened Sequences

  /** The elements of the listed groups, group after group. */
  function Grouped<T, G>(xs: seq<T>, groups: seq<G>, member: G -> T -> bool): seq<T> {
    if groups == [] then [] else Filter(xs, member(groups[0])) + Grouped(xs, groups[1..], member)
  }

  lemma {:induction false} GroupedConcat<T, G>(xs: seq<T>, ys: seq<T>, groups: seq<G>, member: G -> T -> bool)
    ensures multiset(Grouped(xs + ys, groups, member))
         == multiset(Grouped(xs, groups, member)) + multiset(Grouped(ys, groups, member))
  {
    if groups != [] {
      GroupedConcat(xs, ys, groups[1..], member);
      FilterConcat(xs, ys, member(groups[0]));
    }
  }

  lemma {:induction false} GroupedSingle<T, G>(x: T, groups: seq<G>, member: G -> T -> bool)
    requires forall i, j :: 0 <= i < j < |groups| ==> !(member(groups[i])(x) && member(groups[j])(x))
    ensures Grouped([x], groups, member) == if exists i :: 0 <= i < |groups| && member(groups[i])(x) then [x] else []
  {
    if groups != [] {
      GroupedSingle(x, groups[1..], member);
      assert Filter([x], member(groups[0])) == if member(groups[0])(x) then [x] else [];
      assert forall i :: 1 <= i < |groups| ==> groups[i] == groups[1..][i - 1];
      assert forall i :: 0 <= i < |groups| - 1 ==> groups[1..][i] == groups[i + 1];
    }
  }

  ghost predicate InOneGroup<T, G>(x: T, groups: seq<G>, member: G -> T -> bool) {
    && (forall i, j :: 0 <= i < j < |groups| ==> !(member(groups[i])(x) && member(groups[j])(x)))
    && exists i :: 0 <= i < |groups| && member(groups[i])(x)
  }

  /** Groups that each element is in exactly one of lose and repeat nothing. */
  lemma {:induction false} GroupedPartition<T, G>(xs: seq<T>, groups: seq<G>, member: G -> T -> bool)
    requires forall x :: x in xs ==> InOneGroup(x, groups, member)
    ensures multiset(Grouped(xs, groups, member)) == multiset(xs)
  {
    if xs == [] {
      GroupedEmpty(groups, member);
    } else {
      assert xs == [xs[0]] + xs[1..];
      GroupedPartition(xs[1..], groups, member);
      GroupedConcat([xs[0]], xs[1..], groups, member);
      assert InOneGroup(xs[0], groups, member);
      GroupedSingle(xs[0], groups, member);
    }
  }

  lemma {:induction false} GroupedEmpty<T, G>(groups: seq<G>, member: G -> T -> bool)
    ensures Grouped([], groups, member) == []
  {
    if groups != [] {
      GroupedEmpty(groups[1..], member);
    }
  }

  lemma {:induction false} GroupedStep<T, G>(xs: seq<T>, groups: seq<G>, last: G, member: G -> T -> bool)
    ensures Grouped(xs, groups + [last], member) == Grouped(xs, groups, member) + Filter(xs, member(last))
  {
    if groups == [] {
      assert [last][1..] == [];
      assert groups + [last] == [last];
    } else {
      assert (groups + [last])[1..] == groups[1..] + [last];
      GroupedStep(xs, groups[1..], last, member);
    }
  }

  function SumCounts<T, G>(xs: seq<T>, groups: seq<G>, member: G -> T -> bool): nat {
    if groups == [] then 0 else |Filter(xs, member(groups[0]))| + SumCounts(xs, groups[1..], member)
  }

  lemma {:induction false} GroupedSize<T, G>(xs: seq<T>, groups: seq<G>, member: G -> T -> bool)
    ensures |Grouped(xs, groups, member)| == SumCounts(xs, groups, member)
  {
    if groups != [] {
      GroupedSize(xs, groups[1..], member);
    }
  }

  lemma {:induction false} SumCountsAgree<T, G>(xs: seq<T>, ys: seq<T>, groups: seq<G>, member: G -> T -> bool,
                                                part: G -> T -> bool)
    requires forall g :: Filter(xs, member(g)) == Filter(ys, part(g))
    ensures SumCounts(xs, groups, member) == SumCounts(ys, groups, part)
  {
    if groups != [] {
      SumCountsAgree(xs, ys, groups[1..], member, part);
    }
  }

  /** Counts over a complete list of classes add up to the count without them. */
  lemma CountPartition<T, G(!new)>(xs: seq<T>, keep: T -> bool, classOf: T -> G, classes: seq<G>, part: G -> T -> bool)
    requires Distinct(classes)
    requires forall x :: x in xs && keep(x) ==> classOf(x) in classes
    requires forall c, x :: part(c)(x) <==> keep(x) && classOf(x) == c
    ensures SumCounts(xs, classes, part) == |Filter(xs, keep)|
  {
    var kept := Filter(xs, keep);
    var member := (c: G) => (x: T) => classOf(x) == c;
    forall x | x in kept ensures InOneGroup(x, classes, member) {
      FilterMember(xs, keep, x);
      var i :| 0 <= i < |classes| && classes[i] == classOf(x);
      assert member(classes[i])(x);
    }
    GroupedPartition(kept, classes, member);
    PermutedMembers(Grouped(kept, classes, member), kept);
    GroupedSize(kept, classes, member);
    forall c ensures Filter(kept, member(c)) == Filter(xs, part(c)) {
      FilterBoth(xs, keep, member(c), part(c));
    }
    SumCountsAgree(kept, xs, classes, member, part);
  }
}
