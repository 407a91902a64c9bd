/** Facts about Python lists used as ordered collections: duplicate-freedom,
    list.index, the "append if absent" merge, comprehension filters and
    list.remove, and the search for the first acceptable answer. */
module Seqs {
  import opened Wrappers

  /** No element occurs twice. */
  predicate NoDup<T(==)>(s: seq<T>) {
    forall i, j :: 0 <= i < j < |s| ==> s[i] != s[j]
  }

  /** The position of the first occurrence of x in s (Python's list.index). */
  function FirstIndex<T(==)>(s: seq<T>, x: T): (k: nat)
    requires x in s
    ensures k < |s| && s[k] == x && x !in s[..k]
  {
    if s[0] == x then 0
    else
      var k := 1 + FirstIndex(s[1..], x);
      assert s[..k] == [s[0]] + s[1..][..k - 1];
      k
  }

  lemma {:induction false} FirstIndexPrefix<T>(s: seq<T>, t: seq<T>, x: T)
    requires x in s
    ensures x in s + t && FirstIndex(s + t, x) == FirstIndex(s, x)
  {
    if s[0] != x {
      assert (s + t)[1..] == s[1..] + t;
      FirstIndexPrefix(s[1..], t, x);
    }
  }

  /** a is obtained from b by deleting elements: it keeps b's order. */
  ghost predicate IsSubsequence<T>(a: seq<T>, b: seq<T>)
    decreases |b|
  {
    a == [] || (b != [] && ((a[0] == b[0] && IsSubsequence(a[1..], b[1..])) || IsSubsequence(a, b[1..])))
  }

  lemma {:induction false} SubsequenceExtend<T>(a: seq<T>, b: seq<T>, x: T)
    requires IsSubsequence(a, b)
    ensures IsSubsequence(a, b + [x]) && IsSubsequence(a + [x], b + [x])
    decreases |b|
  {
    if b == [] {
      assert a == [];
      assert ([x] + [])[1..] == [];
    } else {
      assert (b + [x])[1..] == b[1..] + [x];
      if a == [] {
        assert a + [x] == [x];
        SubsequenceSingleLast(b, x);
      } else {
        assert (a + [x])[1..] == a[1..] + [x];
        if a[0] == b[0] && IsSubsequence(a[1..], b[1..]) {
          SubsequenceExtend(a[1..], b[1..], x);
        } else {
          SubsequenceExtend(a, b[1..], x);
        }
      }
    }
  }

  lemma {:induction false} SubsequenceSingleLast<T>(b: seq<T>, x: T)
    ensures IsSubsequence([x], b + [x])
    decreases |b|
  {
    if b == [] {
      assert ([x] + [])[1..] == [];
    } else {
      assert (b + [x])[1..] == b[1..] + [x];
      SubsequenceSingleLast(b[1..], x);
    }
  }

  /** `known` after appending, in order, each item of xs that is not yet in
      the list: the loop `for x in xs: if x not in known: known.append(x)`. */
  function AppendAbsent<T(==)>(known: seq<T>, xs: seq<T>): seq<T>
    decreases |xs|
  {
    if xs == [] then known
    else
      var prev := AppendAbsent(known, xs[..|xs| - 1]);
      if xs[|xs| - 1] in prev then prev else prev + [xs[|xs| - 1]]
  }

  /** Merging a + b is merging a, then b. */
  lemma {:induction false} AppendAbsentConcat<T>(known: seq<T>, a: seq<T>, b: seq<T>)
    ensures AppendAbsent(known, a + b) == AppendAbsent(AppendAbsent(known, a), b)
    decreases |b|
  {
    if b == [] {
      assert a + b == a;
    } else {
      var b' := b[..|b| - 1];
      assert (a + b)[..|a + b| - 1] == a + b';
      assert (a + b)[|a + b| - 1] == b[|b| - 1];
      AppendAbsentConcat(known, a, b');
    }
  }

  /** The items of `part` come from xs and appear in the order in which
      they are first met in xs. */
  ghost predicate InFirstSeenOrder<T>(part: seq<T>, xs: seq<T>) {
    (forall i :: 0 <= i < |part| ==> part[i] in xs) &&
    forall i, j :: 0 <= i < j < |part| ==> FirstIndex(xs, part[i]) < FirstIndex(xs, part[j])
  }

  /** What the merge loop promises: the old list is kept as a prefix, no
      new duplicates appear, the result holds exactly the old items and the
      new ones, and the new ones follow in first-seen order. */
  lemma {:induction false} AppendAbsentSpec<T>(known: seq<T>, xs: seq<T>)
    ensures var r := AppendAbsent(known, xs);
      && |known| <= |r| && r[..|known|] == known
      && (NoDup(known) ==> NoDup(r))
      && (forall x :: x in r <==> x in known || x in xs)
      && (forall i :: |known| <= i < |r| ==> r[i] !in known)
      && InFirstSeenOrder(r[|known|..], xs)
    decreases |xs|
  {
    if xs != [] {
      var ys, y := xs[..|xs| - 1], xs[|xs| - 1];
      assert xs == ys + [y];
      AppendAbsentSpec(known, ys);
      var prev := AppendAbsent(known, ys);
      var r := AppendAbsent(known, xs);
      var oldPart := prev[|known|..];
      forall i | 0 <= i < |oldPart|
        ensures oldPart[i] in xs && FirstIndex(xs, oldPart[i]) == FirstIndex(ys, oldPart[i])
      {
        FirstIndexPrefix(ys, [y], oldPart[i]);
      }
      if y !in prev {
        assert r == prev + [y];
        assert r[|known|..] == oldPart + [y];
        assert y !in ys;
        assert forall i | 0 <= i < |ys| :: xs[i] == ys[i] != y;
        assert FirstIndex(xs, y) == |ys|;
      } else {
        assert r == prev;
      }
    }
  }

  /** The loop itself, on a list held in a local variable. */
  method AppendEachAbsent<T(==)>(known: seq<T>, xs: seq<T>) returns (r: seq<T>)
    ensures r == AppendAbsent(known, xs)
  {
    r := known;
    for j := 0 to |xs|
      invariant r == AppendAbsent(known, xs[..j])
    {
      if xs[j] !in r {
        r := r + [xs[j]];
      }
      assert xs[..j + 1][..j] == xs[..j];
    }
    assert xs[..|xs|] == xs;
  }

  /** Re-adding items that are all present leaves the list unchanged. */
  lemma {:induction false} AppendAbsentKnown<T>(known: seq<T>, xs: seq<T>)
    requires forall i :: 0 <= i < |xs| ==> xs[i] in known
    ensures AppendAbsent(known, xs) == known
    decreases |xs|
  {
    if xs != [] {
      AppendAbsentKnown(known, xs[..|xs| - 1]);
    }
  }

  /** The elements of s satisfying p, in s's order (a filtering list
      comprehension): every element that satisfies p is kept as often as it
      occurs, every other one is dropped. */
  function Filter<T(==)>(s: seq<T>, p: T -> bool): (r: seq<T>)
    ensures |r| <= |s|
    ensures forall i :: 0 <= i < |r| ==> r[i] in s && p(r[i])
    ensures forall i :: 0 <= i < |s| && p(s[i]) ==> s[i] in r
    ensures forall x | x in multiset(s) :: multiset(r)[x] == if p(x) then multiset(s)[x] else 0
  {
    if s == [] then []
    else
      assert s == [s[0]] + s[1..];
      if p(s[0]) then [s[0]] + Filter(s[1..], p)
      else Filter(s[1..], p)
  }

  lemma {:induction false} FilterIsSubsequence<T>(s: seq<T>, p: T -> bool)
    ensures IsSubsequence(Filter(s, p), s)
  {
    if s != [] {
      FilterIsSubsequence(s[1..], p);
      var f := Filter(s[1..], p);
      if !p(s[0]) && f != [] {
        assert f[0] in f;
      }
    }
  }

  /** A filter that drops exactly the value d shortens s by the number of
      copies of d in it. */
  lemma {:induction false} FilterDropsOnly<T>(s: seq<T>, p: T -> bool, d: T)
    requires forall x :: p(x) <==> x != d
    ensures |Filter(s, p)| == |s| - multiset(s)[d]
  {
    if s != [] {
      FilterDropsOnly(s[1..], p, d);
      assert s == [s[0]] + s[1..];
      if s[0] == d {
        assert !p(s[0]);
        assert Filter(s, p) == Filter(s[1..], p);
        assert multiset(s)[d] == multiset(s[1..])[d] + 1;
      } else {
        assert p(s[0]);
        assert Filter(s, p) == [s[0]] + Filter(s[1..], p);
        assert multiset(s)[d] == multiset(s[1..])[d];
      }
    }
  }

  /** In a duplicate-free list no item occurs before its own position. */
  lemma NoDupPrefixAbsent<T>(s: seq<T>, k: nat)
    requires NoDup(s) && k < |s|
    ensures s[k] !in s[..k]
    ensures s[..k + 1] == s[..k] + [s[k]]
  {
    assert forall i | 0 <= i < k :: s[..k][i] == s[i] != s[k];
  }

  /** In a duplicate-free list, index(s[k]) is k. */
  lemma NoDupFirstIndex<T>(s: seq<T>, k: nat)
    requires NoDup(s) && k < |s|
    ensures FirstIndex(s, s[k]) == k
  {
    var j := FirstIndex(s, s[k]);
    assert s[j] == s[k];
  }

  /** The position of the first element that satisfies p, if there is one. */
  function FirstWhere<T>(s: seq<T>, p: T -> bool): (r: Option<nat>)
    ensures r.Some? ==> r.value < |s| && p(s[r.value])
    ensures r.Some? ==> forall j :: 0 <= j < r.value ==> !p(s[j])
    ensures r.None? ==> forall j :: 0 <= j < |s| ==> !p(s[j])
  {
    if s == [] then None
    else if p(s[0]) then Some(0)
    else match FirstWhere(s[1..], p)
      case None => None
      case Some(k) => Some(k + 1)
  }

  /** A search that stopped at i, having rejected everything before it,
      found what FirstWhere finds. */
  lemma FirstWhereAt<T>(s: seq<T>, p: T -> bool, i: nat)
    requires i <= |s| && forall j :: 0 <= j < i ==> !p(s[j])
    requires i < |s| ==> p(s[i])
    ensures FirstWhere(s, p) == if i < |s| then Some(i) else None
  {
  }

  /** The `while True` loop that asks again until an answer is accepted:
      the position of the accepted answer, or |s| when none is. */
  method FindFirst<T>(s: seq<T>, p: T -> bool) returns (i: nat)
    ensures i <= |s|
    ensures FirstWhere(s, p) == if i < |s| then Some(i) else None
  {
    i := 0;
    while i < |s| && !p(s[i])
      invariant i <= |s|
      invariant forall j :: 0 <= j < i ==> !p(s[j])
    {
      i := i + 1;
    }
    FirstWhereAt(s, p, i);
  }

  /** The list after Python's list.remove(x): its first occurrence is gone. */
  function RemoveFirst<T(==)>(s: seq<T>, x: T): seq<T>
  {
    if s == [] then []
    else if s[0] == x then s[1..]
    else [s[0]] + RemoveFirst(s[1..], x)
  }

  /** list.remove deletes exactly the element at list.index(x) and keeps the
      rest in order. */
  lemma {:induction false} RemoveFirstSlice<T>(s: seq<T>, x: T)
    requires x in s
    ensures RemoveFirst(s, x) == s[..FirstIndex(s, x)] + s[FirstIndex(s, x) + 1..]
  {
    if s[0] != x {
      RemoveFirstSlice(s[1..], x);
      var k := FirstIndex(s[1..], x);
      assert s[..k + 1] == [s[0]] + s[1..][..k];
      assert s[k + 2..] == s[1..][k + 1..];
    }
  }

  /** list.remove takes one x out of the multiset of items. */
  lemma RemoveFirstMultiset<T>(s: seq<T>, x: T)
    requires x in s
    ensures multiset(RemoveFirst(s, x)) == multiset(s) - multiset{x}
  {
    RemoveFirstSlice(s, x);
    var k := FirstIndex(s, x);
    assert s == s[..k] + [s[k]] + s[k + 1..];
  }

  /** Removing from a duplicate-free list leaves it duplicate-free and
      without x. */
  lemma {:induction false} RemoveFirstNoDup<T>(s: seq<T>, x: T)
    requires NoDup(s) && x in s
    ensures NoDup(RemoveFirst(s, x)) && x !in RemoveFirst(s, x)
  {
    assert s == [s[0]] + s[1..];
    if s[0] == x {
      assert forall i | 0 <= i < |s| - 1 :: s[1..][i] == s[i + 1] != s[0];
    } else {
      RemoveFirstNoDup(s[1..], x);
      RemoveFirstMultiset(s[1..], x);
      var r' := RemoveFirst(s[1..], x);
      assert s[0] !in s[1..] by {
        assert forall i | 0 <= i < |s| - 1 :: s[1..][i] == s[i + 1] != s[0];
      }
      assert s[0] !in multiset(r');
    }
  }

  /** The items of a list of lists joined end to end. */
  function Flatten<T>(ss: seq<seq<T>>): (r: seq<T>)
    ensures forall i, k :: 0 <= i < |ss| && 0 <= k < |ss[i]| ==> ss[i][k] in r
    decreases |ss|
  {
    if ss == [] then []
    else Flatten(ss[..|ss| - 1]) + ss[|ss| - 1]
  }

  /** f applied to each element, in order. */
  function Map<A, B>(s: seq<A>, f: A -> B): (r: seq<B>)
    ensures |r| == |s| && forall i :: 0 <= i < |s| ==> r[i] == f(s[i])
  {
    seq(|s|, i requires 0 <= i < |s| => f(s[i]))
  }

  /** Appending one element adds its mapped list at the end of the flattening. */
  lemma FlattenMapSnoc<A, T>(s: seq<A>, x: A, f: A -> seq<T>)
    ensures Flatten(Map(s + [x], f)) == Flatten(Map(s, f)) + f(x)
  {
    var ls := Map(s + [x], f);
    assert ls[..|ls| - 1] == Map(s, f);
  }
}
