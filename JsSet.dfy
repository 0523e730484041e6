/** JavaScript's `Set` as the core uses it: `[...new Set(xs)]` builds a set
    from a list, one element after the other in insertion order, and spreads
    it back into a list. A set is modelled by the duplicate-free sequence of
    its elements in insertion order. */
module JsSet {

  /** No element occurs twice. */
  predicate NoDup<T(==)>(s: seq<T>)
  {
    forall i, j :: 0 <= i < j < |s| ==> s[i] != s[j]
  }

  /** `set.add(x)`: a new element goes to the end; a present one changes nothing. */
  function Add<T(==)>(s: seq<T>, x: T): seq<T>
  {
    if x in s then s else s + [x]
  }

  /** Adds the elements of `xs` to `s`, first to last. */
  function AddAll<T(==)>(s: seq<T>, xs: seq<T>): seq<T>
    decreases |xs|
  {
    if |xs| == 0 then s
    else Add(AddAll(s, xs[..|xs| - 1]), xs[|xs| - 1])
  }

  /** Adding keeps what was there as a prefix, adds no duplicate, and holds
      exactly the old and the added elements. */
  lemma {:induction false} AddAllProperties<T(!new)>(s: seq<T>, xs: seq<T>)
    ensures var r := AddAll(s, xs);
      && |s| <= |r| && r[..|s|] == s
      && (NoDup(s) ==> NoDup(r))
      && forall y :: y in r <==> y in s || y in xs
    decreases |xs|
  {
    if |xs| > 0 {
      var init, x := xs[..|xs| - 1], xs[|xs| - 1];
      AddAllProperties(s, init);
      var r0 := AddAll(s, init);
      assert xs == init + [x];
      if x !in r0 {
        assert (r0 + [x])[..|s|] == r0[..|s|];
      }
    }
  }

  /** `[...new Set(xs)]`: no duplicates, and exactly the elements of `xs`. */
  function FromSeq<T(==,!new)>(xs: seq<T>): (r: seq<T>)
    ensures NoDup(r)
    ensures forall y :: y in r <==> y in xs
  {
    AddAllProperties([], xs);
    AddAll([], xs)
  }

  /** The index of the first occurrence of `x` in `xs`. */
  function FirstIndex<T(==)>(xs: seq<T>, x: T): (k: nat)
    requires x in xs
    ensures k < |xs| && xs[k] == x
    ensures forall j :: 0 <= j < k ==> xs[j] != x
  {
    if xs[0] == x then 0 else 1 + FirstIndex(xs[1..], x)
  }

  /** Adding the elements of `a + b` is adding those of `a`, then those of `b`. */
  lemma {:induction false} AddAllConcat<T(!new)>(s: seq<T>, a: seq<T>, b: seq<T>)
    ensures AddAll(s, a + b) == AddAll(AddAll(s, a), b)
    decreases |b|
  {
    if |b| == 0 {
      assert a + b == a;
    } else {
      var ab := a + b;
      assert ab[..|ab| - 1] == a + b[..|b| - 1];
      assert ab[|ab| - 1] == b[|b| - 1];
      AddAllConcat(s, a, b[..|b| - 1]);
    }
  }

  /** Adding elements that are all present already changes nothing. */
  lemma {:induction false} AddAllPresent<T(!new)>(s: seq<T>, xs: seq<T>)
    requires forall y :: y in xs ==> y in s
    ensures AddAll(s, xs) == s
    decreases |xs|
  {
    if |xs| > 0 {
      var init := xs[..|xs| - 1];
      assert forall y :: y in init ==> y in xs;
      AddAllPresent(s, init);
      assert xs[|xs| - 1] in xs;
    }
  }

  /** A duplicate-free list passes through the set unchanged. */
  lemma {:induction false} FromSeqOfNoDup<T(!new)>(xs: seq<T>)
    requires NoDup(xs)
    ensures FromSeq(xs) == xs
    decreases |xs|
  {
    if |xs| > 0 {
      var init := xs[..|xs| - 1];
      assert NoDup(init);
      FromSeqOfNoDup(init);
      assert xs[|xs| - 1] !in init;
      assert init + [xs[|xs| - 1]] == xs;
    }
  }

  /** The first index is the one before which `x` does not occur. */
  lemma FirstIndexUnique<T>(xs: seq<T>, x: T, k: nat)
    requires k < |xs| && xs[k] == x
    requires forall j :: 0 <= j < k ==> xs[j] != x
    ensures FirstIndex(xs, x) == k
  {
  }

  /** Before the last element, the first occurrence is found in the prefix. */
  lemma FirstIndexInPrefix<T>(xs: seq<T>, x: T, n: nat)
    requires n <= |xs| && x in xs[..n]
    ensures FirstIndex(xs, x) == FirstIndex(xs[..n], x)
  {
    var k := FirstIndex(xs[..n], x);
    assert xs[k] == x;
    forall j | 0 <= j < k ensures xs[j] != x {
      assert xs[j] == xs[..n][j];
    }
    FirstIndexUnique(xs, x, k);
  }

  /** The result lists the elements in the order of their first occurrence in
      the input. */
  lemma {:induction false} FromSeqFirstOccurrenceOrder<T(!new)>(xs: seq<T>)
    ensures forall i, j :: 0 <= i < j < |FromSeq(xs)| ==>
      FirstIndex(xs, FromSeq(xs)[i]) < FirstIndex(xs, FromSeq(xs)[j])
    decreases |xs|
  {
    if |xs| > 0 {
      var n := |xs| - 1;
      var init, x := xs[..n], xs[n];
      var r := FromSeq(init);
      FromSeqFirstOccurrenceOrder(init);
      assert FromSeq(xs) == Add(r, x);
      forall y | y in r ensures FirstIndex(xs, y) == FirstIndex(init, y) < n {
        FirstIndexInPrefix(xs, y, n);
      }
      if x !in r {
        assert x !in init;
        assert FirstIndex(xs, x) == n;
      }
      forall i, j | 0 <= i < j < |FromSeq(xs)|
        ensures FirstIndex(xs, FromSeq(xs)[i]) < FirstIndex(xs, FromSeq(xs)[j])
      {
        assert FromSeq(xs)[i] == r[i];
        if j < |r| {
          assert FromSeq(xs)[j] == r[j];
        }
      }
    }
  }
}
