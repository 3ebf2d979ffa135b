/**
 * Small value types shared by the client-record model, and the
 * order-preserving filter that JavaScript's `Array.prototype.filter`
 * performs, with the facts about it the rest of the model relies on.
 */
module Basics {

  /** A JavaScript value that may be `null`/`undefined`. */
  datatype Option<+T> = None | Some(value: T)

  /** The outcome of a validation: the value, or the errors found. */
  datatype Result<+T, +E> = Ok(value: T) | Err(error: E)

  /**
   * A key of an object literal that may be left out: spreading an object
   * whose key is `Omitted` keeps the earlier value, a `Given` key
   * overwrites it (even when the given value is `null`/`undefined`).
   */
  datatype Field<+T> = Omitted | Given(value: T)

  /** Keeps the elements of `s` that satisfy `p`, in their original order. */
  function Filter<T>(p: T -> bool, s: seq<T>): (r: seq<T>)
    ensures |r| <= |s|
  {
    if s == [] then []
    else if p(s[0]) then [s[0]] + Filter(p, s[1..])
    else Filter(p, s[1..])
  }

  /** The filter keeps exactly the elements that pass the test. */
  lemma {:induction false} FilterMembers<T(!new)>(p: T -> bool, s: seq<T>)
    ensures forall x :: x in Filter(p, s) <==> x in s && p(x)
  {
    if s != [] {
      FilterMembers(p, s[1..]);
      assert forall x :: x in s <==> x == s[0] || x in s[1..];
    }
  }

  /** The filter keeps every passing element as often as it occurs, and no other. */
  lemma {:induction false} FilterMultiplicity<T(!new)>(p: T -> bool, s: seq<T>)
    ensures forall x :: multiset(Filter(p, s))[x] == if p(x) then multiset(s)[x] else 0
  {
    if s != [] {
      FilterMultiplicity(p, s[1..]);
      assert s == [s[0]] + s[1..];
    }
  }

  /** `r` can be obtained from `s` by deleting elements (order is kept). */
  predicate IsSubseq<T(==,!new)>(r: seq<T>, s: seq<T>)
    decreases |s|
  {
    r == [] ||
    (s != [] && ((r[0] == s[0] && IsSubseq(r[1..], s[1..])) || IsSubseq(r, s[1..])))
  }

  /** Filtering never reorders: its result is a subsequence of the input. */
  lemma {:induction false} FilterIsSubseq<T(!new)>(p: T -> bool, s: seq<T>)
    ensures IsSubseq(Filter(p, s), s)
  {
    if s != [] {
      FilterIsSubseq(p, s[1..]);
      var r := Filter(p, s);
      if p(s[0]) {
        assert r[0] == s[0] && r[1..] == Filter(p, s[1..]);
      }
    }
  }

  /** Filtering a concatenation filters each part and keeps them in order. */
  lemma {:induction false} FilterAppend<T(!new)>(p: T -> bool, a: seq<T>, b: seq<T>)
    ensures Filter(p, a + b) == Filter(p, a) + Filter(p, b)
  {
    if a == [] {
      assert a + b == b;
    } else {
      assert (a + b)[0] == a[0];
      assert (a + b)[1..] == a[1..] + b;
      FilterAppend(p, a[1..], b);
    }
  }

  /** A filter that every element passes returns its input unchanged. */
  lemma {:induction false} FilterKeepsAll<T(!new)>(p: T -> bool, s: seq<T>)
    requires forall i | 0 <= i < |s| :: p(s[i])
    ensures Filter(p, s) == s
  {
    if s != [] {
      FilterKeepsAll(p, s[1..]);
      assert [s[0]] + s[1..] == s;
    }
  }

  /** A filter that no element passes returns the empty sequence. */
  lemma {:induction false} FilterDropsAll<T(!new)>(p: T -> bool, s: seq<T>)
    requires forall i | 0 <= i < |s| :: !p(s[i])
    ensures Filter(p, s) == []
  {
    if s != [] {
      FilterDropsAll(p, s[1..]);
    }
  }

  /** Filtering a one-element list keeps it exactly when its element passes. */
  lemma FilterOne<T>(p: T -> bool, x: T)
    ensures p(x) ==> Filter(p, [x]) == [x]
    ensures !p(x) ==> Filter(p, [x]) == []
  {
    assert [x][1..] == [];
  }

  /** Filtering four elements filters each on its own, in order. */
  lemma FilterFour<T(!new)>(p: T -> bool, a: T, b: T, c: T, d: T)
    ensures Filter(p, [a, b, c, d]) == Filter(p, [a]) + Filter(p, [b]) + Filter(p, [c]) + Filter(p, [d])
  {
    assert [a, b, c, d] == [a] + [b] + [c] + [d];
    FilterAppend(p, [a] + [b] + [c], [d]);
    FilterAppend(p, [a] + [b], [c]);
    FilterAppend(p, [a], [b]);
  }

  /** When exactly the element at `k` fails the test, filtering removes just that element. */
  lemma FilterRemovesOne<T(!new)>(p: T -> bool, s: seq<T>, k: nat)
    requires k < |s| && !p(s[k])
    requires forall i | 0 <= i < |s| && i != k :: p(s[i])
    ensures Filter(p, s) == s[..k] + s[k + 1..]
  {
    FilterKeepsSlice(p, s, 0, k, k);
    FilterKeepsSlice(p, s, k + 1, |s|, k);
    SplitAround(s, k);
    FilterSplice(p, s[..k], s[k], s[k + 1..]);
  }

  /** A sequence is its part before `k`, its element at `k` and its part after `k`. */
  lemma SplitAround<T>(s: seq<T>, k: nat)
    requires k < |s|
    ensures s[0..k] == s[..k] && s[k + 1..|s|] == s[k + 1..]
    ensures s == s[..k] + ([s[k]] + s[k + 1..])
  {
  }

  /** A failing element between two parts the filter keeps whole is the only thing dropped. */
  lemma FilterSplice<T(!new)>(p: T -> bool, front: seq<T>, x: T, back: seq<T>)
    requires Filter(p, front) == front && Filter(p, back) == back && !p(x)
    ensures Filter(p, front + ([x] + back)) == front + back
  {
    FilterAppend(p, front, [x] + back);
    FilterCons(p, x, back);
  }

  /** A slice that avoids the one failing position is kept whole by the filter. */
  lemma FilterKeepsSlice<T(!new)>(p: T -> bool, s: seq<T>, lo: nat, hi: nat, k: nat)
    requires lo <= hi <= |s| && (k < lo || hi <= k)
    requires forall i | 0 <= i < |s| && i != k :: p(s[i])
    ensures Filter(p, s[lo..hi]) == s[lo..hi]
  {
    forall j | 0 <= j < hi - lo ensures p(s[lo..hi][j]) {
      assert s[lo..hi][j] == s[lo + j];
    }
    FilterKeepsAll(p, s[lo..hi]);
  }

  /** Filtering a sequence that starts with `x` decides `x` and filters the rest. */
  lemma FilterCons<T>(p: T -> bool, x: T, t: seq<T>)
    ensures Filter(p, [x] + t) == (if p(x) then [x] else []) + Filter(p, t)
  {
    assert ([x] + t)[1..] == t;
  }

  /** Putting the same element in front of two sequences keeps a relation between their filters. */
  lemma FilterConsShift<T>(p: T -> bool, h: T, t: seq<T>, rest: seq<T>, tail: seq<T>)
    requires Filter(p, t) == Filter(p, rest) + tail
    ensures Filter(p, [h] + t) == Filter(p, [h] + rest) + tail
  {
    var k := if p(h) then [h] else [];
    calc {
      Filter(p, [h] + t);
      { FilterCons(p, h, t); }
      k + Filter(p, t);
      k + (Filter(p, rest) + tail);
      (k + Filter(p, rest)) + tail;
      { FilterCons(p, h, rest); }
      Filter(p, [h] + rest) + tail;
    }
  }

  /** Filtering a non-empty list is filtering its front, then its last element. */
  lemma FilterSnoc<T(!new)>(p: T -> bool, s: seq<T>)
    requires s != []
    ensures Filter(p, s) == Filter(p, s[..|s| - 1]) + Filter(p, [s[|s| - 1]])
  {
    assert s == s[..|s| - 1] + [s[|s| - 1]];
    FilterAppend(p, s[..|s| - 1], [s[|s| - 1]]);
  }
}
