/**
 Sequences as histories: order-preserving merges, filters by key, and the
 bounded FIFO that the ring queue implements.
 */
module Seqs {

  datatype Option<+T> = None | Some(value: T)

  datatype Result<+T, +E> = Ok(value: T) | Err(error: E)

  function Last<T>(s: seq<T>): T
    requires s != []
  {
    s[|s| - 1]
  }

  function Front<T>(s: seq<T>): seq<T>
    requires s != []
  {
    s[..|s| - 1]
  }

  /** `c` interleaves `a` and `b`, keeping the order inside each of them. */
  ghost predicate Merge<T>(a: seq<T>, b: seq<T>, c: seq<T>)
    decreases |c|
  {
    if c == [] then a == [] && b == []
    else
      || (a != [] && Last(a) == Last(c) && Merge(Front(a), b, Front(c)))
      || (b != [] && Last(b) == Last(c) && Merge(a, Front(b), Front(c)))
  }

  lemma FrontAppend<T>(s: seq<T>, x: T)
    ensures Front(s + [x]) == s && Last(s + [x]) == x
  {
  }

  lemma Regroup<T>(a: seq<T>, b: seq<T>, c: seq<T>)
    ensures a + (b + c) == (a + b) + c
  {
  }

  lemma FrontLast<T>(s: seq<T>)
    requires s != []
    ensures s == Front(s) + [Last(s)]
  {
  }

  lemma MergeLeft<T>(a: seq<T>, b: seq<T>, c: seq<T>, x: T)
    requires Merge(a, b, c)
    ensures Merge(a + [x], b, c + [x])
  {
    FrontAppend(a, x);
    FrontAppend(c, x);
  }

  lemma MergeRight<T>(a: seq<T>, b: seq<T>, c: seq<T>, x: T)
    requires Merge(a, b, c)
    ensures Merge(a, b + [x], c + [x])
  {
    FrontAppend(b, x);
    FrontAppend(c, x);
  }

  lemma {:induction false} MergeCounts<T>(a: seq<T>, b: seq<T>, c: seq<T>)
    requires Merge(a, b, c)
    ensures |a| + |b| == |c|
    ensures multiset(a) + multiset(b) == multiset(c)
    decreases |c|
  {
    if c != [] {
      assert c == Front(c) + [Last(c)];
      if a != [] && Last(a) == Last(c) && Merge(Front(a), b, Front(c)) {
        assert a == Front(a) + [Last(a)];
        MergeCounts(Front(a), b, Front(c));
      } else {
        assert b == Front(b) + [Last(b)];
        MergeCounts(a, Front(b), Front(c));
      }
    }
  }

  /** Nothing on the right: the merge is the left sequence itself. */
  lemma {:induction false} MergeNothing<T>(a: seq<T>, c: seq<T>)
    ensures Merge(a, [], c) <==> a == c
    decreases |c|
  {
    if c != [] {
      assert c == Front(c) + [Last(c)];
      if a != [] {
        assert a == Front(a) + [Last(a)];
        MergeNothing(Front(a), Front(c));
      }
    } else {
      assert a == c <==> a == [];
    }
  }

  /** Merging in two stages: what is lost in the second stage joins what was
      lost in the first one. */
  lemma {:induction false} MergeTwice<T>(a1: seq<T>, a2: seq<T>, a: seq<T>, b: seq<T>, c: seq<T>)
    returns (d: seq<T>)
    requires Merge(a1, a2, a) && Merge(a, b, c)
    ensures Merge(a1, d, c) && Merge(a2, b, d)
    decreases |c|
  {
    if c == [] {
      d := [];
    } else if a != [] && Last(a) == Last(c) && Merge(Front(a), b, Front(c)) {
      var x := Last(c);
      if a1 != [] && Last(a1) == x && Merge(Front(a1), a2, Front(a)) {
        d := MergeTwice(Front(a1), a2, Front(a), b, Front(c));
      } else {
        d := MergeTwice(a1, Front(a2), Front(a), b, Front(c));
        MergeRight(a1, d, Front(c), x);
        MergeLeft(Front(a2), b, d, x);
        assert a2 == Front(a2) + [x] && c == Front(c) + [x];
        d := d + [x];
      }
    } else {
      var x := Last(c);
      d := MergeTwice(a1, a2, a, Front(b), Front(c));
      MergeRight(a1, d, Front(c), x);
      MergeRight(a2, Front(b), d, x);
      assert b == Front(b) + [x] && c == Front(c) + [x];
      d := d + [x];
    }
  }

  /** The elements of `s` that satisfy `p`, in order. */
  function Filter<T>(s: seq<T>, p: T -> bool): seq<T> {
    if s == [] then []
    else Filter(Front(s), p) + if p(Last(s)) then [Last(s)] else []
  }

  lemma FilterAppend1<T>(s: seq<T>, x: T, p: T -> bool)
    ensures Filter(s + [x], p) == Filter(s, p) + if p(x) then [x] else []
  {
    FrontAppend(s, x);
  }

  lemma {:induction false} FilterAppend<T>(s: seq<T>, t: seq<T>, p: T -> bool)
    ensures Filter(s + t, p) == Filter(s, p) + Filter(t, p)
    decreases |t|
  {
    if t == [] {
      assert s + t == s;
    } else {
      FilterAppend(s, Front(t), p);
      assert s + t == (s + Front(t)) + [Last(t)];
      FilterAppend1(s + Front(t), Last(t), p);
    }
  }

  lemma MergeLeftIf<T>(a: seq<T>, b: seq<T>, c: seq<T>, x: T, yes: bool)
    requires Merge(a, b, c)
    ensures var e := if yes then [x] else []; Merge(a + e, b, c + e)
  {
    if yes { MergeLeft(a, b, c, x); } else { assert a + [] == a && c + [] == c; }
  }

  lemma MergeRightIf<T>(a: seq<T>, b: seq<T>, c: seq<T>, x: T, yes: bool)
    requires Merge(a, b, c)
    ensures var e := if yes then [x] else []; Merge(a, b + e, c + e)
  {
    if yes { MergeRight(a, b, c, x); } else { assert b + [] == b && c + [] == c; }
  }

  lemma {:induction false} FilterMerge<T>(a: seq<T>, b: seq<T>, c: seq<T>, p: T -> bool)
    requires Merge(a, b, c)
    ensures Merge(Filter(a, p), Filter(b, p), Filter(c, p))
    decreases |c|
  {
    if c != [] {
      var x := Last(c);
      if a != [] && Last(a) == x && Merge(Front(a), b, Front(c)) {
        FilterMerge(Front(a), b, Front(c), p);
        MergeLeftIf(Filter(Front(a), p), Filter(b, p), Filter(Front(c), p), x, p(x));
      } else {
        assert b != [] && Last(b) == x && Merge(a, Front(b), Front(c));
        FilterMerge(a, Front(b), Front(c), p);
        MergeRightIf(Filter(a, p), Filter(Front(b), p), Filter(Front(c), p), x, p(x));
      }
    }
  }

  function Flatten<T>(ss: seq<seq<T>>): seq<T> {
    if ss == [] then [] else ss[0] + Flatten(ss[1..])
  }

  // ------------------------------------------------------ the bounded FIFO

  /** `try_push` on a FIFO with room for `room` elements. */
  function FifoPush<T>(q: seq<T>, room: nat, v: T): (seq<T>, bool) {
    if |q| < room then (q + [v], true) else (q, false)
  }

  /** `try_pop` on a FIFO. */
  function FifoPop<T>(q: seq<T>): (seq<T>, Option<T>) {
    if q == [] then (q, None) else (q[1..], Some(q[0]))
  }
}
