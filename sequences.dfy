/** Filtering of value sequences, the `Array.prototype.filter` that the
    subscriber uses to drop records, with the lemmas that characterise it. */
module Sequences {

  /** The elements of `s` that satisfy `keep`, in their order in `s`. */
  function Filter<T>(s: seq<T>, keep: T -> bool): (r: seq<T>)
    ensures |r| <= |s|
    ensures forall k :: 0 <= k < |r| ==> keep(r[k])
  {
    if s == [] then []
    else
      var n := |s| - 1;
      assert s == s[..n] + [s[n]];
      Filter(s[..n], keep) + (if keep(s[n]) then [s[n]] else [])
  }

  /** A value is in the filtered sequence exactly when it is in `s` and passes. */
  lemma {:induction false} FilterMembers<T>(s: seq<T>, keep: T -> bool)
    ensures forall x :: x in Filter(s, keep) <==> x in s && keep(x)
  {
    if s != [] {
      var n := |s| - 1;
      FilterMembers(s[..n], keep);
      assert s == s[..n] + [s[n]];
    }
  }

  /** `a` lists positions in strictly increasing order. */
  ghost predicate Increasing(a: seq<int>) {
    forall k, l :: 0 <= k < l < |a| ==> a[k] < a[l]
  }

  /** `r` is the sequence of elements of `s` found at the positions `idx`. */
  ghost predicate Selects<T>(r: seq<T>, s: seq<T>, idx: seq<int>) {
    && |idx| == |r|
    && Increasing(idx)
    && (forall k :: 0 <= k < |idx| ==> 0 <= idx[k] < |s| && r[k] == s[idx[k]])
  }

  /** `r` holds exactly the elements of `s` at the positions where `keep`
      holds, each once and in their original relative order. */
  ghost predicate KeepsExactly<T>(r: seq<T>, s: seq<T>, keep: T -> bool) {
    exists idx :: Selects(r, s, idx) && (forall i :: 0 <= i < |s| ==> (i in idx <==> keep(s[i])))
  }

  /** The positions `Filter` keeps: all positions whose element passes, in order. */
  lemma {:induction false} FilterPositions<T>(s: seq<T>, keep: T -> bool) returns (idx: seq<int>)
    ensures Selects(Filter(s, keep), s, idx)
    ensures forall i :: 0 <= i < |s| ==> (i in idx <==> keep(s[i]))
  {
    if s == [] {
      idx := [];
    } else {
      var n := |s| - 1;
      var prefix := FilterPositions(s[..n], keep);
      assert s == s[..n] + [s[n]];
      if keep(s[n]) {
        SelectsSnoc(Filter(s[..n], keep), s[..n], prefix, s[n]);
        idx := prefix + [n];
      } else {
        SelectsSnoc(Filter(s[..n], keep), s[..n], prefix, s[n]);
        idx := prefix;
      }
      forall i | 0 <= i < n ensures i in idx <==> keep(s[i]) {
        assert s[..n][i] == s[i];
      }
    }
  }

  /** Appending `x` to `s` keeps every selection valid, and appending it to
      both sides selects the new last position as well. */
  lemma SelectsSnoc<T>(r: seq<T>, s: seq<T>, idx: seq<int>, x: T)
    requires Selects(r, s, idx)
    ensures Selects(r, s + [x], idx)
    ensures Selects(r + [x], s + [x], idx + [|s|])
    ensures forall i :: i in idx + [|s|] <==> i in idx || i == |s|
  {
    assert forall k :: 0 <= k < |idx| ==> (s + [x])[idx[k]] == s[idx[k]];
  }

  /** `Filter` keeps exactly the passing elements, in order. */
  lemma {:induction false} FilterKeepsExactly<T>(s: seq<T>, keep: T -> bool)
    ensures KeepsExactly(Filter(s, keep), s, keep)
  {
    var idx := FilterPositions(s, keep);
  }

  /** Two increasing position lists with the same members are equal. */
  lemma {:induction false} IncreasingUnique(a: seq<int>, b: seq<int>)
    requires Increasing(a) && Increasing(b)
    requires forall x :: x in a <==> x in b
    ensures a == b
    decreases |a|
  {
    assert a != [] ==> a[0] in a;
    assert b != [] ==> b[0] in b;
    if a != [] && b != [] {
      var m, n := |a| - 1, |b| - 1;
      assert a[m] in a && b[n] in b;
      var j :| 0 <= j < |b| && b[j] == a[m];
      var k :| 0 <= k < |a| && a[k] == b[n];
      assert a[m] <= b[n] && b[n] <= a[m];
      IncreasingDropLast(a);
      IncreasingDropLast(b);
      forall x ensures x in a[..m] <==> x in b[..n] {
        assert x in a <==> x in b;
      }
      IncreasingUnique(a[..m], b[..n]);
      assert a == a[..m] + [a[m]] && b == b[..n] + [b[n]];
    }
  }

  /** Dropping the last (largest) position of an increasing list removes
      exactly that position. */
  lemma IncreasingDropLast(a: seq<int>)
    requires Increasing(a) && a != []
    ensures Increasing(a[..|a| - 1])
    ensures forall x :: x in a[..|a| - 1] <==> x in a && x != a[|a| - 1]
  {
    var m := |a| - 1;
    forall x ensures x in a[..m] <==> x in a && x != a[m] {
      if x in a[..m] {
        var k :| 0 <= k < m && a[..m][k] == x;
        assert a[k] == x;
      }
      if x in a && x != a[m] {
        var k :| 0 <= k < |a| && a[k] == x;
        assert a[..m][k] == x;
      }
    }
  }

  /** `Filter` is the only sequence that keeps exactly the passing
      elements in order: `KeepsExactly` is an independent definition of it. */
  lemma {:induction false} KeepsExactlyIsFilter<T>(r: seq<T>, s: seq<T>, keep: T -> bool)
    requires KeepsExactly(r, s, keep)
    ensures r == Filter(s, keep)
  {
    var idx :| Selects(r, s, idx) && (forall i :: 0 <= i < |s| ==> (i in idx <==> keep(s[i])));
    var fidx := FilterPositions(s, keep);
    forall x ensures x in idx <==> x in fidx {
      if x in idx {
        var k :| 0 <= k < |idx| && idx[k] == x;
      }
      if x in fidx {
        var k :| 0 <= k < |fidx| && fidx[k] == x;
      }
    }
    IncreasingUnique(idx, fidx);
  }

  /** Filtering a concatenation filters each part. */
  lemma {:induction false} FilterAppend<T>(s: seq<T>, t: seq<T>, keep: T -> bool)
    ensures Filter(s + t, keep) == Filter(s, keep) + Filter(t, keep)
    decreases |t|
  {
    if t != [] {
      var n := |t| - 1;
      assert (s + t)[..|s + t| - 1] == s + t[..n];
      FilterAppend(s, t[..n], keep);
    } else {
      assert s + t == s;
    }
  }

  /** When every element passes, filtering changes nothing. */
  lemma {:induction false} FilterKeepingAll<T>(s: seq<T>, keep: T -> bool)
    requires forall i :: 0 <= i < |s| ==> keep(s[i])
    ensures Filter(s, keep) == s
  {
    if s != [] {
      var n := |s| - 1;
      FilterKeepingAll(s[..n], keep);
      assert s == s[..n] + [s[n]];
    }
  }

  /** Filtering twice with the same test is filtering once. */
  lemma FilterIdempotent<T>(s: seq<T>, keep: T -> bool)
    ensures Filter(Filter(s, keep), keep) == Filter(s, keep)
  {
    FilterKeepingAll(Filter(s, keep), keep);
  }

  /** Complementary filters split a sequence: their lengths add up to its length. */
  lemma {:induction false} FilterPartition<T>(s: seq<T>, keep: T -> bool, drop: T -> bool)
    requires forall x :: drop(x) == !keep(x)
    ensures |Filter(s, keep)| + |Filter(s, drop)| == |s|
  {
    if s != [] {
      FilterPartition(s[..|s| - 1], keep, drop);
    }
  }
}
