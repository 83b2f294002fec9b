/**
 * The array operations the block is built from: `filter`, and the
 * left-to-right concatenation done by `reduce`/`concat` and by `join('')`.
 */
module Seqs {

  /** `s.filter(p)`: the elements of `s` that satisfy `p`, in their order in `s`. */
  function Filter<T>(s: seq<T>, p: T -> bool): (r: seq<T>)
    ensures |r| <= |s|
    ensures forall x :: x in r ==> x in s && p(x)
  {
    if s == [] then []
    else Filter(s[..|s| - 1], p) + (if p(s[|s| - 1]) then [s[|s| - 1]] else [])
  }

  /** Every element of `s` that satisfies `p` survives the filter. */
  lemma {:induction false} FilterComplete<T>(s: seq<T>, p: T -> bool, x: T)
    requires x in s && p(x)
    ensures x in Filter(s, p)
  {
    if s[|s| - 1] != x {
      assert x in s[..|s| - 1] by {
        var i :| 0 <= i < |s| && s[i] == x;
        assert s[..|s| - 1][i] == x;
      }
      FilterComplete(s[..|s| - 1], p, x);
    }
  }

  /** Filtering distributes over concatenation: the filter keeps relative order. */
  lemma {:induction false} FilterConcat<T>(a: seq<T>, b: seq<T>, p: T -> bool)
    ensures Filter(a + b, p) == Filter(a, p) + Filter(b, p)
  {
    if b == [] {
      assert a + b == a;
    } else {
      var b' := b[..|b| - 1];
      assert (a + b)[..|a + b| - 1] == a + b';
      assert (a + b)[|a + b| - 1] == b[|b| - 1];
      FilterConcat(a, b', p);
    }
  }

  /** Two filters in a row select what one filter by the conjunction selects. */
  lemma {:induction false} FilterFilter<T>(s: seq<T>, p: T -> bool, q: T -> bool, both: T -> bool)
    requires forall x :: both(x) == (p(x) && q(x))
    ensures Filter(Filter(s, p), q) == Filter(s, both)
  {
    if s != [] {
      var init, last := s[..|s| - 1], s[|s| - 1];
      FilterFilter(init, p, q, both);
      FilterConcat(Filter(init, p), if p(last) then [last] else [], q);
      if p(last) {
        assert Filter([last], q) == Filter([], q) + (if q(last) then [last] else []);
      }
    }
  }

  /** The indices `i` of `s` with `p(s[i])`, in strictly increasing order. */
  function MatchingIndices<T>(s: seq<T>, p: T -> bool): (r: seq<nat>)
    ensures forall k :: 0 <= k < |r| ==> r[k] < |s|
    ensures forall k, l :: 0 <= k < l < |r| ==> r[k] < r[l]
  {
    if s == [] then []
    else MatchingIndices(s[..|s| - 1], p) + (if p(s[|s| - 1]) then [|s| - 1] else [])
  }

  /** Element k of the filtered list is element `MatchingIndices(s, p)[k]` of `s`. */
  lemma {:induction false} FilterAt<T>(s: seq<T>, p: T -> bool)
    ensures |MatchingIndices(s, p)| == |Filter(s, p)|
    ensures forall k :: 0 <= k < |Filter(s, p)| ==> Filter(s, p)[k] == s[MatchingIndices(s, p)[k]]
  {
    if s != [] {
      var init := s[..|s| - 1];
      FilterAt(init, p);
      var idx0 := MatchingIndices(init, p);
      assert forall k :: 0 <= k < |idx0| ==> s[idx0[k]] == init[idx0[k]];
    }
  }

  /** An index is listed by `MatchingIndices` exactly when its element matches. */
  lemma {:induction false} MatchingIndicesExact<T>(s: seq<T>, p: T -> bool, i: nat)
    requires i < |s|
    ensures i in MatchingIndices(s, p) <==> p(s[i])
  {
    var init := s[..|s| - 1];
    var idx0 := MatchingIndices(init, p);
    if i < |s| - 1 {
      MatchingIndicesExact(init, p, i);
      assert s[i] == init[i];
      assert i !in (if p(s[|s| - 1]) then [|s| - 1] else []);
    } else {
      assert i !in idx0;
    }
  }

  /**
   * The filter keeps exactly the matching positions, in their order:
   * element k of the result is element `idx[k]` of `s`, the indices `idx`
   * strictly increase, and an index is in `idx` iff its element matches.
   */
  lemma FilterPositions<T>(s: seq<T>, p: T -> bool)
    ensures var idx := MatchingIndices(s, p);
      && |idx| == |Filter(s, p)|
      && (forall k :: 0 <= k < |idx| ==> Filter(s, p)[k] == s[idx[k]])
      && (forall k, l :: 0 <= k < l < |idx| ==> idx[k] < idx[l])
      && (forall i :: 0 <= i < |s| ==> (i in idx <==> p(s[i])))
  {
    FilterAt(s, p);
    forall i | 0 <= i < |s|
      ensures i in MatchingIndices(s, p) <==> p(s[i])
    {
      MatchingIndicesExact(s, p, i);
    }
  }

  /** The first position of `s` whose element satisfies `p`, or `|s|` when none does. */
  function FirstMatch<T>(s: seq<T>, p: T -> bool): (k: nat)
    ensures k <= |s|
    ensures k < |s| ==> p(s[k])
    ensures forall j :: 0 <= j < k ==> !p(s[j])
  {
    if s == [] then 0
    else if p(s[0]) then 0
    else 1 + FirstMatch(s[1..], p)
  }

  /** `xss.reduce((a, b) => a.concat(b), [])`: a left fold of concatenation. */
  function Flatten<T>(xss: seq<seq<T>>): (r: seq<T>)
    ensures forall x :: x in r ==> exists i :: 0 <= i < |xss| && x in xss[i]
  {
    if xss == [] then [] else Flatten(xss[..|xss| - 1]) + xss[|xss| - 1]
  }

  /** The sum of the lengths of the lists in `xss`. */
  function SumLengths<T>(xss: seq<seq<T>>): nat
  {
    if xss == [] then 0 else SumLengths(xss[..|xss| - 1]) + |xss[|xss| - 1]|
  }

  /** The flattened list is as long as all the lists together. */
  lemma {:induction false} FlattenLength<T>(xss: seq<seq<T>>)
    ensures |Flatten(xss)| == SumLengths(xss)
  {
    if xss != [] {
      FlattenLength(xss[..|xss| - 1]);
    }
  }

  /** Element j of list i sits at offset (lengths of the lists before i) + j. */
  lemma {:induction false} FlattenAt<T>(xss: seq<seq<T>>, i: nat, j: nat)
    requires i < |xss| && j < |xss[i]|
    ensures SumLengths(xss[..i]) + j < |Flatten(xss)|
    ensures Flatten(xss)[SumLengths(xss[..i]) + j] == xss[i][j]
  {
    var init := xss[..|xss| - 1];
    FlattenLength(xss);
    FlattenLength(init);
    if i == |xss| - 1 {
      assert xss[..i] == init;
    } else {
      assert xss[..i] == init[..i];
      FlattenAt(init, i, j);
    }
  }

  /** Flattening a concatenation flattens the parts in order. */
  lemma {:induction false} FlattenConcat<T>(a: seq<seq<T>>, b: seq<seq<T>>)
    ensures Flatten(a + b) == Flatten(a) + Flatten(b)
  {
    if b == [] {
      assert a + b == a;
    } else {
      var b' := b[..|b| - 1];
      assert (a + b)[..|a + b| - 1] == a + b';
      assert (a + b)[|a + b| - 1] == b[|b| - 1];
      FlattenConcat(a, b');
    }
  }
}
