/**
 * The numpy indexing idioms the encoder relies on, over plain sequences:
 * boolean-mask selection (`a[mask]`), integer-array selection (`a[idx]`),
 * masked assignment (`a[mask] = v`) and the normalisation of a possibly
 * negative scalar index.
 */
module Indexing {
  import opened Wrappers
  import opened Errors

  /** Number of `true` entries of a mask. */
  function CountTrue(mask: seq<bool>): (n: nat)
    ensures n <= |mask|
  {
    if mask == [] then 0 else (if mask[0] then 1 else 0) + CountTrue(mask[1..])
  }

  /** `np.any(mask)`. */
  predicate AnyTrue(mask: seq<bool>) {
    exists i :: 0 <= i < |mask| && mask[i]
  }

  lemma {:induction false} AnyTrueIffCount(mask: seq<bool>)
    ensures AnyTrue(mask) <==> CountTrue(mask) > 0
  {
    if mask != [] {
      AnyTrueIffCount(mask[1..]);
      if AnyTrue(mask[1..]) {
        var i :| 0 <= i < |mask[1..]| && mask[1..][i];
        assert mask[i + 1];
      }
      if AnyTrue(mask) && !mask[0] {
        var i :| 0 <= i < |mask| && mask[i];
        assert mask[1..][i - 1];
      }
    }
  }

  /** `s[mask]`: the entries whose flag is set, in their original order. */
  function Compress<T>(s: seq<T>, mask: seq<bool>): (r: seq<T>)
    requires |mask| == |s|
    ensures |r| == CountTrue(mask)
  {
    if s == [] then [] else (if mask[0] then [s[0]] else []) + Compress(s[1..], mask[1..])
  }

  /** The positions, shifted by `offset`, at which `mask` is set (`np.nonzero(mask)[0] + offset`). */
  function TrueIndicesFrom(mask: seq<bool>, offset: nat): (idx: seq<nat>)
    ensures |idx| == CountTrue(mask)
    ensures forall k :: 0 <= k < |idx| ==> offset <= idx[k] < offset + |mask| && mask[idx[k] - offset]
    ensures forall k, l :: 0 <= k < l < |idx| ==> idx[k] < idx[l]
  {
    if mask == [] then [] else (if mask[0] then [offset] else []) + TrueIndicesFrom(mask[1..], offset + 1)
  }

  function TrueIndices(mask: seq<bool>): seq<nat> {
    TrueIndicesFrom(mask, 0)
  }

  /** `s[idx]` for an integer index array whose entries are all in range. */
  function Take<T>(s: seq<T>, idx: seq<nat>): (r: seq<T>)
    requires forall k :: 0 <= k < |idx| ==> idx[k] < |s|
    ensures |r| == |idx|
    ensures forall k :: 0 <= k < |idx| ==> r[k] == s[idx[k]]
  {
    seq(|idx|, k requires 0 <= k < |idx| => s[idx[k]])
  }

  lemma TakeAppend<T>(s: seq<T>, a: seq<nat>, b: seq<nat>)
    requires forall k :: 0 <= k < |a| ==> a[k] < |s|
    requires forall k :: 0 <= k < |b| ==> b[k] < |s|
    ensures Take(s, a + b) == Take(s, a) + Take(s, b)
  {
  }

  /** An element is kept by a mask exactly when some flagged position holds it. */
  lemma {:induction false} CompressMembership<T>(s: seq<T>, mask: seq<bool>)
    requires |mask| == |s|
    ensures forall y :: y in Compress(s, mask) <==> exists i :: 0 <= i < |s| && mask[i] && s[i] == y
  {
    if s != [] {
      CompressMembership(s[1..], mask[1..]);
      forall y | (exists i :: 0 <= i < |s| && mask[i] && s[i] == y) ensures y in Compress(s, mask) {
        var i :| 0 <= i < |s| && mask[i] && s[i] == y;
        if i > 0 { assert mask[1..][i - 1] && s[1..][i - 1] == y; }
      }
    }
  }

  lemma {:induction false} CompressIsTakeFrom<T>(s: seq<T>, mask: seq<bool>, o: nat)
    requires |mask| == |s| && o <= |s|
    ensures Compress(s[o..], mask[o..]) == Take(s, TrueIndicesFrom(mask[o..], o))
    decreases |s| - o
  {
    if o < |s| {
      var t, m := s[o..], mask[o..];
      assert t[1..] == s[o + 1..] && m[1..] == mask[o + 1..];
      CompressIsTakeFrom(s, mask, o + 1);
      var head: seq<nat> := if m[0] then [o] else [];
      var tail := TrueIndicesFrom(m[1..], o + 1);
      assert TrueIndicesFrom(m, o) == head + tail;
      assert Take(s, head) == if m[0] then [t[0]] else [];
      TakeAppend(s, head, tail);
    }
  }

  /** Selecting by a boolean mask is selecting by the positions of its set flags. */
  lemma CompressIsTake<T>(s: seq<T>, mask: seq<bool>)
    requires |mask| == |s|
    ensures Compress(s, mask) == Take(s, TrueIndices(mask))
  {
    CompressIsTakeFrom(s, mask, 0);
    assert s[0..] == s && mask[0..] == mask;
  }

  /** A numpy index expression: a boolean mask or an array of positions. */
  datatype Selector = BoolMask(mask: seq<bool>) | Positions(idx: seq<nat>)

  /** `s[sel]`, raising IndexError as numpy does for a mask of the wrong length or a position out of range. */
  function Select<T>(s: seq<T>, sel: Selector): (r: Result<seq<T>, Error>)
    ensures r.Err? <==> (sel.BoolMask? && |sel.mask| != |s|) ||
                        (sel.Positions? && exists k :: 0 <= k < |sel.idx| && sel.idx[k] >= |s|)
    ensures r.Ok? ==> r.value == Take(s, SelectedPositions(sel))
  {
    match sel
    case BoolMask(mask) =>
      if |mask| != |s| then Err(IndexOutOfRange)
      else CompressIsTake(s, mask); Ok(Compress(s, mask))
    case Positions(idx) =>
      if exists k :: 0 <= k < |idx| && idx[k] >= |s| then Err(IndexOutOfRange)
      else Ok(Take(s, idx))
  }

  /** The positions a selector picks, in the order it picks them. */
  function SelectedPositions(sel: Selector): seq<nat> {
    match sel
    case BoolMask(mask) => TrueIndices(mask)
    case Positions(idx) => idx
  }

  /** `s[mask] = v`: every flagged entry becomes `v`, every other entry is kept. */
  function Fill<T>(s: seq<T>, mask: seq<bool>, v: T): (r: seq<T>)
    requires |mask| == |s|
    ensures |r| == |s|
  {
    seq(|s|, i requires 0 <= i < |s| => if mask[i] then v else s[i])
  }

  /** numpy's reading of a scalar index `i` into an axis of length `n`: negative counts from the end. */
  function PyIndex(i: int, n: nat): (r: Option<nat>)
    ensures r.Some? <==> 0 <= i + n && i < n
    ensures r.Some? ==> r.value < n && (r.value == i || r.value == n + i)
  {
    if 0 <= i < n then Some(i) else if 0 <= i + n && i < 0 then Some(n + i) else None
  }
}
