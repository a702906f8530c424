/** The contiguous cache (edgerag/cache/naive.py): preallocated per-layer buffers written by slice, with
    the length advanced on the last layer; what it returns is the private history the paged cache is
    proved to refine. */
module NaiveCaches {
  import opened Common
  import opened Tensors
  import opened Decoders

  /** Buffers as values, `[layer][position]`. */
  datatype Naive = Naive(buffers: seq<seq<KV>>, seqLen: nat, maxLen: nat)

  datatype NaiveOut = NaiveOut(cache: Naive, result: Result<seq<KV>>)

  function Spliced(buffer: seq<KV>, start: nat, xs: seq<KV>): (r: seq<KV>)
    requires start + |xs| <= |buffer|
    ensures |r| == |buffer|
    ensures forall i :: 0 <= i < |buffer| ==> r[i] == if start <= i < start + |xs| then xs[i - start] else buffer[i]
  {
    buffer[..start] + xs + buffer[start + |xs|..]
  }

  ghost predicate Sized(n: Naive) {
    n.seqLen <= n.maxLen && forall l :: 0 <= l < |n.buffers| ==> |n.buffers[l]| == n.maxLen
  }

  function NaiveUpdate(n: Naive, layer: nat, xs: seq<KV>): NaiveOut
    requires layer < |n.buffers| && |n.buffers[layer]| == n.maxLen
  {
    var end := n.seqLen + |xs|;
    if end > n.maxLen then NaiveOut(n, Err(RuntimeFault))
    else
      var written := Spliced(n.buffers[layer], n.seqLen, xs);
      NaiveOut(
        n.(buffers := n.buffers[layer := written], seqLen := if layer == |n.buffers| - 1 then end else n.seqLen),
        Ok(written[..end]))
  }

  class NaiveKVCache {
    const layers: nat
    const maxLen: nat
    const buffers: array2<KV>
    var seqLen: nat

    ghost predicate Valid()
      reads this
    {
      seqLen <= maxLen && buffers.Length0 == layers && buffers.Length1 == maxLen
    }

    ghost function BufferView(l: nat): (r: seq<KV>)
      requires l < buffers.Length0
      reads buffers
      ensures |r| == buffers.Length1 && forall i :: 0 <= i < |r| ==> r[i] == buffers[l, i]
    {
      seq(buffers.Length1, i requires 0 <= i < buffers.Length1 reads buffers => buffers[l, i])
    }

    ghost function View(): (n: Naive)
      requires Valid()
      reads this, buffers
      ensures |n.buffers| == layers && n.seqLen == seqLen && n.maxLen == maxLen
      ensures forall l :: 0 <= l < layers ==> n.buffers[l] == BufferView(l)
    {
      Naive(seq(layers, l requires 0 <= l < layers reads this, buffers requires buffers.Length0 == layers => BufferView(l)), seqLen, maxLen)
    }

    constructor (layers: nat, maxLen: nat, zero: KV)
      ensures Valid() && fresh(buffers) && this.layers == layers && this.maxLen == maxLen && seqLen == 0
    {
      this.layers, this.maxLen := layers, maxLen;
      buffers := new KV[layers, maxLen]((l, i) => zero);
      seqLen := 0;
    }

    /** `keys[layer][start:end] = xs`. */
    method WriteSlice(layer: nat, start: nat, xs: seq<KV>)
      requires Valid() && layer < layers && start + |xs| <= maxLen
      modifies buffers
      ensures forall i :: 0 <= i < maxLen ==> buffers[layer, i] == if start <= i < start + |xs| then xs[i - start] else old(buffers[layer, i])
      ensures forall l, i :: 0 <= l < layers && l != layer && 0 <= i < maxLen ==> buffers[l, i] == old(buffers[l, i])
    {
      var k := 0;
      while k < |xs|
        invariant 0 <= k <= |xs|
        invariant forall i :: 0 <= i < maxLen ==> buffers[layer, i] == if start <= i < start + k then xs[i - start] else old(buffers[layer, i])
        invariant forall l, i :: 0 <= l < layers && l != layer && 0 <= i < maxLen ==> buffers[l, i] == old(buffers[l, i])
      {
        buffers[layer, start + k] := xs[k];
        k := k + 1;
      }
    }

    method ReadPrefix(layer: nat, end: nat) returns (r: seq<KV>)
      requires Valid() && layer < layers && end <= maxLen
      ensures r == BufferView(layer)[..end]
    {
      r := seq(end, i requires 0 <= i < end reads this, buffers requires buffers.Length0 == layers && buffers.Length1 == maxLen => buffers[layer, i]);
    }

    method Update(xs: seq<KV>, layer: nat) returns (r: Result<seq<KV>>)
      requires Valid() && layer < layers
      modifies this, buffers
      ensures Valid()
      ensures NaiveOut(View(), r) == NaiveUpdate(old(View()), layer, xs)
    {
      ghost var before := View();
      var start := seqLen;
      var end := start + |xs|;
      if end > maxLen {
        return Err(RuntimeFault);
      }
      WriteSlice(layer, start, xs);
      ghost var written := Spliced(before.buffers[layer], start, xs);
      forall l | 0 <= l < layers ensures BufferView(l) == if l == layer then written else before.buffers[l] {
        assert forall i :: 0 <= i < maxLen ==> BufferView(l)[i] == (if l == layer then written else before.buffers[l])[i];
      }
      var history := ReadPrefix(layer, end);
      if layer == layers - 1 {
        seqLen := end;
      }
      return Ok(history);
    }

    /** Drop the history without touching the buffers: every slot is written before it is returned. */
    method Reset()
      requires Valid()
      modifies this`seqLen
      ensures Valid() && View() == old(View()).(seqLen := 0)
    {
      seqLen := 0;
    }
  }

  // ---------------------------------------------------------------------- what it is a cache of

  /** Layers below `l` already hold this forward's `m` tokens as well. */
  ghost predicate Holds(n: Naive, h: Hist, l: nat, m: nat) {
    && Sized(n) && |h| == |n.buffers| && l <= |h|
    && forall k :: 0 <= k < |h| ==>
         && |h[k]| == n.seqLen + (if k < l then m else 0) <= n.maxLen
         && h[k] <= n.buffers[k]
  }

  datatype NaivePassed = NaivePassed(cache: Naive, hidden: seq<Hidden>, error: Option<Error>)

  /** The decoder's loop over layers on a contiguous cache. */
  function NaiveForward(d: Decoder, n: Naive, past: nat, hs: seq<Hidden>, l: nat): NaivePassed
    requires l <= d.layers == |n.buffers| && forall k :: 0 <= k < |n.buffers| ==> |n.buffers[k]| == n.maxLen
    decreases d.layers - l
  {
    if l == d.layers then NaivePassed(n, hs, None)
    else
      var u := NaiveUpdate(n, l, ChunkKV(d, l, past, hs));
      match u.result
      case Err(e) => NaivePassed(u.cache, hs, Some(e))
      case Ok(history) => NaiveForward(d, u.cache, past, ChunkAttend(d, l, past, hs, history), l + 1)
  }

  /** One layer: the returned history is the layer's own, extended. */
  lemma UpdateExtends(n: Naive, h: Hist, l: nat, xs: seq<KV>)
    requires Holds(n, h, l, |xs|) && l < |h| && n.seqLen + |xs| <= n.maxLen
    ensures var u := NaiveUpdate(n, l, xs);
      var h' := h[l := h[l] + xs];
      && u.result == Ok(h[l] + xs)
      && (l + 1 < |h| ==> Holds(u.cache, h', l + 1, |xs|))
      && (l + 1 == |h| ==> Holds(u.cache, h', 0, 0) && u.cache.seqLen == n.seqLen + |xs|)
  {
    var u := NaiveUpdate(n, l, xs);
    var written := Spliced(n.buffers[l], n.seqLen, xs);
    assert written[..n.seqLen + |xs|] == h[l] + xs by {
      assert n.buffers[l][..n.seqLen] == h[l];
    }
  }

  /** A forward on the contiguous cache is the forward over the private history, and fails exactly when
      the history would outgrow the buffers, before anything is written. */
  lemma NaiveRefined(d: Decoder, n: Naive, h: Hist, hs: seq<Hidden>)
    requires Holds(n, h, 0, 0) && d.layers == |h| > 0
    ensures var f := NaiveForward(d, n, n.seqLen, hs, 0);
      if n.seqLen + |hs| > n.maxLen then f == NaivePassed(n, hs, Some(RuntimeFault))
      else
        var g := ForwardFrom(d, h, n.seqLen, hs, 0);
        f.error == None && f.hidden == g.hidden && Holds(f.cache, g.hist, 0, 0) && f.cache.seqLen == n.seqLen + |hs|
  {
    if n.seqLen + |hs| <= n.maxLen {
      NaiveLayers(d, n, h, hs, 0, n.seqLen);
    }
  }

  lemma {:induction false} NaiveLayers(d: Decoder, n: Naive, h: Hist, hs: seq<Hidden>, l: nat, past: nat)
    requires |h| == d.layers > l && Holds(n, h, l, |hs|) && past == n.seqLen && past + |hs| <= n.maxLen
    ensures var f := NaiveForward(d, n, past, hs, l);
      var g := ForwardFrom(d, h, past, hs, l);
      f.error == None && f.hidden == g.hidden && Holds(f.cache, g.hist, 0, 0) && f.cache.seqLen == past + |hs|
    decreases d.layers - l
  {
    hide ChunkKV, ChunkAttend, NaiveUpdate, Holds;
    HoldsSized(n, h, l, |hs|);
    var new_ := ChunkKV(d, l, past, hs);
    UpdateExtends(n, h, l, new_);
    var u := NaiveUpdate(n, l, new_);
    UpdateShape(n, l, new_);
    var h' := h[l := h[l] + new_];
    if l + 1 < d.layers {
      NaiveLayers(d, u.cache, h', ChunkAttend(d, l, past, hs, h[l] + new_), l + 1, past);
    }
  }

  lemma HoldsSized(n: Naive, h: Hist, l: nat, m: nat)
    requires Holds(n, h, l, m)
    ensures Sized(n) && |h| == |n.buffers|
  {
  }

  lemma UpdateShape(n: Naive, l: nat, xs: seq<KV>)
    requires Sized(n) && l < |n.buffers|
    ensures var u := NaiveUpdate(n, l, xs).cache;
      |u.buffers| == |n.buffers| && u.maxLen == n.maxLen && (forall k :: 0 <= k < |u.buffers| ==> |u.buffers[k]| == n.maxLen)
      && (l + 1 < |n.buffers| ==> u.seqLen == n.seqLen)
  {
  }
}
