/** The weight-only quantized layer (edgerag/core/linear.py): load once, keep packed. */
module QuantLinears {
  import opened Common
  import opened Quant
  import opened Packing

  function PackRow(codes: seq<int>, bits: nat): Result<seq<bv8>> {
    if bits == 4 then PackInt4(codes)
    else Ok(seq(|codes|, j requires 0 <= j < |codes| => ToUint8(codes[j])))
  }

  function UnpackRow(packed: seq<bv8>, width: nat, bits: nat): Result<seq<int>> {
    if bits == 4 then Unpacked(packed, width)
    else Ok(seq(|packed|, j requires 0 <= j < |packed| => ToInt8(packed[j])))
  }

  /** Storage is lossless on every code the quantizer produces, at either width. */
  lemma StoresLosslessly(row: seq<real>, g: nat, bits: nat)
    requires g > 0 && |row| % g == 0 && (bits == 4 || bits == 8) && (bits == 4 ==> |row| % 2 == 0)
    ensures var codes := RowCodes(row, g, QMax(bits));
      PackRow(codes, bits).Ok? && UnpackRow(PackRow(codes, bits).value, |row|, bits) == Ok(codes)
  {
    hide CodeAt, Unpacked, PackInt4;
    var codes := RowCodes(row, g, QMax(bits));
    forall j | 0 <= j < |row| ensures -QMax(bits) <= codes[j] <= QMax(bits) {
      CodeInRange(row, g, QMax(bits), j);
    }
    if bits == 4 {
      PackUnpack(codes);
    } else {
      forall j | 0 <= j < |row| ensures ToInt8(ToUint8(codes[j])) == codes[j] { ByteBack(codes[j]); }
      assert UnpackRow(PackRow(codes, bits).value, |row|, bits).value == codes;
    }
  }

  lemma PackedSize(codes: seq<int>, bits: nat)
    requires PackRow(codes, bits).Ok?
    ensures |PackRow(codes, bits).value| == if bits == 4 then |codes| / 2 else |codes|
  {
  }

  lemma CodeInRange(row: seq<real>, g: nat, qmax: int, j: nat)
    requires g > 0 && |row| % g == 0 && j < |row| && qmax > 0
    ensures -qmax <= CodeAt(row, g, qmax, j) <= qmax
  {
  }

  class QuantLinear {
    const inFeatures: nat
    const outFeatures: nat
    const groupSize: nat
    const bits: nat
    const hasBias: bool
    var packed: seq<seq<bv8>>
    var scales: seq<seq<real>>
    var bias: seq<real>

    /** The buffers have the sizes the layer was constructed with. */
    ghost predicate Valid()
      reads this
    {
      && groupSize > 0 && (bits == 4 || bits == 8) && inFeatures % groupSize == 0
      && |packed| == |scales| == outFeatures
      && (forall i :: 0 <= i < outFeatures ==> |packed[i]| == PackedWidth())
      && (forall i :: 0 <= i < outFeatures ==> |scales[i]| == GroupCount())
      && |bias| == if hasBias then outFeatures else 0
    }

    function PackedWidth(): nat {
      if bits == 4 then inFeatures / 2 else inFeatures
    }

    function GroupCount(): nat {
      if groupSize == 0 then 0 else DivBounds(inFeatures, groupSize); inFeatures / groupSize
    }

    /** The codes as the layer reads them back. */
    function Codes(i: nat): Result<seq<int>>
      reads this
      requires i < |packed|
    {
      UnpackRow(packed[i], inFeatures, bits)
    }

    constructor (inFeatures: nat, outFeatures: nat, bias: bool, groupSize: nat, bits: nat)
      requires groupSize > 0 && (bits == 4 || bits == 8) && inFeatures % groupSize == 0
      ensures Valid() && this.inFeatures == inFeatures && this.outFeatures == outFeatures
      ensures this.groupSize == groupSize && this.bits == bits && this.hasBias == bias
    {
      this.inFeatures, this.outFeatures := inFeatures, outFeatures;
      this.groupSize, this.bits, this.hasBias := groupSize, bits, bias;
      DivBounds(inFeatures, groupSize);
      var width := if bits == 4 then inFeatures / 2 else inFeatures;
      var groups: nat := inFeatures / groupSize;
      packed := seq(outFeatures, i => seq(width, j => 0));
      scales := seq(outFeatures, i => seq(groups, k => 0.0));
      this.bias := if bias then seq(outFeatures, i => 0.0) else [];
    }

    /** Quantize, pack and copy into the buffers; errors before the copy leave the layer as it was, a
        bias of the wrong length is noticed after the weight is in. */
    method LoadWeight(weight: seq<seq<real>>, cols: nat, newBias: Option<seq<real>>) returns (r: Result<()>)
      requires Valid() && Rect(weight, cols)
      modifies this
      ensures Valid()
      ensures newBias.Some? != hasBias || |weight| != outFeatures || cols != inFeatures || (bits == 4 && inFeatures % 2 == 1) ==>
        r == Err(ValueError) && packed == old(packed) && scales == old(scales) && bias == old(bias)
      ensures r.Ok? <==>
        && newBias.Some? == hasBias && |weight| == outFeatures && cols == inFeatures && !(bits == 4 && inFeatures % 2 == 1)
        && (newBias.Some? ==> |newBias.value| == outFeatures || |newBias.value| == 1)
      ensures r.Err? && r.error != ValueError ==> r.error == ShapeError && newBias.Some? && |newBias.value| != outFeatures && |newBias.value| != 1
      ensures r.Ok? || r == Err(ShapeError) ==>
        && |weight| == outFeatures && cols == inFeatures
        && forall i :: 0 <= i < outFeatures ==>
             && scales[i] == RowScales(weight[i], groupSize, QMax(bits))
             && Codes(i) == Ok(RowCodes(weight[i], groupSize, QMax(bits)))
      ensures r.Ok? && hasBias ==>
        && newBias.Some? && (|newBias.value| == outFeatures || |newBias.value| == 1)
        && forall i :: 0 <= i < outFeatures ==>
             bias[i] == if |newBias.value| == outFeatures then newBias.value[i] else newBias.value[0]
    {
      hide RowCodes, RowScales, UnpackRow, CodeAt, ScaleAt;
      if newBias.Some? != hasBias {
        return Err(ValueError);
      }
      if |weight| != outFeatures || cols != inFeatures {
        return Err(ValueError);
      }
      if bits == 4 && inFeatures % 2 == 1 {
        return Err(ValueError);
      }
      var newPacked: seq<seq<bv8>> := [];
      var newScales: seq<seq<real>> := [];
      var i := 0;
      while i < outFeatures
        invariant 0 <= i <= outFeatures && |newPacked| == |newScales| == i
        invariant forall k :: 0 <= k < i ==> newScales[k] == RowScales(weight[k], groupSize, QMax(bits))
        invariant forall k :: 0 <= k < i ==>
          |newPacked[k]| == PackedWidth() && UnpackRow(newPacked[k], inFeatures, bits) == Ok(RowCodes(weight[k], groupSize, QMax(bits)))
        invariant packed == old(packed) && scales == old(scales) && bias == old(bias)
      {
        StoresLosslessly(weight[i], groupSize, bits);
        PackedSize(RowCodes(weight[i], groupSize, QMax(bits)), bits);
        newPacked := newPacked + [PackRow(RowCodes(weight[i], groupSize, QMax(bits)), bits).value];
        newScales := newScales + [RowScales(weight[i], groupSize, QMax(bits))];
        i := i + 1;
      }
      packed := newPacked;
      scales := newScales;
      if hasBias {
        var b := newBias.value;
        if |b| == outFeatures {
          bias := b;
        } else if |b| == 1 {
          bias := seq(outFeatures, k => b[0]);
        } else {
          return Err(ShapeError);
        }
      }
      return Ok(());
    }

    /** The reconstructed weight, row by row. */
    method Dequantized() returns (r: Result<seq<seq<real>>>)
      requires Valid()
      ensures r.Ok? <==> forall i :: 0 <= i < outFeatures ==> Codes(i).Ok?
      ensures r.Ok? ==> |r.value| == outFeatures
      ensures r.Ok? ==> forall i :: 0 <= i < outFeatures ==> r.value[i] == Dequantize(Codes(i).value, scales[i], groupSize)
    {
      var w: seq<seq<real>> := [];
      while |w| < outFeatures
        invariant |w| <= outFeatures
        invariant forall i :: 0 <= i < |w| ==> Codes(i).Ok? && w[i] == Dequantize(Codes(i).value, scales[i], groupSize)
      {
        var codes := Codes(|w|);
        if codes.Err? {
          return Err(codes.error);
        }
        w := w + [Dequantize(codes.value, scales[|w|], groupSize)];
      }
      return Ok(w);
    }

    /** Bytes held: one per packed byte, two per fp16 scale and two per bias value. */
    function WeightBytes(): nat
      reads this
    {
      NumEl(packed) + 2 * NumEl(scales) + 2 * |bias|
    }
  }

  /** `numel()`. */
  function NumEl<T>(rows: seq<seq<T>>): nat {
    if rows == [] then 0 else |rows[0]| + NumEl(rows[1..])
  }

  lemma {:induction false} NumElRect<T>(rows: seq<seq<T>>, width: nat)
    requires forall i :: 0 <= i < |rows| ==> |rows[i]| == width
    ensures NumEl(rows) == |rows| * width
  {
    if rows != [] {
      NumElRect(rows[1..], width);
      assert |rows| * width == width + (|rows| - 1) * width;
    }
  }

  method NewQuantLinear(inFeatures: nat, outFeatures: nat, bias: bool, groupSize: nat, bits: nat) returns (r: Result<QuantLinear>)
    requires groupSize > 0 && (bits == 4 || bits == 8)
    ensures r.Ok? <==> inFeatures % groupSize == 0
    ensures r.Err? ==> r.error == ValueError
    ensures r.Ok? ==> r.value.Valid() && fresh(r.value)
    ensures r.Ok? ==> r.value.inFeatures == inFeatures && r.value.outFeatures == outFeatures
    ensures r.Ok? ==> r.value.bits == bits && r.value.groupSize == groupSize && r.value.hasBias == bias
  {
    if inFeatures % groupSize != 0 {
      return Err(ValueError);
    }
    var layer := new QuantLinear(inFeatures, outFeatures, bias, groupSize, bits);
    return Ok(layer);
  }

  /** From weights through packed storage and back: within half a scale of where they started. */
  lemma StoredRoundTrip(row: seq<real>, g: nat, bits: nat, j: nat)
    requires g > 0 && |row| % g == 0 && (bits == 4 || bits == 8) && (bits == 4 ==> |row| % 2 == 0) && j < |row|
    ensures var stored := PackRow(RowCodes(row, g, QMax(bits)), bits);
      && stored.Ok? && UnpackRow(stored.value, |row|, bits).Ok?
      && var codes := UnpackRow(stored.value, |row|, bits).value;
      && |codes| == |row|
      && Abs(Dequantize(codes, RowScales(row, g, QMax(bits)), g)[j] - row[j]) <= ScaleAt(row, g, QMax(bits), j) / 2.0
  {
    hide PackRow, UnpackRow, RowCodes, RowScales, Dequantize, ScaleAt, Abs;
    StoresLosslessly(row, g, bits);
    RoundTripError(row, g, QMax(bits), j);
  }

  /** What a layer holds beside its bias is `bits + 16 / group` bits a weight, in every state of the
      layer: the scales are what they cost. The last weight of an odd row has no 4-bit code, only its
      share of a scale; no weight can be loaded into such a layer. */
  lemma BytesPerWeight(layer: QuantLinear)
    requires layer.Valid()
    ensures var coded := if layer.bits == 4 then layer.inFeatures - layer.inFeatures % 2 else layer.inFeatures;
      8 * layer.groupSize * (layer.WeightBytes() - 2 * |layer.bias|)
        == layer.outFeatures * (coded * layer.bits * layer.groupSize + 16 * layer.inFeatures)
    ensures |layer.bias| == if layer.hasBias then layer.outFeatures else 0
  {
    NumElRect(layer.packed, layer.PackedWidth());
    NumElRect(layer.scales, layer.GroupCount());
    DivBounds(layer.inFeatures, layer.groupSize);
    var coded := if layer.bits == 4 then layer.inFeatures - layer.inFeatures % 2 else layer.inFeatures;
    assert 8 * layer.PackedWidth() == coded * layer.bits;
    BytesSum(layer.outFeatures, layer.inFeatures, coded, layer.PackedWidth(), layer.GroupCount(), layer.groupSize, layer.bits);
  }

  lemma BytesSum(rows: nat, cols: nat, coded: nat, width: nat, groups: nat, g: nat, bits: nat)
    requires 8 * width == coded * bits && cols == groups * g
    ensures 8 * g * (rows * width + 2 * (rows * groups)) == rows * (coded * bits * g + 16 * cols)
  {
    calc {
      8 * g * (rows * width + 2 * (rows * groups));
      8 * g * (rows * width) + 16 * (g * (rows * groups));
      { assert 8 * g * (rows * width) == rows * (8 * width) * g; }
      { assert g * (rows * groups) == rows * (groups * g); }
      rows * (coded * bits) * g + 16 * (rows * cols);
      { assert rows * (coded * bits) * g == rows * (coded * bits * g); }
      rows * (coded * bits * g) + rows * (16 * cols);
      rows * (coded * bits * g + 16 * cols);
    }
  }
}
