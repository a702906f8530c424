/** Storing codes: two signed nibbles to a byte, or one signed byte in an unsigned one
    (edgerag/core/quant.py, edgerag/core/linear.py). */
module Packing {
  import opened Common
  import opened Quant

  // -------------------------------------------------------------------------------------- nibbles

  /** A code biased into 0..15. */
  function Biased(c: int): (b: bv8)
    ensures b <= 15
    ensures -8 <= c <= 7 ==> b as int == c + 8
  {
    (Clamp(c + 8, 0, 15)) as bv8
  }

  function Low(b: bv8): (c: int)
    ensures -8 <= c <= 7
  {
    (b & 0x0F) as int - 8
  }

  function High(b: bv8): (c: int)
    ensures -8 <= c <= 7
  {
    ((b >> 4) & 0x0F) as int - 8
  }

  /** The low nibble does not borrow from the high one. */
  lemma Nibbles(l: bv8, h: bv8)
    requires l <= 15 && h <= 15
    ensures (l | (h << 4)) & 0x0F == l
    ensures ((l | (h << 4)) >> 4) & 0x0F == h
  {
  }

  lemma ByteIsItsNibbles(b: bv8)
    ensures (b & 0x0F) | (((b >> 4) & 0x0F) << 4) == b
  {
  }

  predicate Nibble(codes: seq<int>) {
    forall j :: 0 <= j < |codes| ==> -8 <= codes[j] <= 7
  }

  function PackByte(c0: int, c1: int): bv8 {
    Biased(c0) | (Biased(c1) << 4)
  }

  function PackInt4(codes: seq<int>): Result<seq<bv8>> {
    if |codes| % 2 != 0 then Err(ValueError)
    else Ok(seq(|codes| / 2, k requires 0 <= k < |codes| / 2 => PackByte(codes[2 * k], codes[2 * k + 1])))
  }

  lemma PackByteBack(c0: int, c1: int)
    requires -8 <= c0 <= 7 && -8 <= c1 <= 7
    ensures Low(PackByte(c0, c1)) == c0 && High(PackByte(c0, c1)) == c1
  {
    Nibbles(Biased(c0), Biased(c1));
  }

  /** The even columns take the low nibbles and the odd ones the high nibbles; the widths must match,
      unless a single byte is repeated. */
  predicate Unpackable(bytes: nat, width: nat) {
    bytes == 1 || width == 2 * bytes
  }

  function Source(packed: seq<bv8>, j: nat): bv8
    requires packed != []
  {
    if |packed| == 1 then packed[0] else if j / 2 < |packed| then packed[j / 2] else 0
  }

  function CodeOf(packed: seq<bv8>, j: nat): int
    requires packed != []
  {
    if j % 2 == 0 then Low(Source(packed, j)) else High(Source(packed, j))
  }

  /** What `unpack_int4` is to return. */
  function Unpacked(packed: seq<bv8>, width: nat): Result<seq<int>> {
    if !Unpackable(|packed|, width) then Err(ShapeError)
    else if packed == [] then Ok([])
    else Ok(seq(width, j requires 0 <= j < width => CodeOf(packed, j)))
  }

  method UnpackInt4(packed: seq<bv8>, width: nat) returns (r: Result<seq<int>>)
    ensures r == Unpacked(packed, width)
  {
    if !Unpackable(|packed|, width) {
      return Err(ShapeError);
    }
    if |packed| == 0 {
      return Ok([]);
    }
    var out := new int[width];
    var j := 0;
    while j < width
      invariant 0 <= j <= width + 1 && j % 2 == 0
      invariant forall k :: 0 <= k < j && k < width && k % 2 == 0 ==> out[k] == Low(Source(packed, k))
    {
      out[j] := Low(Source(packed, j));
      j := j + 2;
    }
    j := 1;
    while j < width
      invariant 1 <= j <= width + 2 && j % 2 == 1
      invariant forall k :: 0 <= k < width && k % 2 == 0 ==> out[k] == Low(Source(packed, k))
      invariant forall k :: 0 <= k < j && k < width && k % 2 == 1 ==> out[k] == High(Source(packed, k))
    {
      out[j] := High(Source(packed, j));
      j := j + 2;
    }
    assert out[..] == seq(width, k requires 0 <= k < width => CodeOf(packed, k));
    return Ok(out[..]);
  }

  /** The even column's code, biased by 8, is the low nibble and the odd column's the high one. */
  lemma PackedByte(c0: int, c1: int)
    requires -8 <= c0 <= 7 && -8 <= c1 <= 7
    ensures PackByte(c0, c1) as int == (c0 + 8) + 16 * (c1 + 8)
  {
    var l, h := Biased(c0), Biased(c1);
    JoinNibbles(l, h);
  }

  lemma JoinNibbles(l: bv8, h: bv8)
    requires l <= 15 && h <= 15
    ensures (l | (h << 4)) as int == l as int + 16 * h as int
  {
    var n := h as int;
    assert h == n as bv8;
  }

  /** Unpacking what was packed is the identity on codes in [-8, 7]... */
  lemma PackUnpack(codes: seq<int>)
    requires Nibble(codes) && |codes| % 2 == 0
    ensures PackInt4(codes).Ok? && Unpacked(PackInt4(codes).value, |codes|) == Ok(codes)
  {
    hide CodeOf;
    var packed := PackInt4(codes).value;
    if codes != [] {
      forall j | 0 <= j < |codes| ensures CodeOf(packed, j) == codes[j] {
        PairBack(codes, packed, j);
      }
      assert Unpacked(packed, |codes|).value == codes;
    }
  }

  lemma PairBack(codes: seq<int>, packed: seq<bv8>, j: nat)
    requires Nibble(codes) && |codes| % 2 == 0 && j < |codes| && |packed| == |codes| / 2
    requires forall k :: 0 <= k < |packed| ==> packed[k] == PackByte(codes[2 * k], codes[2 * k + 1])
    ensures packed != [] && CodeOf(packed, j) == codes[j]
  {
    hide PackByte, Low, High;
    var k := j / 2;
    assert k < |packed| && (j == 2 * k || j == 2 * k + 1);
    assert Source(packed, j) == packed[k];
    PackByteBack(codes[2 * k], codes[2 * k + 1]);
  }

  lemma PackedAgain(b: bv8)
    ensures PackByte(Low(b), High(b)) == b
  {
    var l, h := b & 0x0F, (b >> 4) & 0x0F;
    assert l <= 15 && h <= 15;
    ByteIsItsNibbles(b);
    assert Biased(Low(b)) as int == l as int && Biased(High(b)) as int == h as int;
    SameByte(Biased(Low(b)), l);
    SameByte(Biased(High(b)), h);
  }

  lemma SameByte(a: bv8, b: bv8)
    requires a as int == b as int
    ensures a == b
  {
    assert (a as int) as bv8 == a;
    assert (b as int) as bv8 == b;
  }

  lemma PairAgain(packed: seq<bv8>, k: nat)
    requires k < |packed|
    ensures PackByte(CodeOf(packed, 2 * k), CodeOf(packed, 2 * k + 1)) == packed[k]
  {
    hide PackByte, Low, High;
    assert Source(packed, 2 * k) == packed[k] == Source(packed, 2 * k + 1);
    PackedAgain(packed[k]);
  }

  /** ...and packing what was unpacked gives the same bytes: no two byte rows mean the same codes. */
  lemma UnpackPack(packed: seq<bv8>)
    ensures Unpacked(packed, 2 * |packed|).Ok? && PackInt4(Unpacked(packed, 2 * |packed|).value) == Ok(packed)
  {
    hide PackByte, CodeOf;
    var n := |packed|;
    var codes := Unpacked(packed, 2 * n).value;
    assert |codes| == 2 * n && |codes| % 2 == 0 && |codes| / 2 == n;
    forall k | 0 <= k < n ensures PackByte(codes[2 * k], codes[2 * k + 1]) == packed[k] {
      PairAgain(packed, k);
    }
    assert PackInt4(codes).value == packed;
  }

  // ---------------------------------------------------------------------------------------- bytes

  /** The byte of value `m`, counted up: the solver knows addition on bytes better than casts to them. */
  function Byte(m: nat): (b: bv8)
    requires m < 256
    ensures b as int == m
  {
    if m == 0 then 0 else Byte(m - 1) + 1
  }

  /** Casting a signed byte to unsigned storage wraps negative values... */
  function ToUint8(c: int): bv8 {
    Byte(c % 256)
  }

  /** ...and casting back undoes it. */
  function ToInt8(b: bv8): int {
    var m := b as int;
    if m >= 128 then m - 256 else m
  }

  lemma Wraps(c: int)
    requires -128 <= c <= 127
    ensures c % 256 == if c < 0 then c + 256 else c
  {
  }

  lemma ByteBack(c: int)
    requires -128 <= c <= 127
    ensures ToUint8(c) as int == (if c < 0 then c + 256 else c) && ToInt8(ToUint8(c)) == c
  {
    hide Byte;
    Wraps(c);
  }
}
