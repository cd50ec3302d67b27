/**
 Embedding blobs (internal/index/vectors.go): four little-endian bytes for the bit pattern of each float32.
 */
module Vectors {
  import opened Wrappers

  function Byte(v: bv32, k: nat): bv8
    requires k < 4
  {
    if k == 0 then (v & 0xFF) as bv8
    else if k == 1 then ((v >> 8) & 0xFF) as bv8
    else if k == 2 then ((v >> 16) & 0xFF) as bv8
    else ((v >> 24) & 0xFF) as bv8
  }

  function Word(b0: bv8, b1: bv8, b2: bv8, b3: bv8): bv32 {
    (b0 as bv32) | ((b1 as bv32) << 8) | ((b2 as bv32) << 16) | ((b3 as bv32) << 24)
  }

  /** Little-endian: the first byte counts ones, the next 256s, and so on. */
  lemma LittleEndian(v: bv32)
    ensures v == (Byte(v, 0) as bv32) + (Byte(v, 1) as bv32) * 0x100
               + (Byte(v, 2) as bv32) * 0x1_0000 + (Byte(v, 3) as bv32) * 0x100_0000
  {}

  lemma WordOfBytes(v: bv32)
    ensures Word(Byte(v, 0), Byte(v, 1), Byte(v, 2), Byte(v, 3)) == v
  {}

  lemma BytesOfWord(b0: bv8, b1: bv8, b2: bv8, b3: bv8)
    ensures Byte(Word(b0, b1, b2, b3), 0) == b0
    ensures Byte(Word(b0, b1, b2, b3), 1) == b1
    ensures Byte(Word(b0, b1, b2, b3), 2) == b2
    ensures Byte(Word(b0, b1, b2, b3), 3) == b3
  {}

  function Encoded(values: seq<bv32>): (blob: seq<bv8>)
    ensures |blob| == 4 * |values|
  {
    seq(4 * |values|, i requires 0 <= i < 4 * |values| => Byte(values[i / 4], i % 4))
  }

  function Decoded(blob: seq<bv8>): (values: seq<bv32>)
    requires |blob| % 4 == 0
    ensures |values| == |blob| / 4
  {
    seq(|blob| / 4, i requires 0 <= i < |blob| / 4 =>
      Word(blob[4 * i], blob[4 * i + 1], blob[4 * i + 2], blob[4 * i + 3]))
  }

  lemma EncodedAt(values: seq<bv32>, i: nat)
    requires i < |values|
    ensures var blob := Encoded(values);
            && blob[4 * i] == Byte(values[i], 0) && blob[4 * i + 1] == Byte(values[i], 1)
            && blob[4 * i + 2] == Byte(values[i], 2) && blob[4 * i + 3] == Byte(values[i], 3)
  {
    hide Byte;
    assert (4 * i + 1) / 4 == (4 * i + 2) / 4 == (4 * i + 3) / 4 == (4 * i) / 4 == i;
  }

  /** Reading a written embedding gives it back bit for bit. */
  lemma DecodeEncoded(values: seq<bv32>)
    ensures Decoded(Encoded(values)) == values
  {
    hide Byte, Word, Encoded;
    forall i | 0 <= i < |values| ensures Decoded(Encoded(values))[i] == values[i] {
      EncodedAt(values, i);
      WordOfBytes(values[i]);
    }
  }

  /** And every blob of whole words is the writing of what is read from it. */
  lemma EncodeDecoded(blob: seq<bv8>)
    requires |blob| % 4 == 0
    ensures Encoded(Decoded(blob)) == blob
  {
    hide Byte, Word;
    forall k | 0 <= k < |blob| ensures Encoded(Decoded(blob))[k] == blob[k] {
      var i := k / 4;
      BytesOfWord(blob[4 * i], blob[4 * i + 1], blob[4 * i + 2], blob[4 * i + 3]);
    }
  }

  method EncodeEmbedding(values: seq<bv32>) returns (blob: array<bv8>)
    ensures fresh(blob) && blob[..] == Encoded(values)
  {
    hide Byte;
    blob := new bv8[4 * |values|];
    for i := 0 to |values|
      invariant forall k :: 0 <= k < 4 * i ==> blob[k] == Byte(values[k / 4], k % 4)
    {
      blob[4 * i] := Byte(values[i], 0);
      blob[4 * i + 1] := Byte(values[i], 1);
      blob[4 * i + 2] := Byte(values[i], 2);
      blob[4 * i + 3] := Byte(values[i], 3);
    }
  }

  method DecodeEmbedding(blob: seq<bv8>) returns (r: Result<array<bv32>>)
    ensures r.Failure? <==> |blob| % 4 != 0
    ensures r.Success? ==> fresh(r.value) && r.value[..] == Decoded(blob)
  {
    if |blob| % 4 != 0 { return Failure("embedding blob length must be divisible by 4"); }
    var values := new bv32[|blob| / 4];
    for i := 0 to values.Length
      invariant forall k :: 0 <= k < i ==> values[k] == Decoded(blob)[k]
    {
      values[i] := Word(blob[4 * i], blob[4 * i + 1], blob[4 * i + 2], blob[4 * i + 3]);
    }
    assert values[..] == Decoded(blob);
    return Success(values);
  }
}
