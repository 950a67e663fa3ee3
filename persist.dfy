/**
 * `serialize` and `deserialize`: the indentation stack copied to and from the
 * host's fixed-size snapshot buffer, two bytes per entry. The model fixes the
 * little-endian order for those two bytes; the source copies the host's native
 * layout.
 */
module Persist {
  import opened Layout
  import opened IndentStack

  type Byte = x: int | 0 <= x < 0x100

  /** The bytes of a stack: low byte, then high byte, per entry. */
  function Encode(xs: seq<U16>): (b: seq<Byte>)
    ensures |b| == 2 * |xs|
  {
    if xs == [] then [] else [xs[0] % 0x100, xs[0] / 0x100] + Encode(xs[1..])
  }

  /** The entry made of a low and a high byte. */
  function Entry(lo: Byte, hi: Byte): U16 {
    lo as int + 0x100 * (hi as int)
  }

  /** The entries read back from a buffer of bytes; a trailing odd byte is ignored. */
  function Decode(b: seq<Byte>): (xs: seq<U16>)
    ensures |xs| == |b| / 2
  {
    seq(|b| / 2, i requires 0 <= i < |b| / 2 => Entry(b[2 * i], b[2 * i + 1]))
  }

  /** Entry `i` of the stack sits at bytes `2i` (low) and `2i+1` (high). */
  lemma {:induction false} EncodeAt(xs: seq<U16>, i: nat)
    requires i < |xs|
    ensures Encode(xs)[2 * i] == xs[i] % 0x100
    ensures Encode(xs)[2 * i + 1] == xs[i] / 0x100
  {
    if i > 0 {
      EncodeAt(xs[1..], i - 1);
      assert Encode(xs) == [xs[0] % 0x100, xs[0] / 0x100] + Encode(xs[1..]);
    }
  }

  /** Decoding undoes encoding. */
  lemma DecodeEncode(xs: seq<U16>)
    ensures Decode(Encode(xs)) == xs
  {
    forall i | 0 <= i < |xs|
      ensures Decode(Encode(xs))[i] == xs[i]
    {
      EncodeAt(xs, i);
    }
  }

  /** What `serialize` returns for a stack, given the buffer size: 0 when it does not fit. */
  function SerializedLength(xs: seq<U16>, bufferSize: nat): nat {
    if 2 * |xs| > bufferSize then 0 else 2 * |xs|
  }

  /** The stack after `deserialize` of `bytes` over a stack `current`. */
  function Deserialized(current: seq<U16>, bytes: seq<Byte>): seq<U16> {
    if |bytes| / 2 > 0 then Decode(bytes) else current
  }

  /** A non-empty stack that fits comes back exactly, whatever stack it is restored over. */
  lemma SerializeRoundTrip(xs: seq<U16>, bufferSize: nat, current: seq<U16>)
    requires 0 < 2 * |xs| <= bufferSize
    ensures SerializedLength(xs, bufferSize) == 2 * |xs|
    ensures Deserialized(current, Encode(xs)[..SerializedLength(xs, bufferSize)]) == xs
  {
    assert Encode(xs)[..2 * |xs|] == Encode(xs);
    DecodeEncode(xs);
  }

  /** A stack that needs more bytes than the buffer holds is reported as length 0. */
  lemma SerializeTooLarge(xs: seq<U16>, bufferSize: nat)
    requires 2 * |xs| > bufferSize
    ensures SerializedLength(xs, bufferSize) == 0
  {
  }

  /**
   * A snapshot of length 0 (what a too-large or an empty stack produces) leaves the
   * stack as it was, so restoring an empty snapshot does not empty the stack.
   */
  lemma DeserializeEmptyKeeps(current: seq<U16>, bytes: seq<Byte>)
    requires |bytes| == 0
    ensures Deserialized(current, bytes) == current
  {
  }

  /** `tree_sitter_unison_external_scanner_serialize`. */
  method Serialize(indents: IndentVec, buffer: array<Byte>) returns (n: nat)
    modifies buffer
    ensures n == SerializedLength(indents.data, buffer.Length)
    ensures n > 0 ==> buffer[..n] == Encode(indents.data)
    ensures buffer[n..] == old(buffer[n..])
  {
    var toCopy := 2 * |indents.data|;
    if toCopy > buffer.Length {
      return 0;
    }
    var i := 0;
    while i < |indents.data|
      invariant 0 <= i <= |indents.data|
      invariant forall k :: 0 <= k < i ==>
        buffer[2 * k] == indents.data[k] % 0x100 && buffer[2 * k + 1] == indents.data[k] / 0x100
      invariant forall k :: 2 * i <= k < buffer.Length ==> buffer[k] == old(buffer[k])
    {
      buffer[2 * i] := indents.data[i] % 0x100;
      buffer[2 * i + 1] := indents.data[i] / 0x100;
      i := i + 1;
    }
    n := toCopy;
    assert buffer[n..] == old(buffer[n..]);
    forall j | 0 <= j < n
      ensures buffer[j] == Encode(indents.data)[j]
    {
      EncodeAt(indents.data, j / 2);
    }
  }

  /**
   * `tree_sitter_unison_external_scanner_deserialize`. The host hands back the bytes of a
   * snapshot it took; an odd length is not modelled.
   */
  method Deserialize(indents: IndentVec, buffer: array<Byte>, length: nat)
    requires indents.Valid()
    requires length <= buffer.Length && length % 2 == 0
    modifies indents
    ensures indents.Valid()
    ensures indents.data == Deserialized(old(indents.data), buffer[..length])
    ensures indents.cap == if length / 2 > 0 then Max(old(indents.cap), length / 2) else old(indents.cap)
  {
    var els := length / 2;
    if els > 0 {
      indents.Grow(els);
      var d: seq<U16> := [];
      var i := 0;
      while i < els
        invariant 0 <= i <= els
        invariant |d| == i
        invariant forall k :: 0 <= k < i ==> d[k] == Entry(buffer[2 * k], buffer[2 * k + 1])
      {
        d := d + [Entry(buffer[2 * i], buffer[2 * i + 1])];
        i := i + 1;
      }
      indents.data := d;
    }
  }
}
