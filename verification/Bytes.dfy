/** Bytes and big-endian numbers, as `int.from_bytes` and `struct.unpack` read them. */
module Bytes {

  newtype byte = x: int | 0 <= x < 256

  /** Big-endian value of however many bytes there are. */
  function BigEndian(b: seq<byte>): nat {
    if b == [] then 0 else 256 * BigEndian(b[..|b| - 1]) + b[|b| - 1] as nat
  }

  /** A slice clipped to the data, as Python slices are. */
  function Slice(data: seq<byte>, from: nat, to: nat): (r: seq<byte>)
    requires from <= to
    ensures to <= |data| ==> r == data[from..to]
    ensures |r| == if to <= |data| then to - from else if from <= |data| then |data| - from else 0
    ensures forall i :: 0 <= i < |r| ==> r[i] == data[from + i]
  {
    var hi := if to <= |data| then to else |data|;
    if from <= hi then data[from..hi] else []
  }

  /** The big-endian spelling of a number in `width` bytes. */
  function ToBytes(n: nat, width: nat): (r: seq<byte>)
    ensures |r| == width
  {
    if width == 0 then [] else ToBytes(n / 256, width - 1) + [(n % 256) as byte]
  }

  function Range(width: nat): (r: nat)
    ensures r > 0
  {
    if width == 0 then 1 else 256 * Range(width - 1)
  }

  lemma {:induction false} ReadBack(n: nat, width: nat)
    requires n < Range(width)
    ensures BigEndian(ToBytes(n, width)) == n
  {
    if width > 0 {
      ReadBack(n / 256, width - 1);
      assert ToBytes(n, width)[..width - 1] == ToBytes(n / 256, width - 1);
    }
  }

  lemma {:induction false} WriteBack(b: seq<byte>)
    ensures BigEndian(b) < Range(|b|) && ToBytes(BigEndian(b), |b|) == b
  {
    if b != [] {
      var init, last := b[..|b| - 1], b[|b| - 1];
      WriteBack(init);
      assert BigEndian(b) / 256 == BigEndian(init) && BigEndian(b) % 256 == last as nat;
      assert b == init + [last];
    }
  }

  /** The first byte counts for as many of the later ones as they can spell. */
  lemma {:induction false} FirstByteIsLargest(first: byte, rest: seq<byte>)
    ensures BigEndian([first] + rest) == first as nat * Range(|rest|) + BigEndian(rest)
  {
    var b := [first] + rest;
    if rest == [] {
      assert b[..0] == [];
    } else {
      var init, last := rest[..|rest| - 1], rest[|rest| - 1];
      assert b[..|b| - 1] == [first] + init && b[|b| - 1] == last;
      FirstByteIsLargest(first, init);
      assert Range(|rest|) == 256 * Range(|init|);
    }
  }
}
