/** The raw dump of one tokenizer output: every value is cast to the model's
    element type (a wrapping integer cast) and written as fixed-width two's
    complement bytes with no header. The dump uses the machine's native byte
    order; this model fixes it to little-endian. */
module BinaryEncoding {
  import opened Errors
  import opened NetworkInputs

  type Byte = b: int | 0 <= b < 256

  function Pow256(n: nat): (p: nat)
    ensures p >= 1
  {
    if n == 0 then 1 else 256 * Pow256(n - 1)
  }

  /** The number of distinct values of the element type: 2^32 or 2^64. */
  function Modulus(t: ElementType): (m: nat)
    ensures m >= 2
  {
    match t
    case Int32 => 0x1_0000_0000
    case Int64 => 0x1_0000_0000_0000_0000
  }

  /** The modulus is 256 to the power of the width in bytes. */
  lemma ModulusIsPower(t: ElementType)
    ensures Modulus(t) == Pow256(Width(t))
  {
    assert Pow256(4) == 0x1_0000_0000;
    if t == Int64 {
      assert Pow256(6) == 0x1_0000_0000_0000;
    }
  }

  /** The least and one past the greatest value of the signed element type. */
  function MinValue(t: ElementType): int {
    -(Modulus(t) / 2)
  }

  function Limit(t: ElementType): int {
    Modulus(t) / 2
  }

  predicate InRange(v: int, t: ElementType) {
    MinValue(t) <= v < Limit(t)
  }

  /** The integer cast to the element type: the one value of the signed range
      that agrees with `v` modulo 2 to the power of the bit width. */
  function Cast(v: int, t: ElementType): (c: int)
    ensures InRange(c, t)
    ensures c % Modulus(t) == v % Modulus(t)
  {
    var m := Modulus(t);
    var u := v % m;
    if u >= m / 2 then u - m else u
  }

  /** Every value of an array cast to the element type. */
  function CastAll(a: seq<int>, t: ElementType): (c: seq<int>)
    ensures |c| == |a|
    ensures forall i :: 0 <= i < |a| ==> c[i] == Cast(a[i], t)
  {
    seq(|a|, i requires 0 <= i < |a| => Cast(a[i], t))
  }

  /** `n` little-endian bytes of the low part of `u`. */
  function EncodeUnsigned(u: nat, n: nat): (bs: seq<Byte>)
    ensures |bs| == n
  {
    if n == 0 then [] else [u % 256] + EncodeUnsigned(u / 256, n - 1)
  }

  function DecodeUnsigned(bs: seq<Byte>): (u: nat)
    ensures u < Pow256(|bs|)
  {
    if |bs| == 0 then 0 else bs[0] + 256 * DecodeUnsigned(bs[1..])
  }

  /** The bytes of one value of the element type. */
  function EncodeValue(v: int, t: ElementType): (bs: seq<Byte>)
    ensures |bs| == Width(t)
  {
    EncodeUnsigned(v % Modulus(t), Width(t))
  }

  /** Reading one value of the element type back from its bytes. */
  function DecodeValue(bs: seq<Byte>, t: ElementType): (v: int)
    requires |bs| == Width(t)
    ensures InRange(v, t)
  {
    ModulusIsPower(t);
    var u := DecodeUnsigned(bs);
    if u >= Modulus(t) / 2 then u - Modulus(t) else u
  }

  /** The file contents for one array: the values back to back. */
  function EncodeArray(a: seq<int>, t: ElementType): (bs: seq<Byte>)
    ensures |bs| == |a| * Width(t)
  {
    if |a| == 0 then [] else EncodeValue(a[0], t) + EncodeArray(a[1..], t)
  }

  /** Reading a file as an array of the element type; a length that is not a
      whole number of elements is rejected. */
  function DecodeArray(bs: seq<Byte>, t: ElementType): (r: Option<seq<int>>)
    ensures r.Some? ==> |r.value| * Width(t) == |bs|
    ensures r.Some? ==> forall i :: 0 <= i < |r.value| ==> InRange(r.value[i], t)
    decreases |bs|
  {
    if |bs| == 0 then Some([])
    else if |bs| < Width(t) then None
    else
      match DecodeArray(bs[Width(t)..], t)
      case None => None
      case Some(rest) =>
        var vs := [DecodeValue(bs[..Width(t)], t)] + rest;
        assert forall i :: 1 <= i < |vs| ==> vs[i] == rest[i - 1];
        Some(vs)
  }

  lemma DivModBound(u: nat, p: nat)
    requires u < 256 * p
    ensures u / 256 < p
    ensures u % 256 + 256 * (u / 256) == u
  {
  }

  /** Little-endian bytes of an in-range unsigned value read back to it. */
  lemma {:induction false} UnsignedRoundTrip(u: nat, n: nat)
    requires u < Pow256(n)
    ensures DecodeUnsigned(EncodeUnsigned(u, n)) == u
  {
    if n > 0 {
      var bs := EncodeUnsigned(u, n);
      DivModBound(u, Pow256(n - 1));
      assert bs[1..] == EncodeUnsigned(u / 256, n - 1);
      UnsignedRoundTrip(u / 256, n - 1);
    }
  }

  /** Decoding the bytes of a value gives the value after the cast. */
  lemma ValueRoundTrip(v: int, t: ElementType)
    ensures DecodeValue(EncodeValue(v, t), t) == Cast(v, t)
  {
    ModulusIsPower(t);
    UnsignedRoundTrip(v % Modulus(t), Width(t));
  }

  /** Decoding a dumped array at its element type gives back the cast array,
      so the file holds the values and nothing else. */
  lemma {:induction false} ArrayRoundTrip(a: seq<int>, t: ElementType)
    ensures DecodeArray(EncodeArray(a, t), t) == Some(CastAll(a, t))
  {
    if |a| > 0 {
      var head := EncodeValue(a[0], t);
      var tail := EncodeArray(a[1..], t);
      var bs := head + tail;
      assert bs[Width(t)..] == tail;
      assert bs[..Width(t)] == head;
      ArrayRoundTrip(a[1..], t);
      ValueRoundTrip(a[0], t);
      assert CastAll(a, t) == [Cast(a[0], t)] + CastAll(a[1..], t);
    }
  }

  /** A value already in the range of the type survives the cast unchanged. */
  lemma CastKeepsInRange(v: int, t: ElementType)
    requires InRange(v, t)
    ensures Cast(v, t) == v
  {
    var m := Modulus(t);
    if v < 0 {
      assert v % m == v + m;
    }
  }

  /** Casting first and then dumping writes the same bytes as dumping directly:
      the cast loses exactly what the fixed width cannot hold. */
  lemma {:induction false} EncodeIgnoresCast(a: seq<int>, t: ElementType)
    ensures EncodeArray(CastAll(a, t), t) == EncodeArray(a, t)
  {
    if |a| > 0 {
      assert CastAll(a, t)[1..] == CastAll(a[1..], t);
      EncodeIgnoresCast(a[1..], t);
    }
  }

}
