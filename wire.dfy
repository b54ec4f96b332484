/**
 * The byte-level layer of the decoder: little-endian integers and the
 * `struct.unpack_from` formats the listener reads ('<B', '<b', '<h', '<i',
 * '<f'), each at standard size.
 */
module Wire {

  /** One octet of a datagram. */
  type Byte = x: int | 0 <= x < 0x100

  /** 256^n: how many values an n-byte field can hold. */
  function Pow256(n: nat): (p: nat)
    ensures p >= 1
  {
    if n == 0 then 1 else 0x100 * Pow256(n - 1)
  }

  /** The unsigned integer whose little-endian encoding is bs. */
  function FromLittleEndian(bs: seq<Byte>): (n: nat)
    ensures n < Pow256(|bs|)
  {
    if bs == [] then 0 else bs[0] + 0x100 * FromLittleEndian(bs[1..])
  }

  /** The width-byte little-endian encoding of n. */
  function ToLittleEndian(n: nat, width: nat): (bs: seq<Byte>)
    requires n < Pow256(width)
    ensures |bs| == width
  {
    if width == 0 then [] else [n % 0x100] + ToLittleEndian(n / 0x100, width - 1)
  }

  lemma {:induction false} FromToLittleEndian(n: nat, width: nat)
    requires n < Pow256(width)
    ensures FromLittleEndian(ToLittleEndian(n, width)) == n
  {
    if width > 0 {
      FromToLittleEndian(n / 0x100, width - 1);
      assert ToLittleEndian(n, width)[1..] == ToLittleEndian(n / 0x100, width - 1);
    }
  }

  lemma {:induction false} ToFromLittleEndian(bs: seq<Byte>)
    ensures ToLittleEndian(FromLittleEndian(bs), |bs|) == bs
  {
    if bs != [] {
      ToFromLittleEndian(bs[1..]);
      var n := FromLittleEndian(bs);
      assert n % 0x100 == bs[0] && n / 0x100 == FromLittleEndian(bs[1..]);
    }
  }

  /** The format codes the listener passes to `struct.unpack_from`, all after '<'. */
  datatype Format =
    | U8   // 'B'
    | I8   // 'b'
    | I16  // 'h'
    | I32  // 'i'
    | F32  // 'f', kept as its raw 32-bit word

  /** Standard size of a format, in bytes. */
  function Size(f: Format): nat {
    match f
    case U8 | I8 => 1
    case I16 => 2
    case I32 | F32 => 4
  }

  predicate IsSigned(f: Format) {
    f == I8 || f == I16 || f == I32
  }

  /** 2^(8 * Size(f)): the modulus of the two's-complement encoding. */
  function Modulus(f: Format): (m: nat)
    ensures m == Pow256(Size(f))
  {
    assert Pow256(2) == 0x1_0000 && Pow256(4) == 0x1_0000_0000 by {
      assert Pow256(1) == 0x100;
      assert Pow256(3) == 0x100_0000;
    }
    match f
    case U8 | I8 => 0x100
    case I16 => 0x1_0000
    case I32 | F32 => 0x1_0000_0000
  }

  /** The least value a field of format f holds. */
  function Low(f: Format): int {
    match f
    case I8 => -0x80
    case I16 => -0x8000
    case I32 => -0x8000_0000
    case U8 | F32 => 0
  }

  /** One more than the greatest value a field of format f holds. */
  function High(f: Format): int {
    match f
    case U8 => 0x100
    case I8 => 0x80
    case I16 => 0x8000
    case I32 => 0x8000_0000
    case F32 => 0x1_0000_0000
  }

  /**
   * A value read from a buffer, or the one error `struct.unpack_from` raises
   * here: struct.error, the buffer is too short. Usable with `:-`.
   */
  datatype Decoded<+T> = Ok(value: T) | StructError {

    predicate IsFailure() {
      StructError?
    }

    function PropagateFailure<U>(): Decoded<U> {
      StructError
    }

    function Extract(): T
      requires Ok?
    {
      value
    }
  }

  /**
   * `struct.unpack_from('<' + f, data, offset)[0]`: the field at offset, or
   * struct.error when it would run past the end of data.
   */
  function UnpackFrom(f: Format, data: seq<Byte>, offset: nat): (r: Decoded<int>)
    ensures r.Ok? <==> offset + Size(f) <= |data|
    ensures r.Ok? ==> Low(f) <= r.value < High(f)
  {
    if |data| < offset + Size(f) then StructError
    else
      var u, m := FromLittleEndian(data[offset..offset + Size(f)]), Modulus(f);
      Ok(if IsSigned(f) && u >= High(f) then u - m else u)
  }

  /** `struct.pack('<' + f, v)`: the bytes of a value in the range of f. */
  function Pack(f: Format, v: int): (bs: seq<Byte>)
    requires Low(f) <= v < High(f)
    ensures |bs| == Size(f)
  {
    var m := Modulus(f);
    ToLittleEndian(if v < 0 then v + m else v, Size(f))
  }

  /** Reading back a packed field gives the value that was packed. */
  lemma UnpackPack(f: Format, data: seq<Byte>, offset: nat, v: int)
    requires Low(f) <= v < High(f)
    requires offset + Size(f) <= |data|
    requires data[offset..offset + Size(f)] == Pack(f, v)
    ensures UnpackFrom(f, data, offset) == Ok(v)
  {
    var m := Modulus(f);
    FromToLittleEndian(if v < 0 then v + m else v, Size(f));
  }

  /** Packing a field that was read gives back the bytes it was read from. */
  lemma PackUnpack(f: Format, data: seq<Byte>, offset: nat)
    requires offset + Size(f) <= |data|
    ensures UnpackFrom(f, data, offset).Ok?
    ensures Pack(f, UnpackFrom(f, data, offset).value) == data[offset..offset + Size(f)]
  {
    ToFromLittleEndian(data[offset..offset + Size(f)]);
  }
}
