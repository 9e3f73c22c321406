/** Results shared by every module. */
module Results {

  datatype Option<+T> = None | Some(value: T)

  datatype Result<+T, +E> = Ok(value: T) | Err(error: E)
}

/** Byte strings and the big-endian integers the formats are made of. */
module ByteStrings {

  type Byte = x: int | 0 <= x < 256

  type Bytes = seq<Byte>

  /** 256 to the power n: one more than the largest n-byte integer. */
  function Range(n: nat): (r: nat)
    ensures r >= 1
  {
    if n == 0 then 1 else 256 * Range(n - 1)
  }

  /** The n low bytes of v, most significant first. */
  function BigEndian(v: nat, n: nat): (b: Bytes)
    ensures |b| == n
  {
    if n == 0 then [] else BigEndian(v / 256, n - 1) + [v % 256]
  }

  function ValueOf(b: Bytes): nat {
    if b == [] then 0 else 256 * ValueOf(b[..|b| - 1]) + b[|b| - 1]
  }

  lemma {:induction false} DecodeEncode(v: nat, n: nat)
    requires v < Range(n)
    ensures ValueOf(BigEndian(v, n)) == v
  {
    if n != 0 {
      DecodeEncode(v / 256, n - 1);
      assert BigEndian(v, n)[..n - 1] == BigEndian(v / 256, n - 1);
    }
  }

  lemma {:induction false} EncodeDecode(b: Bytes)
    ensures ValueOf(b) < Range(|b|)
    ensures BigEndian(ValueOf(b), |b|) == b
  {
    if b != [] {
      EncodeDecode(b[..|b| - 1]);
      assert b == b[..|b| - 1] + [b[|b| - 1]];
    }
  }

  lemma EncodeInjective(v: nat, w: nat, n: nat)
    requires v < Range(n) && w < Range(n)
    requires BigEndian(v, n) == BigEndian(w, n)
    ensures v == w
  {
    DecodeEncode(v, n);
    DecodeEncode(w, n);
  }

  const TWO16 := 0x1_0000
  const TWO32 := 0x1_0000_0000
  const TWO62 := 0x4000_0000_0000_0000
  const TWO64 := 0x1_0000_0000_0000_0000

  lemma Ranges()
    ensures Range(1) == 256 && Range(2) == TWO16 && Range(4) == TWO32 && Range(8) == TWO64
  {
    assert Range(2) == 256 * Range(1);
    assert Range(4) == 256 * Range(3) && Range(3) == 256 * Range(2);
    assert Range(6) == 256 * Range(5) && Range(5) == 256 * Range(4);
    assert Range(8) == 256 * Range(7) && Range(7) == 256 * Range(6);
  }

  type Uint64 = x: int | 0 <= x < TWO64

  function U64(v: Uint64): (b: Bytes)
    ensures |b| == 8
  {
    BigEndian(v, 8)
  }

  function FromU64(b: Bytes): (v: Uint64)
    requires |b| == 8
  {
    EncodeDecode(b);
    Ranges();
    ValueOf(b)
  }

  lemma U64RoundTrip(v: Uint64)
    ensures FromU64(U64(v)) == v
  {
    Ranges();
    DecodeEncode(v, 8);
  }

  lemma U64Injective(v: Uint64, w: Uint64)
    requires U64(v) == U64(w)
    ensures v == w
  {
    U64RoundTrip(v);
    U64RoundTrip(w);
  }

  /** Copying src to the front of a buffer of random bytes. */
  function Overlay(src: Bytes, fill: Bytes): (b: Bytes)
    requires |src| <= |fill|
    ensures |b| == |fill| && b[..|src|] == src && b[|src|..] == fill[|src|..]
  {
    src + fill[|src|..]
  }
}
