/**
 * Fixed-width integers as they appear on the wire, and their big-endian
 * (network byte order) encoding, which is what a QDataStream writes by default.
 */
module Wire {

  type Byte = x: int | 0 <= x < 0x100
  type UInt16 = x: int | 0 <= x < 0x1_0000
  type Int32 = x: int | -0x8000_0000 <= x < 0x8000_0000

  /** 256 to the power k: the number of values k bytes can hold. */
  function Pow256(k: nat): (r: nat)
    ensures r >= 1
  {
    if k == 0 then 1 else 256 * Pow256(k - 1)
  }

  /** The k-byte big-endian encoding of x, most significant byte first. */
  function ToBigEndian(x: nat, k: nat): (r: seq<Byte>)
    requires x < Pow256(k)
    ensures |r| == k
  {
    if k == 0 then []
    else
      assert x / 256 < Pow256(k - 1);
      ToBigEndian(x / 256, k - 1) + [x % 256]
  }

  /** The unsigned value of a big-endian byte string. */
  function FromBigEndian(s: seq<Byte>): (r: nat)
    ensures r < Pow256(|s|)
  {
    if s == [] then 0
    else
      var high := FromBigEndian(s[..|s| - 1]);
      assert high * 256 <= (Pow256(|s| - 1) - 1) * 256;
      high * 256 + s[|s| - 1]
  }

  lemma {:induction false} FromToBigEndian(x: nat, k: nat)
    requires x < Pow256(k)
    ensures FromBigEndian(ToBigEndian(x, k)) == x
  {
    if k > 0 {
      var s := ToBigEndian(x, k);
      assert s[..k - 1] == ToBigEndian(x / 256, k - 1);
      FromToBigEndian(x / 256, k - 1);
    }
  }

  lemma {:induction false} ToFromBigEndian(s: seq<Byte>)
    ensures ToBigEndian(FromBigEndian(s), |s|) == s
  {
    if s != [] {
      var n := |s|;
      var prefix, last := s[..n - 1], s[n - 1];
      var high := FromBigEndian(prefix);
      SplitByte(high, last);
      ToFromBigEndian(prefix);
      calc {
        ToBigEndian(FromBigEndian(s), n);
        ToBigEndian(high * 256 + last, n);
        ToBigEndian(high, n - 1) + [last];
        prefix + [last];
        s;
      }
    }
  }

  /** Dividing a shifted value by 256 recovers the high part and the low byte. */
  lemma SplitByte(high: nat, low: Byte)
    ensures (high * 256 + low) / 256 == high
    ensures (high * 256 + low) % 256 == low
  {
  }

  const TwoTo31: int := 0x8000_0000
  const TwoTo32: int := 0x1_0000_0000

  /**
   * The implicit conversion of a non-negative size (std::size_t, qsizetype)
   * to a qint32 setter argument: keep the low 32 bits and read them as a
   * two's-complement value.
   */
  function Narrow32(n: nat): (r: Int32)
    ensures n < TwoTo31 ==> r == n
    ensures (r - n) % TwoTo32 == 0
  {
    var low := n % TwoTo32;
    if low < TwoTo31 then low else low - TwoTo32
  }

  /** The four bytes a QDataStream writes for a qint32. */
  function EncodeInt32(x: Int32): (r: seq<Byte>)
    ensures |r| == 4
  {
    assert Pow256(4) == TwoTo32;
    ToBigEndian(if x < 0 then x + TwoTo32 else x, 4)
  }

  /** The qint32 a QDataStream reads back from four bytes. */
  function DecodeInt32(s: seq<Byte>): (r: Int32)
    requires |s| == 4
  {
    assert Pow256(4) == TwoTo32;
    var u := FromBigEndian(s);
    if u < TwoTo31 then u else u - TwoTo32
  }

  lemma Int32RoundTrip(x: Int32)
    ensures DecodeInt32(EncodeInt32(x)) == x
  {
    assert Pow256(4) == TwoTo32;
    FromToBigEndian(if x < 0 then x + TwoTo32 else x, 4);
  }

  lemma Int32BytesRoundTrip(s: seq<Byte>)
    requires |s| == 4
    ensures EncodeInt32(DecodeInt32(s)) == s
  {
    assert Pow256(4) == TwoTo32;
    ToFromBigEndian(s);
  }
}
