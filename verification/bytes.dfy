/** Optional values and results shared by every module of the model. */
module Results {

  /** A value that may be missing: an omitted JavaScript argument, or a lookup that finds nothing. */
  datatype Option<T> = None | Some(value: T) {

    /** The carried value, or `default` when there is none (JavaScript's `??`). */
    function GetOr(default: T): T {
      match this
      case Some(v) => v
      case None => default
    }
  }

  /** Either a value or the error the source throws instead of returning one. */
  datatype Result<T, E> = Ok(value: T) | Err(error: E)
}

/** Octets and the big-endian integers the frame layer writes as runs of octets. */
module Bytes {

  /** One element of a JavaScript `Uint8Array`. */
  type uint8 = x: int | 0 <= x < 256

  /** Storing an integer into a `Uint8Array` element (ECMAScript's ToUint8): the octet congruent to
      it modulo 256, which is the integer itself when it already is an octet. */
  function StoreOctet(n: int): (r: uint8)
    ensures 0 <= n < 256 ==> r == n
    ensures (n - r) % 256 == 0
  {
    n % 256
  }

  /** Integers that differ by a multiple of 256 are stored as the same octet. */
  lemma StoreOctetPeriodic(n: int, k: int)
    ensures StoreOctet(n + 256 * k) == StoreOctet(n)
  {
  }

  /** 256 to the power `n`: one more than the largest value `n` octets can hold. */
  function Pow256(n: nat): (r: nat)
    ensures r >= 1
  {
    if n == 0 then 1 else 256 * Pow256(n - 1)
  }

  /** The exclusive upper bounds of the 24-bit length and the 32-bit stream identifier. */
  const Limit24: nat := 0x100_0000
  const Limit32: nat := 0x1_0000_0000

  lemma Pow256Limits()
    ensures Pow256(3) == Limit24
    ensures Pow256(4) == Limit32
  {
    assert Pow256(1) == 256;
    assert Pow256(2) == 0x1_0000;
  }

  /** The unsigned integer denoted by a big-endian run of octets
      (the source concatenates the octets' 8-digit binary spellings and parses the result). */
  function FromBigEndian(bs: seq<uint8>): (r: nat)
    ensures r < Pow256(|bs|)
  {
    if |bs| == 0 then 0
    else
      var hi := FromBigEndian(bs[..|bs| - 1]);
      assert hi <= Pow256(|bs| - 1) - 1;
      assert hi * 256 <= Pow256(|bs|) - 256;
      hi * 256 + bs[|bs| - 1]
  }

  /** The `width`-octet big-endian spelling of `n`
      (the source pads the binary spelling to 8 * width digits and cuts it into octets). */
  function ToBigEndian(n: nat, width: nat): (r: seq<uint8>)
    requires n < Pow256(width)
    ensures |r| == width
    ensures FromBigEndian(r) == n
  {
    if width == 0 then []
    else
      var prefix := ToBigEndian(n / 256, width - 1);
      var r := prefix + [n % 256];
      assert r[..|r| - 1] == prefix;
      r
  }

  /** Spelling out the value of an octet run gives back the same octets: the encoding is unique. */
  lemma {:induction false} BigEndianRoundTrip(bs: seq<uint8>)
    ensures ToBigEndian(FromBigEndian(bs), |bs|) == bs
  {
    if |bs| > 0 {
      var init := bs[..|bs| - 1];
      var n := FromBigEndian(bs);
      assert n / 256 == FromBigEndian(init);
      assert n % 256 == bs[|bs| - 1];
      BigEndianRoundTrip(init);
      assert bs == init + [bs[|bs| - 1]];
    }
  }

  /** Two octet runs of one width with the same value are the same run. */
  lemma BigEndianInjective(a: seq<uint8>, b: seq<uint8>)
    requires |a| == |b|
    requires FromBigEndian(a) == FromBigEndian(b)
    ensures a == b
  {
    BigEndianRoundTrip(a);
    BigEndianRoundTrip(b);
  }

  /** The three-octet length field of a frame header. */
  function Be24(n: nat): (r: seq<uint8>)
    requires n < Limit24
    ensures |r| == 3
    ensures FromBigEndian(r) == n
  {
    Pow256Limits();
    ToBigEndian(n, 3)
  }

  /** The four-octet stream identifier of a frame header, and the value of a SETTINGS entry. */
  function Be32(n: nat): (r: seq<uint8>)
    requires n < Limit32
    ensures |r| == 4
    ensures FromBigEndian(r) == n
  {
    Pow256Limits();
    ToBigEndian(n, 4)
  }

  /** The positional reading of four octets, most significant first. */
  lemma {:induction false} FromBigEndian4(bs: seq<uint8>)
    requires |bs| == 4
    ensures FromBigEndian(bs) == (bs[0] as int) * 0x100_0000 + (bs[1] as int) * 0x1_0000 + (bs[2] as int) * 0x100 + bs[3]
  {
    assert bs[..3][..2] == bs[..2];
    assert bs[..2][..1] == bs[..1];
    assert bs[..1][..0] == [];
    assert FromBigEndian(bs[..1]) == bs[0];
    assert FromBigEndian(bs[..2]) == (bs[0] as int) * 0x100 + bs[1];
    assert FromBigEndian(bs[..3]) == (bs[0] as int) * 0x1_0000 + (bs[1] as int) * 0x100 + bs[2];
  }
}
