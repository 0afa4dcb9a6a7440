/**
 * Bytes and the big-endian unsigned integers that heads of RFC 8949
 * (section 3) and IEEE 754 bit patterns are written in.
 */
module Binary {

  /** An octet, as `uint8_t` / `unsigned char` hold it. */
  type byte = x: int | 0 <= x < 256

  function Pow256(n: nat): (r: nat)
    ensures r >= 1
  {
    if n == 0 then 1 else 256 * Pow256(n - 1)
  }

  /** `x` written as exactly `n` bytes, most significant byte first. */
  function BigEndian(x: nat, n: nat): (r: seq<byte>)
    requires x < Pow256(n)
    ensures |r| == n
  {
    if n == 0 then []
    else
      assert x / 256 < Pow256(n - 1);
      BigEndian(x / 256, n - 1) + [x % 256]
  }

  /** The unsigned number a big-endian byte string denotes. */
  function FromBigEndian(s: seq<byte>): (r: nat)
    ensures r < Pow256(|s|)
  {
    if s == [] then 0
    else
      var high := FromBigEndian(s[..|s| - 1]);
      assert high * 256 + s[|s| - 1] < 256 * Pow256(|s| - 1) by {
        assert high <= Pow256(|s| - 1) - 1;
      }
      high * 256 + s[|s| - 1]
  }

  /** Reading back what BigEndian wrote gives the number. */
  lemma {:induction false} FromBigEndianOfBigEndian(x: nat, n: nat)
    requires x < Pow256(n)
    ensures FromBigEndian(BigEndian(x, n)) == x
  {
    if n > 0 {
      var s := BigEndian(x, n);
      assert x / 256 < Pow256(n - 1);
      assert s[..n - 1] == BigEndian(x / 256, n - 1);
      FromBigEndianOfBigEndian(x / 256, n - 1);
    }
  }

  /** Writing back what FromBigEndian read, at the same width, gives the bytes. */
  lemma {:induction false} BigEndianOfFromBigEndian(s: seq<byte>)
    ensures BigEndian(FromBigEndian(s), |s|) == s
  {
    if s != [] {
      var n := |s|;
      var high := FromBigEndian(s[..n - 1]);
      var x := FromBigEndian(s);
      assert x / 256 == high && x % 256 == s[n - 1];
      BigEndianOfFromBigEndian(s[..n - 1]);
      assert s == s[..n - 1] + [s[n - 1]];
    }
  }

  /** Big-endian numbers of one width are equal exactly when their bytes are. */
  lemma BigEndianInjective(x: nat, y: nat, n: nat)
    requires x < Pow256(n) && y < Pow256(n)
    ensures BigEndian(x, n) == BigEndian(y, n) <==> x == y
  {
    if BigEndian(x, n) == BigEndian(y, n) {
      FromBigEndianOfBigEndian(x, n);
      FromBigEndianOfBigEndian(y, n);
    }
  }

  /** Regrouping a concatenation of sequences. */
  lemma AppendAssociative<T>(a: seq<T>, b: seq<T>, c: seq<T>)
    ensures a + b + c == a + (b + c)
  {
  }
}
