/**
 * The C library routines the module supplies itself, since a native module
 * for MicroPython is linked without a libc (src/ucbor.c:40-79). Pointers
 * become an array and an offset into it.
 */
module LibC {
  import opened Binary

  /**
   * Three-way lexicographic comparison of two byte strings of one length,
   * the result `memcmp` reports: -1, 0 or 1.
   */
  function Compare(s1: seq<byte>, s2: seq<byte>): (r: int)
    requires |s1| == |s2|
    ensures r == -1 || r == 0 || r == 1
    ensures r == 0 <==> s1 == s2
  {
    if s1 == [] then 0
    else if s1[0] != s2[0] then (if s1[0] < s2[0] then -1 else 1)
    else
      assert s1 == [s1[0]] + s1[1..] && s2 == [s2[0]] + s2[1..];
      Compare(s1[1..], s2[1..])
  }

  /** Compare is decided by the first position at which the strings differ. */
  lemma {:induction false} CompareFirstDifference(s1: seq<byte>, s2: seq<byte>, k: nat)
    requires |s1| == |s2| && k < |s1|
    requires s1[..k] == s2[..k] && s1[k] != s2[k]
    ensures Compare(s1, s2) == if s1[k] < s2[k] then -1 else 1
  {
    if k > 0 {
      assert s1[0] == s1[..k][0] && s2[0] == s2[..k][0];
      assert s1[1..][..k - 1] == s1[..k][1..] && s2[1..][..k - 1] == s2[..k][1..];
      CompareFirstDifference(s1[1..], s2[1..], k - 1);
    }
  }

  /**
   * `memcmp(str1, str2, count)`: compares `count` bytes as unsigned chars
   * and stops at the first difference.
   */
  method Memcmp(str1: array<byte>, off1: nat, str2: array<byte>, off2: nat, count: nat) returns (r: int)
    requires off1 + count <= str1.Length && off2 + count <= str2.Length
    ensures r == Compare(str1[off1..off1 + count], str2[off2..off2 + count])
  {
    ghost var s1 := str1[off1..off1 + count];
    ghost var s2 := str2[off2..off2 + count];
    var i := 0;
    while i < count
      invariant 0 <= i <= count
      invariant s1[..i] == s2[..i]
    {
      if str1[off1 + i] != str2[off2 + i] {
        CompareFirstDifference(s1, s2, i);
        r := if str1[off1 + i] < str2[off2 + i] then -1 else 1;
        return;
      }
      assert s1[..i + 1] == s1[..i] + [s1[i]] && s2[..i + 1] == s2[..i] + [s2[i]];
      i := i + 1;
    }
    assert s1 == s1[..count] && s2 == s2[..count];
    r := 0;
  }

  /**
   * `strlen(s)`: the number of bytes before the first NUL. The C string
   * must be terminated inside the array.
   */
  method Strlen(s: array<byte>, off: nat) returns (count: nat)
    requires exists i :: off <= i < s.Length && s[i] == 0
    ensures off + count < s.Length && s[off + count] == 0
    ensures forall i :: off <= i < off + count ==> s[i] != 0
  {
    count := 0;
    while s[off + count] != 0
      invariant exists j :: off + count <= j < s.Length && s[j] == 0
      invariant forall i :: off <= i < off + count ==> s[i] != 0
      decreases s.Length - (off + count)
    {
      count := count + 1;
    }
  }

  /** `(unsigned char)c`: the low eight bits of `c` in two's complement. */
  function UnsignedChar(c: int): (r: byte)
    ensures (r - c) % 256 == 0
  {
    c % 256
  }

  /** `memset(s, c, len)`: `len` bytes from `off` become `(unsigned char)c`. */
  method Memset(s: array<byte>, off: nat, c: int, len: nat)
    requires off + len <= s.Length
    modifies s
    ensures s[..] == old(s[..off]) + seq(len, _ => UnsignedChar(c)) + old(s[off + len..])
  {
    var i := 0;
    while i < len
      invariant 0 <= i <= len
      invariant s[..off] == old(s[..off]) && s[off + len..] == old(s[off + len..])
      invariant s[off..off + i] == seq(i, _ => UnsignedChar(c))
    {
      s[off + i] := UnsignedChar(c);
      assert s[off..off + i + 1] == s[off..off + i] + [UnsignedChar(c)];
      i := i + 1;
    }
    assert s[..] == s[..off] + s[off..off + len] + s[off + len..];
  }

  /**
   * `memcpy(dest, src, n)`: copies `n` bytes forwards. The two ranges must
   * not overlap, as C requires; they may lie in one array.
   */
  method Memcpy(dest: array<byte>, doff: nat, src: array<byte>, soff: nat, n: nat)
    requires doff + n <= dest.Length && soff + n <= src.Length
    requires src != dest || soff + n <= doff || doff + n <= soff
    modifies dest
    ensures dest[..] == old(dest[..doff]) + old(src[soff..soff + n]) + old(dest[doff + n..])
  {
    var i := 0;
    while i < n
      invariant 0 <= i <= n
      invariant dest[..doff] == old(dest[..doff]) && dest[doff + n..] == old(dest[doff + n..])
      invariant src[soff..soff + n] == old(src[soff..soff + n])
      invariant dest[doff..doff + i] == old(src[soff..soff + i])
    {
      dest[doff + i] := src[soff + i];
      assert dest[doff..doff + i + 1] == dest[doff..doff + i] + [dest[doff + i]];
      assert old(src[soff..soff + i + 1]) == old(src[soff..soff + i]) + [old(src[soff + i])];
      i := i + 1;
    }
    assert dest[..] == dest[..doff] + dest[doff..doff + n] + dest[doff + n..];
  }
}
