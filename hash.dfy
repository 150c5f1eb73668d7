/** Object hashes as the patch headers print them: a 20-byte SHA-1 rendered
    as 40 lower-case hexadecimal digits and cut to its first seven. */
module Hashes {
  import opened Binary

  predicate IsHexChar(c: char)
  {
    '0' <= c <= '9' || 'a' <= c <= 'f'
  }

  predicate IsHex(s: string)
  {
    forall i :: 0 <= i < |s| ==> IsHexChar(s[i])
  }

  /** The lower-case digit of a nibble. */
  function HexDigit(d: nat): (c: char)
    requires d < 16
    ensures IsHexChar(c)
  {
    if d < 10 then ('0' as int + d) as char else ('a' as int + d - 10) as char
  }

  /** The nibble a digit stands for. */
  function HexValue(c: char): (d: nat)
    requires IsHexChar(c)
    ensures d < 16
    ensures HexDigit(d) == c
  {
    if c <= '9' then c as int - '0' as int else c as int - 'a' as int + 10
  }

  /** Hexadecimal encoding, high nibble first, two digits per byte. */
  function Hex(bytes: seq<byte>): (s: string)
    ensures |s| == 2 * |bytes|
    ensures IsHex(s)
  {
    if bytes == [] then ""
    else [HexDigit(bytes[0] as nat / 16), HexDigit(bytes[0] as nat % 16)] + Hex(bytes[1..])
  }

  /** Decoding of an even-length hexadecimal string. */
  function Unhex(s: string): (bytes: seq<byte>)
    requires |s| % 2 == 0 && IsHex(s)
    ensures 2 * |bytes| == |s|
  {
    if s == "" then []
    else [(16 * HexValue(s[0]) + HexValue(s[1])) as byte] + Unhex(s[2..])
  }

  /** Decoding undoes encoding. */
  lemma {:induction false} HexRoundTrip(bytes: seq<byte>)
    ensures Unhex(Hex(bytes)) == bytes
  {
    if bytes != [] {
      var s := Hex(bytes);
      assert s[2..] == Hex(bytes[1..]);
      HexRoundTrip(bytes[1..]);
      assert HexValue(s[0]) == bytes[0] as nat / 16;
      assert HexValue(s[1]) == bytes[0] as nat % 16;
    }
  }

  /** The first `2k` digits encode the first `k` bytes. */
  lemma {:induction false} HexPrefix(bytes: seq<byte>, k: nat)
    requires k <= |bytes|
    ensures Hex(bytes)[..2 * k] == Hex(bytes[..k])
  {
    if k > 0 {
      HexPrefix(bytes[1..], k - 1);
      assert bytes[..k][1..] == bytes[1..][..k - 1];
    }
  }

  const HashSize: nat := 20

  /** A SHA-1 object name. */
  type Hash = h: seq<byte> | |h| == HashSize
    witness [0, 0, 0, 0, 0, 0, 0, 0, 0, 0, 0, 0, 0, 0, 0, 0, 0, 0, 0, 0]

  /** The zero value of a hash, left in place when a lookup fails. */
  const ZeroHash: Hash := [0, 0, 0, 0, 0, 0, 0, 0, 0, 0, 0, 0, 0, 0, 0, 0, 0, 0, 0, 0]

  /** `hash.String()[:7]`: the first seven digits of the 40-digit encoding. */
  function Abbrev(h: Hash): (s: string)
    ensures |s| == 7 && IsHex(s)
  {
    Hex(h)[..7]
  }

  /** The zero hash abbreviates to seven zeros. */
  lemma AbbrevZero()
    ensures Abbrev(ZeroHash) == "0000000"
  {
    AbbrevOfZeroBytes(ZeroHash);
  }

  /** A hash starting with four zero bytes abbreviates to seven zeros. */
  lemma AbbrevOfZeroBytes(h: Hash)
    requires h[..4] == [0, 0, 0, 0]
    ensures Abbrev(h) == "0000000"
  {
    var zero: byte := 0;
    HexPrefix(h, 4);
    assert h[..4] == [zero] + ([zero] + ([zero] + ([zero] + [])));
    HexZeroByte([]);
    HexZeroByte([zero]);
    HexZeroByte([zero] + [zero]);
    HexZeroByte([zero] + [zero] + [zero]);
    assert Hex(h)[..8] == "00000000";
    assert Abbrev(h) == Hex(h)[..8][..7];
  }

  /** A zero byte prints as two zero digits. */
  lemma HexZeroByte(rest: seq<byte>)
    ensures Hex([0 as byte] + rest) == "00" + Hex(rest)
  {
    var bytes := [0 as byte] + rest;
    assert bytes[1..] == rest;
  }

  /** The abbreviation depends on the first four bytes only: two hashes
      sharing them print the same. */
  lemma AbbrevOfFirstBytes(h: Hash, g: Hash)
    requires h[..4] == g[..4]
    ensures Abbrev(h) == Abbrev(g)
  {
    HexPrefix(h, 4);
    HexPrefix(g, 4);
    assert Hex(h)[..7] == Hex(h)[..8][..7];
    assert Hex(g)[..7] == Hex(g)[..8][..7];
  }

  /** The first six digits of the abbreviation give back the first three
      bytes of the hash. */
  lemma AbbrevDecodes(h: Hash)
    ensures Unhex(Abbrev(h)[..6]) == h[..3]
  {
    HexPrefix(h, 3);
    HexRoundTrip(h[..3]);
    assert Abbrev(h)[..6] == Hex(h)[..6];
  }
}
