/**
 * The registration secret: 32 random bytes written as a "0x"-prefixed string
 * of lowercase hex digits, two per byte in byte order
 * (scripts/ensRegister.ts, lines 25-31). The random bytes are an input.
 * DecodeSecret is the inverse the encoder is proved against.
 */
module SecretHex {
  import opened Results

  /** An element of a Uint8Array. */
  type Byte = x: int | 0 <= x < 256

  /** Number of random bytes behind a secret. */
  const SecretLength: nat := 32

  predicate IsLowerHex(c: char) {
    ('0' <= c <= '9') || ('a' <= c <= 'f')
  }

  /** The digit Number.prototype.toString(16) writes for a value below 16. */
  function HexDigit(d: nat): (c: char)
    requires d < 16
    ensures IsLowerHex(c)
    ensures HexValue(c) == Some(d)
  {
    if d < 10 then ('0' as int + d) as char else ('a' as int + (d - 10)) as char
  }

  /** The value of a lowercase hex digit; None for any other character. */
  function HexValue(c: char): (r: Option<nat>)
    ensures r.Some? <==> IsLowerHex(c)
    ensures r.Some? ==> r.value < 16
  {
    if '0' <= c <= '9' then Some(c as int - '0' as int)
    else if 'a' <= c <= 'f' then Some(c as int - 'a' as int + 10)
    else None
  }

  /** The two digit functions are inverse on lowercase hex digits both ways. */
  lemma ValueThenDigit(c: char)
    requires HexValue(c).Some?
    ensures HexDigit(HexValue(c).value) == c
  {
  }

  /**
   * Number.prototype.toString(16) of a non-negative integer: lowercase
   * digits, most significant first, no leading zeros ("0" for zero).
   */
  function ToBase16(n: nat): (s: string)
    ensures 1 <= |s|
    ensures n < 16 <==> |s| == 1
    decreases n
  {
    if n < 16 then [HexDigit(n)] else ToBase16(n / 16) + [HexDigit(n % 16)]
  }

  /** String.prototype.padStart: fill is put in front until s is width long. */
  function PadStart(s: string, width: nat, fill: char): (r: string)
    ensures |r| == if |s| < width then width else |s|
    ensures width <= |s| ==> r == s
  {
    if |s| >= width then s else seq(width - |s|, _ => fill) + s
  }

  /** One byte as b.toString(16).padStart(2, "0"): high nibble, then low nibble. */
  function ByteToHex(b: Byte): (s: string)
    ensures s == [HexDigit(b / 16), HexDigit(b % 16)]
  {
    if b < 16 then
      assert ToBase16(b) == [HexDigit(b)];
      PadStart(ToBase16(b), 2, '0')
    else
      assert ToBase16(b) == [HexDigit(b / 16)] + [HexDigit(b % 16)];
      PadStart(ToBase16(b), 2, '0')
  }

  /** The bytes mapped through ByteToHex and joined with "". */
  function HexJoin(bytes: seq<Byte>): (s: string)
    ensures |s| == 2 * |bytes|
  {
    if bytes == [] then "" else ByteToHex(bytes[0]) + HexJoin(bytes[1..])
  }

  /** The secret string built from the random bytes. */
  function EncodeSecret(random: seq<Byte>): (secret: string)
    ensures |secret| == 2 + 2 * |random|
    ensures secret[..2] == "0x"
  {
    "0x" + HexJoin(random)
  }

  /** Reads pairs of lowercase hex digits back into bytes. */
  function DecodeHex(s: string): (r: Option<seq<Byte>>)
    ensures r.Some? ==> 2 * |r.value| == |s|
    decreases |s|
  {
    if s == [] then Some([])
    else if |s| < 2 then None
    else
      match (HexValue(s[0]), HexValue(s[1]), DecodeHex(s[2..]))
      case (Some(hi), Some(lo), Some(rest)) => Some([hi * 16 + lo] + rest)
      case _ => None
  }

  /** Inverse of EncodeSecret: "0x" and then an even number of lowercase hex digits. */
  function DecodeSecret(s: string): (r: Option<seq<Byte>>)
    ensures r.Some? ==> |s| == 2 + 2 * |r.value| && s[..2] == "0x"
  {
    if |s| >= 2 && s[..2] == "0x" then DecodeHex(s[2..]) else None
  }

  /** Byte i becomes characters 2i and 2i+1 of the joined string. */
  lemma {:induction false} HexJoinAt(bytes: seq<Byte>, i: nat)
    requires i < |bytes|
    ensures HexJoin(bytes)[2 * i] == HexDigit(bytes[i] / 16)
    ensures HexJoin(bytes)[2 * i + 1] == HexDigit(bytes[i] % 16)
  {
    var head := ByteToHex(bytes[0]);
    assert HexJoin(bytes) == head + HexJoin(bytes[1..]);
    if i > 0 {
      HexJoinAt(bytes[1..], i - 1);
      assert bytes[1..][i - 1] == bytes[i];
    }
  }

  lemma {:induction false} DecodeHexJoin(bytes: seq<Byte>)
    ensures DecodeHex(HexJoin(bytes)) == Some(bytes)
  {
    if bytes != [] {
      var s := HexJoin(bytes);
      var b := bytes[0];
      assert s == [HexDigit(b / 16), HexDigit(b % 16)] + HexJoin(bytes[1..]);
      assert s[2..] == HexJoin(bytes[1..]);
      DecodeHexJoin(bytes[1..]);
      assert [b / 16 * 16 + b % 16] + bytes[1..] == bytes;
    }
  }

  lemma {:induction false} HexJoinDecoded(s: string, bytes: seq<Byte>)
    requires DecodeHex(s) == Some(bytes)
    ensures HexJoin(bytes) == s
    decreases |s|
  {
    if s != [] {
      var hi, lo := HexValue(s[0]).value, HexValue(s[1]).value;
      ValueThenDigit(s[0]);
      ValueThenDigit(s[1]);
      var rest := DecodeHex(s[2..]).value;
      HexJoinDecoded(s[2..], rest);
      assert bytes == [hi * 16 + lo] + rest;
      assert ByteToHex(bytes[0]) == [s[0], s[1]];
      assert bytes[1..] == rest;
      assert s == [s[0], s[1]] + s[2..];
    }
  }

  /** Decoding the secret recovers the random bytes. */
  lemma SecretRoundTrip(random: seq<Byte>)
    ensures DecodeSecret(EncodeSecret(random)) == Some(random)
  {
    var secret := EncodeSecret(random);
    assert secret[2..] == HexJoin(random);
    DecodeHexJoin(random);
  }

  /** A string that decodes is exactly the encoding of what it decodes to. */
  lemma SecretCanonical(s: string, random: seq<Byte>)
    requires DecodeSecret(s) == Some(random)
    ensures EncodeSecret(random) == s
  {
    HexJoinDecoded(s[2..], random);
    assert s == s[..2] + s[2..];
  }

  /**
   * For 32 random bytes: "0x" and 64 lowercase hex digits, byte k giving
   * characters 2 + 2k (high nibble) and 3 + 2k (low nibble).
   */
  lemma SecretLayout(random: seq<Byte>)
    requires |random| == SecretLength
    ensures |EncodeSecret(random)| == 66 && EncodeSecret(random)[..2] == "0x"
    ensures forall i :: 2 <= i < 66 ==> IsLowerHex(EncodeSecret(random)[i])
    ensures forall k :: 0 <= k < SecretLength ==>
      EncodeSecret(random)[2 + 2 * k] == HexDigit(random[k] / 16) &&
      EncodeSecret(random)[3 + 2 * k] == HexDigit(random[k] % 16)
  {
    var secret := EncodeSecret(random);
    forall k | 0 <= k < SecretLength
      ensures secret[2 + 2 * k] == HexDigit(random[k] / 16)
      ensures secret[3 + 2 * k] == HexDigit(random[k] % 16)
    {
      HexJoinAt(random, k);
    }
    forall i | 2 <= i < 66
      ensures IsLowerHex(secret[i])
    {
      var k := (i - 2) / 2;
      HexJoinAt(random, k);
      assert i == 2 + 2 * k || i == 3 + 2 * k;
    }
  }
}
