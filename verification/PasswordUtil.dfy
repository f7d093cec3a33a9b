/** Password hashing of src/utils/PasswordUtil.cpp over an uninterpreted digest. */
module PasswordUtil {
  import opened Wrappers

  newtype byte = x: int | 0 <= x < 256

  /** SHA256_DIGEST_LENGTH bytes. */
  type Digest = d: seq<byte> | |d| == 32 witness seq(32, i => 0)

  function HexDigit(n: nat): char
    requires n < 16
  {
    if n < 10 then '0' + n as char else 'a' + (n - 10) as char
  }

  function HexByte(b: byte): string {
    [HexDigit(b as nat / 16), HexDigit(b as nat % 16)]
  }

  function Hex(data: seq<byte>): string {
    if data == [] then "" else Hex(data[..|data| - 1]) + HexByte(data[|data| - 1])
  }

  /** to_hex_string: two zero-filled lower-case digits per byte. */
  method ToHexString(data: seq<byte>) returns (hex: string)
    ensures hex == Hex(data)
  {
    hex := "";
    for i := 0 to |data|
      invariant hex == Hex(data[..i])
    {
      assert data[..i + 1][..i] == data[..i];
      hex := hex + HexByte(data[i]);
    }
    assert data[..|data|] == data;
  }

  function HexValue(c: char): (v: Option<nat>)
    ensures v.Some? ==> v.value < 16
  {
    if '0' <= c <= '9' then Some((c - '0') as nat)
    else if 'a' <= c <= 'f' then Some((c - 'a') as nat + 10)
    else None
  }

  function UnhexByte(high: char, low: char): Option<byte> {
    if HexValue(high).Some? && HexValue(low).Some?
    then Some((16 * HexValue(high).value + HexValue(low).value) as byte) else None
  }

  lemma HexByteReadsBack(b: byte)
    ensures UnhexByte(HexByte(b)[0], HexByte(b)[1]) == Some(b)
  {
  }

  lemma UnhexByteReadsBack(high: char, low: char)
    requires UnhexByte(high, low).Some?
    ensures HexByte(UnhexByte(high, low).value) == [high, low]
  {
  }

  /** The decoder that ToHexString does not need: pairs of lower-case digits. */
  function Unhex(hex: string): Option<seq<byte>> {
    if hex == "" then Some([])
    else if |hex| == 1 then None
    else Append(Unhex(hex[..|hex| - 2]), UnhexByte(hex[|hex| - 2], hex[|hex| - 1]))
  }

  function Append(front: Option<seq<byte>>, last: Option<byte>): Option<seq<byte>> {
    if front.Some? && last.Some? then Some(front.value + [last.value]) else None
  }

  lemma HexOfAppend(front: seq<byte>, last: byte)
    ensures Hex(front + [last]) == Hex(front) + HexByte(last)
  {
    assert (front + [last])[..|front|] == front;
  }

  lemma UnhexOfAppend(hex: string, front: seq<byte>, pair: string, last: byte)
    requires Unhex(hex) == Some(front)
    requires |pair| == 2 && UnhexByte(pair[0], pair[1]) == Some(last)
    ensures Unhex(hex + pair) == Some(front + [last])
  {
    assert (hex + pair)[..|hex|] == hex;
  }

  lemma {:induction false} UnhexOfHex(data: seq<byte>)
    ensures |Hex(data)| == 2 * |data|
    ensures Unhex(Hex(data)) == Some(data)
  {
    if data != [] {
      var front, last := data[..|data| - 1], data[|data| - 1];
      assert data == front + [last];
      UnhexOfHex(front);
      UnhexOfHexByte(Hex(front), front, last);
      HexOfAppend(front, last);
    }
  }

  lemma HexDigitIs(n: nat)
    requires n < 16
    ensures HexDigit(n) == "0123456789abcdef"[n]
  {
  }

  /** Byte by byte: the digit of the high half, then that of the low half. */
  lemma {:induction false} HexCharacters(data: seq<byte>, i: nat)
    requires i < |data|
    ensures |Hex(data)| == 2 * |data|
    ensures Hex(data)[2 * i] == HexDigit(data[i] as nat / 16)
    ensures Hex(data)[2 * i + 1] == HexDigit(data[i] as nat % 16)
  {
    var n := |data| - 1;
    UnhexOfHex(data[..n]);
    if i < n {
      HexCharacters(data[..n], i);
    }
  }

  lemma UnhexOfHexByte(hex: string, front: seq<byte>, last: byte)
    requires Unhex(hex) == Some(front)
    ensures Unhex(hex + HexByte(last)) == Some(front + [last])
  {
    HexByteReadsBack(last);
    UnhexOfAppend(hex, front, HexByte(last), last);
  }

  lemma {:induction false} HexOfUnhex(hex: string)
    requires Unhex(hex).Some?
    ensures Hex(Unhex(hex).value) == hex
  {
    if hex != "" {
      var n := |hex| - 2;
      HexOfUnhex(hex[..n]);
      UnhexByteReadsBack(hex[n], hex[n + 1]);
      HexOfAppend(Unhex(hex[..n]).value, UnhexByte(hex[n], hex[n + 1]).value);
      assert hex == hex[..n] + [hex[n], hex[n + 1]];
    }
  }

  function HashPassword(digest: string -> Digest, password: string): string {
    Hex(digest(password))
  }

  predicate VerifyPassword(digest: string -> Digest, password: string, hashed: string) {
    HashPassword(digest, password) == hashed
  }

  /** The check against a stored hash decides exactly whether the digests agree. */
  lemma VerifyIsDigestEquality(digest: string -> Digest, password: string, stored: string)
    ensures |HashPassword(digest, stored)| == 64
    ensures VerifyPassword(digest, password, HashPassword(digest, stored)) <==>
            digest(password) == digest(stored)
  {
    UnhexOfHex(digest(password));
    UnhexOfHex(digest(stored));
  }
}
