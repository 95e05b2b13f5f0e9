/** Password hashing of utilities/Encryption.java: PBKDF2 with HMAC-SHA-256
    over a fixed salt gives a 256-bit key, which is stored and compared as
    lower-case hexadecimal text. PBKDF2 itself is a library call; the model
    takes it as a parameter and keeps only what the server relies on: it is a
    function (same password, same key) and it yields KEY_LENGTH bits. */
module Encryption {
  import opened Common

  const ALGORITHM: string := "PBKDF2WithHmacSHA256"
  const ITERATIONS: nat := 65536
  /** Length of the derived key, in bits. */
  const KEY_LENGTH: nat := 256
  /** One salt shared by every account. */
  const SALT: string := "Telemedicine_2025_SALT"
  const KEY_BYTES: nat := KEY_LENGTH / 8

  /** Java's signed `byte`. */
  type JByte = x: int | -128 <= x < 128

  /** A key as PBKDF2 returns it: KEY_LENGTH bits. */
  type DerivedKey = k: seq<JByte> | |k| == KEY_BYTES witness seq(KEY_BYTES, _ => 0)

  /** PBKDF2(password, SALT, ITERATIONS, KEY_LENGTH). */
  type Pbkdf2 = string -> DerivedKey

  /** `0xff & b`: the byte read as unsigned. */
  function Mask(b: JByte): (u: nat)
    ensures u < 256
    ensures (u - b) % 256 == 0
    ensures b < 0 <==> u >= 0x80
  {
    if b < 0 then b + 256 else b
  }

  predicate IsLowerHex(c: char) {
    '0' <= c <= '9' || 'a' <= c <= 'f'
  }

  function HexDigit(d: nat): (c: char)
    requires d < 16
    ensures IsLowerHex(c)
  {
    if d < 10 then ('0' as int + d) as char else ('a' as int + d - 10) as char
  }

  /** `Integer.toHexString(u)` on 0..255: lower-case digits, no leading zero. */
  function ToHexString(u: nat): string
    requires u < 256
  {
    if u < 16 then [HexDigit(u)] else [HexDigit(u / 16), HexDigit(u % 16)]
  }

  /** The two characters a byte becomes: high nibble, then low nibble. */
  function HexPair(b: JByte): string {
    var u := Mask(b);
    [HexDigit(u / 16), HexDigit(u % 16)]
  }

  /** What `bytesToHex` promises: the pairs of the bytes, in order. */
  function Hex(bytes: seq<JByte>): string {
    if bytes == [] then [] else Hex(bytes[..|bytes| - 1]) + HexPair(bytes[|bytes| - 1])
  }

  /** `bytesToHex`: `Integer.toHexString(0xff & b)`, left-padded with '0'
      when it is a single digit, appended for each byte. */
  method BytesToHex(bytes: seq<JByte>) returns (hex: string)
    ensures hex == Hex(bytes)
  {
    hex := [];
    for i := 0 to |bytes|
      invariant hex == Hex(bytes[..i])
    {
      var h := ToHexString(Mask(bytes[i]));
      if |h| == 1 {
        hex := hex + "0";
      }
      hex := hex + h;
      assert bytes[..i + 1][..i] == bytes[..i];
    }
    assert bytes[..|bytes|] == bytes;
  }

  lemma {:induction false} HexLength(bytes: seq<JByte>)
    ensures |Hex(bytes)| == 2 * |bytes|
  {
    if bytes != [] {
      HexLength(bytes[..|bytes| - 1]);
    }
  }

  /** Byte `i` occupies characters 2i and 2i+1. */
  lemma {:induction false} HexAt(bytes: seq<JByte>, i: nat)
    requires i < |bytes|
    ensures |Hex(bytes)| == 2 * |bytes|
    ensures Hex(bytes)[2 * i..2 * i + 2] == HexPair(bytes[i])
  {
    var init := bytes[..|bytes| - 1];
    HexLength(bytes);
    HexLength(init);
    if i < |bytes| - 1 {
      HexAt(init, i);
      assert Hex(bytes) == Hex(init) + HexPair(bytes[|bytes| - 1]);
      assert Hex(bytes)[2 * i..2 * i + 2] == Hex(init)[2 * i..2 * i + 2];
    }
  }

  /** Every character of the encoding is a lower-case hex digit. */
  lemma {:induction false} HexIsLowerCase(bytes: seq<JByte>)
    ensures forall k :: 0 <= k < |Hex(bytes)| ==> IsLowerHex(Hex(bytes)[k])
  {
    if bytes != [] {
      HexIsLowerCase(bytes[..|bytes| - 1]);
    }
  }

  /** A byte below 0x10 is written with a leading '0'. */
  lemma HexPairPadded(b: JByte)
    ensures |HexPair(b)| == 2
    ensures Mask(b) < 0x10 <==> HexPair(b)[0] == '0'
  {
  }

  lemma HexDigitInjective(d: nat, e: nat)
    requires d < 16 && e < 16
    ensures HexDigit(d) == HexDigit(e) ==> d == e
  {
  }

  /** Distinct bytes give distinct pairs. */
  lemma HexPairInjective(a: JByte, b: JByte)
    ensures HexPair(a) == HexPair(b) ==> a == b
  {
    var u, v := Mask(a), Mask(b);
    if HexPair(a) == HexPair(b) {
      HexDigitInjective(u / 16, v / 16);
      HexDigitInjective(u % 16, v % 16);
      assert u == 16 * (u / 16) + u % 16;
      assert u == v;
    }
  }

  /** The encoding loses nothing: distinct byte strings give distinct text. */
  lemma HexInjective(a: seq<JByte>, b: seq<JByte>)
    ensures Hex(a) == Hex(b) ==> a == b
  {
    if Hex(a) == Hex(b) {
      HexLength(a);
      HexLength(b);
      forall i | 0 <= i < |a|
        ensures a[i] == b[i]
      {
        HexAt(a, i);
        HexAt(b, i);
        HexPairInjective(a[i], b[i]);
      }
    }
  }

  /** `encryptPassword`: the hex text of the derived key, 64 characters. */
  function EncryptPassword(pbkdf2: Pbkdf2, password: string): (hash: string)
    ensures |hash| == 2 * KEY_BYTES
    ensures forall k :: 0 <= k < |hash| ==> IsLowerHex(hash[k])
  {
    var key := pbkdf2(password);
    HexLength(key);
    HexIsLowerCase(key);
    Hex(key)
  }

  /** Comparing stored hashes compares derived keys, exactly. */
  lemma SameHashIffSameKey(pbkdf2: Pbkdf2, p: string, q: string)
    ensures EncryptPassword(pbkdf2, p) == EncryptPassword(pbkdf2, q) <==> pbkdf2(p) == pbkdf2(q)
  {
    HexInjective(pbkdf2(p), pbkdf2(q));
  }
}
