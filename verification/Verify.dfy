/** The shape of digests and signer fingerprints on the wire, and the signer check. Hexadecimal as in
    section 8 of RFC 4648. SHA-256 itself is a parameter. */
module Verify {
  import opened Wrappers

  type Digest = b: Bytes | |b| == 32 witness seq(32, _ => 0)

  /** The digit for n: "0" to "9", then "a" to "f". */
  function Digit(n: int): char
    requires 0 <= n < 16
  {
    if n < 10 then (n + '0' as int) as char else (n - 10 + 'a' as int) as char
  }

  function Digits(b: Byte): (s: string)
    ensures |s| == 2
  {
    [Digit(b as int / 16), Digit(b as int % 16)]
  }

  function HexEncode(b: Bytes): (s: string)
    ensures |s| == 2 * |b|
  {
    if b == [] then "" else Digits(b[0]) + HexEncode(b[1..])
  }

  /** The value of one hexadecimal digit, of either case. */
  function Nibble(c: char): Option<int> {
    if '0' <= c <= '9' then Some(c as int - '0' as int)
    else if 'a' <= c <= 'f' then Some(c as int - 'a' as int + 10)
    else if 'A' <= c <= 'F' then Some(c as int - 'A' as int + 10)
    else None
  }

  function Pair(hi: char, lo: char): Option<Byte> {
    match (Nibble(hi), Nibble(lo))
    case (Some(h), Some(l)) => Some((16 * h + l) as Byte)
    case _ => None
  }

  function HexDecode(s: string): Option<Bytes> {
    if s == "" then Some([])
    else if |s| == 1 then None
    else
      match (Pair(s[0], s[1]), HexDecode(s[2..]))
      case (Some(b), Some(rest)) => Some([b] + rest)
      case _ => None
  }

  function LowerChar(c: char): char {
    if 'A' <= c <= 'Z' then (c as int + 32) as char else c
  }

  function Lower(s: string): (r: string)
    ensures |r| == |s|
  {
    seq(|s|, i requires 0 <= i < |s| => LowerChar(s[i]))
  }

  predicate ValidLowerHex256(value: string) {
    |value| == 64 && Lower(value) == value && HexDecode(value).Some?
  }

  datatype SignerError = Missing | BadFingerprint | Mismatch

  function VerifySignerCertificateDER(sha: Bytes -> Digest, cert: Bytes, expected: string): Result<(), SignerError> {
    if cert == [] then Err(Missing)
    else
      var want := HexDecode(expected);
      if want.None? || |want.value| != 32 || Lower(expected) != expected then Err(BadFingerprint)
      else if sha(cert) != want.value then Err(Mismatch)
      else Ok(())
  }

  /** A byte's two digits are lower-case and make up the byte again. */
  lemma PairOfDigits(b: Byte)
    ensures Pair(Digits(b)[0], Digits(b)[1]) == Some(b)
    ensures LowerChar(Digits(b)[0]) == Digits(b)[0] && LowerChar(Digits(b)[1]) == Digits(b)[1]
  {
    assert b as int == 16 * (b as int / 16) + b as int % 16;
  }

  /** Two lower-case digits are the digits of the byte they make up. */
  lemma DigitsOfPair(hi: char, lo: char)
    requires Pair(hi, lo).Some? && LowerChar(hi) == hi && LowerChar(lo) == lo
    ensures Digits(Pair(hi, lo).value) == [hi, lo]
  {
    var h, l := Nibble(hi).value, Nibble(lo).value;
    assert (16 * h + l) / 16 == h && (16 * h + l) % 16 == l;
  }

  lemma {:induction false} LowerPair(s: string)
    requires |s| >= 2
    ensures Lower(s) == s <==>
              LowerChar(s[0]) == s[0] && LowerChar(s[1]) == s[1] && Lower(s[2..]) == s[2..]
  {
    assert Lower(s) == [LowerChar(s[0]), LowerChar(s[1])] + Lower(s[2..]);
    assert s == [s[0], s[1]] + s[2..];
    if Lower(s) == s {
      assert Lower(s)[2..] == s[2..];
    }
  }

  /** A byte is encoded as two digits, the higher one first, and a string of bytes one after the other. */
  lemma EncodeOne(b: Byte)
    ensures HexEncode([b]) == ["0123456789abcdef"[b as int / 16], "0123456789abcdef"[b as int % 16]]
  {
    assert [b][1..] == [];
  }

  lemma {:induction false} EncodeConcat(a: Bytes, b: Bytes)
    ensures HexEncode(a + b) == HexEncode(a) + HexEncode(b)
  {
    if a == [] {
      assert a + b == b;
    } else {
      assert (a + b)[1..] == a[1..] + b;
      EncodeConcat(a[1..], b);
    }
  }

  lemma {:induction false} DecodeEncode(b: Bytes)
    ensures HexDecode(HexEncode(b)) == Some(b)
    ensures Lower(HexEncode(b)) == HexEncode(b)
  {
    if b != [] {
      DecodeEncode(b[1..]);
      var s := HexEncode(b);
      assert s[0] == Digits(b[0])[0] && s[1] == Digits(b[0])[1];
      assert s[2..] == HexEncode(b[1..]);
      PairOfDigits(b[0]);
      LowerPair(s);
      assert [b[0]] + b[1..] == b;
    }
  }

  /** Decoding a lower-case string and encoding the bytes gives the string back. */
  lemma {:induction false} EncodeDecode(s: string)
    requires HexDecode(s).Some? && Lower(s) == s
    ensures HexEncode(HexDecode(s).value) == s
    decreases |s|
  {
    if s != "" {
      var rest := HexDecode(s[2..]).value;
      LowerPair(s);
      DigitsOfPair(s[0], s[1]);
      EncodeDecode(s[2..]);
      assert HexDecode(s).value[1..] == rest;
      assert s == [s[0], s[1]] + s[2..];
    }
  }

  ghost predicate IsEncoding(value: string) {
    exists b: Digest :: HexEncode(b) == value
  }

  /** The accepted strings are exactly the encodings of 32 bytes. */
  lemma ValidIffEncoding(value: string)
    ensures ValidLowerHex256(value) <==> IsEncoding(value)
  {
    if ValidLowerHex256(value) {
      EncodeDecode(value);
      var b: Bytes := HexDecode(value).value;
      assert |HexEncode(b)| == 2 * |b|;
      var d: Digest := b;
      assert HexEncode(d) == value;
    }
    if IsEncoding(value) {
      var b: Digest :| HexEncode(b) == value;
      DecodeEncode(b);
    }
  }

  /** A certificate passes exactly when it is there and its digest encodes to the fingerprint. */
  lemma SignerAcceptedIff(sha: Bytes -> Digest, cert: Bytes, expected: string)
    ensures VerifySignerCertificateDER(sha, cert, expected).Ok?
            <==> cert != [] && HexEncode(sha(cert)) == expected
    ensures VerifySignerCertificateDER(sha, cert, expected) == Err(Missing) <==> cert == []
    ensures VerifySignerCertificateDER(sha, cert, expected) == Err(BadFingerprint)
            <==> cert != [] && !ValidLowerHex256(expected)
  {
    DecodeEncode(sha(cert));
    if HexDecode(expected).Some? && Lower(expected) == expected {
      EncodeDecode(expected);
    }
  }
}
