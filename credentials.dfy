/**
 * Password hashing and comparison: `hashPassword` stores `hex(key) + "." + hex(salt)`,
 * `comparePasswords` splits the stored string at '.' and compares keys.
 * The key derivation (scrypt) is a parameter, the random salt an input.
 */
module Credentials {
  import opened Wrappers

  type byte = x: int | 0 <= x < 256

  /** scrypt(password, salt, keylen), as a total function of its inputs. */
  type Kdf = (string, string, nat) -> seq<byte>

  const SaltBytes: nat := 16
  const KeyLength: nat := 64

  /** `crypto.scrypt` returns exactly the requested number of bytes. */
  ghost predicate HonoursKeyLength(kdf: Kdf) {
    forall p, s, n :: |kdf(p, s, n)| == n
  }

  // ---------------------------------------------------------------------------
  // Hex text, as Node's Buffer writes and reads it

  function HexDigit(d: int): (c: char)
    requires 0 <= d < 16
  {
    if d < 10 then ('0' as int + d) as char else ('a' as int + d - 10) as char
  }

  /** The value of a hex digit in either case; `None` for any other character. */
  function HexValue(c: char): (r: Option<int>)
    ensures r.Some? ==> 0 <= r.value < 16
  {
    if '0' <= c <= '9' then Some(c as int - '0' as int)
    else if 'a' <= c <= 'f' then Some(c as int - 'a' as int + 10)
    else if 'A' <= c <= 'F' then Some(c as int - 'A' as int + 10)
    else None
  }

  /** `buf.toString("hex")`: two lower-case digits per byte, so never a '.'. */
  function Hex(bs: seq<byte>): (r: string)
    ensures |r| == 2 * |bs|
    ensures forall i | 0 <= i < |r| :: HexValue(r[i]).Some?
    ensures '.' !in r
  {
    if bs == [] then ""
    else [HexDigit(bs[0] / 16), HexDigit(bs[0] % 16)] + Hex(bs[1..])
  }

  /**
   * `Buffer.from(s, "hex")`: decodes digit pairs from the left and stops at the
   * first pair that is not two hex digits; a trailing odd digit is dropped.
   */
  function HexDecode(s: string): (r: seq<byte>)
    ensures |r| <= |s| / 2
  {
    if |s| < 2 then []
    else match (HexValue(s[0]), HexValue(s[1]))
      case (Some(hi), Some(lo)) => [hi * 16 + lo] + HexDecode(s[2..])
      case _ => []
  }

  /** Decoding the hex text of a buffer gives the buffer back. */
  lemma {:induction false} HexRoundTrip(bs: seq<byte>)
    ensures HexDecode(Hex(bs)) == bs
  {
    if bs != [] {
      var h := Hex(bs);
      assert h[2..] == Hex(bs[1..]);
      HexRoundTrip(bs[1..]);
    }
  }

  // ---------------------------------------------------------------------------
  // String.prototype.split with a one-character separator

  /** The pieces joined back with the separator between them. */
  function Join(parts: seq<string>, sep: char): string
    requires |parts| >= 1
  {
    if |parts| == 1 then parts[0] else parts[0] + [sep] + Join(parts[1..], sep)
  }

  /** `s.split(sep)`: the separator-free pieces that `Join` puts back together into `s`. */
  function Split(s: string, sep: char): (r: seq<string>)
    ensures |r| >= 1
    ensures forall i | 0 <= i < |r| :: sep !in r[i]
    ensures Join(r, sep) == s
    ensures sep !in s ==> r == [s]
  {
    if s == [] then [""]
    else
      var rest := Split(s[1..], sep);
      if s[0] == sep then
        assert Join([""] + rest, sep) == [sep] + Join(rest, sep) by {
          assert ([""] + rest)[1..] == rest;
        }
        [""] + rest
      else
        var r := [[s[0]] + rest[0]] + rest[1..];
        assert Join(r, sep) == [s[0]] + Join(rest, sep) by {
          if |rest| > 1 {
            assert r[1..] == rest[1..];
          }
        }
        r
  }

  /** Splitting `a + sep + b`, where `a` has no separator, gives `a` and then the pieces of `b`. */
  lemma {:induction false} SplitAfterPiece(a: string, sep: char, b: string)
    requires sep !in a
    ensures Split(a + [sep] + b, sep) == [a] + Split(b, sep)
  {
    if a == [] {
      assert (a + [sep] + b)[1..] == b;
    } else {
      var s := a + [sep] + b;
      assert s[0] == a[0] && s[1..] == a[1..] + [sep] + b;
      SplitAfterPiece(a[1..], sep, b);
      var rest := Split(s[1..], sep);
      assert rest[0] == a[1..] && rest[1..] == Split(b, sep);
      assert [a[0]] + a[1..] == a;
    }
  }

  // ---------------------------------------------------------------------------
  // hashPassword / comparePasswords

  /** The errors the crypto calls throw here. */
  datatype CryptoError =
    | SaltUndefined        // scrypt called with an undefined salt
    | BufferLengthMismatch // timingSafeEqual on buffers of different lengths

  /** `timingSafeEqual(a, b)`: throws unless the lengths agree, else compares. */
  function TimingSafeEqual(a: seq<byte>, b: seq<byte>): (r: Result<bool, CryptoError>)
    ensures r.Failure? <==> |a| != |b|
    ensures r.Failure? ==> r.error == BufferLengthMismatch
    ensures r.Success? ==> (r.value <==> a == b)
  {
    if |a| != |b| then Failure(BufferLengthMismatch) else Success(a == b)
  }

  /** `hashPassword`: the salt is 16 random bytes, written as hex and used as the scrypt salt. */
  function HashPassword(kdf: Kdf, password: string, salt: seq<byte>): (r: string)
    requires |salt| == SaltBytes
    ensures '.' in r
    ensures Split(r, '.') == [Hex(kdf(password, Hex(salt), KeyLength)), Hex(salt)]
  {
    var saltHex := Hex(salt);
    var key := kdf(password, saltHex, KeyLength);
    SplitAfterPiece(Hex(key), '.', saltHex);
    Hex(key) + "." + saltHex
  }

  /**
   * `comparePasswords`: the first two pieces of the stored string split at
   * '.' are the key and the salt; with no '.' the salt is undefined and
   * scrypt throws.
   */
  function ComparePasswords(kdf: Kdf, supplied: string, stored: string): (r: Result<bool, CryptoError>)
    ensures '.' !in stored ==> r == Failure(SaltUndefined)
    ensures '.' in stored ==> r == TimingSafeEqual(HexDecode(Split(stored, '.')[0]), kdf(supplied, Split(stored, '.')[1], KeyLength))
  {
    var parts := Split(stored, '.');
    if |parts| < 2 then
      Failure(SaltUndefined)
    else
      assert '.' in stored by {
        assert Join(parts, '.') == parts[0] + ['.'] + Join(parts[1..], '.');
      }
      TimingSafeEqual(HexDecode(parts[0]), kdf(supplied, parts[1], KeyLength))
  }

  /**
   * Checking a password against a stored hash: with a key derivation that
   * returns the requested length, the comparison never throws and accepts `supplied`
   * exactly when it derives the same key under the stored salt.
   */
  lemma HashedCheck(kdf: Kdf, password: string, supplied: string, salt: seq<byte>)
    requires HonoursKeyLength(kdf) && |salt| == SaltBytes
    ensures ComparePasswords(kdf, supplied, HashPassword(kdf, password, salt))
      == Success(kdf(supplied, Hex(salt), KeyLength) == kdf(password, Hex(salt), KeyLength))
  {
    HexRoundTrip(kdf(password, Hex(salt), KeyLength));
  }

  /** Round trip: a password always matches its own hash. */
  lemma HashRoundTrip(kdf: Kdf, password: string, salt: seq<byte>)
    requires HonoursKeyLength(kdf) && |salt| == SaltBytes
    ensures ComparePasswords(kdf, password, HashPassword(kdf, password, salt)) == Success(true)
  {
    HashedCheck(kdf, password, password, salt);
  }

  /** The stored form is 128 hex digits of key, a '.', and 32 hex digits of salt. */
  lemma HashShape(kdf: Kdf, password: string, salt: seq<byte>)
    requires HonoursKeyLength(kdf) && |salt| == SaltBytes
    ensures |HashPassword(kdf, password, salt)| == 2 * KeyLength + 1 + 2 * SaltBytes
    ensures HashPassword(kdf, password, salt)[2 * KeyLength] == '.'
  {
  }
}
