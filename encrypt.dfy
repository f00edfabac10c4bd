/**
 * The credential hasher of server/encrypt.ts: a random salt, a pbkdf2 key
 * encoded as base64, and the comparison that re-derives the key with the
 * stored salt.
 *
 * The entropy source (`crypto.randomBytes`) and the key derivation
 * (`crypto.pbkdf2`) are library calls; they are parameters here. A Dafny
 * function value is deterministic, which is exactly what the comparison
 * relies on. Base64 is modelled concretely so that the sizes of salt and
 * hash are proved, not assumed.
 */
module Encrypt {
  import opened Wrappers

  type Byte = b: int | 0 <= b < 256

  /** The error with which the entropy source or pbkdf2 rejects. */
  datatype CryptoError = CryptoError(message: string)

  /** The arguments pbkdf2 receives besides password and salt. */
  datatype KdfParams = KdfParams(iterations: nat, keyLength: nat, digest: string)

  /** A stored password: the base64 key and the base64 salt it was derived with. */
  datatype Password = Password(value: string, salt: string)

  /** Number of random bytes in a salt. */
  const SaltBytes: nat := 64

  /** 9999 rounds of pbkdf2 over sha512, 64-byte key. */
  const HashParams: KdfParams := KdfParams(9999, 64, "sha512")

  /** `crypto.randomBytes(n)`: n bytes or the entropy source's error. */
  type RandomBytes = nat -> Result<seq<Byte>, CryptoError>

  /** `crypto.pbkdf2(password, salt, iterations, keyLength, digest)`. */
  type Kdf = (string, string, KdfParams) -> Result<seq<Byte>, CryptoError>

  /** The library promise of randomBytes: it delivers as many bytes as asked. */
  ghost predicate DeliversRequested(randomBytes: RandomBytes, n: nat) {
    randomBytes(n).Success? ==> |randomBytes(n).value| == n
  }

  /** The library promise of pbkdf2: a derived key is keyLength bytes long. */
  ghost predicate DerivesKeyLength(kdf: Kdf, password: string, salt: string) {
    kdf(password, salt, HashParams).Success? ==>
      |kdf(password, salt, HashParams).value| == HashParams.keyLength
  }

  const Alphabet: string := "ABCDEFGHIJKLMNOPQRSTUVWXYZabcdefghijklmnopqrstuvwxyz0123456789+/"

  /** Length of the base64 text of n bytes: four characters per started group of three. */
  function Base64Length(n: nat): nat {
    4 * ((n + 2) / 3)
  }

  /** Number of '=' characters that close the base64 text of n bytes. */
  function Padding(n: nat): nat {
    (3 - n % 3) % 3
  }

  /** Removing one group of three bytes removes four characters and keeps the padding. */
  lemma GroupArithmetic(n: nat)
    requires n >= 3
    ensures Base64Length(n) == 4 + Base64Length(n - 3)
    ensures Padding(n) == Padding(n - 3) <= 2
    ensures Padding(n) <= Base64Length(n - 3)
  {
  }

  /** The alphabet character for a six-bit value. */
  function Sextet(k: int): (c: char)
    requires 0 <= k < 64
    ensures c in Alphabet
  {
    Alphabet[k]
  }

  /** Three bytes, 24 bits, become four characters. */
  function Group3(b0: Byte, b1: Byte, b2: Byte): (r: string)
    ensures |r| == 4 && forall i :: 0 <= i < 4 ==> r[i] in Alphabet
  {
    var n: int := b0 as int * 65536 + b1 as int * 256 + b2 as int;
    [Sextet(n / 262144), Sextet((n / 4096) % 64), Sextet((n / 64) % 64), Sextet(n % 64)]
  }

  /** Two final bytes, padded with zero bits to 18, become three characters and one '='. */
  function Group2(b0: Byte, b1: Byte): (r: string)
    ensures |r| == 4 && r[3] == '=' && forall i :: 0 <= i < 3 ==> r[i] in Alphabet
  {
    var n: int := (b0 as int * 256 + b1 as int) * 4;
    [Sextet(n / 4096), Sextet((n / 64) % 64), Sextet(n % 64), '=']
  }

  /** One final byte, padded with zero bits to 12, becomes two characters and "==". */
  function Group1(b0: Byte): (r: string)
    ensures |r| == 4 && r[2..] == "==" && forall i :: 0 <= i < 2 ==> r[i] in Alphabet
  {
    var n: int := b0 as int * 16;
    [Sextet(n / 64), Sextet(n % 64), '=', '=']
  }

  /** `Buffer.toString('base64')`: standard alphabet, '=' padding, four characters per started group of three bytes. */
  function Base64(bytes: seq<Byte>): (r: string)
    ensures |r| == Base64Length(|bytes|)
    decreases |bytes|
  {
    if |bytes| == 0 then
      ""
    else if |bytes| == 1 then
      Group1(bytes[0])
    else if |bytes| == 2 then
      Group2(bytes[0], bytes[1])
    else
      GroupArithmetic(|bytes|);
      Group3(bytes[0], bytes[1], bytes[2]) + Base64(bytes[3..])
  }

  /**
   * The characters of a base64 text are alphabet characters except for the
   * Padding(|bytes|) final ones, which are '='.
   */
  lemma {:induction false} Base64Characters(bytes: seq<Byte>)
    ensures forall i :: 0 <= i < |Base64(bytes)| - Padding(|bytes|) ==> Base64(bytes)[i] in Alphabet
    ensures forall i :: |Base64(bytes)| - Padding(|bytes|) <= i < |Base64(bytes)| ==> Base64(bytes)[i] == '='
    decreases |bytes|
  {
    if |bytes| >= 3 {
      GroupArithmetic(|bytes|);
      Base64Characters(bytes[3..]);
      PaddedAfterGroup(Group3(bytes[0], bytes[1], bytes[2]), Base64(bytes[3..]), Padding(|bytes|));
    }
  }

  /** A full group in front of a padded text keeps the padding at the end. */
  lemma PaddedAfterGroup(group: string, rest: string, pad: nat)
    requires |group| == 4 && forall i :: 0 <= i < 4 ==> group[i] in Alphabet
    requires pad <= |rest|
    requires forall i :: 0 <= i < |rest| - pad ==> rest[i] in Alphabet
    requires forall i :: |rest| - pad <= i < |rest| ==> rest[i] == '='
    ensures forall i :: 0 <= i < |group + rest| - pad ==> (group + rest)[i] in Alphabet
    ensures forall i :: |group + rest| - pad <= i < |group + rest| ==> (group + rest)[i] == '='
  {
    var r := group + rest;
    forall i | 0 <= i < |r| - pad
      ensures r[i] in Alphabet
    {
      if i >= 4 {
        assert r[i] == rest[i - 4];
      }
    }
  }

  /** `createSalt`: base64 of 64 random bytes, or the entropy source's error. */
  function CreateSalt(randomBytes: RandomBytes): (r: Result<string, CryptoError>)
    requires DeliversRequested(randomBytes, SaltBytes)
    ensures r.Success? <==> randomBytes(SaltBytes).Success?
    ensures r.Failure? ==> r.error == randomBytes(SaltBytes).error
    ensures r.Success? ==> |r.value| == 88 && r.value[86..] == "=="
  {
    match randomBytes(SaltBytes)
    case Failure(e) => Failure(e)
    case Success(buf) =>
      Base64Characters(buf);
      Success(Base64(buf))
  }

  /** `createHashedPassword`: base64 of the pbkdf2 key under HashParams, or pbkdf2's error. */
  function CreateHashedPassword(plain: string, salt: string, kdf: Kdf): (r: Result<string, CryptoError>)
    ensures r.Success? <==> kdf(plain, salt, HashParams).Success?
    ensures r.Success? ==> |r.value| == Base64Length(|kdf(plain, salt, HashParams).value|)
  {
    match kdf(plain, salt, HashParams)
    case Failure(e) => Failure(e)
    case Success(key) => Success(Base64(key))
  }

  /** A hash produced from a 64-byte key is 88 characters long and ends in "==". */
  lemma HashedPasswordLength(plain: string, salt: string, kdf: Kdf)
    requires DerivesKeyLength(kdf, plain, salt)
    requires CreateHashedPassword(plain, salt, kdf).Success?
    ensures |CreateHashedPassword(plain, salt, kdf).value| == 88
    ensures CreateHashedPassword(plain, salt, kdf).value[86..] == "=="
  {
    Base64Characters(kdf(plain, salt, HashParams).value);
  }

  /**
   * `comparePassword`: re-derives the key from `plain` with the STORED salt
   * and tells whether it equals the stored value. Fails only when pbkdf2 fails.
   */
  function ComparePassword(plain: string, stored: Password, kdf: Kdf): (r: Result<bool, CryptoError>)
    ensures r.Failure? <==> kdf(plain, stored.salt, HashParams).Failure?
    ensures r.Success? ==> (r.value <==> CreateHashedPassword(plain, stored.salt, kdf) == Success(stored.value))
  {
    var hashed :- CreateHashedPassword(plain, stored.salt, kdf);
    Success(hashed == stored.value)
  }

  /** Round trip: a password compares equal to the hash it was stored as. */
  lemma CompareRoundTrip(plain: string, salt: string, kdf: Kdf)
    requires CreateHashedPassword(plain, salt, kdf).Success?
    ensures ComparePassword(plain, Password(CreateHashedPassword(plain, salt, kdf).value, salt), kdf) == Success(true)
  {
  }

  /**
   * Any password whose derivation under the stored salt differs from the
   * stored value is refused, whatever the password that was stored.
   */
  lemma CompareRejectsOtherKeys(plain: string, other: string, salt: string, kdf: Kdf)
    requires CreateHashedPassword(other, salt, kdf).Success?
    requires CreateHashedPassword(plain, salt, kdf).Success?
    requires CreateHashedPassword(plain, salt, kdf) != CreateHashedPassword(other, salt, kdf)
    ensures ComparePassword(plain, Password(CreateHashedPassword(other, salt, kdf).value, salt), kdf) == Success(false)
  {
  }
}
