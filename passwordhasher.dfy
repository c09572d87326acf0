/**
 * The API's password hash (`PasswordHasher`): a 53-byte container, sent as
 * Base64, holding a version byte 0x01, the PBKDF2 iteration count as a
 * little-endian 32-bit integer, a 16-byte salt and a 32-byte key.
 * PBKDF2-HMAC-SHA256 (section 5.2 of RFC 8018) and Base64 (section 4 of
 * RFC 4648) are parameters of the model, as is the random salt.
 */
module PasswordHasher {
  import opened Core

  const SaltSize: nat := 16
  const KeySize: nat := 32
  const Iterations: Int32 := 100_000
  /** `1 + 4 + SaltSize + KeySize`. */
  const HashSize: nat := 53

  /** PBKDF2 as `Rfc2898DeriveBytes(password, salt, iterations).GetBytes(n)`. */
  type Kdf = (string, seq<byte>, Int32, nat) -> seq<byte>

  /** `GetBytes(n)` returns exactly `n` bytes. */
  ghost predicate DerivesLength(kdf: Kdf) {
    forall password, salt, iterations, n :: |kdf(password, salt, iterations, n)| == n
  }

  /** How `Verify` ends: a result, or the exception it lets escape. */
  datatype Outcome =
    | Verified(matches: bool)
      /** `Convert.FromBase64String` rejects the text. */
    | FormatError
      /** `Rfc2898DeriveBytes` rejects a stored iteration count below 1. */
    | IterationsOutOfRange

  // ---------------------------------------------------------------------
  // The iteration count's four bytes
  // ---------------------------------------------------------------------

  /** `BitConverter.GetBytes(int)`: two's complement, least significant byte first. */
  function Int32Bytes(n: Int32): (b: seq<byte>)
    ensures |b| == 4
  {
    var u := if n < 0 then n + 0x1_0000_0000 else n;
    [u % 0x100, (u / 0x100) % 0x100, (u / 0x1_0000) % 0x100, u / 0x100_0000]
  }

  /** `BitConverter.ToInt32(bytes, 0)` on four bytes. */
  function ToInt32(b: seq<byte>): Int32
    requires |b| == 4
  {
    var u: int := b[0] as int + 0x100 * (b[1] as int) + 0x1_0000 * (b[2] as int) + 0x100_0000 * (b[3] as int);
    if u >= 0x8000_0000 then u - 0x1_0000_0000 else u
  }

  /** The unsigned value of a 32-bit integer rebuilt from its four bytes. */
  lemma {:induction false} UnsignedBytes(u: nat)
    requires u < 0x1_0000_0000
    ensures u % 0x100 + 0x100 * ((u / 0x100) % 0x100)
      + 0x1_0000 * ((u / 0x1_0000) % 0x100) + 0x100_0000 * (u / 0x100_0000) == u
  {
    var a := u / 0x100;
    var b := a / 0x100;
    var c := b / 0x100;
    assert u == u % 0x100 + 0x100 * a;
    assert a == a % 0x100 + 0x100 * b;
    assert b == b % 0x100 + 0x100 * c;
    assert b == u / 0x1_0000;
    assert c == u / 0x100_0000;
  }

  /** Reading back the four bytes `BitConverter` writes gives the integer. */
  lemma Int32BytesRoundTrip(n: Int32)
    ensures ToInt32(Int32Bytes(n)) == n
  {
    var u := if n < 0 then n + 0x1_0000_0000 else n;
    UnsignedBytes(u);
  }

  /** Writing the integer four bytes stand for gives back the four bytes. */
  lemma {:induction false} ToInt32RoundTrip(b: seq<byte>)
    requires |b| == 4
    ensures Int32Bytes(ToInt32(b)) == b
  {
    var u: int := b[0] as int + 0x100 * (b[1] as int) + 0x1_0000 * (b[2] as int) + 0x100_0000 * (b[3] as int);
    var b0, b1, b2, b3: int := b[0], b[1], b[2], b[3];
    assert u / 0x100 == b1 + 0x100 * b2 + 0x1_0000 * b3;
    assert u / 0x1_0000 == b2 + 0x100 * b3;
    assert u / 0x100_0000 == b3;
  }

  // ---------------------------------------------------------------------
  // The container
  // ---------------------------------------------------------------------

  /** The 53 bytes `Hash` encodes for a salt, an iteration count and a key. */
  function Layout(iterations: Int32, salt: seq<byte>, key: seq<byte>): seq<byte> {
    [0x01] + Int32Bytes(iterations) + salt + key
  }

  /** What `Verify` decides once the Base64 text has become bytes. */
  function VerifyBytes(password: string, bytes: seq<byte>, kdf: Kdf): (r: Outcome)
    ensures |bytes| < HashSize ==> r == Verified(false)
    ensures |bytes| >= HashSize && bytes[0] != 0x01 ==> r == Verified(false)
    ensures r.FormatError? == false
  {
    if |bytes| < 1 + 4 + SaltSize + KeySize then Verified(false)
    else if bytes[0] != 0x01 then Verified(false)
    else
      var iterations := ToInt32(bytes[1..5]);
      if iterations <= 0 then IterationsOutOfRange
      else
        var key := kdf(password, bytes[5..5 + SaltSize], iterations, KeySize);
        // CryptographicOperations.FixedTimeEquals: same length and same bytes.
        Verified(bytes[5 + SaltSize..HashSize] == key)
  }

  /** `Verify(password, hash)`. */
  function VerifyText(password: string, hash: string, kdf: Kdf, decode: string -> Option<seq<byte>>): Outcome {
    match decode(hash)
    case None => FormatError
    case Some(bytes) => VerifyBytes(password, bytes, kdf)
  }

  // ---------------------------------------------------------------------
  // The byte copies
  // ---------------------------------------------------------------------

  /** `src.CopyTo(dst, offset)`: the bytes land at the offset and the rest of the array is kept. */
  method CopyTo(src: seq<byte>, dst: array<byte>, offset: nat)
    requires offset + |src| <= dst.Length
    modifies dst
    ensures dst[..] == old(dst[..offset]) + src + old(dst[offset + |src|..])
  {
    ghost var before := dst[..];
    var k := 0;
    while k < |src|
      invariant 0 <= k <= |src|
      invariant dst[..] == before[..offset] + src[..k] + before[offset + k..]
    {
      dst[offset + k] := src[k];
      assert src[..k + 1] == src[..k] + [src[k]];
      k := k + 1;
    }
    assert src[..k] == src;
  }

  /** `Buffer.BlockCopy(src, srcOffset, dst, 0, dst.Length)` into a fresh buffer. */
  method BlockCopy(src: seq<byte>, srcOffset: nat, dst: array<byte>)
    requires srcOffset + dst.Length <= |src|
    modifies dst
    ensures dst[..] == src[srcOffset..srcOffset + dst.Length]
  {
    var k := 0;
    while k < dst.Length
      invariant 0 <= k <= dst.Length
      invariant dst[..k] == src[srcOffset..srcOffset + k]
    {
      dst[k] := src[srcOffset + k];
      k := k + 1;
      assert dst[..k] == dst[..k - 1] + [dst[k - 1]];
    }
  }

  // ---------------------------------------------------------------------
  // Hash and Verify
  // ---------------------------------------------------------------------

  /** `Hash(password)`, with the random salt as a parameter. */
  method Hash(password: string, salt: seq<byte>, kdf: Kdf, encode: seq<byte> -> string) returns (hash: string)
    requires |salt| == SaltSize && DerivesLength(kdf)
    ensures hash == encode(Layout(Iterations, salt, kdf(password, salt, Iterations, KeySize)))
  {
    var key := kdf(password, salt, Iterations, KeySize);
    var result := new byte[1 + 4 + SaltSize + KeySize];
    result[0] := 0x01;
    var bytes := Int32Bytes(Iterations);
    CopyTo(bytes, result, 1);
    assert result[..5] == [0x01] + bytes;
    CopyTo(salt, result, 5);
    assert result[..5 + SaltSize] == [0x01] + bytes + salt;
    CopyTo(key, result, 5 + SaltSize);
    assert result[..] == [0x01] + bytes + salt + key;
    hash := encode(result[..]);
  }

  /** `Verify(password, hash)`. */
  method Verify(password: string, hash: string, kdf: Kdf, decode: string -> Option<seq<byte>>) returns (r: Outcome)
    ensures r == VerifyText(password, hash, kdf, decode)
  {
    var decoded := decode(hash);
    if decoded.None? {
      return FormatError;
    }
    var bytes := decoded.value;
    if |bytes| < 1 + 4 + SaltSize + KeySize {
      return Verified(false);
    }
    var version := bytes[0];
    if version != 0x01 {
      return Verified(false);
    }
    var iterations := ToInt32(bytes[1..5]);
    var salt := new byte[SaltSize];
    BlockCopy(bytes, 5, salt);
    var storedKey := new byte[KeySize];
    BlockCopy(bytes, 5 + SaltSize, storedKey);
    if iterations <= 0 {
      return IterationsOutOfRange;
    }
    var key := kdf(password, salt[..], iterations, KeySize);
    r := Verified(storedKey[..] == key);
  }

  // ---------------------------------------------------------------------
  // What the container promises
  // ---------------------------------------------------------------------

  /** A hash decodes to exactly 53 bytes: 0x01, the iteration count, the salt, the key. */
  lemma LayoutFields(iterations: Int32, salt: seq<byte>, key: seq<byte>)
    requires |salt| == SaltSize && |key| == KeySize
    ensures var b := Layout(iterations, salt, key);
      && |b| == HashSize
      && b[0] == 0x01
      && ToInt32(b[1..5]) == iterations
      && b[5..21] == salt
      && b[21..53] == key
  {
    var b := Layout(iterations, salt, key);
    assert b[1..5] == Int32Bytes(iterations);
    Int32BytesRoundTrip(iterations);
  }

  /**
   * A container checks the password with the iteration count it stores,
   * whatever the current constant, and bytes after the 53rd play no part.
   */
  lemma VerifyUsesStoredLayout(password: string, iterations: Int32, salt: seq<byte>, key: seq<byte>, extra: seq<byte>, kdf: Kdf)
    requires |salt| == SaltSize && |key| == KeySize
    ensures iterations > 0 ==>
      VerifyBytes(password, Layout(iterations, salt, key) + extra, kdf)
        == Verified(key == kdf(password, salt, iterations, KeySize))
    ensures iterations <= 0 ==>
      VerifyBytes(password, Layout(iterations, salt, key) + extra, kdf) == IterationsOutOfRange
  {
    LayoutFields(iterations, salt, key);
    var b := Layout(iterations, salt, key) + extra;
    assert b[..HashSize] == Layout(iterations, salt, key);
    assert b[1..5] == b[..HashSize][1..5];
    assert b[5..21] == b[..HashSize][5..21];
    assert b[21..53] == b[..HashSize][21..53];
  }

  /** Bytes beyond index 52 do not change what `Verify` decides. */
  lemma VerifyIgnoresTrailing(password: string, bytes: seq<byte>, extra: seq<byte>, kdf: Kdf)
    requires |bytes| >= HashSize
    ensures VerifyBytes(password, bytes + extra, kdf) == VerifyBytes(password, bytes, kdf)
  {
    var b := bytes + extra;
    assert b[0] == bytes[0];
    assert b[1..5] == bytes[1..5];
    assert b[5..21] == bytes[5..21];
    assert b[21..53] == bytes[21..53];
  }

  /**
   * With a deterministic key derivation and a Base64 decoder that inverts
   * the encoder, a password verifies against its own hash, and another
   * password verifies exactly when it derives the same key from that salt.
   */
  lemma HashThenVerify(password: string, other: string, salt: seq<byte>, kdf: Kdf,
                       encode: seq<byte> -> string, decode: string -> Option<seq<byte>>)
    requires |salt| == SaltSize && DerivesLength(kdf)
    requires forall b :: decode(encode(b)) == Some(b)
    ensures var hash := encode(Layout(Iterations, salt, kdf(password, salt, Iterations, KeySize)));
      && VerifyText(password, hash, kdf, decode) == Verified(true)
      && VerifyText(other, hash, kdf, decode)
           == Verified(kdf(other, salt, Iterations, KeySize) == kdf(password, salt, Iterations, KeySize))
  {
    var key := kdf(password, salt, Iterations, KeySize);
    var l := Layout(Iterations, salt, key);
    assert decode(encode(l)) == Some(l);
    assert l + [] == l;
    VerifyUsesStoredLayout(password, Iterations, salt, key, [], kdf);
    VerifyUsesStoredLayout(other, Iterations, salt, key, [], kdf);
  }

  /** `Hash` followed by `Verify` with the same password succeeds. */
  method HashVerifies(password: string, salt: seq<byte>, kdf: Kdf,
                      encode: seq<byte> -> string, decode: string -> Option<seq<byte>>) returns (r: Outcome)
    requires |salt| == SaltSize && DerivesLength(kdf)
    requires forall b :: decode(encode(b)) == Some(b)
    ensures r == Verified(true)
  {
    var hash := Hash(password, salt, kdf, encode);
    r := Verify(password, hash, kdf, decode);
    HashThenVerify(password, password, salt, kdf, encode, decode);
  }
}
