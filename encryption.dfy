/** The encrypted blob envelope: AES-256-GCM (NIST SP 800-38D) with a 96-bit IV
    written in front of the cipher output.

    The platform's Web Crypto primitive is not modelled: it is a `Cipher` value
    handed in by the caller, and the one thing the model assumes of it is the
    round trip `open(k, iv, seal(k, iv, p)) == p` (`RoundTrips`). Random bytes and
    the build-time configuration are parameters. */
module Encryption {
  import opened Wrappers
  import opened Text

  newtype byte = x: int | 0 <= x < 256

  const IvLength: nat := 12
  const KeyLength: nat := 32
  /** The secret used when neither the caller nor the configuration gives one. */
  const DefaultSecret: string := "default-secure-key-change-this"
  const EncryptedMime: string := "application/octet-stream"
  const EncryptFailure: string := "Failed to encrypt file"
  const DecryptFailure: string := "Failed to decrypt file"

  /** A raw AES key as imported by `crypto.subtle.importKey('raw', ...)`. */
  datatype AesKey = AesKey(raw: seq<byte>)

  /** The AES-GCM encrypt/decrypt pair of the platform. Either may fail. */
  datatype Cipher = Cipher(
    seal: (AesKey, seq<byte>, seq<byte>) -> Result<seq<byte>>,
    open: (AesKey, seq<byte>, seq<byte>) -> Result<seq<byte>>)

  /** Decryption under the same key and IV undoes every successful encryption. */
  ghost predicate RoundTrips(c: Cipher) {
    forall k, iv, p :: c.seal(k, iv, p).Ok? ==> c.open(k, iv, c.seal(k, iv, p).value) == Ok(p)
  }

  /** A blob: bytes and a MIME type label. */
  datatype Blob = Blob(bytes: seq<byte>, mime: string)

  // ---------------------------------------------------------------- key material

  /** `userKey || VITE_ENCRYPTION_KEY || 'default-secure-key-change-this'`. */
  function KeyMaterial(userKey: Option<string>, configured: Option<string>): (r: string)
    ensures r != []
    ensures Truthy(userKey) ==> r == userKey.value
    ensures !Truthy(userKey) && Truthy(configured) ==> r == configured.value
    ensures !Truthy(userKey) && !Truthy(configured) ==> r == DefaultSecret
  {
    if Truthy(userKey) then userKey.value
    else if Truthy(configured) then configured.value
    else DefaultSecret
  }

  /** `secret.padEnd(32, '0').substring(0, 32)`. */
  function NormaliseSecret(secret: string): (r: string)
    ensures |r| == KeyLength
    ensures forall i :: 0 <= i < |secret| && i < KeyLength ==> r[i] == secret[i]
    ensures forall i :: |secret| <= i < KeyLength ==> r[i] == '0'
  {
    if |secret| >= KeyLength then secret[..KeyLength]
    else secret + seq(KeyLength - |secret|, _ => '0')
  }

  /** The character at `i` after padding with `'0'`. */
  function PaddedAt(secret: string, i: nat): char {
    if i < |secret| then secret[i] else '0'
  }

  /** Two secrets give the same key string exactly when they agree, position by
      position, on their first 32 characters once padded with `'0'`. In particular
      everything after the 32nd character is ignored, and a short secret collides
      with the same secret followed by `'0'`s. */
  lemma SameNormalisedIff(s: string, t: string)
    ensures NormaliseSecret(s) == NormaliseSecret(t) <==>
            forall i :: 0 <= i < KeyLength ==> PaddedAt(s, i) == PaddedAt(t, i)
  {
    var a, b := NormaliseSecret(s), NormaliseSecret(t);
    assert forall i :: 0 <= i < KeyLength ==> a[i] == PaddedAt(s, i) && b[i] == PaddedAt(t, i);
    if forall i :: 0 <= i < KeyLength ==> PaddedAt(s, i) == PaddedAt(t, i) {
      assert a == b;
    }
  }

  lemma ShortSecretCollidesWithZeroPadding(s: string)
    requires |s| < KeyLength
    ensures NormaliseSecret(s) == NormaliseSecret(s + "0")
  {
    SameNormalisedIff(s, s + "0");
  }

  // ---------------------------------------------------------------- UTF-8

  /** `TextEncoder.encode` of one code point. */
  function Utf8Char(c: char): (r: seq<byte>)
    ensures 1 <= |r| <= 4
    ensures |r| == 1 <==> c as int < 0x80
    ensures |r| == 1 ==> r[0] as int == c as int
  {
    var n := c as int;
    if n < 0x80 then [n as byte]
    else if n < 0x800 then [(0xC0 + n / 0x40) as byte, (0x80 + n % 0x40) as byte]
    else if n < 0x10000 then
      [(0xE0 + n / 0x1000) as byte, (0x80 + (n / 0x40) % 0x40) as byte, (0x80 + n % 0x40) as byte]
    else
      [(0xF0 + n / 0x40000) as byte, (0x80 + (n / 0x1000) % 0x40) as byte,
       (0x80 + (n / 0x40) % 0x40) as byte, (0x80 + n % 0x40) as byte]
  }

  /** `TextEncoder.encode` of a string. */
  function Utf8(s: string): seq<byte> {
    if s == [] then [] else Utf8(s[..|s| - 1]) + Utf8Char(s[|s| - 1])
  }

  predicate IsAscii(s: string) {
    forall i :: 0 <= i < |s| ==> s[i] as int < 0x80
  }

  /** UTF-8 never shrinks a string, keeps its length exactly when it is ASCII, and
      then copies the code points byte for byte. */
  lemma {:induction false} Utf8Length(s: string)
    ensures |Utf8(s)| >= |s|
    ensures |Utf8(s)| == |s| <==> IsAscii(s)
    ensures IsAscii(s) ==> forall i :: 0 <= i < |s| ==> Utf8(s)[i] as int == s[i] as int
  {
    if s != [] {
      var init := s[..|s| - 1];
      Utf8Length(init);
      assert forall i :: 0 <= i < |init| ==> init[i] == s[i];
      if IsAscii(s) {
        assert IsAscii(init);
      } else if IsAscii(init) {
        assert s[|s| - 1] as int >= 0x80;
      }
    }
  }

  /** `crypto.subtle.importKey('raw', data, 'AES-GCM', ...)`: raw AES keys must be
      128, 192 or 256 bits long. */
  function ImportAesKey(raw: seq<byte>): (r: Result<AesKey>)
    ensures r.Ok? <==> |raw| in {16, 24, 32}
    ensures r.Ok? ==> r.value.raw == raw
  {
    if |raw| in {16, 24, 32} then Ok(AesKey(raw)) else Err("Invalid key length")
  }

  /** `getEncryptionKey(userKey)`. */
  function DeriveKey(userKey: Option<string>, configured: Option<string>): Result<AesKey> {
    ImportAesKey(Utf8(NormaliseSecret(KeyMaterial(userKey, configured))))
  }

  /** Key import succeeds exactly when the 32 normalised characters are ASCII, and
      the key is then those 32 characters as bytes. */
  lemma DeriveKeyOkIffAscii(userKey: Option<string>, configured: Option<string>)
    ensures var secret := NormaliseSecret(KeyMaterial(userKey, configured));
            && (DeriveKey(userKey, configured).Ok? <==> IsAscii(secret))
            && (DeriveKey(userKey, configured).Ok? ==>
                  |DeriveKey(userKey, configured).value.raw| == KeyLength &&
                  forall i :: 0 <= i < KeyLength ==>
                    DeriveKey(userKey, configured).value.raw[i] as int == secret[i] as int)
  {
    Utf8Length(NormaliseSecret(KeyMaterial(userKey, configured)));
  }

  /** Derivation is deterministic and depends on the first 32 characters only. */
  lemma DeriveKeyIgnoresTail(s: string, t: string)
    requires |s| >= KeyLength && |t| >= KeyLength && s[..KeyLength] == t[..KeyLength]
    ensures DeriveKey(Some(s), None) == DeriveKey(Some(t), None)
  {
    SameNormalisedIff(s, t);
    assert forall i :: 0 <= i < KeyLength ==> s[i] == s[..KeyLength][i] && t[i] == t[..KeyLength][i];
  }

  // ---------------------------------------------------------------- envelope

  /** `combined.set(iv, 0); combined.set(data, iv.length)` on a fresh buffer of
      `iv.length + data.byteLength` bytes. */
  method Frame(iv: seq<byte>, data: seq<byte>) returns (envelope: seq<byte>)
    ensures envelope == iv + data
  {
    var combined := new byte[|iv| + |data|];
    for i := 0 to |iv|
      invariant forall j :: 0 <= j < i ==> combined[j] == iv[j]
    {
      combined[i] := iv[i];
    }
    for i := 0 to |data|
      invariant forall j :: 0 <= j < |iv| ==> combined[j] == iv[j]
      invariant forall j :: 0 <= j < i ==> combined[|iv| + j] == data[j]
    {
      combined[|iv| + i] := data[i];
    }
    envelope := combined[..];
  }

  /** `arrayBuffer.slice(0, 12)` and `arrayBuffer.slice(12)`; slices clamp to the
      buffer, so a short buffer gives a short IV and empty cipher text. */
  function SplitEnvelope(blob: seq<byte>): (parts: (seq<byte>, seq<byte>))
    ensures parts.0 + parts.1 == blob
    ensures |parts.0| == if |blob| < IvLength then |blob| else IvLength
  {
    if |blob| < IvLength then (blob, []) else (blob[..IvLength], blob[IvLength..])
  }

  /** Splitting undoes framing with a 12-byte IV. */
  lemma SplitFrame(iv: seq<byte>, data: seq<byte>)
    requires |iv| == IvLength
    ensures SplitEnvelope(iv + data) == (iv, data)
  {
    var parts := SplitEnvelope(iv + data);
    assert parts.0 == (iv + data)[..IvLength] == iv;
  }

  /** What `encryptFile(file, userKey)` resolves to, given the IV it draws. */
  function Encrypted(cipher: Cipher, plaintext: seq<byte>, userKey: Option<string>,
                     configured: Option<string>, iv: seq<byte>): (r: Result<Blob>)
    ensures r.Err? ==> r.message == EncryptFailure
    ensures r.Ok? ==> r.value.mime == EncryptedMime
    ensures r.Ok? <==> DeriveKey(userKey, configured).Ok? &&
                       cipher.seal(DeriveKey(userKey, configured).value, iv, plaintext).Ok?
    ensures r.Ok? ==>
              |r.value.bytes| == |iv| + |cipher.seal(DeriveKey(userKey, configured).value, iv, plaintext).value| &&
              r.value.bytes[..|iv|] == iv &&
              r.value.bytes[|iv|..] == cipher.seal(DeriveKey(userKey, configured).value, iv, plaintext).value
  {
    match DeriveKey(userKey, configured)
    case Err(_) => Err(EncryptFailure)
    case Ok(key) =>
      match cipher.seal(key, iv, plaintext)
      case Err(_) => Err(EncryptFailure)
      case Ok(data) => Ok(Blob(iv + data, EncryptedMime))
  }

  /** `encryptFile`: derive the key, encrypt under a fresh 12-byte IV, and frame
      `IV ‖ cipher output` into an octet-stream blob. Any failure surfaces only as
      "Failed to encrypt file". */
  method EncryptFile(cipher: Cipher, plaintext: seq<byte>, userKey: Option<string>,
                     configured: Option<string>, iv: seq<byte>) returns (r: Result<Blob>)
    requires |iv| == IvLength
    ensures r == Encrypted(cipher, plaintext, userKey, configured, iv)
  {
    var key := DeriveKey(userKey, configured);
    if key.Err? {
      return Err(EncryptFailure);
    }
    var sealed := cipher.seal(key.value, iv, plaintext);
    if sealed.Err? {
      return Err(EncryptFailure);
    }
    var envelope := Frame(iv, sealed.value);
    r := Ok(Blob(envelope, EncryptedMime));
  }

  /** `decryptFile(blob, originalType, userKey)`: split at byte 12, decrypt, and
      label the plaintext with the caller's type. Any failure surfaces only as
      "Failed to decrypt file". */
  function DecryptFile(cipher: Cipher, encrypted: Blob, originalType: string,
                       userKey: Option<string>, configured: Option<string>): (r: Result<Blob>)
    ensures r.Err? ==> r.message == DecryptFailure
    ensures r.Ok? ==> r.value.mime == originalType
    ensures r.Ok? <==> DeriveKey(userKey, configured).Ok? &&
                       cipher.open(DeriveKey(userKey, configured).value,
                                   SplitEnvelope(encrypted.bytes).0, SplitEnvelope(encrypted.bytes).1).Ok?
  {
    match DeriveKey(userKey, configured)
    case Err(_) => Err(DecryptFailure)
    case Ok(key) =>
      var (iv, data) := SplitEnvelope(encrypted.bytes);
      match cipher.open(key, iv, data)
      case Err(_) => Err(DecryptFailure)
      case Ok(plain) => Ok(Blob(plain, originalType))
  }

  /** Decrypting what was encrypted under the same key configuration gives back
      the plaintext, labelled with the type the caller supplies. */
  lemma DecryptAfterEncrypt(cipher: Cipher, plaintext: seq<byte>, userKey: Option<string>,
                            configured: Option<string>, iv: seq<byte>, originalType: string)
    requires RoundTrips(cipher) && |iv| == IvLength
    requires Encrypted(cipher, plaintext, userKey, configured, iv).Ok?
    ensures DecryptFile(cipher, Encrypted(cipher, plaintext, userKey, configured, iv).value,
                        originalType, userKey, configured) == Ok(Blob(plaintext, originalType))
  {
    var key := DeriveKey(userKey, configured).value;
    var data := cipher.seal(key, iv, plaintext).value;
    SplitFrame(iv, data);
  }

  // ---------------------------------------------------------------- key generation

  function HexDigit(d: nat): (c: char)
    requires d < 16
    ensures ('0' <= c <= '9') || ('a' <= c <= 'f')
  {
    if d < 10 then ('0' as int + d) as char else ('a' as int + d - 10) as char
  }

  /** `n.toString(16)` for a byte: lowercase, no leading zero. */
  function Radix16(n: byte): string {
    if n < 16 then [HexDigit(n as nat)] else [HexDigit(n as nat / 16), HexDigit(n as nat % 16)]
  }

  /** `s.padStart(width, fill)`. */
  function PadStart(s: string, width: nat, fill: char): string {
    if |s| >= width then s else seq(width - |s|, _ => fill) + s
  }

  /** One byte as the key generator renders it: `byte.toString(16).padStart(2, '0')`. */
  function ByteHex(b: byte): (r: string)
    ensures r == [HexDigit(b as nat / 16), HexDigit(b as nat % 16)]
  {
    PadStart(Radix16(b), 2, '0')
  }

  /** `Array.from(bytes, byteHex).join('')`. */
  function Hex(bytes: seq<byte>): string {
    if bytes == [] then [] else Hex(bytes[..|bytes| - 1]) + ByteHex(bytes[|bytes| - 1])
  }

  predicate IsLowerHex(s: string) {
    forall i :: 0 <= i < |s| ==> ('0' <= s[i] <= '9') || ('a' <= s[i] <= 'f')
  }

  function HexValue(c: char): (d: nat)
    ensures d < 16
  {
    if '0' <= c <= '9' then c as int - '0' as int
    else if 'a' <= c <= 'f' then c as int - 'a' as int + 10
    else 0
  }

  /** Two hex digits read as one byte. */
  function PairValue(hi: char, lo: char): byte {
    (16 * HexValue(hi) + HexValue(lo)) as byte
  }

  /** Reads a hex string back into bytes, two digits per byte (a lone trailing
      digit is ignored). */
  function Unhex(s: string): seq<byte> {
    if |s| < 2 then [] else Unhex(s[..|s| - 2]) + [PairValue(s[|s| - 2], s[|s| - 1])]
  }

  /** Rendering length: two characters per byte. */
  lemma {:induction false} HexLength(bytes: seq<byte>)
    ensures |Hex(bytes)| == 2 * |bytes|
  {
    if bytes != [] {
      HexLength(bytes[..|bytes| - 1]);
    }
  }

  /** The rendering has two lowercase hex digits per byte. */
  lemma {:induction false} HexShape(bytes: seq<byte>)
    ensures |Hex(bytes)| == 2 * |bytes|
    ensures IsLowerHex(Hex(bytes))
  {
    if bytes != [] {
      HexShape(bytes[..|bytes| - 1]);
    }
  }

  /** Rendering one more byte appends its two digits. */
  lemma HexSnoc(init: seq<byte>, b: byte)
    ensures Hex(init + [b]) == Hex(init) + ByteHex(b)
  {
    var bytes := init + [b];
    assert bytes[..|bytes| - 1] == init;
  }

  /** Byte `i` is rendered at characters `2i` and `2i+1`: the rendering keeps byte order. */
  lemma {:induction false} HexAt(bytes: seq<byte>, i: nat)
    requires i < |bytes|
    ensures |Hex(bytes)| == 2 * |bytes|
    ensures Hex(bytes)[2 * i..2 * i + 2] == ByteHex(bytes[i])
  {
    var init, b := bytes[..|bytes| - 1], bytes[|bytes| - 1];
    assert bytes == init + [b];
    HexSnoc(init, b);
    HexLength(init);
    var h, hi := Hex(bytes), Hex(init);
    assert h == hi + ByteHex(b);
    if i < |init| {
      HexAt(init, i);
      assert h[2 * i..2 * i + 2] == hi[2 * i..2 * i + 2];
    } else {
      assert h[2 * i..2 * i + 2] == h[|hi|..];
    }
  }

  /** The two digits of one byte read back as that byte. */
  lemma ByteHexValue(b: byte)
    ensures PairValue(ByteHex(b)[0], ByteHex(b)[1]) == b
  {
    var n := b as nat;
    assert HexValue(HexDigit(n / 16)) == n / 16;
    assert HexValue(HexDigit(n % 16)) == n % 16;
  }

  /** Reading two more digits appends the byte they spell. */
  lemma UnhexSnoc(s: string, hi: char, lo: char)
    ensures Unhex(s + [hi, lo]) == Unhex(s) + [PairValue(hi, lo)]
  {
    var t := s + [hi, lo];
    assert t[..|t| - 2] == s;
  }

  /** Reading the rendering back gives the bytes. */
  lemma {:induction false} UnhexHex(bytes: seq<byte>)
    ensures Unhex(Hex(bytes)) == bytes
  {
    if bytes != [] {
      var init, b := bytes[..|bytes| - 1], bytes[|bytes| - 1];
      var tail := ByteHex(b);
      assert bytes == init + [b];
      HexSnoc(init, b);
      UnhexSnoc(Hex(init), tail[0], tail[1]);
      assert Hex(bytes) == Hex(init) + [tail[0], tail[1]];
      UnhexHex(init);
      ByteHexValue(b);
    }
  }

  /** `generateEncryptionKey()`: fill a 32-byte buffer from the random source,
      then render it as hex. */
  method GenerateEncryptionKey(random: seq<byte>) returns (key: string)
    requires |random| == KeyLength
    ensures key == Hex(random)
  {
    var buffer := new byte[KeyLength];
    for i := 0 to KeyLength
      invariant forall j :: 0 <= j < i ==> buffer[j] == random[j]
    {
      buffer[i] := random[i];
    }
    assert buffer[..] == random;
    key := "";
    for i := 0 to KeyLength
      invariant buffer[..] == random
      invariant key == Hex(buffer[..i])
    {
      assert buffer[..i + 1][..i] == buffer[..i];
      key := key + ByteHex(buffer[i]);
    }
    assert buffer[..KeyLength] == buffer[..];
  }

  /** A generated key is 64 lowercase hex characters that decode to the random bytes. */
  lemma GeneratedKeyShape(random: seq<byte>)
    requires |random| == KeyLength
    ensures |Hex(random)| == 64 && IsLowerHex(Hex(random)) && Unhex(Hex(random)) == random
  {
    HexShape(random);
    UnhexHex(random);
  }
}
