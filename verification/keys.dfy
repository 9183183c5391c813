/** The key layer of keys/keys.go: reading a raw X25519 private key from a PEM
    file, deriving a public key, and deriving the direction-aware session key
    that a reader and a writer share.

    The cryptographic primitives are not modelled; they are the fields of a
    `Primitives` record handed to every operation. Their lengths are fixed by
    the types (`Key`, `Digest`), and the one algebraic fact the derivation
    relies on, commutativity of Diffie-Hellman (section 6.1 of RFC 7748), is
    the predicate `DiffieHellman`, required only by the lemmas that need it. */
module Keys {
  import opened Base

  /** x25519.GroupElementLength: bytes in a Curve25519 scalar or point. */
  const GroupElementLength: nat := 32

  /** blake2b.Size: bytes in a BLAKE2b-512 digest (RFC 7693). */
  const DigestLength: nat := 64

  /** A private scalar or a public point, both 32 raw bytes (`[32]byte`). */
  type Key = s: seq<byte> | |s| == GroupElementLength witness seq(32, _ => 0)

  /** A BLAKE2b-512 digest (`[64]byte`). */
  type Digest = s: seq<byte> | |s| == DigestLength witness seq(64, _ => 0)

  /** The foreign functions keys.go calls:
      - `scalarBaseMult`: curve25519.ScalarBaseMult, private key to public key;
      - `x25519`: curve25519.X25519 on two 32-byte inputs, giving the 32-byte
        shared secret or an error (for a low-order point);
      - `blake2b512`: blake2b.Sum512. */
  datatype Primitives = Primitives(
    scalarBaseMult: Key -> Key,
    x25519: (Key, Key) -> Result<Key>,
    blake2b512: seq<byte> -> Digest)

  /** Diffie-Hellman agreement for one pair of private keys: each side's X25519
      of its own private key and the other side's public key gives the same
      outcome. */
  predicate DhAgrees(p: Primitives, a: Key, b: Key) {
    p.x25519(a, p.scalarBaseMult(b)) == p.x25519(b, p.scalarBaseMult(a))
  }

  /** The Diffie-Hellman property of X25519, for every pair of private keys. */
  ghost predicate DiffieHellman(p: Primitives) {
    forall a: Key, b: Key :: DhAgrees(p, a, b)
  }

  /** A key pair whose public half is the one its private half determines. */
  datatype KeyPair = KeyPair(privateKey: Key, publicKey: Key)

  predicate ValidKeyPair(p: Primitives, kp: KeyPair) {
    kp.publicKey == DerivePublicKey(p, kp.privateKey)
  }

  // ---------------------------------------------------------------------------
  // Public-key derivation

  /** DerivePublicKey: scalar multiplication of the base point by the private key. */
  function DerivePublicKey(p: Primitives, privateKey: Key): Key {
    p.scalarBaseMult(privateKey)
  }

  // ---------------------------------------------------------------------------
  // The hash input and the session key

  /** The string generateSharedKey hashes: the Diffie-Hellman secret, then the
      reader's public key, then the writer's public key. */
  function HashInput(dh: seq<byte>, readerPublicKey: Key, writerPublicKey: Key): seq<byte> {
    dh + readerPublicKey + writerPublicKey
  }

  /** The three operands of a hash input, read back from its tail: the last 32
      bytes are the writer's key, the 32 before them the reader's key, and the
      rest the Diffie-Hellman secret. */
  function SplitHashInput(m: seq<byte>): (parts: (seq<byte>, Key, Key))
    requires |m| >= 2 * GroupElementLength
    ensures |parts.0| == |m| - 2 * GroupElementLength
  {
    var n := |m| - 2 * GroupElementLength;
    (m[..n], m[n..n + GroupElementLength], m[n + GroupElementLength..])
  }

  /** Splitting undoes concatenation, and concatenation undoes splitting, so a
      hash input determines its Diffie-Hellman secret and the ordered pair of
      public keys. */
  lemma HashInputRoundTrip(dh: seq<byte>, readerPublicKey: Key, writerPublicKey: Key, m: seq<byte>)
    ensures |HashInput(dh, readerPublicKey, writerPublicKey)| == |dh| + 2 * GroupElementLength
    ensures SplitHashInput(HashInput(dh, readerPublicKey, writerPublicKey)) == (dh, readerPublicKey, writerPublicKey)
    ensures |m| >= 2 * GroupElementLength ==>
              var parts := SplitHashInput(m); HashInput(parts.0, parts.1, parts.2) == m
  {
    var h := HashInput(dh, readerPublicKey, writerPublicKey);
    var n := |dh|;
    assert h[..n] == dh;
    assert h[n..n + GroupElementLength] == readerPublicKey;
    assert h[n + GroupElementLength..] == writerPublicKey;
    if |m| >= 2 * GroupElementLength {
      var k := |m| - 2 * GroupElementLength;
      assert m == m[..k] + m[k..k + GroupElementLength] + m[k + GroupElementLength..];
    }
  }

  /** With a 32-byte secret the hash input is exactly 96 bytes: bytes 0-31 are
      the secret, 32-63 the reader's key and 64-95 the writer's key. */
  lemma HashInputLayout(dh: Key, readerPublicKey: Key, writerPublicKey: Key)
    ensures var m := HashInput(dh, readerPublicKey, writerPublicKey);
            && |m| == 96
            && m[..32] == dh
            && m[32..64] == readerPublicKey
            && m[64..] == writerPublicKey
  {
  }

  /** Exchanging the two public keys gives a different hash input unless the
      keys are equal: the order, not only the set, of the keys is hashed. */
  lemma SwappedKeysChangeHashInput(dh: seq<byte>, ownPublicKey: Key, peerPublicKey: Key)
    ensures HashInput(dh, ownPublicKey, peerPublicKey) == HashInput(dh, peerPublicKey, ownPublicKey)
            <==> ownPublicKey == peerPublicKey
  {
    if HashInput(dh, ownPublicKey, peerPublicKey) == HashInput(dh, peerPublicKey, ownPublicKey) {
      HashInputRoundTrip(dh, ownPublicKey, peerPublicKey, []);
      HashInputRoundTrip(dh, peerPublicKey, ownPublicKey, []);
    }
  }

  /** generateSharedKey: hash the secret and the two ordered public keys and
      keep the first 32 bytes of the 64-byte digest. It never fails. */
  function GenerateSharedKey(p: Primitives, dh: seq<byte>, readerPublicKey: Key, writerPublicKey: Key)
    : (r: Call<seq<byte>>)
    ensures r.Conventional() && r.err == None
    ensures |r.value.value| == GroupElementLength
    ensures r.value.value <= p.blake2b512(HashInput(dh, readerPublicKey, writerPublicKey))
  {
    var digest := p.blake2b512(HashInput(dh, readerPublicKey, writerPublicKey));
    Return(Some(digest[..GroupElementLength]), None)
  }

  // ---------------------------------------------------------------------------
  // Role-aware derivation

  /** Which end of a transfer a party is. */
  datatype Role = Reader | Writer

  /** The ordered (reader, writer) pair of public keys, seen from a caller with
      the given role: the caller's own key goes in the caller's slot. */
  function ReaderWriterKeys(role: Role, ownPublicKey: Key, peerPublicKey: Key): (Key, Key) {
    match role
    case Reader => (ownPublicKey, peerPublicKey)
    case Writer => (peerPublicKey, ownPublicKey)
  }

  /** The swap law that lets both ends agree: a reader pairing its key `x` with
      peer `y` labels the keys exactly as a writer pairing its key `y` with peer
      `x`; and the two roles label one caller's keys alike only when its own
      key is its peer's. */
  lemma ReaderWriterSwap(x: Key, y: Key)
    ensures ReaderWriterKeys(Reader, x, y) == ReaderWriterKeys(Writer, y, x)
    ensures ReaderWriterKeys(Reader, x, y) == ReaderWriterKeys(Writer, x, y) <==> x == y
  {
  }

  /** The session key of a party with the given role, as a single definition
      parametrised by role: a reference for the two functions of keys.go. */
  function DeriveSharedKey(p: Primitives, role: Role, ownPrivateKey: Key, peerPublicKey: Key)
    : (r: Call<seq<byte>>)
    ensures r.Conventional()
    ensures p.x25519(ownPrivateKey, peerPublicKey).Err? ==>
              r.err == Some(p.x25519(ownPrivateKey, peerPublicKey).error)
    ensures p.x25519(ownPrivateKey, peerPublicKey).Ok? ==>
              && r.err == None
              && |r.value.value| == GroupElementLength
              && var keys := ReaderWriterKeys(role, DerivePublicKey(p, ownPrivateKey), peerPublicKey);
                 r.value.value <= p.blake2b512(HashInput(p.x25519(ownPrivateKey, peerPublicKey).value, keys.0, keys.1))
  {
    var keys := ReaderWriterKeys(role, DerivePublicKey(p, ownPrivateKey), peerPublicKey);
    match p.x25519(ownPrivateKey, peerPublicKey)
    case Err(e) => Return(None, Some(e))
    case Ok(dh) => GenerateSharedKey(p, dh, keys.0, keys.1)
  }

  /** GenerateReaderSharedKey: the reader's own public key is the reader key
      and the peer's key the writer key. An X25519 error is returned with a nil
      key and no hash. */
  function GenerateReaderSharedKey(p: Primitives, privateKey: Key, publicKey: Key): (r: Call<seq<byte>>)
    ensures r == DeriveSharedKey(p, Reader, privateKey, publicKey)
    ensures p.x25519(privateKey, publicKey).Err? ==>
              r == Return(None, Some(p.x25519(privateKey, publicKey).error))
    ensures p.x25519(privateKey, publicKey).Ok? ==>
              && r.Conventional() && r.err == None
              && |r.value.value| == GroupElementLength
              && r.value.value <= p.blake2b512(p.x25519(privateKey, publicKey).value
                                               + DerivePublicKey(p, privateKey) + publicKey)
  {
    var derivedPublicKey := DerivePublicKey(p, privateKey);
    match p.x25519(privateKey, publicKey)
    case Err(e) => Return(None, Some(e))
    case Ok(dh) => GenerateSharedKey(p, dh, derivedPublicKey, publicKey)
  }

  /** GenerateWriterSharedKey: the same operands as the reader's, with the two
      public keys exchanged, so the peer's key is the reader key. */
  function GenerateWriterSharedKey(p: Primitives, privateKey: Key, publicKey: Key): (r: Call<seq<byte>>)
    ensures r == DeriveSharedKey(p, Writer, privateKey, publicKey)
    ensures p.x25519(privateKey, publicKey).Err? ==>
              r == Return(None, Some(p.x25519(privateKey, publicKey).error))
    ensures p.x25519(privateKey, publicKey).Ok? ==>
              && r.Conventional() && r.err == None
              && |r.value.value| == GroupElementLength
              && r.value.value <= p.blake2b512(p.x25519(privateKey, publicKey).value
                                               + publicKey + DerivePublicKey(p, privateKey))
  {
    var derivedPublicKey := DerivePublicKey(p, privateKey);
    match p.x25519(privateKey, publicKey)
    case Err(e) => Return(None, Some(e))
    case Ok(dh) => GenerateSharedKey(p, dh, publicKey, derivedPublicKey)
  }

  /** Role symmetry: a reader holding pair `a` and a writer holding pair `b`
      arrive at the same result, a 32-byte key when X25519 succeeds, or the
      same error on both sides. */
  lemma RoleSymmetry(p: Primitives, a: KeyPair, b: KeyPair)
    requires DiffieHellman(p)
    requires ValidKeyPair(p, a) && ValidKeyPair(p, b)
    ensures GenerateReaderSharedKey(p, a.privateKey, b.publicKey)
         == GenerateWriterSharedKey(p, b.privateKey, a.publicKey)
    ensures var k := GenerateReaderSharedKey(p, a.privateKey, b.publicKey);
            k.value.Some? ==> |k.value.value| == GroupElementLength
  {
    assert DhAgrees(p, a.privateKey, b.privateKey);
  }

  /** Both parties hash the very same 96-byte string: the secret, then the
      reader's key, then the writer's key. */
  lemma RoleSymmetryHashInput(p: Primitives, a: KeyPair, b: KeyPair)
    requires DiffieHellman(p)
    requires ValidKeyPair(p, a) && ValidKeyPair(p, b)
    requires p.x25519(a.privateKey, b.publicKey).Ok?
    ensures p.x25519(b.privateKey, a.publicKey) == p.x25519(a.privateKey, b.publicKey)
    ensures var dh := p.x25519(a.privateKey, b.publicKey).value;
            var fromReader := ReaderWriterKeys(Reader, DerivePublicKey(p, a.privateKey), b.publicKey);
            var fromWriter := ReaderWriterKeys(Writer, DerivePublicKey(p, b.privateKey), a.publicKey);
            && fromReader == fromWriter == (a.publicKey, b.publicKey)
            && |HashInput(dh, fromReader.0, fromReader.1)| == 96
  {
    assert DhAgrees(p, a.privateKey, b.privateKey);
    var dh := p.x25519(a.privateKey, b.publicKey).value;
    HashInputLayout(dh, a.publicKey, b.publicKey);
  }

  // ---------------------------------------------------------------------------
  // Reading a private key file

  /** ReadX25519PrivateKey as written. `readAll` is the outcome of
      ioutil.ReadAll on the reader; `pemDecode` gives the payload of the first
      PEM block of a text, or None where pem.Decode returns a nil block. The
      key is the payload's last 32 bytes. A missing block dereferences nil and
      a payload under 32 bytes slices from a negative index: both panic. */
  function ReadX25519PrivateKey(readAll: Result<seq<byte>>, pemDecode: seq<byte> -> Option<seq<byte>>)
    : (r: Call<Key>)
    ensures readAll.Err? ==> r == Return(None, Some(readAll.error))
    ensures readAll.Ok? && pemDecode(readAll.value).None? ==> r == Panic(NilDereference)
    ensures readAll.Ok? && pemDecode(readAll.value).Some? ==>
              var payload := pemDecode(readAll.value).value;
              && (|payload| < GroupElementLength <==> r == Panic(SliceBoundsOutOfRange))
              && (|payload| >= GroupElementLength ==>
                    r.Conventional() && r.value.Some? && payload == payload[..|payload| - GroupElementLength] + r.value.value)
  {
    match readAll
    case Err(e) => Return(None, Some(e))
    case Ok(pemBytes) =>
      match pemDecode(pemBytes)
      case None => Panic(NilDereference)
      case Some(keyBytes) =>
        if |keyBytes| < GroupElementLength then Panic(SliceBoundsOutOfRange)
        else Return(Some(keyBytes[|keyBytes| - GroupElementLength..]), None)
  }

  /** The key is anchored at the tail: whatever prefix (an ASN.1 header of any
      length, or nothing) precedes 32 key bytes, those 32 bytes are returned. */
  lemma ReadKeyIgnoresPrefix(text: seq<byte>, pemDecode: seq<byte> -> Option<seq<byte>>, prefix: seq<byte>, key: Key)
    requires pemDecode(text) == Some(prefix + key)
    ensures ReadX25519PrivateKey(Ok(text), pemDecode) == Return(Some(key), None)
  {
  }

  /** A payload one byte short of a key panics instead of returning an error. */
  lemma ShortPayloadPanics(text: seq<byte>, pemDecode: seq<byte> -> Option<seq<byte>>)
    requires pemDecode(text) == Some(seq(GroupElementLength - 1, _ => 0))
    ensures ReadX25519PrivateKey(Ok(text), pemDecode).Panic?
  {
  }

  /** The reading the function's error result evidently intends: a missing
      block or a short payload is reported as a format error, never a panic,
      and otherwise the result is that of ReadX25519PrivateKey. */
  function ReadX25519PrivateKeyChecked(readAll: Result<seq<byte>>, pemDecode: seq<byte> -> Option<seq<byte>>)
    : (r: Call<Key>)
    ensures r.Conventional()
    ensures ReadX25519PrivateKey(readAll, pemDecode).Return? ==> r == ReadX25519PrivateKey(readAll, pemDecode)
    ensures ReadX25519PrivateKey(readAll, pemDecode).Panic? ==> r.err == Some(FormatError)
  {
    match readAll
    case Err(e) => Return(None, Some(e))
    case Ok(pemBytes) =>
      match pemDecode(pemBytes)
      case None => Return(None, Some(FormatError))
      case Some(keyBytes) =>
        if |keyBytes| < GroupElementLength then Return(None, Some(FormatError))
        else Return(Some(keyBytes[|keyBytes| - GroupElementLength..]), None)
  }

  /** The error the checked reading reports for a missing or undersized key. */
  const FormatError: Error := Error("no X25519 key found in PEM data")

  // ---------------------------------------------------------------------------
  // A witness that the assumptions on the primitives can hold together

  /** Bytewise addition modulo 256, a commutative stand-in for X25519. */
  function AddBytes(a: Key, b: Key): Key {
    seq(GroupElementLength, i requires 0 <= i < GroupElementLength => ((a[i] as int + b[i] as int) % 256) as byte)
  }

  /** Primitives where the "public key" is the private key itself and X25519
      adds bytes modulo 256; addition commutes, so Diffie-Hellman holds. */
  function ToyPrimitives(): Primitives {
    Primitives(k => k, (a, b) => Ok(AddBytes(a, b)), m => seq(DigestLength, _ => 0))
  }

  lemma ToyPrimitivesAreDiffieHellman()
    ensures DiffieHellman(ToyPrimitives())
  {
    var p := ToyPrimitives();
    forall a: Key, b: Key ensures DhAgrees(p, a, b) {
      assert AddBytes(a, b) == AddBytes(b, a);
    }
  }
}
