/** The per-connection encryption layer (src/auth.rs): method tags, the authenticator and the
    dispatch of encryption and decryption to one of two AEAD ciphers. The ciphers themselves are
    outside the model: an `Aead` value stands for a cipher library, and the random nonce drawn at
    construction is a parameter. */
module Auth {
  import opened Results
  import opened Wire

  /** A client identifier; only compared, never looked into. */
  type Uuid(==)

  const KEY_SIZE: nat := 32
  const NONCE_SIZE: nat := 12
  /** AES-128-GCM is keyed by the first 16 bytes of the 32-byte key. */
  const AES_KEY_SIZE: nat := 16

  type Key = k: seq<Byte> | |k| == KEY_SIZE witness seq(KEY_SIZE, _ => 0)
  type Nonce = n: seq<Byte> | |n| == NONCE_SIZE witness seq(NONCE_SIZE, _ => 0)

  // ---------------------------------------------------------------------------
  // Encryption-method tags

  datatype EncryptMethod = Unsafe | Aes | ChaCha

  /** Decodes a method tag; every value other than 1 and 2 decodes to `Unsafe`. */
  function FromNum(num: Byte): (m: EncryptMethod)
    ensures m == Aes <==> num == 1
    ensures m == ChaCha <==> num == 2
    ensures m == Unsafe <==> num != 1 && num != 2
  {
    match num
    case 1 => Aes
    case 2 => ChaCha
    case _ => Unsafe
  }

  /** The tag a method is written as: 0, 1 or 2; reading it back gives the method. */
  function ToNum(m: EncryptMethod): (n: Byte)
    ensures n <= 2
    ensures FromNum(n) == m
  {
    match m
    case Unsafe => 0
    case Aes => 1
    case ChaCha => 2
  }

  // ---------------------------------------------------------------------------
  // Ciphers

  /** An AEAD cipher library as this layer calls it: sealing and opening under key bytes and a
      nonce; either may fail. */
  datatype Aead = Aead(seal: (seq<Byte>, Nonce, seq<Byte>) -> Result<seq<Byte>, CryptoError>,
                       open: (seq<Byte>, Nonce, seq<Byte>) -> Result<seq<Byte>, CryptoError>)

  /** The two cipher libraries the relay links: AES-128-GCM and ChaCha20-Poly1305. */
  datatype Ciphers = Ciphers(aes128Gcm: Aead, chaCha20Poly1305: Aead)

  /** The cipher libraries' error, which carries no detail. */
  datatype CryptoError = CryptoError

  /** What the relay relies on of a cipher library: whatever it seals under a key and nonce it
      opens again under the same key and nonce. */
  ghost predicate Inverts(c: Aead) {
    forall k, n, p, ct :: c.seal(k, n, p) == Ok(ct) ==> c.open(k, n, ct) == Ok(p)
  }

  // ---------------------------------------------------------------------------
  // Authenticator

  datatype Authenticator = Authenticator(clientId: Uuid, key: Key, nonce: Nonce, encryptMethod: EncryptMethod)

  datatype AuthError =
    | UnsafeMode      // no authenticator exists for unencrypted traffic
    | BadKeyLength    // a ChaCha20-Poly1305 key that is not 32 bytes long

  /** `Authenticator::new`, with `nonce` the 12 random bytes drawn for it. Refuses `Unsafe`;
      for the two ciphers it keeps identity, key, method and nonce as given. */
  function NewAuthenticator(id: Uuid, key: Key, encryptMethod: EncryptMethod, nonce: Nonce)
    : (r: Result<Authenticator, AuthError>)
    ensures r.Err? <==> encryptMethod == Unsafe
    ensures r.Err? ==> r.error == UnsafeMode
    ensures r.Ok? ==> r.value.clientId == id && r.value.key == key && r.value.encryptMethod == encryptMethod
    ensures r.Ok? ==> GetNonce(r.value) == nonce
  {
    match encryptMethod
    case Aes => Ok(Authenticator(id, key, nonce, Aes))
    case ChaCha =>
      if |key| == KEY_SIZE then Ok(Authenticator(id, key, nonce, ChaCha))
      else Err(BadKeyLength)
    case Unsafe => Err(UnsafeMode)
  }

  /** `get_nonce`: the nonce drawn when the authenticator was built. */
  function GetNonce(a: Authenticator): (n: Nonce)
  {
    a.nonce
  }

  /** `encrypt`: seals with the method's cipher under the stored key and the stored nonce; fails
      for `Unsafe` and whenever the cipher fails. */
  function Encrypt(a: Authenticator, c: Ciphers, plaintext: seq<Byte>): (r: Result<seq<Byte>, CryptoError>)
    ensures a.encryptMethod == Unsafe ==> r.Err?
    ensures a.encryptMethod == Aes ==> r == c.aes128Gcm.seal(a.key[..AES_KEY_SIZE], a.nonce, plaintext)
    ensures a.encryptMethod == ChaCha ==> r == c.chaCha20Poly1305.seal(a.key, a.nonce, plaintext)
  {
    match a.encryptMethod
    case Aes =>
      var seed := a.key[0..16];
      var ciphertext :- c.aes128Gcm.seal(seed, a.nonce, plaintext);
      Ok(ciphertext)
    case ChaCha =>
      var ciphertext :- c.chaCha20Poly1305.seal(a.key, a.nonce, plaintext);
      Ok(ciphertext)
    case _ => Err(CryptoError)
  }

  /** `decrypt`: opens with the method's cipher under the stored key and the stored nonce; fails
      for `Unsafe` and whenever the cipher fails. */
  function Decrypt(a: Authenticator, c: Ciphers, ciphertext: seq<Byte>): (r: Result<seq<Byte>, CryptoError>)
    ensures a.encryptMethod == Unsafe ==> r.Err?
    ensures a.encryptMethod == Aes ==> r == c.aes128Gcm.open(a.key[..AES_KEY_SIZE], a.nonce, ciphertext)
    ensures a.encryptMethod == ChaCha ==> r == c.chaCha20Poly1305.open(a.key, a.nonce, ciphertext)
  {
    match a.encryptMethod
    case Aes =>
      var seed := a.key[0..16];
      var plaintext :- c.aes128Gcm.open(seed, a.nonce, ciphertext);
      Ok(plaintext)
    case ChaCha =>
      var plaintext :- c.chaCha20Poly1305.open(a.key, a.nonce, ciphertext);
      Ok(plaintext)
    case _ => Err(CryptoError)
  }

  /** Whatever an authenticator encrypts it decrypts back, given cipher libraries that invert
      their own sealing. */
  lemma EncryptDecryptRoundTrip(a: Authenticator, c: Ciphers, plaintext: seq<Byte>)
    requires Inverts(c.aes128Gcm) && Inverts(c.chaCha20Poly1305)
    requires Encrypt(a, c, plaintext).Ok?
    ensures Decrypt(a, c, Encrypt(a, c, plaintext).value) == Ok(plaintext)
  {
  }

  /** With AES only the first 16 key bytes matter: two AES authenticators that agree on them and
      on the nonce encrypt and decrypt alike, whatever their other 16 key bytes. */
  lemma AesIgnoresKeyTail(a: Authenticator, b: Authenticator, c: Ciphers, input: seq<Byte>)
    requires a.encryptMethod == Aes && b.encryptMethod == Aes
    requires a.key[..AES_KEY_SIZE] == b.key[..AES_KEY_SIZE] && a.nonce == b.nonce
    ensures Encrypt(a, c, input) == Encrypt(b, c, input)
    ensures Decrypt(a, c, input) == Decrypt(b, c, input)
  {
  }

  /** An authenticator seals every message under the one nonce drawn when it was built, and
      under the key bytes of its method's cipher. */
  lemma NonceReusedForEveryMessage(id: Uuid, key: Key, encryptMethod: EncryptMethod, nonce: Nonce,
                                   c: Ciphers, plaintext: seq<Byte>)
    requires NewAuthenticator(id, key, encryptMethod, nonce).Ok?
    ensures var a := NewAuthenticator(id, key, encryptMethod, nonce).value;
            Encrypt(a, c, plaintext)
              == if encryptMethod == Aes then c.aes128Gcm.seal(key[..AES_KEY_SIZE], nonce, plaintext)
                 else c.chaCha20Poly1305.seal(key, nonce, plaintext)
  {
  }
}
