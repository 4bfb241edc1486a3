/** The foreign libraries the backend relies on, as parameters of the model:
    `json.dumps`/`json.loads`, SHA-256 and Fernet. Every property proved about
    the hash chains holds for ANY choice of these functions that satisfies
    `Sound`, the round trips the libraries guarantee. */
module Crypto {
  import opened Base
  import opened Json

  newtype byte = x: int | 0 <= x < 256
  type Bytes = seq<byte>

  datatype Primitives = Primitives(
    /** `json.dumps(v, sort_keys=True, separators=(",", ":"))` */
    dumps: Json -> string,
    /** `json.loads`; None when the text is not JSON */
    loads: string -> Option<Json>,
    /** `hashlib.sha256(text.encode("utf-8")).hexdigest()` */
    sha256: string -> string,
    /** `datetime.isoformat()` of the instant that many whole seconds after the epoch */
    isoformat: int -> string,
    /** Fernet encryption of the UTF-8 text under the configured key */
    encrypt: string -> Bytes,
    /** Fernet decryption; None when the token is invalid for the key */
    decrypt: Bytes -> Option<string>)

  /** Canonical JSON text is never empty and reads back as the value it was
      written from. */
  ghost predicate JsonRoundTrips(p: Primitives) {
    forall v :: |p.dumps(v)| > 0 && p.loads(p.dumps(v)) == Some(v)
  }

  /** A hex digest is never the empty string. */
  ghost predicate DigestNonEmpty(p: Primitives) {
    forall s :: p.sha256(s) != ""
  }

  /** A Fernet token is never empty and decrypts back to its plaintext. */
  ghost predicate CipherRoundTrips(p: Primitives) {
    forall s :: |p.encrypt(s)| > 0 && p.decrypt(p.encrypt(s)) == Some(s)
  }

  ghost predicate Sound(p: Primitives) {
    JsonRoundTrips(p) && CipherRoundTrips(p) && DigestNonEmpty(p)
  }

  /** Collision freedom, assumed only where a lemma shows that two different
      payloads are told apart. */
  ghost predicate HashInjective(p: Primitives) {
    forall a, b :: p.sha256(a) == p.sha256(b) ==> a == b
  }

  /** `f_encrypt`: None encrypts to the empty byte string. */
  function FEncrypt(p: Primitives, plaintext: Option<string>): Bytes {
    if plaintext.None? then [] else p.encrypt(plaintext.value)
  }

  /** `f_decrypt`: empty input and invalid tokens both read as "". */
  function FDecrypt(p: Primitives, ciphertext: Bytes): string {
    if |ciphertext| == 0 then "" else p.decrypt(ciphertext).GetOr("")
  }

  /** `encrypt_json`: canonical JSON of `obj or {}`, encrypted. */
  function EncryptJson(p: Primitives, obj: Option<Json>): Bytes {
    p.encrypt(p.dumps(OrEmpty(obj)))
  }

  /** `decrypt_json`: empty input and invalid tokens both read as {}. */
  function DecryptJson(p: Primitives, ciphertext: Bytes): Json {
    if |ciphertext| == 0 then EmptyObject
    else match p.decrypt(ciphertext)
      case None => EmptyObject
      case Some(raw) => p.loads(raw).GetOr(EmptyObject)
  }

  lemma FDecryptInverts(p: Primitives, plaintext: Option<string>)
    requires CipherRoundTrips(p)
    ensures FDecrypt(p, FEncrypt(p, plaintext)) == plaintext.GetOr("")
  {
    if plaintext.Some? {
      assert |p.encrypt(plaintext.value)| > 0 && p.decrypt(p.encrypt(plaintext.value)) == Some(plaintext.value);
    }
  }

  lemma DecryptJsonInverts(p: Primitives, obj: Option<Json>)
    requires Sound(p)
    ensures DecryptJson(p, EncryptJson(p, obj)) == OrEmpty(obj)
  {
    var text := p.dumps(OrEmpty(obj));
    assert |p.encrypt(text)| > 0 && p.decrypt(p.encrypt(text)) == Some(text);
    assert p.loads(text) == Some(OrEmpty(obj));
  }

  /** `json.dumps` is injective whenever `json.loads` inverts it. */
  lemma DumpsInjective(p: Primitives, a: Json, b: Json)
    requires JsonRoundTrips(p)
    requires p.dumps(a) == p.dumps(b)
    ensures a == b
  {
    assert p.loads(p.dumps(a)) == Some(a);
    assert p.loads(p.dumps(b)) == Some(b);
  }

  /** The second-precision ISO text the chains hash for an instant: both
      `ts.replace(microsecond=0).isoformat()` and
      `isoformat(timespec="seconds")` print the whole seconds only. */
  function IsoSeconds(p: Primitives, ts: int): string {
    p.isoformat(ts / MicrosPerSecond)
  }

  lemma IsoSecondsOfTruncated(p: Primitives, ts: int)
    ensures IsoSeconds(p, TruncateToSecond(ts)) == IsoSeconds(p, ts)
  {
    TruncateIdempotent(ts);
  }
}
