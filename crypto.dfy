/**
 * The cryptographic and serialisation primitives that the ledger uses through
 * `CryptoUtils` (educhain/core/utils/crypto_utils.py), `hashlib`, `json` and
 * `base64`. None of them is modelled bit for bit: they are the fields of a
 * `Primitives` value handed to every operation that needs them, and the only
 * facts assumed about them are the ones collected in `Sound`, which lemmas and
 * contracts take as a hypothesis where they need it.
 */
module Crypto {
  import opened Wrappers

  /** A byte string; the model identifies a text with its UTF-8 encoding. */
  type Bytes = seq<char>

  /** A JSON value, as produced by the `to_dict` methods and read by `json.dumps`. */
  datatype Json =
    | JNull
    | JBool(b: bool)
    | JNum(n: real)
    | JStr(s: string)
    | JList(items: seq<Json>)
    | JObj(fields: map<string, Json>)

  /** A JSON object, the Python `Dict[str, Any]`. */
  type Dict = map<string, Json>

  datatype Primitives = Primitives(
    /** `hashlib.sha256(data).hexdigest()` */
    sha256Hex: Bytes -> string,
    /** `json.dumps(value, sort_keys=True).encode('utf-8')` */
    dumps: Json -> Bytes,
    /** `json.dumps(value, sort_keys=True, separators=(',', ':')).encode()` */
    dumpsCompact: Json -> Bytes,
    /** ECDSA over secp256k1 with a SHA-256 digest, DER-encoded, as hex text */
    sign: (Bytes, string) -> string,
    /** ECDSA verification of a hex signature under a hex public key; false on any failure */
    verify: (Bytes, string, string) -> bool,
    /** the public key of a private key, `CryptoUtils.get_public_key` */
    publicKey: string -> string,
    /** `"0x"` + the last 20 bytes of Keccak-256 of the public key, `get_address_from_pubkey` */
    address: string -> string,
    /** `base64.b64encode(s.encode()).decode()` */
    b64encode: string -> string,
    /** `base64.b64decode(s).decode()`, or None where that raises */
    b64decode: string -> Option<string>)

  /**
   * What the ledger relies on: a signature made with a private key verifies
   * under its public key, signatures and public keys are never empty (a DER
   * signature and a secp256k1 key are dozens of bytes long), and base64
   * decoding undoes base64 encoding without emptying a non-empty text.
   */
  ghost predicate Sound(p: Primitives) {
    && (forall d, sk :: p.verify(d, p.sign(d, sk), p.publicKey(sk)))
    && (forall d, sk :: p.sign(d, sk) != "")
    && (forall sk :: p.publicKey(sk) != "")
    && (forall s :: p.b64decode(p.b64encode(s)) == Some(s))
    && (forall s :: s != "" ==> p.b64encode(s) != "")
  }

  /** What `sign_data` and `verify_signature` accept: raw bytes, or a value they serialise first. */
  datatype Data = Raw(bytes: Bytes) | Value(value: Json)

  /** The bytes that are actually signed: raw bytes pass through, anything else goes through `json.dumps`. */
  function Encode(p: Primitives, data: Data): Bytes {
    match data
    case Raw(b) => b
    case Value(v) => p.dumps(v)
  }

  /** `CryptoUtils.sign_data(data, private_key_hex)` */
  function SignData(p: Primitives, data: Data, privateKey: string): string {
    p.sign(Encode(p, data), privateKey)
  }

  /**
   * `CryptoUtils.verify_signature(data, signature_hex, public_key_hex)`: a
   * missing signature makes `bytes.fromhex` raise inside the `try`, which
   * yields False.
   */
  function VerifySignature(p: Primitives, data: Data, signature: Option<string>, publicKey: string): bool {
    signature.Some? && p.verify(Encode(p, data), signature.value, publicKey)
  }

  /** Data signed with a private key verifies under the matching public key. */
  lemma SignThenVerify(p: Primitives, data: Data, privateKey: string)
    requires Sound(p)
    ensures VerifySignature(p, data, Some(SignData(p, data, privateKey)), p.publicKey(privateKey))
  {
  }
}
