/**
 * The credential token of educhain/core/model/NFT.py: a token minted for a
 * recipient, signed by its issuer over a canonical serialisation of its
 * identifying fields, and revocable for good.
 *
 * The token's attributes are reassigned in place (`sign`, `revoke`,
 * `from_dict`), so `NFT` is a class; each of its methods is proved against a
 * function on `NftState`, the value of all its attributes, and the
 * properties of the token are lemmas about those functions.
 */
module Tokens {
  import opened Wrappers
  import opened Crypto
  import opened Metadata

  /** Every attribute of a token. */
  datatype NftState = NftState(
    tokenId: string,
    metadata: NFTMetadata,
    issuerPubkey: string,
    recipientAddress: string,
    mintedAt: string,
    issuerSignature: Option<string>,
    isValid: bool,
    revoked: bool)

  /** The text hashed into a token id: student id, issue time and recipient, joined by `|`. */
  function TokenSeed(metadata: NFTMetadata, recipientAddress: string): string {
    metadata.studentId + "|" + metadata.issuedAt + "|" + recipientAddress
  }

  /**
   * `NFT(metadata, issuer_pubkey, recipient_address)` minted at `now`: the id
   * is the SHA-256 of the seed, and the token starts unsigned, valid and not
   * revoked.
   */
  function NewState(p: Primitives, metadata: NFTMetadata, issuerPubkey: string, recipientAddress: string,
                    now: string): (s: NftState)
    ensures s.tokenId == p.sha256Hex(TokenSeed(metadata, recipientAddress))
    ensures s.metadata == metadata && s.issuerPubkey == issuerPubkey && s.recipientAddress == recipientAddress
    ensures s.mintedAt == now
    ensures s.issuerSignature.None? && s.isValid && !s.revoked
  {
    NftState(p.sha256Hex(TokenSeed(metadata, recipientAddress)), metadata, issuerPubkey, recipientAddress, now,
             None, true, false)
  }

  /** The object `_canonical_signing_bytes` serialises: identity only, no signature and no status. */
  function SigningObject(s: NftState): (j: Json)
    ensures j.JObj? && j.fields.Keys == {"token_id", "metadata", "issuer_pubkey", "recipient_address", "minted_at"}
  {
    JObj(map["token_id" := JStr(s.tokenId),
             "metadata" := JObj(Metadata.ToDict(s.metadata)),
             "issuer_pubkey" := JStr(s.issuerPubkey),
             "recipient_address" := JStr(s.recipientAddress),
             "minted_at" := JStr(s.mintedAt)])
  }

  /** `_canonical_signing_bytes()`: sorted keys, compact separators. */
  function SigningBytes(p: Primitives, s: NftState): Bytes {
    p.dumpsCompact(SigningObject(s))
  }

  /** The five attributes the signature covers agree. */
  predicate SameIdentity(s: NftState, t: NftState) {
    && s.tokenId == t.tokenId && s.metadata == t.metadata && s.issuerPubkey == t.issuerPubkey
    && s.recipientAddress == t.recipientAddress && s.mintedAt == t.mintedAt
  }

  /** The signing bytes depend on the token's identity only, never on its signature or status. */
  lemma SigningBytesOfIdentity(p: Primitives, s: NftState, t: NftState)
    requires SameIdentity(s, t)
    ensures SigningBytes(p, s) == SigningBytes(p, t)
  {
    assert SigningObject(s) == SigningObject(t);
  }

  /**
   * `sign(issuer_private_key)`: the hex signature of the signing bytes,
   * base64-encoded, becomes the issuer signature; nothing else changes.
   */
  function Signed(p: Primitives, s: NftState, privateKey: string): (r: NftState)
    ensures SameIdentity(r, s) && r.isValid == s.isValid && r.revoked == s.revoked
    ensures r.issuerSignature.Some?
    ensures Sound(p) ==> r.issuerSignature.value != ""
  {
    var sig := SignData(p, Raw(SigningBytes(p, s)), privateKey);
    s.(issuerSignature := Some(p.b64encode(sig)))
  }

  /** `revoke()`: revoked and no longer valid; the identity and signature stay. */
  function Revoked(s: NftState): (r: NftState)
    ensures SameIdentity(r, s) && r.issuerSignature == s.issuerSignature
    ensures r.revoked && !r.isValid
  {
    s.(revoked := true, isValid := false)
  }

  /** The signature `verify` checks: the base64 decoding, or the stored text when that fails. */
  function DecodedSignature(p: Primitives, signature: string): string {
    match p.b64decode(signature)
    case Some(decoded) => decoded
    case None => signature
  }

  /**
   * `verify()`: a revoked or unsigned token is refused before any
   * cryptography; otherwise the decoded signature is checked over the
   * signing bytes under the issuer's key, and any failure is a refusal.
   */
  function Verifies(p: Primitives, s: NftState): (b: bool)
    ensures b ==> !s.revoked && s.issuerSignature.Some? && s.issuerSignature.value != ""
    ensures b ==> VerifySignature(p, Raw(SigningBytes(p, s)),
                                  Some(DecodedSignature(p, s.issuerSignature.value)), s.issuerPubkey)
  {
    if s.revoked || s.issuerSignature.None? || s.issuerSignature.value == "" then false
    else VerifySignature(p, Raw(SigningBytes(p, s)), Some(DecodedSignature(p, s.issuerSignature.value)), s.issuerPubkey)
  }

  /** A token signed with its issuer's key, and not revoked, verifies. */
  lemma SignThenVerifies(p: Primitives, s: NftState, privateKey: string)
    requires Sound(p) && !s.revoked && s.issuerPubkey == p.publicKey(privateKey)
    ensures Verifies(p, Signed(p, s, privateKey))
  {
    var sig := SignData(p, Raw(SigningBytes(p, s)), privateKey);
    var signed := Signed(p, s, privateKey);
    SigningBytesOfIdentity(p, signed, s);
    assert DecodedSignature(p, signed.issuerSignature.value) == sig;
    Crypto.SignThenVerify(p, Raw(SigningBytes(p, s)), privateKey);
  }

  /** Revoking twice is revoking once. */
  lemma RevokeIdempotent(s: NftState)
    ensures Revoked(Revoked(s)) == Revoked(s)
  {
  }

  /** Revocation is terminal: once revoked, no signing and no further revoking makes the token verify. */
  lemma RevokedNeverVerifies(p: Primitives, s: NftState, privateKey: string)
    requires s.revoked
    ensures !Verifies(p, s) && !Verifies(p, Signed(p, s, privateKey)) && !Verifies(p, Revoked(s))
  {
  }

  /** `to_dict()`: all eight attributes, the metadata as its own dictionary. */
  function StateToDict(s: NftState): (d: Dict)
    ensures d.Keys == {"token_id", "metadata", "issuer_pubkey", "recipient_address", "minted_at",
                       "issuer_signature", "is_valid", "revoked"}
  {
    map["token_id" := JStr(s.tokenId),
        "metadata" := JObj(Metadata.ToDict(s.metadata)),
        "issuer_pubkey" := JStr(s.issuerPubkey),
        "recipient_address" := JStr(s.recipientAddress),
        "minted_at" := JStr(s.mintedAt),
        "issuer_signature" := if s.issuerSignature.None? then JNull else JStr(s.issuerSignature.value),
        "is_valid" := JBool(s.isValid),
        "revoked" := JBool(s.revoked)]
  }

  /** `data.get(key, default)` for a text attribute. */
  function GetText(d: Dict, key: string, default: string): Result<string> {
    if key !in d then Ok(default)
    else if d[key].JStr? then Ok(d[key].s)
    else Err(TypeError(key + " is not text"))
  }

  /** `data.get(key, default)` for a boolean attribute. */
  function GetBool(d: Dict, key: string, default: bool): Result<bool> {
    if key !in d then Ok(default)
    else if d[key].JBool? then Ok(d[key].b)
    else Err(TypeError(key + " is not a boolean"))
  }

  /** `data.get("issuer_signature")`: absent and null are both no signature. */
  function GetSignature(d: Dict): Result<Option<string>> {
    if "issuer_signature" !in d || d["issuer_signature"].JNull? then Ok(None)
    else if d["issuer_signature"].JStr? then Ok(Some(d["issuer_signature"].s))
    else Err(TypeError("issuer_signature is not text"))
  }

  /**
   * `from_dict(data)` at time `now`: the metadata and the two keys are
   * required; a fresh token is built from them and then the stored id, mint
   * time, signature and status replace its own, where present. Absent
   * status defaults to valid and not revoked.
   */
  function ParseDict(p: Primitives, d: Dict, now: string): (r: Result<NftState>)
    ensures "metadata" !in d ==> r == Err(KeyError("metadata"))
    ensures ("metadata" in d && d["metadata"].JObj? && Metadata.FromDict(d["metadata"].fields, now).Ok?
             && "issuer_pubkey" !in d) ==> r == Err(KeyError("issuer_pubkey"))
    ensures ("metadata" in d && d["metadata"].JObj? && Metadata.FromDict(d["metadata"].fields, now).Ok?
             && "issuer_pubkey" in d && d["issuer_pubkey"].JStr? && "recipient_address" !in d)
            ==> r == Err(KeyError("recipient_address"))
    ensures r.Ok? && "token_id" in d ==> d["token_id"] == JStr(r.value.tokenId)
    ensures r.Ok? && "minted_at" in d ==> d["minted_at"] == JStr(r.value.mintedAt)
    ensures r.Ok? ==> ("is_valid" !in d ==> r.value.isValid) && ("revoked" !in d ==> !r.value.revoked)
    ensures r.Ok? && "token_id" !in d ==> r.value.tokenId == p.sha256Hex(TokenSeed(r.value.metadata, r.value.recipientAddress))
  {
    if "metadata" !in d then Err(KeyError("metadata"))
    else if !d["metadata"].JObj? then Err(TypeError("metadata is not a mapping"))
    else
      var metadata := Metadata.FromDict(d["metadata"].fields, now);
      if metadata.Err? then Err(metadata.error)
      else if "issuer_pubkey" !in d then Err(KeyError("issuer_pubkey"))
      else if !d["issuer_pubkey"].JStr? then Err(TypeError("issuer_pubkey is not text"))
      else if "recipient_address" !in d then Err(KeyError("recipient_address"))
      else if !d["recipient_address"].JStr? then Err(TypeError("recipient_address is not text"))
      else
        var minted := NewState(p, metadata.value, d["issuer_pubkey"].s, d["recipient_address"].s, now);
        var tokenId, mintedAt := GetText(d, "token_id", minted.tokenId), GetText(d, "minted_at", minted.mintedAt);
        var signature, isValid, revoked := GetSignature(d), GetBool(d, "is_valid", true), GetBool(d, "revoked", false);
        if tokenId.Err? then Err(tokenId.error)
        else if mintedAt.Err? then Err(mintedAt.error)
        else if signature.Err? then Err(signature.error)
        else if isValid.Err? then Err(isValid.error)
        else if revoked.Err? then Err(revoked.error)
        else Ok(minted.(tokenId := tokenId.value, mintedAt := mintedAt.value, issuerSignature := signature.value,
                       isValid := isValid.value, revoked := revoked.value))
  }

  /**
   * `from_dict(to_dict(t))` gives back every attribute of `t`, whenever its
   * metadata has an issue time, and so the same verification outcome.
   */
  lemma DictRoundTrip(p: Primitives, s: NftState, now: string)
    requires s.metadata.issuedAt != ""
    ensures ParseDict(p, StateToDict(s), now) == Ok(s)
    ensures Verifies(p, ParseDict(p, StateToDict(s), now).value) == Verifies(p, s)
  {
    var d := StateToDict(s);
    Metadata.RoundTrip(s.metadata, now);
    assert d["metadata"] == JObj(Metadata.ToDict(s.metadata));
    assert d["issuer_pubkey"] == JStr(s.issuerPubkey) && d["recipient_address"] == JStr(s.recipientAddress);
    assert GetText(d, "token_id", "") == Ok(s.tokenId) && GetText(d, "minted_at", "") == Ok(s.mintedAt);
    assert GetSignature(d) == Ok(s.issuerSignature);
    assert GetBool(d, "is_valid", true) == Ok(s.isValid) && GetBool(d, "revoked", false) == Ok(s.revoked);
  }

  class NFT {
    var tokenId: string
    const metadata: NFTMetadata
    const issuerPubkey: string
    const recipientAddress: string
    var mintedAt: string
    var issuerSignature: Option<string>
    var isValid: bool
    var revoked: bool

    function State(): NftState
      reads this
    {
      NftState(tokenId, metadata, issuerPubkey, recipientAddress, mintedAt, issuerSignature, isValid, revoked)
    }

    /** `NFT(metadata, issuer_pubkey, recipient_address)`, minted at `now`. */
    constructor(p: Primitives, metadata: NFTMetadata, issuerPubkey: string, recipientAddress: string, now: string)
      ensures State() == NewState(p, metadata, issuerPubkey, recipientAddress, now)
    {
      tokenId := p.sha256Hex(TokenSeed(metadata, recipientAddress));
      this.metadata := metadata;
      this.issuerPubkey := issuerPubkey;
      this.recipientAddress := recipientAddress;
      mintedAt := now;
      issuerSignature := None;
      isValid := true;
      revoked := false;
    }

    function CanonicalSigningBytes(p: Primitives): Bytes
      reads this
    {
      SigningBytes(p, State())
    }

    /** `sign(issuer_private_key)` */
    method Sign(p: Primitives, privateKey: string)
      modifies this`issuerSignature
      ensures State() == Signed(p, old(State()), privateKey)
      ensures Sound(p) && !revoked && issuerPubkey == p.publicKey(privateKey) ==> Verify(p)
    {
      var dataBytes := CanonicalSigningBytes(p);
      var sig := SignData(p, Raw(dataBytes), privateKey);
      issuerSignature := Some(p.b64encode(sig));
      if Sound(p) && !revoked && issuerPubkey == p.publicKey(privateKey) {
        SignThenVerifies(p, old(State()), privateKey);
      }
    }

    /** `revoke()` */
    method Revoke()
      modifies this`revoked, this`isValid
      ensures State() == Revoked(old(State()))
    {
      revoked := true;
      isValid := false;
    }

    /** `verify()` */
    predicate Verify(p: Primitives)
      reads this
    {
      Verifies(p, State())
    }

    /** `to_dict()` */
    function ToDict(): Dict
      reads this
    {
      StateToDict(State())
    }

    /** `NFT.from_dict(data)` at time `now`: a new token, or the error the dictionary raises. */
    static method FromDict(p: Primitives, d: Dict, now: string) returns (r: Result<NFT>)
      ensures r.Err? <==> ParseDict(p, d, now).Err?
      ensures r.Err? ==> r.error == ParseDict(p, d, now).error
      ensures r.Ok? ==> fresh(r.value) && r.value.State() == ParseDict(p, d, now).value
    {
      var parsed := ParseDict(p, d, now);
      if parsed.Err? {
        return Err(parsed.error);
      }
      var s := parsed.value;
      var nft := new NFT(p, s.metadata, s.issuerPubkey, s.recipientAddress, now);
      nft.tokenId := s.tokenId;
      nft.mintedAt := s.mintedAt;
      nft.issuerSignature := s.issuerSignature;
      nft.isValid := s.isValid;
      nft.revoked := s.revoked;
      return Ok(nft);
    }
  }
}
