/**
 * The credential token that educhain/core/model/NFTSmartContract.py defines
 * for its own use, with its own metadata record. It differs from the token
 * of educhain/core/model/NFT.py: the metadata also names the student and is
 * always stamped with the current time, the id is a 16-digit prefix of the
 * SHA-256 of student id and issue time, the signature covers the signing
 * object as a JSON value with no base64 step, and `from_dict` defaults a
 * missing status to invalid and revoked.
 *
 * As in `Tokens`, the class is proved against functions on `NftRecord`, the
 * value of all its attributes.
 */
module RegistryTokens {
  import opened Wrappers
  import opened Crypto

  /** The metadata record of the registry: `issued_at` is always the creation time. */
  datatype LegacyMetadata = LegacyMetadata(
    studentName: string,
    studentId: string,
    degreeType: string,
    pdfUrl: string,
    pdfHash: string,
    institution: string,
    issuedAt: string)

  /** `NFTMetadata(student_name, student_id, degree_type, pdf_url, pdf_hash, institution)` at time `now`. */
  function NewMetadata(studentName: string, studentId: string, degreeType: string, pdfUrl: string,
                       pdfHash: string, institution: string, now: string): (m: LegacyMetadata)
    ensures m.studentName == studentName && m.studentId == studentId && m.degreeType == degreeType
    ensures m.pdfUrl == pdfUrl && m.pdfHash == pdfHash && m.institution == institution
    ensures m.issuedAt == now
  {
    LegacyMetadata(studentName, studentId, degreeType, pdfUrl, pdfHash, institution, now)
  }

  /** `to_dict()`: the seven fields as JSON strings. */
  function MetadataToDict(m: LegacyMetadata): (d: Dict)
    ensures d.Keys == {"student_name", "student_id", "degree_type", "pdf_url", "pdf_hash", "institution", "issued_at"}
    ensures forall k | k in d :: d[k].JStr?
  {
    map["student_name" := JStr(m.studentName),
        "student_id" := JStr(m.studentId),
        "degree_type" := JStr(m.degreeType),
        "pdf_url" := JStr(m.pdfUrl),
        "pdf_hash" := JStr(m.pdfHash),
        "institution" := JStr(m.institution),
        "issued_at" := JStr(m.issuedAt)]
  }

  /** Every attribute of a registry token. */
  datatype NftRecord = NftRecord(
    tokenId: string,
    metadata: LegacyMetadata,
    issuerPubkey: string,
    recipientAddress: string,
    mintedAt: string,
    issuerSignature: Option<string>,
    isValid: bool,
    revoked: bool)

  /** `s[:n]`: the first `n` characters, or all of a shorter text. */
  function Prefix(s: string, n: nat): (r: string)
    ensures |r| == if |s| < n then |s| else n
    ensures r <= s
  {
    if |s| < n then s else s[..n]
  }

  const TokenIdLength: nat := 16

  /** The registry's token id: the first 16 hex digits of SHA-256 of student id and issue time, unseparated. */
  function TokenIdOf(p: Primitives, metadata: LegacyMetadata): (id: string)
    ensures var h := p.sha256Hex(metadata.studentId + metadata.issuedAt);
      |id| == (if |h| < TokenIdLength then |h| else TokenIdLength) && id <= h
  {
    Prefix(p.sha256Hex(metadata.studentId + metadata.issuedAt), TokenIdLength)
  }

  /** `NFT(metadata, issuer_pubkey, recipient_address)` minted at `now`: unsigned, valid, not revoked. */
  function NewRecord(p: Primitives, metadata: LegacyMetadata, issuerPubkey: string, recipientAddress: string,
                     now: string): (s: NftRecord)
    ensures s.tokenId == TokenIdOf(p, metadata) && s.mintedAt == now
    ensures s.metadata == metadata && s.issuerPubkey == issuerPubkey && s.recipientAddress == recipientAddress
    ensures s.issuerSignature.None? && s.isValid && !s.revoked
  {
    NftRecord(TokenIdOf(p, metadata), metadata, issuerPubkey, recipientAddress, now, None, true, false)
  }

  /** `get_signing_data()`: identity and owner, no signature and no status. */
  function SigningData(s: NftRecord): (j: Json)
    ensures j.JObj? && j.fields.Keys == {"token_id", "metadata", "issuer_pubkey", "recipient_address", "minted_at"}
  {
    JObj(map["token_id" := JStr(s.tokenId),
             "metadata" := JObj(MetadataToDict(s.metadata)),
             "issuer_pubkey" := JStr(s.issuerPubkey),
             "recipient_address" := JStr(s.recipientAddress),
             "minted_at" := JStr(s.mintedAt)])
  }

  /** The five attributes the signature covers agree. */
  predicate SameSigned(s: NftRecord, t: NftRecord) {
    && s.tokenId == t.tokenId && s.metadata == t.metadata && s.issuerPubkey == t.issuerPubkey
    && s.recipientAddress == t.recipientAddress && s.mintedAt == t.mintedAt
  }

  /** `sign_nft(issuer_private_key)`: the signature over the signing object; nothing else changes. */
  function SignedRecord(p: Primitives, s: NftRecord, privateKey: string): (r: NftRecord)
    ensures SameSigned(r, s) && r.isValid == s.isValid && r.revoked == s.revoked
    ensures r.issuerSignature.Some?
    ensures SigningData(r) == SigningData(s)
  {
    s.(issuerSignature := Some(SignData(p, Value(SigningData(s)), privateKey)))
  }

  /** `revoke()` */
  function RevokedRecord(s: NftRecord): (r: NftRecord)
    ensures SameSigned(r, s) && r.issuerSignature == s.issuerSignature
    ensures r.revoked && !r.isValid
  {
    s.(revoked := true, isValid := false)
  }

  /** `verify_nft()`: revoked or unsigned tokens are refused before any cryptography. */
  function VerifiesRecord(p: Primitives, s: NftRecord): (b: bool)
    ensures b ==> !s.revoked && s.issuerSignature.Some? && s.issuerSignature.value != ""
    ensures b ==> VerifySignature(p, Value(SigningData(s)), s.issuerSignature, s.issuerPubkey)
  {
    if s.revoked || s.issuerSignature.None? || s.issuerSignature.value == "" then false
    else VerifySignature(p, Value(SigningData(s)), s.issuerSignature, s.issuerPubkey)
  }

  /** An unrevoked token signed with its issuer's key verifies. */
  lemma SignThenVerifiesRecord(p: Primitives, s: NftRecord, privateKey: string)
    requires Sound(p) && !s.revoked && s.issuerPubkey == p.publicKey(privateKey)
    ensures VerifiesRecord(p, SignedRecord(p, s, privateKey))
  {
    Crypto.SignThenVerify(p, Value(SigningData(s)), privateKey);
  }

  /** A token as `mint_nft` issues it, fresh and signed by its issuer, verifies. */
  lemma MintedRecordVerifies(p: Primitives, metadata: LegacyMetadata, issuerPubkey: string, privateKey: string,
                             recipientAddress: string, now: string)
    requires Sound(p) && issuerPubkey == p.publicKey(privateKey)
    ensures VerifiesRecord(p, SignedRecord(p, NewRecord(p, metadata, issuerPubkey, recipientAddress, now), privateKey))
  {
    SignThenVerifiesRecord(p, NewRecord(p, metadata, issuerPubkey, recipientAddress, now), privateKey);
  }

  /** Revocation is terminal: a revoked token never verifies, signed again or revoked again. */
  lemma RevokedRecordNeverVerifies(p: Primitives, s: NftRecord, privateKey: string)
    requires s.revoked
    ensures !VerifiesRecord(p, s) && !VerifiesRecord(p, SignedRecord(p, s, privateKey))
    ensures !VerifiesRecord(p, RevokedRecord(s))
  {
  }

  /** `to_dict()` */
  function RecordToDict(s: NftRecord): (d: Dict)
    ensures d.Keys == {"token_id", "metadata", "issuer_pubkey", "recipient_address", "minted_at",
                       "issuer_signature", "is_valid", "revoked"}
  {
    map["token_id" := JStr(s.tokenId),
        "metadata" := JObj(MetadataToDict(s.metadata)),
        "issuer_pubkey" := JStr(s.issuerPubkey),
        "recipient_address" := JStr(s.recipientAddress),
        "minted_at" := JStr(s.mintedAt),
        "issuer_signature" := if s.issuerSignature.None? then JNull else JStr(s.issuerSignature.value),
        "is_valid" := JBool(s.isValid),
        "revoked" := JBool(s.revoked)]
  }

  /** `d[key]` for a text value: KeyError when absent. */
  function TextAt(d: Dict, key: string): (r: Result<string>)
    ensures key !in d ==> r == Err(KeyError(key))
    ensures r.Ok? <==> key in d && d[key].JStr?
  {
    if key !in d then Err(KeyError(key))
    else if d[key].JStr? then Ok(d[key].s)
    else Err(TypeError(key + " is not text"))
  }

  /** `key` is present and holds text, so `d[key]` reads it. */
  predicate HasText(d: Dict, key: string) {
    key in d && d[key].JStr?
  }

  /** `d.get(key, default)` for a boolean value. */
  function BoolAt(d: Dict, key: string, default: bool): (r: Result<bool>)
    ensures key !in d ==> r == Ok(default)
  {
    if key !in d then Ok(default)
    else if d[key].JBool? then Ok(d[key].b)
    else Err(TypeError(key + " is not a boolean"))
  }

  /** `d.get("issuer_signature")` */
  function SignatureAt(d: Dict): Result<Option<string>> {
    if "issuer_signature" !in d || d["issuer_signature"].JNull? then Ok(None)
    else if d["issuer_signature"].JStr? then Ok(Some(d["issuer_signature"].s))
    else Err(TypeError("issuer_signature is not text"))
  }

  /**
   * The metadata `from_dict` rebuilds: the six named fields are required, and
   * the stored `issued_at` is ignored in favour of the current time.
   */
  function ParseMetadata(d: Dict, now: string): (r: Result<LegacyMetadata>)
    ensures r.Ok? <==> HasText(d, "student_name") && HasText(d, "student_id") && HasText(d, "degree_type")
                       && HasText(d, "pdf_url") && HasText(d, "pdf_hash") && HasText(d, "institution")
    ensures r.Ok? ==> r.value.issuedAt == now
    ensures r.Ok? ==> && d["student_name"] == JStr(r.value.studentName) && d["student_id"] == JStr(r.value.studentId)
                      && d["degree_type"] == JStr(r.value.degreeType) && d["pdf_url"] == JStr(r.value.pdfUrl)
                      && d["pdf_hash"] == JStr(r.value.pdfHash) && d["institution"] == JStr(r.value.institution)
    // the keys are read in this order, so the first absent one is reported
    ensures "student_name" !in d ==> r == Err(KeyError("student_name"))
    ensures HasText(d, "student_name") && "student_id" !in d ==> r == Err(KeyError("student_id"))
    ensures HasText(d, "student_name") && HasText(d, "student_id") && "degree_type" !in d
            ==> r == Err(KeyError("degree_type"))
    ensures HasText(d, "student_name") && HasText(d, "student_id") && HasText(d, "degree_type") && "pdf_url" !in d
            ==> r == Err(KeyError("pdf_url"))
    ensures HasText(d, "student_name") && HasText(d, "student_id") && HasText(d, "degree_type")
            && HasText(d, "pdf_url") && "pdf_hash" !in d
            ==> r == Err(KeyError("pdf_hash"))
    ensures HasText(d, "student_name") && HasText(d, "student_id") && HasText(d, "degree_type")
            && HasText(d, "pdf_url") && HasText(d, "pdf_hash") && "institution" !in d
            ==> r == Err(KeyError("institution"))
  {
    var name, id, degree := TextAt(d, "student_name"), TextAt(d, "student_id"), TextAt(d, "degree_type");
    var url, hash, institution := TextAt(d, "pdf_url"), TextAt(d, "pdf_hash"), TextAt(d, "institution");
    if name.Err? then Err(name.error)
    else if id.Err? then Err(id.error)
    else if degree.Err? then Err(degree.error)
    else if url.Err? then Err(url.error)
    else if hash.Err? then Err(hash.error)
    else if institution.Err? then Err(institution.error)
    else Ok(NewMetadata(name.value, id.value, degree.value, url.value, hash.value, institution.value, now))
  }

  /**
   * `NFT.from_dict(data)` at time `now`, as written: metadata, keys, id and
   * mint time are all required; a missing status means invalid and revoked;
   * the metadata's issue time becomes `now`.
   */
  function ParseRecord(d: Dict, now: string): (r: Result<NftRecord>)
    ensures "metadata" !in d ==> r == Err(KeyError("metadata"))
    ensures "metadata" in d && d["metadata"].JObj? ==>
              var m := ParseMetadata(d["metadata"].fields, now);
              (m.Err? ==> r == Err(m.error)) && (m.Ok? ==> MissingAttributeOrder(d, r))
    ensures r.Ok? ==> && StoredAttributes(d, r.value)
                      && "metadata" in d && d["metadata"].JObj?
                      && r.value.metadata == ParseMetadata(d["metadata"].fields, now).value
    ensures r.Ok? ==> ("is_valid" !in d ==> !r.value.isValid) && ("revoked" !in d ==> r.value.revoked)
    ensures r.Ok? ==> r.value.metadata.issuedAt == now
    ensures r.Ok? ==> {"token_id", "minted_at", "issuer_pubkey", "recipient_address"} <= d.Keys
  {
    if "metadata" !in d then Err(KeyError("metadata"))
    else if !d["metadata"].JObj? then Err(TypeError("metadata is not a mapping"))
    else RecordFields(d, ParseMetadata(d["metadata"].fields, now))
  }

  /**
   * Once the metadata is rebuilt, `from_dict` reads `issuer_pubkey`,
   * `recipient_address`, `token_id` and `minted_at` in this order, so the
   * first absent one is the KeyError.
   */
  predicate MissingAttributeOrder(d: Dict, r: Result<NftRecord>) {
    && ("issuer_pubkey" !in d ==> r == Err(KeyError("issuer_pubkey")))
    && (HasText(d, "issuer_pubkey") && "recipient_address" !in d ==> r == Err(KeyError("recipient_address")))
    && (HasText(d, "issuer_pubkey") && HasText(d, "recipient_address") && "token_id" !in d
        ==> r == Err(KeyError("token_id")))
    && (HasText(d, "issuer_pubkey") && HasText(d, "recipient_address") && HasText(d, "token_id")
        && "minted_at" !in d
        ==> r == Err(KeyError("minted_at")))
  }

  /**
   * The attributes of `t` beside the metadata are those stored in `d`; a
   * missing or null signature is None and a missing status takes the
   * defaults of `from_dict`, invalid and revoked.
   */
  predicate StoredAttributes(d: Dict, t: NftRecord) {
    && "issuer_pubkey" in d && d["issuer_pubkey"] == JStr(t.issuerPubkey)
    && "recipient_address" in d && d["recipient_address"] == JStr(t.recipientAddress)
    && "token_id" in d && d["token_id"] == JStr(t.tokenId)
    && "minted_at" in d && d["minted_at"] == JStr(t.mintedAt)
    && (if "issuer_signature" !in d || d["issuer_signature"].JNull? then t.issuerSignature.None?
        else t.issuerSignature.Some? && d["issuer_signature"] == JStr(t.issuerSignature.value))
    && (if "is_valid" in d then d["is_valid"] == JBool(t.isValid) else !t.isValid)
    && (if "revoked" in d then d["revoked"] == JBool(t.revoked) else t.revoked)
  }

  /** The attributes `from_dict` reads beside the metadata, once the metadata is rebuilt. */
  function RecordFields(d: Dict, metadata: Result<LegacyMetadata>): (r: Result<NftRecord>)
    ensures metadata.Err? ==> r == Err(metadata.error)
    ensures metadata.Ok? ==> MissingAttributeOrder(d, r)
    ensures r.Ok? ==> StoredAttributes(d, r.value) && r.value.metadata == metadata.value
  {
    var issuer, recipient := TextAt(d, "issuer_pubkey"), TextAt(d, "recipient_address");
    var tokenId, mintedAt := TextAt(d, "token_id"), TextAt(d, "minted_at");
    var signature, isValid, revoked := SignatureAt(d), BoolAt(d, "is_valid", false), BoolAt(d, "revoked", true);
    if metadata.Err? then Err(metadata.error)
    else if issuer.Err? then Err(issuer.error)
    else if recipient.Err? then Err(recipient.error)
    else if tokenId.Err? then Err(tokenId.error)
    else if mintedAt.Err? then Err(mintedAt.error)
    else if signature.Err? then Err(signature.error)
    else if isValid.Err? then Err(isValid.error)
    else if revoked.Err? then Err(revoked.error)
    else Ok(NftRecord(tokenId.value, metadata.value, issuer.value, recipient.value, mintedAt.value,
                      signature.value, isValid.value, revoked.value))
  }

  /**
   * `from_dict(to_dict(t))` gives back every attribute of `t` except the
   * metadata's issue time, which becomes the time of reading.
   */
  lemma RecordRoundTrip(s: NftRecord, now: string)
    ensures ParseRecord(RecordToDict(s), now) == Ok(s.(metadata := s.metadata.(issuedAt := now)))
  {
    var d := RecordToDict(s);
    assert ParseMetadata(d["metadata"].fields, now) == Ok(s.metadata.(issuedAt := now));
  }

  /**
   * Reloading a token at any time other than its metadata's issue time
   * changes the data its signature was made over.
   */
  lemma ReloadChangesSignedData(s: NftRecord, now: string)
    requires s.metadata.issuedAt != now
    ensures ParseRecord(RecordToDict(s), now).Ok?
    ensures SigningData(ParseRecord(RecordToDict(s), now).value) != SigningData(s)
  {
    RecordRoundTrip(s, now);
    var t := ParseRecord(RecordToDict(s), now).value;
    assert MetadataToDict(t.metadata)["issued_at"] != MetadataToDict(s.metadata)["issued_at"];
    assert SigningData(t).fields["metadata"] != SigningData(s).fields["metadata"];
  }

  /**
   * The metadata as `from_dict` evidently means to rebuild it: the stored
   * issue time is kept, and only a missing or non-text one becomes `now`.
   */
  function RestoreMetadata(d: Dict, now: string): (r: Result<LegacyMetadata>)
    ensures r.Ok? <==> ParseMetadata(d, now).Ok?
    ensures r.Err? ==> r == ParseMetadata(d, now)
    ensures r.Ok? ==> r.value.(issuedAt := now) == ParseMetadata(d, now).value
    ensures r.Ok? && "issued_at" in d && d["issued_at"].JStr? ==> r.value.issuedAt == d["issued_at"].s
  {
    match ParseMetadata(d, now)
    case Err(e) => Err(e)
    case Ok(m) => Ok(m.(issuedAt := if "issued_at" in d && d["issued_at"].JStr? then d["issued_at"].s else now))
  }

  /** `NFT.from_dict(data)` with the stored issue time kept. */
  function RestoreRecord(d: Dict, now: string): (r: Result<NftRecord>)
    ensures "metadata" !in d ==> r == Err(KeyError("metadata"))
    ensures "metadata" in d && d["metadata"].JObj? ==>
              var m := ParseMetadata(d["metadata"].fields, now);
              (m.Err? ==> r == Err(m.error)) && (m.Ok? ==> MissingAttributeOrder(d, r))
    ensures r.Ok? ==> && StoredAttributes(d, r.value)
                      && "metadata" in d && d["metadata"].JObj?
                      && r.value.metadata == RestoreMetadata(d["metadata"].fields, now).value
    ensures r.Ok? ==> ("is_valid" !in d ==> !r.value.isValid) && ("revoked" !in d ==> r.value.revoked)
    ensures r.Ok? ==> {"token_id", "minted_at", "issuer_pubkey", "recipient_address"} <= d.Keys
  {
    if "metadata" !in d then Err(KeyError("metadata"))
    else if !d["metadata"].JObj? then Err(TypeError("metadata is not a mapping"))
    else RecordFields(d, RestoreMetadata(d["metadata"].fields, now))
  }

  /**
   * Restoring a token's dictionary gives back the token itself, so a signed
   * token still verifies after it is reloaded.
   */
  lemma RestoreRoundTrip(p: Primitives, s: NftRecord, now: string)
    ensures RestoreRecord(RecordToDict(s), now) == Ok(s)
    ensures VerifiesRecord(p, RestoreRecord(RecordToDict(s), now).value) == VerifiesRecord(p, s)
  {
    var d := RecordToDict(s);
    assert ParseMetadata(d["metadata"].fields, now) == Ok(s.metadata.(issuedAt := now));
    assert RestoreMetadata(d["metadata"].fields, now) == Ok(s.metadata);
  }

  class NFT {
    var tokenId: string
    const metadata: LegacyMetadata
    const issuerPubkey: string
    var recipientAddress: string
    var mintedAt: string
    var issuerSignature: Option<string>
    var isValid: bool
    var revoked: bool

    function Record(): NftRecord
      reads this
    {
      NftRecord(tokenId, metadata, issuerPubkey, recipientAddress, mintedAt, issuerSignature, isValid, revoked)
    }

    /** `NFT(metadata, issuer_pubkey, recipient_address)`, minted at `now`. */
    constructor(p: Primitives, metadata: LegacyMetadata, issuerPubkey: string, recipientAddress: string, now: string)
      ensures Record() == NewRecord(p, metadata, issuerPubkey, recipientAddress, now)
      ensures this.recipientAddress == recipientAddress && !revoked && isValid && tokenId == TokenIdOf(p, metadata)
    {
      tokenId := Prefix(p.sha256Hex(metadata.studentId + metadata.issuedAt), TokenIdLength);
      this.metadata := metadata;
      this.issuerPubkey := issuerPubkey;
      this.recipientAddress := recipientAddress;
      mintedAt := now;
      issuerSignature := None;
      isValid := true;
      revoked := false;
    }

    function GetSigningData(): Json
      reads this
    {
      SigningData(Record())
    }

    /** `sign_nft(issuer_private_key)` */
    method SignNft(p: Primitives, privateKey: string)
      modifies this`issuerSignature
      ensures Record() == SignedRecord(p, old(Record()), privateKey)
      ensures Sound(p) && !revoked && issuerPubkey == p.publicKey(privateKey) ==> VerifyNft(p)
    {
      issuerSignature := Some(SignData(p, Value(GetSigningData()), privateKey));
      if Sound(p) && !revoked && issuerPubkey == p.publicKey(privateKey) {
        SignThenVerifiesRecord(p, old(Record()), privateKey);
      }
    }

    /** `revoke()` */
    method Revoke()
      modifies this`revoked, this`isValid
      ensures Record() == RevokedRecord(old(Record()))
    {
      revoked := true;
      isValid := false;
    }

    /** `verify_nft()` */
    predicate VerifyNft(p: Primitives)
      reads this
    {
      VerifiesRecord(p, Record())
    }

    /** `to_dict()` */
    function ToDict(): Dict
      reads this
    {
      RecordToDict(Record())
    }

    /** `NFT.from_dict(data)` at time `now`, keeping the stored issue time. */
    static method FromDict(p: Primitives, d: Dict, now: string) returns (r: Result<NFT>)
      ensures r.Err? <==> RestoreRecord(d, now).Err?
      ensures r.Err? ==> r.error == RestoreRecord(d, now).error
      ensures r.Ok? ==> fresh(r.value) && r.value.Record() == RestoreRecord(d, now).value
    {
      var parsed := RestoreRecord(d, now);
      if parsed.Err? {
        return Err(parsed.error);
      }
      var s := parsed.value;
      var nft := new NFT(p, s.metadata, s.issuerPubkey, s.recipientAddress, now);
      nft.tokenId := s.tokenId;
      nft.mintedAt := s.mintedAt;
      nft.issuerSignature := s.issuerSignature;
      nft.isValid := s.isValid;
      nft.revoked := s.revoked;
      return Ok(nft);
    }
  }
}
