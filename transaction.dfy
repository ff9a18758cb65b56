/**
 * A signed state-transition request, educhain/core/model/transaction.py.
 * Every field except the signature is set once by the constructor and never
 * reassigned, so they are `const` here; `sign` is the only mutator.
 */
module Transactions {
  import opened Wrappers
  import opened Crypto

  /** The transaction payload; its values are text in this model. */
  type Payload = map<string, string>

  function PayloadJson(payload: Payload): (j: Json)
    ensures j.JObj? && j.fields.Keys == payload.Keys
  {
    JObj(map k | k in payload :: JStr(payload[k]))
  }

  /** `timestamp or time.time()`: a missing or zero timestamp is replaced by the current time. */
  function EffectiveTime(timestamp: Option<real>, now: real): real {
    if timestamp.None? || timestamp.value == 0.0 then now else timestamp.value
  }

  /**
   * `get_singing_data`: the four signed fields. Neither the signature nor the
   * hash is among them, so signing cannot change what is signed.
   */
  function SigningView(senderPubkey: string, recipientAddress: string, payload: Payload, timestamp: real): (v: Json)
    ensures v.JObj? && v.fields.Keys == {"sender_pubkey", "recipient_address", "payload", "timestamp"}
  {
    JObj(map["sender_pubkey" := JStr(senderPubkey),
             "recipient_address" := JStr(recipientAddress),
             "payload" := PayloadJson(payload),
             "timestamp" := JNum(timestamp)])
  }

  /** `calculate_hash`: SHA-256 of the sorted-key JSON of the signing view. */
  function HashOf(p: Primitives, view: Json): string {
    p.sha256Hex(p.dumps(view))
  }

  class Transaction {
    const senderPubkey: string
    const senderAddress: string
    const recipientAddress: string
    const payload: Payload
    const timestamp: real
    var signature: Option<string>
    const txHash: string

    /** `Transaction(sender_pubkey, recipient_address, payload, timestamp, signature)` */
    constructor(p: Primitives, senderPubkey: string, recipientAddress: string, payload: Payload,
                timestamp: Option<real>, signature: Option<string>, now: real)
      ensures this.senderPubkey == senderPubkey && this.recipientAddress == recipientAddress
      ensures this.payload == payload && this.signature == signature
      ensures this.timestamp == EffectiveTime(timestamp, now)
      ensures Consistent(p)
    {
      this.senderPubkey := senderPubkey;
      this.senderAddress := p.address(senderPubkey);
      this.recipientAddress := recipientAddress;
      this.payload := payload;
      this.timestamp := EffectiveTime(timestamp, now);
      this.signature := signature;
      this.txHash := HashOf(p, SigningView(senderPubkey, recipientAddress, payload, EffectiveTime(timestamp, now)));
    }

    function SigningData(): Json {
      SigningView(senderPubkey, recipientAddress, payload, timestamp)
    }

    /** What the constructor establishes: the stored hash and address are those of the stored fields. */
    predicate Consistent(p: Primitives) {
      txHash == HashOf(p, SigningData()) && senderAddress == p.address(senderPubkey)
    }

    /** `sign(private_key_hex)`: sets the signature and nothing else. */
    method Sign(p: Primitives, privateKey: string)
      modifies this`signature
      ensures signature == Some(SignData(p, Value(SigningData()), privateKey))
      ensures Sound(p) && senderPubkey == p.publicKey(privateKey) ==> IsValid(p)
    {
      signature := Some(SignData(p, Value(SigningData()), privateKey));
      if Sound(p) && senderPubkey == p.publicKey(privateKey) {
        SignThenVerify(p, Value(SigningData()), privateKey);
      }
    }

    /**
     * `is_valid()`: an empty or missing signature or public key is rejected
     * before any cryptography is consulted.
     */
    predicate IsValid(p: Primitives)
      reads this
      ensures IsValid(p) ==> signature.Some? && signature.value != "" && senderPubkey != ""
      ensures IsValid(p) ==> VerifySignature(p, Value(SigningData()), signature, senderPubkey)
    {
      && signature.Some? && signature.value != ""
      && senderPubkey != ""
      && VerifySignature(p, Value(SigningData()), signature, senderPubkey)
    }

    function ToDict(): (d: Dict)
      reads this
      ensures d.Keys == {"tx_hash", "sender_address", "sender_pubkey", "recipient_address", "payload", "timestamp", "signature"}
    {
      map["tx_hash" := JStr(txHash),
          "sender_address" := JStr(senderAddress),
          "sender_pubkey" := JStr(senderPubkey),
          "recipient_address" := JStr(recipientAddress),
          "payload" := PayloadJson(payload),
          "timestamp" := JNum(timestamp),
          "signature" := if signature.Some? then JStr(signature.value) else JNull]
    }
  }

  /** The constructor arguments `from_dict` reads out of a dictionary. */
  datatype TxArgs = TxArgs(
    senderPubkey: string,
    recipientAddress: string,
    payload: Payload,
    timestamp: Option<real>,
    signature: Option<string>)

  function ParsePayload(j: Json): Result<Payload> {
    if j.JObj? && forall k | k in j.fields :: j.fields[k].JStr? then
      Ok(map k | k in j.fields :: j.fields[k].s)
    else Err(TypeError("payload is not an object of text values"))
  }

  /**
   * The reading half of `from_dict`: `data[...]` raises KeyError for a missing
   * sender, recipient or payload; `data.get(...)` gives None for a missing or
   * null timestamp or signature.
   */
  function ParseDict(d: Dict): (r: Result<TxArgs>)
    ensures r.Ok? ==> {"sender_pubkey", "recipient_address", "payload"} <= d.Keys
    ensures "sender_pubkey" !in d ==> r == Err(KeyError("sender_pubkey"))
    ensures "sender_pubkey" in d && "recipient_address" !in d ==> r == Err(KeyError("recipient_address"))
    ensures "sender_pubkey" in d && "recipient_address" in d && "payload" !in d ==> r == Err(KeyError("payload"))
    ensures r.Ok? ==> d["sender_pubkey"] == JStr(r.value.senderPubkey) && d["recipient_address"] == JStr(r.value.recipientAddress)
    ensures r.Ok? ==> (r.value.timestamp.None? <==> "timestamp" !in d || d["timestamp"].JNull?)
    ensures r.Ok? ==> (r.value.signature.None? <==> "signature" !in d || d["signature"].JNull?)
    ensures r.Ok? ==> ParsePayload(d["payload"]) == Ok(r.value.payload)
    ensures r.Ok? && "timestamp" in d && d["timestamp"].JNum? ==> r.value.timestamp == Some(d["timestamp"].n)
    ensures r.Ok? && "signature" in d && d["signature"].JStr? ==> r.value.signature == Some(d["signature"].s)
  {
    if "sender_pubkey" !in d then Err(KeyError("sender_pubkey"))
    else if "recipient_address" !in d then Err(KeyError("recipient_address"))
    else if "payload" !in d then Err(KeyError("payload"))
    else if !d["sender_pubkey"].JStr? || !d["recipient_address"].JStr? then Err(TypeError("text expected"))
    else if "timestamp" in d && !(d["timestamp"].JNum? || d["timestamp"].JNull?) then Err(TypeError("timestamp is not a number"))
    else if "signature" in d && !(d["signature"].JStr? || d["signature"].JNull?) then Err(TypeError("signature is not text"))
    else
      match ParsePayload(d["payload"])
      case Err(e) => Err(e)
      case Ok(payload) =>
        Ok(TxArgs(d["sender_pubkey"].s, d["recipient_address"].s, payload,
                  if "timestamp" in d && d["timestamp"].JNum? then Some(d["timestamp"].n) else None,
                  if "signature" in d && d["signature"].JStr? then Some(d["signature"].s) else None))
  }

  lemma PayloadRoundTrip(payload: Payload)
    ensures ParsePayload(PayloadJson(payload)) == Ok(payload)
  {
    var j := PayloadJson(payload);
    assert forall k | k in j.fields :: j.fields[k] == JStr(payload[k]);
    var back := map k | k in j.fields :: j.fields[k].s;
    assert back.Keys == payload.Keys;
    assert forall k | k in back :: back[k] == payload[k];
    assert back == payload;
    assert forall k | k in j.fields :: j.fields[k].JStr?;
    assert ParsePayload(j) == Ok(back);
  }

  /** The hash a transaction rebuilt from `args` at time `now` receives. */
  function RebuiltHash(p: Primitives, args: TxArgs, now: real): string {
    HashOf(p, SigningView(args.senderPubkey, args.recipientAddress, args.payload, EffectiveTime(args.timestamp, now)))
  }

  /** `Transaction.from_dict(data)` */
  method FromDict(p: Primitives, d: Dict, now: real) returns (r: Result<Transaction>)
    ensures r.Err? <==> ParseDict(d).Err?
    ensures r.Err? ==> r == Err(ParseDict(d).error)
    ensures r.Ok? ==> var a := ParseDict(d).value;
      && fresh(r.value) && r.value.Consistent(p)
      && r.value.senderPubkey == a.senderPubkey && r.value.recipientAddress == a.recipientAddress
      && r.value.payload == a.payload && r.value.signature == a.signature
      && r.value.timestamp == EffectiveTime(a.timestamp, now)
      && r.value.txHash == RebuiltHash(p, a, now)
  {
    match ParseDict(d)
    case Err(e) => r := Err(e);
    case Ok(a) =>
      var tx := new Transaction(p, a.senderPubkey, a.recipientAddress, a.payload, a.timestamp, a.signature, now);
      r := Ok(tx);
  }

  /**
   * `from_dict(to_dict(tx))` reproduces the hash and the signature of `tx`
   * when its timestamp is non-zero; a zero timestamp is falsy and is replaced
   * by the current time.
   */
  lemma DictRoundTrip(p: Primitives, tx: Transaction, now: real)
    requires tx.Consistent(p)
    ensures ParseDict(tx.ToDict()).Ok?
    ensures ParseDict(tx.ToDict()).value ==
              TxArgs(tx.senderPubkey, tx.recipientAddress, tx.payload, Some(tx.timestamp), tx.signature)
    ensures tx.timestamp != 0.0 ==> RebuiltHash(p, ParseDict(tx.ToDict()).value, now) == tx.txHash
    ensures tx.timestamp == 0.0 ==> EffectiveTime(ParseDict(tx.ToDict()).value.timestamp, now) == now
  {
    var d := tx.ToDict();
    PayloadRoundTrip(tx.payload);
  }
}
