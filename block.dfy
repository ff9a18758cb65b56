/**
 * A block, educhain/core/model/block.py: a batch of transactions linked to
 * its predecessor by `prev_hash`, with a flat digest of the transaction
 * hashes (`merkle_root`), a header hash and the producer's signature. Python
 * attributes can be reassigned by anyone, and the ledger re-derives the
 * digest to detect exactly that, so every attribute is a `var` here.
 */
module Blocks {
  import opened Wrappers
  import opened Crypto
  import opened Sorting
  import opened Transactions

  /** `[tx.tx_hash for tx in transactions]` */
  function TxHashes(txs: seq<Transaction>): (hs: seq<string>)
    ensures |hs| == |txs|
    ensures forall i :: 0 <= i < |txs| ==> hs[i] == txs[i].txHash
  {
    seq(|txs|, i requires 0 <= i < |txs| => txs[i].txHash)
  }

  /** `"".join(strings)` */
  function Concat(strings: seq<string>): string {
    if strings == [] then "" else strings[0] + Concat(strings[1..])
  }

  /**
   * `calculate_merkle_root` on the list of transaction hashes: SHA-256 of the
   * empty string for an empty block, otherwise SHA-256 of the sorted hashes
   * joined together. It is a flat digest, not a tree.
   */
  function MerkleRoot(p: Primitives, hashes: seq<string>): string {
    if hashes == [] then p.sha256Hex("") else p.sha256Hex(Concat(Sort(hashes)))
  }

  function MerkleRootOf(p: Primitives, txs: seq<Transaction>): string {
    MerkleRoot(p, TxHashes(txs))
  }

  /** The header `calculate_hash` serialises: the five fields and nothing else. */
  function Header(index: int, timestamp: real, prevHash: string, validatorPubkey: string, merkleRoot: string): (h: Json)
    ensures h.JObj? && h.fields.Keys == {"index", "timestamp", "prev_hash", "validator_pubkey", "merkle_root"}
  {
    JObj(map["index" := JNum(index as real),
             "timestamp" := JNum(timestamp),
             "prev_hash" := JStr(prevHash),
             "validator_pubkey" := JStr(validatorPubkey),
             "merkle_root" := JStr(merkleRoot)])
  }

  function HeaderHash(p: Primitives, index: int, timestamp: real, prevHash: string, validatorPubkey: string,
                      merkleRoot: string): string
  {
    p.sha256Hex(p.dumps(Header(index, timestamp, prevHash, validatorPubkey, merkleRoot)))
  }

  /** What `sign_block` signs and `is_valid_new_block` verifies: the header hash, as a JSON string. */
  function SignedPart(hash: string): Data {
    Value(JStr(hash))
  }

  class Block {
    var index: int
    var prevHash: string
    var timestamp: real
    var transactions: seq<Transaction>
    var validatorPubkey: string
    var validatorSignature: Option<string>
    var merkleRoot: string
    var hash: string

    /** `Block(index, prev_hash, validator_pubkey, transactions, timestamp)` */
    constructor(p: Primitives, index: int, prevHash: string, validatorPubkey: string,
                transactions: Option<seq<Transaction>>, timestamp: Option<real>, now: real)
      ensures this.index == index && this.prevHash == prevHash && this.validatorPubkey == validatorPubkey
      ensures this.transactions == (if transactions.None? then [] else transactions.value)
      ensures this.timestamp == EffectiveTime(timestamp, now)
      ensures validatorSignature.None?
      ensures Sealed(p)
    {
      this.index := index;
      this.prevHash := prevHash;
      this.timestamp := EffectiveTime(timestamp, now);
      var txs := if transactions.None? then [] else transactions.value;
      this.transactions := txs;
      this.validatorPubkey := validatorPubkey;
      this.validatorSignature := None;
      var root := MerkleRootOf(p, txs);
      this.merkleRoot := root;
      this.hash := HeaderHash(p, index, EffectiveTime(timestamp, now), prevHash, validatorPubkey, root);
    }

    function CalculateMerkleRoot(p: Primitives): string
      reads this
    {
      MerkleRootOf(p, transactions)
    }

    function CalculateHash(p: Primitives): string
      reads this
    {
      HeaderHash(p, index, timestamp, prevHash, validatorPubkey, merkleRoot)
    }

    /** The stored digests are those of the stored fields, as the constructor leaves them. */
    predicate Sealed(p: Primitives)
      reads this
    {
      merkleRoot == CalculateMerkleRoot(p) && hash == CalculateHash(p)
    }

    /** `get_signing_data`: the block hash itself. */
    function SigningData(): string
      reads this
    {
      hash
    }

    /** `sign_block(validator_private_key)`: sets the signature only. */
    method SignBlock(p: Primitives, privateKey: string)
      modifies this`validatorSignature
      ensures validatorSignature == Some(SignData(p, SignedPart(hash), privateKey))
      ensures Sound(p) && validatorPubkey == p.publicKey(privateKey) ==>
                VerifySignature(p, SignedPart(hash), validatorSignature, validatorPubkey)
    {
      validatorSignature := Some(SignData(p, SignedPart(SigningData()), privateKey));
      if Sound(p) && validatorPubkey == p.publicKey(privateKey) {
        SignThenVerify(p, SignedPart(hash), privateKey);
      }
    }

    /** `to_dict()`: the stored header, digests and signature, with each transaction's dictionary. */
    function ToDict(): (d: Dict)
      reads this, transactions
      ensures d.Keys == {"index", "timestamp", "transactions", "prev_hash", "validator_pubkey",
                         "merkle_root", "hash", "validator_signature"}
      ensures d["index"] == JNum(index as real) && d["timestamp"] == JNum(timestamp)
      ensures d["prev_hash"] == JStr(prevHash) && d["validator_pubkey"] == JStr(validatorPubkey)
      ensures d["hash"] == JStr(hash) && d["merkle_root"] == JStr(merkleRoot)
      ensures d["validator_signature"] == (if validatorSignature.None? then JNull else JStr(validatorSignature.value))
      ensures d["transactions"].JList? && |d["transactions"].items| == |transactions|
      ensures forall i | 0 <= i < |transactions| :: d["transactions"].items[i] == JObj(transactions[i].ToDict())
    {
      var txs := transactions;
      map["index" := JNum(index as real),
          "timestamp" := JNum(timestamp),
          "transactions" := JList(seq(|txs|, i reads txs requires 0 <= i < |txs| => JObj(txs[i].ToDict()))),
          "prev_hash" := JStr(prevHash),
          "validator_pubkey" := JStr(validatorPubkey),
          "merkle_root" := JStr(merkleRoot),
          "hash" := JStr(hash),
          "validator_signature" := if validatorSignature.None? then JNull else JStr(validatorSignature.value)]
    }
  }

  lemma TxHashesAppend(u: seq<Transaction>, v: seq<Transaction>)
    ensures TxHashes(u + v) == TxHashes(u) + TxHashes(v)
  {
  }

  /** A permutation of the transactions is a permutation of their hashes. */
  lemma {:induction false} HashesOfPermutation(a: seq<Transaction>, b: seq<Transaction>)
    requires multiset(a) == multiset(b)
    ensures multiset(TxHashes(a)) == multiset(TxHashes(b))
    decreases |a|
  {
    if a == [] {
      assert |b| == |multiset(b)| == 0;
    } else {
      var x := a[0];
      assert x in multiset(b);
      var k :| 0 <= k < |b| && b[k] == x;
      var rest := b[..k] + b[k + 1..];
      RemoveAt(b, k);
      HashesFirst(a);
      HashesOfPermutation(a[1..], rest);
      HashesRemoveAt(b, k);
    }
  }

  /** A non-empty sequence is its head and its tail, in its multiset and in its hashes'. */
  lemma HashesFirst(a: seq<Transaction>)
    requires a != []
    ensures multiset(a[1..]) == multiset(a) - multiset{a[0]}
    ensures multiset(TxHashes(a)) == multiset(TxHashes(a[1..])) + multiset{a[0].txHash}
  {
    assert a == [a[0]] + a[1..];
    TxHashesAppend([a[0]], a[1..]);
    assert TxHashes([a[0]]) == [a[0].txHash];
  }

  /** Taking the element at `k` out of a sequence takes one copy of it out of its multiset. */
  lemma RemoveAt(b: seq<Transaction>, k: int)
    requires 0 <= k < |b|
    ensures multiset(b[..k] + b[k + 1..]) == multiset(b) - multiset{b[k]}
  {
    assert b == b[..k] + [b[k]] + b[k + 1..];
  }

  /** The hashes of a sequence are those of the sequence without its `k`-th element, and that one's. */
  lemma HashesRemoveAt(b: seq<Transaction>, k: int)
    requires 0 <= k < |b|
    ensures multiset(TxHashes(b)) == multiset(TxHashes(b[..k] + b[k + 1..])) + multiset{b[k].txHash}
  {
    assert b == b[..k] + [b[k]] + b[k + 1..];
    TxHashesAppend(b[..k], [b[k]]);
    TxHashesAppend(b[..k] + [b[k]], b[k + 1..]);
    TxHashesAppend(b[..k], b[k + 1..]);
  }

  /** The digest does not depend on the order of the block's transactions. */
  lemma MerkleRootOrderInvariant(p: Primitives, a: seq<Transaction>, b: seq<Transaction>)
    requires multiset(a) == multiset(b)
    ensures MerkleRootOf(p, a) == MerkleRootOf(p, b)
  {
    HashesOfPermutation(a, b);
    SortPermutationInvariant(TxHashes(a), TxHashes(b));
    assert TxHashes(a) == [] <==> TxHashes(b) == [] by {
      assert |TxHashes(a)| == |multiset(TxHashes(a))| == |multiset(TxHashes(b))| == |TxHashes(b)|;
    }
  }

  /** An empty block's digest is the hash of the empty string. */
  lemma EmptyMerkleRoot(p: Primitives)
    ensures MerkleRootOf(p, []) == p.sha256Hex("")
  {
  }
}
