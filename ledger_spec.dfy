/**
 * The values the ledger keeps and the rules that change them, as functions:
 * the state database and authority set that the contract handlers of
 * educhain/core/model/contracts.py update, the dispatch of
 * `Blockchain.execute_transaction`, and the insertion-ordered mempool of
 * educhain/core/model/blockchain.py. The `Blockchain` class is proved
 * against these functions.
 */
module LedgerSpec {
  import opened Wrappers
  import opened Transactions
  import opened Blocks

  /** `uuid4().hex`: 32 lower-case hexadecimal digits. */
  predicate IsUuidHex(s: string) {
    |s| == 32 && forall i | 0 <= i < |s| :: s[i] in "0123456789abcdef"
  }

  type UuidHex = s: string | IsUuidHex(s) witness "00000000000000000000000000000000"

  /** `str.upper()` on one character, for the characters a hex digest contains. */
  function UpperHex(c: char): char {
    if 'a' <= c <= 'f' then (c as int - 32) as char else c
  }

  /** `f"EDU-{uuid4().hex[:6].upper()}"`: the id `mintDegree` gives a new credential. */
  function NftId(uuid: UuidHex): (id: string)
    ensures |id| == 10 && id[..4] == "EDU-"
    ensures forall i | 4 <= i < 10 :: id[i] in "0123456789ABCDEF"
  {
    "EDU-" + seq(6, i requires 0 <= i < 6 => UpperHex(uuid[i]))
  }

  /** `state_db["nfts"][id]`: `{owner, ipfs_hash, minted_by}`. */
  datatype NftEntry = NftEntry(owner: string, ipfsHash: string, mintedBy: string)

  /** `state_db["accounts"][address]`: `{nfts: [...]}`. */
  datatype Account = Account(nfts: seq<string>)

  datatype StateDb = StateDb(accounts: map<string, Account>, nfts: map<string, NftEntry>)

  const EmptyStateDb: StateDb := StateDb(map[], map[])

  /** The part of the ledger the contract handlers can change. */
  datatype World = World(authoritySet: set<string>, stateDb: StateDb)

  /** `payload.get(key)` is truthy: present and not the empty string. */
  predicate Present(payload: Payload, key: string) {
    key in payload && payload[key] != ""
  }

  /** The credentials of an address, or none for an address without an account. */
  function Holdings(db: StateDb, address: string): seq<string> {
    if address in db.accounts then db.accounts[address].nfts else []
  }

  /**
   * `NFTContract.mintDegree`: only a member of the authority set may mint, and
   * only with a non-empty recipient and IPFS hash; the new credential is
   * recorded under a fresh `EDU-` id and appended to the recipient's account.
   */
  function MintDegree(authoritySet: set<string>, db: StateDb, sender: string, payload: Payload,
                      uuid: UuidHex): (r: (bool, StateDb))
    ensures r.0 <==> sender in authoritySet && Present(payload, "recipient_address") && Present(payload, "ipfs_hash")
    ensures !r.0 ==> r.1 == db
    ensures r.0 ==>
      var id, to := NftId(uuid), payload["recipient_address"];
      && r.1.nfts.Keys == db.nfts.Keys + {id}
      && r.1.nfts[id] == NftEntry(to, payload["ipfs_hash"], sender)
      && (forall k | k in db.nfts && k != id :: r.1.nfts[k] == db.nfts[k])
      && r.1.accounts.Keys == db.accounts.Keys + {to}
      && Holdings(r.1, to) == Holdings(db, to) + [id]
      && (forall a | a in db.accounts && a != to :: r.1.accounts[a] == db.accounts[a])
  {
    if sender !in authoritySet then (false, db)
    else if !Present(payload, "recipient_address") || !Present(payload, "ipfs_hash") then (false, db)
    else
      var id, to := NftId(uuid), payload["recipient_address"];
      var account := if to in db.accounts then db.accounts[to] else Account([]);
      (true, StateDb(db.accounts[to := Account(account.nfts + [id])],
                     db.nfts[id := NftEntry(to, payload["ipfs_hash"], sender)]))
  }

  /**
   * `AuthoritySetContract.addValidator`: only the super validator may add, and
   * only a non-empty key; adding a member again succeeds and changes nothing.
   */
  function AddValidator(superValidator: string, authoritySet: set<string>, sender: string,
                        payload: Payload): (r: (bool, set<string>))
    ensures r.0 <==> sender == superValidator && Present(payload, "new_validator_pubkey")
    ensures authoritySet <= r.1
    ensures !r.0 ==> r.1 == authoritySet
    ensures r.0 ==> r.1 == authoritySet + {payload["new_validator_pubkey"]}
  {
    if sender != superValidator then (false, authoritySet)
    else if !Present(payload, "new_validator_pubkey") then (false, authoritySet)
    else
      var key := payload["new_validator_pubkey"];
      if key in authoritySet then (true, authoritySet)
      else (true, authoritySet + {key})
  }

  /** Adding the same validator twice is the same as adding it once. */
  lemma AddValidatorIdempotent(superValidator: string, authoritySet: set<string>, sender: string, payload: Payload)
    requires AddValidator(superValidator, authoritySet, sender, payload).0
    ensures var once := AddValidator(superValidator, authoritySet, sender, payload).1;
            AddValidator(superValidator, once, sender, payload) == (true, once)
  {
  }

  const MintDegreeType := "MINT_DEGREE"
  const AddValidatorType := "ADD_VALIDATOR"

  /** Whether `payload.get('type')` names one of the two handlers. */
  predicate KnownType(payload: Payload) {
    "type" in payload && (payload["type"] == MintDegreeType || payload["type"] == AddValidatorType)
  }

  /**
   * `Blockchain.execute_transaction`: dispatch on `payload['type']`; an
   * unknown or missing type fails and changes nothing. Whatever the outcome,
   * the authority set only grows, only the super validator grows it, and only
   * an authority changes the state database.
   */
  function Execute(superValidator: string, w: World, tx: Transaction, uuid: UuidHex): (r: (bool, World))
    ensures !KnownType(tx.payload) ==> r == (false, w)
    ensures w.authoritySet <= r.1.authoritySet
    ensures r.1.authoritySet != w.authoritySet ==> r.0 && tx.senderPubkey == superValidator
    ensures r.1.stateDb != w.stateDb ==> r.0 && tx.senderPubkey in w.authoritySet
  {
    if "type" in tx.payload && tx.payload["type"] == MintDegreeType then
      var (ok, db) := MintDegree(w.authoritySet, w.stateDb, tx.senderPubkey, tx.payload, uuid);
      (ok, World(w.authoritySet, db))
    else if "type" in tx.payload && tx.payload["type"] == AddValidatorType then
      var (ok, auth) := AddValidator(superValidator, w.authoritySet, tx.senderPubkey, tx.payload);
      (ok, World(auth, w.stateDb))
    else (false, w)
  }

  /**
   * The effect of `add_block`'s loop on the world: each transaction executed
   * in block order, the i-th with the i-th fresh id, outcomes discarded.
   */
  function ApplyAll(superValidator: string, w: World, txs: seq<Transaction>, entropy: nat -> UuidHex): World
    decreases |txs|
  {
    if txs == [] then w
    else Execute(superValidator, ApplyAll(superValidator, w, txs[..|txs| - 1], entropy),
                 txs[|txs| - 1], entropy(|txs| - 1)).1
  }

  /** Executing one more transaction after a prefix of a block. */
  lemma ApplyAllStep(superValidator: string, w: World, done: seq<Transaction>, tx: Transaction,
                     entropy: nat -> UuidHex)
    ensures ApplyAll(superValidator, w, done + [tx], entropy)
         == Execute(superValidator, ApplyAll(superValidator, w, done, entropy), tx, entropy(|done|)).1
  {
    assert (done + [tx])[..|done|] == done;
  }

  /** Executing a block never removes an authority. */
  lemma {:induction false} ApplyAllKeepsAuthorities(superValidator: string, w: World, txs: seq<Transaction>,
                                                   entropy: nat -> UuidHex)
    ensures w.authoritySet <= ApplyAll(superValidator, w, txs, entropy).authoritySet
    decreases |txs|
  {
    if txs != [] {
      ApplyAllKeepsAuthorities(superValidator, w, txs[..|txs| - 1], entropy);
    }
  }

  /** A block whose transactions all have unknown types changes nothing. */
  lemma {:induction false} ApplyAllUnknownTypes(superValidator: string, w: World, txs: seq<Transaction>,
                                               entropy: nat -> UuidHex)
    requires forall i | 0 <= i < |txs| :: !KnownType(txs[i].payload)
    ensures ApplyAll(superValidator, w, txs, entropy) == w
    decreases |txs|
  {
    if txs != [] {
      ApplyAllUnknownTypes(superValidator, w, txs[..|txs| - 1], entropy);
    }
  }

  // ---- the mempool: a dict from tx_hash to transaction, in insertion order ----

  /** No two pooled transactions share a key, as in a dict. */
  predicate DistinctKeys(pool: seq<Transaction>) {
    forall i, j :: 0 <= i < j < |pool| ==> pool[i].txHash != pool[j].txHash
  }

  /** `h in mempool` */
  predicate Pooled(pool: seq<Transaction>, h: string) {
    exists t | t in pool :: t.txHash == h
  }

  /** `del mempool[h]`, for a key that may be absent (`if h in mempool`). */
  function RemoveKey(pool: seq<Transaction>, h: string): (r: seq<Transaction>)
    ensures forall t | t in r :: t in pool && t.txHash != h
    ensures forall t | t in pool && t.txHash != h :: t in r
    ensures !Pooled(pool, h) ==> r == pool
  {
    if pool == [] then []
    else
      var rest := RemoveKey(pool[1..], h);
      assert forall t | t in pool :: t == pool[0] || t in pool[1..];
      if pool[0].txHash == h then rest else [pool[0]] + rest
  }

  /** After `del mempool[h]` the key is gone. */
  lemma RemoveKeyDeletes(pool: seq<Transaction>, h: string)
    ensures !Pooled(RemoveKey(pool, h), h)
  {
  }

  /** Deleting a key keeps the remaining keys distinct. */
  lemma {:induction false} RemoveKeyDistinct(pool: seq<Transaction>, h: string)
    requires DistinctKeys(pool)
    ensures DistinctKeys(RemoveKey(pool, h))
  {
    if pool != [] {
      var tail := pool[1..];
      assert DistinctKeys(tail) by {
        forall i, j | 0 <= i < j < |tail| ensures tail[i].txHash != tail[j].txHash {
          assert tail[i] == pool[i + 1] && tail[j] == pool[j + 1];
        }
      }
      RemoveKeyDistinct(tail, h);
      var rest := RemoveKey(tail, h);
      if pool[0].txHash != h {
        forall t | t in rest ensures t.txHash != pool[0].txHash {
          var m :| 0 <= m < |tail| && tail[m] == t;
          assert tail[m] == pool[m + 1];
        }
        ConsDistinct(pool[0], rest);
      }
    }
  }

  /** A transaction whose key is new keeps a pool's keys distinct when put in front. */
  lemma ConsDistinct(x: Transaction, rest: seq<Transaction>)
    requires DistinctKeys(rest)
    requires forall t | t in rest :: t.txHash != x.txHash
    ensures DistinctKeys([x] + rest)
  {
    var r := [x] + rest;
    forall i, j | 0 <= i < j < |r| ensures r[i].txHash != r[j].txHash {
      assert r[j] == rest[j - 1];
      if i > 0 {
        assert r[i] == rest[i - 1];
      } else {
        assert rest[j - 1] in rest;
      }
    }
  }

  /** The mempool after `add_block`: every included transaction's key deleted, in block order. */
  function Purge(pool: seq<Transaction>, txs: seq<Transaction>): seq<Transaction>
    decreases |txs|
  {
    if txs == [] then pool else RemoveKey(Purge(pool, txs[..|txs| - 1]), txs[|txs| - 1].txHash)
  }

  /**
   * After the purge no included transaction's key is pooled, and exactly the
   * pooled transactions with other keys remain.
   */
  lemma {:induction false} PurgeRemovesIncluded(pool: seq<Transaction>, txs: seq<Transaction>)
    ensures forall t | t in txs :: !Pooled(Purge(pool, txs), t.txHash)
    ensures forall t | t in Purge(pool, txs) :: t in pool && t.txHash !in TxHashes(txs)
    ensures forall t | t in pool && t.txHash !in TxHashes(txs) :: t in Purge(pool, txs)
    decreases |txs|
  {
    if txs != [] {
      var init, last := txs[..|txs| - 1], txs[|txs| - 1];
      var before := Purge(pool, init);
      var after := RemoveKey(before, last.txHash);
      assert Purge(pool, txs) == after;
      PurgeRemovesIncluded(pool, init);
      assert txs == init + [last];
      TxHashesAppend(init, [last]);
      assert TxHashes(txs) == TxHashes(init) + [last.txHash];
      RemoveKeyDeletes(before, last.txHash);
      forall t | t in txs ensures !Pooled(after, t.txHash) {
        if t != last {
          assert t in init;
          RemoveKeyKeepsAbsent(before, last.txHash, t.txHash);
        }
      }
    }
  }

  /** Deleting one key never brings another back. */
  lemma RemoveKeyKeepsAbsent(pool: seq<Transaction>, h: string, k: string)
    requires !Pooled(pool, k)
    ensures !Pooled(RemoveKey(pool, h), k)
  {
    forall t | t in RemoveKey(pool, h) ensures t.txHash != k {
      assert t in pool;
    }
  }

  /** Deleting one more included key after a prefix of a block. */
  lemma PurgeStep(pool: seq<Transaction>, done: seq<Transaction>, tx: Transaction)
    ensures Purge(pool, done + [tx]) == RemoveKey(Purge(pool, done), tx.txHash)
  {
    assert (done + [tx])[..|done|] == done;
  }

  /** Deleting keys keeps the remaining keys distinct. */
  lemma {:induction false} PurgeDistinct(pool: seq<Transaction>, txs: seq<Transaction>)
    requires DistinctKeys(pool)
    ensures DistinctKeys(Purge(pool, txs))
    decreases |txs|
  {
    if txs != [] {
      PurgeDistinct(pool, txs[..|txs| - 1]);
      RemoveKeyDistinct(Purge(pool, txs[..|txs| - 1]), txs[|txs| - 1].txHash);
    }
  }

  /**
   * The pooled transactions whose key is not among `hs`, in pool order: the
   * reference for what the mempool holds after deletions, since a dict keeps
   * the insertion order of the keys it retains.
   */
  function Without(pool: seq<Transaction>, hs: seq<string>): seq<Transaction> {
    if pool == [] then []
    else (if pool[0].txHash in hs then [] else [pool[0]]) + Without(pool[1..], hs)
  }

  /** `del mempool[h]` keeps the other transactions in their admission order. */
  lemma {:induction false} RemoveKeyKeepsOrder(pool: seq<Transaction>, h: string)
    ensures RemoveKey(pool, h) == Without(pool, [h])
  {
    if pool != [] {
      RemoveKeyKeepsOrder(pool[1..], h);
    }
  }

  /** Deleting one more key from a filtered pool is filtering by one more key. */
  lemma {:induction false} WithoutOneMore(pool: seq<Transaction>, hs: seq<string>, h: string)
    ensures Without(Without(pool, hs), [h]) == Without(pool, hs + [h])
  {
    if pool != [] {
      WithoutOneMore(pool[1..], hs, h);
      var x := pool[0];
      var rest := Without(pool[1..], hs);
      var more := Without(pool[1..], hs + [h]);
      assert x.txHash in hs + [h] <==> x.txHash in hs || x.txHash in [h];
      if x.txHash in hs {
        assert Without(pool, hs) == rest;
        assert Without(pool, hs + [h]) == more;
      } else {
        var w := [x] + rest;
        assert Without(pool, hs) == w;
        assert w[1..] == rest;
        assert Without(w, [h]) == (if x.txHash in [h] then [] else [x]) + Without(rest, [h]);
        assert Without(pool, hs + [h]) == (if x.txHash in [h] then [] else [x]) + more;
      }
    }
  }

  /**
   * After a block the mempool is the earlier mempool, in its own order, less
   * every transaction whose key the block includes; so the next
   * `mine_block` takes the oldest survivors.
   */
  lemma {:induction false} PurgeKeepsOrder(pool: seq<Transaction>, txs: seq<Transaction>)
    ensures Purge(pool, txs) == Without(pool, TxHashes(txs))
    decreases |txs|
  {
    if txs == [] {
      WithoutNothing(pool);
    } else {
      var init, last := txs[..|txs| - 1], txs[|txs| - 1];
      PurgeKeepsOrder(pool, init);
      RemoveKeyKeepsOrder(Purge(pool, init), last.txHash);
      WithoutOneMore(pool, TxHashes(init), last.txHash);
      assert txs == init + [last];
      TxHashesAppend(init, [last]);
      assert TxHashes(txs) == TxHashes(init) + [last.txHash];
      assert Purge(pool, txs) == RemoveKey(Purge(pool, init), last.txHash);
    }
  }

  /** Filtering by no key keeps the pool. */
  lemma {:induction false} WithoutNothing(pool: seq<Transaction>)
    ensures Without(pool, []) == pool
  {
    if pool != [] {
      WithoutNothing(pool[1..]);
      assert pool == [pool[0]] + pool[1..];
    }
  }

  /** The number of pooled transactions a block takes: `list(self.mempool.keys())[:10]`. */
  const MaxBlockTransactions: nat := 10

  /** The oldest pending transactions, in admission order, at most ten of them. */
  function Batch(pool: seq<Transaction>): (b: seq<Transaction>)
    ensures |b| == if |pool| < MaxBlockTransactions then |pool| else MaxBlockTransactions
    ensures b <= pool
  {
    if |pool| < MaxBlockTransactions then pool else pool[..MaxBlockTransactions]
  }
}
