/**
 * The ledger of educhain/core/model/blockchain.py and the two contract
 * handlers of educhain/core/model/contracts.py. The handlers take the ledger
 * itself and update its authority set and state database in place, and the
 * ledger dispatches to them, so both live in this module.
 *
 * Every state-changing method is proved against the functions of
 * `LedgerSpec`: the handlers against `MintDegree` and `AddValidator`,
 * `execute_transaction` against `Execute`, and the loop of `add_block`
 * against `ApplyAll` and `Purge`.
 */
module Ledger {
  import opened Wrappers
  import opened Crypto
  import opened Transactions
  import opened Blocks
  import opened LedgerSpec

  /** The `prev_hash` of the genesis block: 64 zero digits. */
  const GenesisPrevHash: string := seq(64, _ => '0')

  const GenesisSignature: string := "GENESIS_SIGNATURE"

  /**
   * A chain whose heights count up from 0 and whose blocks each name their
   * predecessor's hash as `prev_hash`: what `add_block` keeps.
   */
  predicate Linked(blocks: seq<Block>)
    reads blocks
  {
    && (|blocks| > 0 ==> blocks[0].index == 0)
    && forall i | 0 < i < |blocks| :: blocks[i].index == blocks[i - 1].index + 1 && blocks[i].prevHash == blocks[i - 1].hash
  }

  /** A block naming the tip's successor height and the tip's hash extends a linked chain. */
  lemma LinkedAppend(blocks: seq<Block>, block: Block)
    requires Linked(blocks) && blocks != []
    requires block.index == blocks[|blocks| - 1].index + 1 && block.prevHash == blocks[|blocks| - 1].hash
    ensures Linked(blocks + [block])
  {
    var longer := blocks + [block];
    forall i | 0 < i < |longer| ensures longer[i].index == longer[i - 1].index + 1 && longer[i].prevHash == longer[i - 1].hash {
      assert longer[i - 1] == blocks[i - 1];
    }
  }

  /** In a linked chain a block's index is its height. */
  lemma {:induction false} LinkedHeights(blocks: seq<Block>)
    requires Linked(blocks)
    ensures forall i | 0 <= i < |blocks| :: blocks[i].index == i
    decreases |blocks|
  {
    if blocks != [] {
      var init := blocks[..|blocks| - 1];
      assert Linked(init) by {
        forall i | 0 < i < |init| ensures init[i].index == init[i - 1].index + 1 && init[i].prevHash == init[i - 1].hash {
          assert init[i] == blocks[i] && init[i - 1] == blocks[i - 1];
        }
      }
      LinkedHeights(init);
      forall i | 0 <= i < |blocks| ensures blocks[i].index == i {
        if i < |init| {
          assert blocks[i] == init[i];
        } else if i > 0 {
          assert blocks[i - 1] == init[i - 1];
        }
      }
    }
  }

  class Blockchain {
    /** The hash, signature and serialisation functions the ledger uses. */
    const p: Primitives
    /** `scheduler.get_expected_validator(height)`: the producer expected at each height. */
    const scheduler: int -> string
    var chain: seq<Block>
    /** The mempool dict: pending transactions in admission order, keyed by `txHash`. */
    var mempool: seq<Transaction>
    const superValidatorPubkey: string
    var authoritySet: set<string>
    var stateDb: StateDb

    /** The part of the ledger the contract handlers change. */
    function World(): World
      reads this
    {
      LedgerSpec.World(authoritySet, stateDb)
    }

    /** The mempool is a dict, and the super validator never leaves the authority set. */
    predicate Valid()
      reads this
    {
      DistinctKeys(mempool) && superValidatorPubkey in authoritySet
    }

    /** `Blockchain(super_validator_pubkey, initial_authorities_pubkeys)`, with its scheduler attached. */
    constructor(p: Primitives, scheduler: int -> string, superValidatorPubkey: string, initialAuthorities: seq<string>)
      ensures this.p == p && this.scheduler == scheduler && this.superValidatorPubkey == superValidatorPubkey
      ensures chain == [] && mempool == []
      ensures authoritySet == (set a | a in initialAuthorities) + {superValidatorPubkey}
      ensures stateDb == EmptyStateDb
      ensures Valid()
    {
      this.p := p;
      this.scheduler := scheduler;
      chain := [];
      mempool := [];
      this.superValidatorPubkey := superValidatorPubkey;
      var authorities := set a | a in initialAuthorities;
      authoritySet := authorities + {superValidatorPubkey};
      stateDb := EmptyStateDb;
    }

    /**
     * `create_genesis_block()`: a block at height 0 on 64 zero digits, with no
     * transactions, produced by the super validator and carrying a fixed
     * placeholder signature.
     */
    method CreateGenesisBlock(now: real)
      modifies this`chain
      ensures |chain| == |old(chain)| + 1 && chain[..|old(chain)|] == old(chain)
      ensures var g := chain[|chain| - 1];
        && fresh(g) && g.index == 0 && g.prevHash == GenesisPrevHash && g.transactions == []
        && g.validatorPubkey == superValidatorPubkey && g.validatorSignature == Some(GenesisSignature)
        && g.timestamp == now && g.Sealed(p)
      ensures old(chain) == [] ==> Linked(chain) && |chain| == 1
    {
      var genesis := new Block(p, 0, GenesisPrevHash, superValidatorPubkey, Some([]), None, now);
      genesis.validatorSignature := Some(GenesisSignature);
      chain := chain + [genesis];
    }

    /** `get_last_block()` */
    function LastBlock(): Block
      requires chain != []
      reads this
    {
      chain[|chain| - 1]
    }

    /**
     * `add_transaction_to_mempool(tx)`: an invalid transaction and a key
     * already pending are refused; otherwise the transaction is pooled last.
     */
    method AddTransactionToMempool(tx: Transaction) returns (ok: bool)
      modifies this`mempool
      ensures ok <==> tx.IsValid(p) && !Pooled(old(mempool), tx.txHash)
      ensures ok ==> mempool == old(mempool) + [tx]
      ensures !ok ==> mempool == old(mempool)
      ensures DistinctKeys(old(mempool)) ==> DistinctKeys(mempool)
    {
      if !tx.IsValid(p) {
        return false;
      }
      if Pooled(mempool, tx.txHash) {
        return false;
      }
      forall t | t in mempool ensures t.txHash != tx.txHash {
      }
      mempool := mempool + [tx];
      return true;
    }

    /**
     * `execute_transaction(tx)`: dispatch on the payload's `type`, with
     * `uuid` the fresh identifier a mint draws.
     */
    method ExecuteTransaction(tx: Transaction, uuid: UuidHex) returns (ok: bool)
      modifies this`authoritySet, this`stateDb
      ensures (ok, World()) == Execute(superValidatorPubkey, old(World()), tx, uuid)
    {
      if "type" in tx.payload && tx.payload["type"] == MintDegreeType {
        ok := NFTContract.MintDegree(this, tx, uuid);
      } else if "type" in tx.payload && tx.payload["type"] == AddValidatorType {
        ok := AuthoritySetContract.AddValidator(this, tx);
      } else {
        ok := false;
      }
    }

    /**
     * `is_valid_new_block(block)`: the next height, the last block's hash as
     * `prev_hash`, the scheduled producer, a producer signature over the block
     * hash, and a digest matching the block's transactions, checked in that
     * order.
     */
    predicate IsValidNewBlock(block: Block)
      requires chain != []
      reads this, chain, block
      ensures IsValidNewBlock(block) <==>
        && block.index == LastBlock().index + 1
        && block.prevHash == LastBlock().hash
        && block.validatorPubkey == scheduler(block.index)
        && VerifySignature(p, SignedPart(block.hash), block.validatorSignature, block.validatorPubkey)
        && block.merkleRoot == MerkleRootOf(p, block.transactions)
    {
      var last := LastBlock();
      if block.index != last.index + 1 then false
      else if block.prevHash != last.hash then false
      else if block.validatorPubkey != scheduler(block.index) then false
      else if !VerifySignature(p, SignedPart(block.SigningData()), block.validatorSignature, block.validatorPubkey) then false
      else block.merkleRoot == block.CalculateMerkleRoot(p)
    }

    /**
     * `add_block(block)`: an invalid block changes nothing. A valid one is
     * appended, and then each of its transactions is executed in order,
     * whatever the handler answers, and its key is deleted from the mempool.
     */
    method AddBlock(block: Block, entropy: nat -> UuidHex) returns (ok: bool)
      requires chain != []
      modifies this`chain, this`mempool, this`authoritySet, this`stateDb
      ensures ok == old(IsValidNewBlock(block))
      ensures !ok ==> chain == old(chain) && mempool == old(mempool) && World() == old(World())
      ensures ok ==> chain == old(chain) + [block]
      ensures ok ==> World() == ApplyAll(superValidatorPubkey, old(World()), block.transactions, entropy)
      ensures ok ==> mempool == Purge(old(mempool), block.transactions)
      ensures ok && Linked(old(chain)) ==> Linked(chain)
      ensures old(Valid()) ==> Valid()
    {
      if !IsValidNewBlock(block) {
        return false;
      }
      Accept(block, entropy);
      return true;
    }

    /** The second half of `add_block`, for a block that follows the tip. */
    method Accept(block: Block, entropy: nat -> UuidHex)
      requires chain != []
      requires block.index == LastBlock().index + 1 && block.prevHash == LastBlock().hash
      modifies this`chain, this`mempool, this`authoritySet, this`stateDb
      ensures chain == old(chain) + [block]
      ensures World() == ApplyAll(superValidatorPubkey, old(World()), block.transactions, entropy)
      ensures mempool == Purge(old(mempool), block.transactions)
      ensures Linked(old(chain)) ==> Linked(chain)
      ensures old(Valid()) ==> Valid()
    {
      if Linked(chain) {
        LinkedAppend(chain, block);
      }
      chain := chain + [block];
      ExecuteAll(block.transactions, entropy);
      if DistinctKeys(old(mempool)) {
        PurgeDistinct(old(mempool), block.transactions);
      }
    }

    /**
     * The loop of `add_block`: each transaction executed in order, whatever
     * the handler answers, and its key deleted from the mempool if pending.
     */
    method ExecuteAll(txs: seq<Transaction>, entropy: nat -> UuidHex)
      modifies this`mempool, this`authoritySet, this`stateDb
      ensures World() == ApplyAll(superValidatorPubkey, old(World()), txs, entropy)
      ensures mempool == Purge(old(mempool), txs)
      ensures old(superValidatorPubkey in authoritySet) ==> superValidatorPubkey in authoritySet
    {
      var successfulTxs: seq<Transaction> := [];
      ghost var done: seq<Transaction> := [];
      var i := 0;
      while i < |txs|
        invariant 0 <= i <= |txs| && done == txs[..i]
        invariant World() == ApplyAll(superValidatorPubkey, old(World()), done, entropy)
        invariant mempool == Purge(old(mempool), done)
        invariant old(superValidatorPubkey in authoritySet) ==> superValidatorPubkey in authoritySet
      {
        var tx := txs[i];
        assert txs[..i + 1] == done + [tx];
        ApplyAllStep(superValidatorPubkey, old(World()), done, tx, entropy);
        PurgeStep(old(mempool), done, tx);
        var executed := Process(tx, entropy(i));
        if executed {
          successfulTxs := successfulTxs + [tx];
        }
        done := done + [tx];
        i := i + 1;
      }
      assert done == txs;
    }

    /** One pass of that loop: execute the transaction, then delete its key if pending. */
    method Process(tx: Transaction, uuid: UuidHex) returns (executed: bool)
      modifies this`mempool, this`authoritySet, this`stateDb
      ensures (executed, World()) == Execute(superValidatorPubkey, old(World()), tx, uuid)
      ensures mempool == RemoveKey(old(mempool), tx.txHash)
    {
      executed := ExecuteTransaction(tx, uuid);
      if Pooled(mempool, tx.txHash) {
        mempool := RemoveKey(mempool, tx.txHash);
      }
    }

    /**
     * `mine_block(validator_private_key)`: only the scheduled producer may
     * mine. It seals the ten oldest pending transactions into the next block,
     * signs it and offers it to `add_block`.
     */
    method MineBlock(privateKey: string, now: real, entropy: nat -> UuidHex) returns (r: Option<Block>)
      requires chain != []
      modifies this`chain, this`mempool, this`authoritySet, this`stateDb
      ensures p.publicKey(privateKey) != scheduler(old(LastBlock().index) + 1) ==>
        r.None? && chain == old(chain) && mempool == old(mempool) && World() == old(World())
      ensures r.None? ==> chain == old(chain) && mempool == old(mempool) && World() == old(World())
      ensures r.Some? ==>
        var b := r.value;
        && fresh(b) && chain == old(chain) + [b]
        && b.index == old(LastBlock().index) + 1 && b.prevHash == old(LastBlock().hash)
        && b.validatorPubkey == p.publicKey(privateKey) && b.transactions == Batch(old(mempool))
        && World() == ApplyAll(superValidatorPubkey, old(World()), b.transactions, entropy)
        && mempool == Purge(old(mempool), b.transactions)
      ensures Sound(p) && p.publicKey(privateKey) == scheduler(old(LastBlock().index) + 1) ==> r.Some?
      ensures Linked(old(chain)) ==> Linked(chain)
      ensures old(Valid()) ==> Valid()
    {
      var validatorPubkey := p.publicKey(privateKey);
      var last := LastBlock();
      var nextIndex := last.index + 1;
      if validatorPubkey != scheduler(nextIndex) {
        return None;
      }
      var block := Forge(privateKey, now);
      var added := AddBlock(block, entropy);
      if added {
        return Some(block);
      }
      return None;
    }

    /**
     * The block `mine_block` proposes: the oldest pending transactions at the
     * next height on top of the tip, signed by the producer; with sound
     * cryptography it passes every check of `is_valid_new_block`.
     */
    method Forge(privateKey: string, now: real) returns (block: Block)
      requires chain != []
      requires p.publicKey(privateKey) == scheduler(LastBlock().index + 1)
      ensures fresh(block)
      ensures block.index == LastBlock().index + 1 && block.prevHash == LastBlock().hash
      ensures block.validatorPubkey == p.publicKey(privateKey) && block.transactions == Batch(mempool)
      ensures Sound(p) ==> IsValidNewBlock(block)
    {
      var last := LastBlock();
      block := new Block(p, last.index + 1, last.hash, p.publicKey(privateKey), Some(Batch(mempool)), None, now);
      block.SignBlock(p, privateKey);
    }
  }

  /** `NFTContract`: the handler of `MINT_DEGREE` transactions. */
  class NFTContract {
    /**
     * `mintDegree(blockchain, tx)`: the authority check, then the payload
     * check, then the new credential is recorded and appended to the
     * recipient's account, which is created empty when missing.
     */
    static method MintDegree(bc: Blockchain, tx: Transaction, uuid: UuidHex) returns (ok: bool)
      modifies bc`stateDb
      ensures (ok, bc.stateDb) == LedgerSpec.MintDegree(bc.authoritySet, old(bc.stateDb), tx.senderPubkey, tx.payload, uuid)
    {
      var senderPubkey := tx.senderPubkey;
      if senderPubkey !in bc.authoritySet {
        return false;
      }
      var payload := tx.payload;
      if !Present(payload, "recipient_address") || !Present(payload, "ipfs_hash") {
        return false;
      }
      var recipientAddress, ipfsHash := payload["recipient_address"], payload["ipfs_hash"];
      var nftId := NftId(uuid);
      bc.stateDb := bc.stateDb.(nfts := bc.stateDb.nfts[nftId := NftEntry(recipientAddress, ipfsHash, senderPubkey)]);
      var account := if recipientAddress in bc.stateDb.accounts then bc.stateDb.accounts[recipientAddress] else Account([]);
      bc.stateDb := bc.stateDb.(accounts := bc.stateDb.accounts[recipientAddress := Account(account.nfts + [nftId])]);
      return true;
    }
  }

  /** `AuthoritySetContract`: the handler of `ADD_VALIDATOR` transactions. */
  class AuthoritySetContract {
    /**
     * `addValidator(blockchain, tx)`: only the super validator may add, only
     * a non-empty key, and a key already present is accepted unchanged.
     */
    static method AddValidator(bc: Blockchain, tx: Transaction) returns (ok: bool)
      modifies bc`authoritySet
      ensures (ok, bc.authoritySet) == LedgerSpec.AddValidator(bc.superValidatorPubkey, old(bc.authoritySet), tx.senderPubkey, tx.payload)
    {
      var senderPubkey := tx.senderPubkey;
      if senderPubkey != bc.superValidatorPubkey {
        return false;
      }
      if !Present(tx.payload, "new_validator_pubkey") {
        return false;
      }
      var newPubkey := tx.payload["new_validator_pubkey"];
      if newPubkey in bc.authoritySet {
        return true;
      }
      bc.authoritySet := bc.authoritySet + {newPubkey};
      return true;
    }
  }
}
