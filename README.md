# EduChain core in Dafny

EduChain is a proof-of-authority blockchain for academic credentials. A
super validator (the ministry) and a set of authority validators (schools)
sign transactions. Those transactions mint degree NFTs into a state
database or admit new validators. The chain is produced in turn by the
validator a scheduler names for each height. This project models that core
and proves properties of the model:

- **the ledger** (`educhain/core/model/blockchain.py`): the chain, the
  mempool keyed by transaction hash, block validation, mining and block
  application (`ledger.dfy`). A value-level specification of execution and
  mempool purging sits beside it (`ledger_spec.dfy`).
- **the two contracts** (`educhain/core/model/contracts.py`): `mintDegree`
  and `addValidator`, as pure functions on the state (`ledger_spec.dfy`),
  with the static methods that apply them to a `Blockchain` (`ledger.dfy`).
- **transactions and blocks** (`transaction.py`, `block.py`): hashing,
  signing, validity, dictionary forms. The Merkle root is order-independent
  because it hashes the sorted transaction hashes (`transaction.dfy`,
  `block.dfy`, `sorting.dfy`).
- **credential tokens** (`NFT.py`, `NFTmetadata.py`): the canonical signing
  bytes, signing, revocation, verification and the dictionary round trip
  (`metadata.dfy`, `token.dfy`).
- **the NFT registry contract** (`NFTSmartContract.py`): its token class
  (`registry_token.dfy`) and the registry itself (`registry.dfy`). The
  registry's bookkeeping is specified on values (`RegistryView`). The
  class's methods are proved to follow that specification and to keep
  every token object in step with it.

## The ledger invariant

`Ledger.Blockchain.Valid` is what a caller may rely on between calls:
- the mempool's hashes are distinct, as the keys of the Python dict are, so
  each pooled transaction is found under exactly one hash;
- the super validator is always in the authority set, so `addValidator`
  transactions from it are always authorised.

The constructor establishes it. AddTransactionToMempool, AddBlock and
MineBlock keep it. CreateGenesisBlock changes only the chain.

## Cryptography and the environment

Cryptography is a parameter. `Crypto.Primitives` bundles SHA-256, JSON
serialisation, ECDSA sign/verify, key derivation, address derivation and
base64. The predicate `Crypto.Sound` states the facts the model relies on:
- a signature verifies under the signer's public key;
- signatures and public keys are non-empty;
- base64 decoding inverts encoding.

Every property that needs these facts takes `Sound(p)` as a hypothesis.

The wall clock (`time.time()`, `datetime.utcnow()`) and `uuid4()` are
parameters too. The clock is `now`; the entropy for the ids minted while a
block is applied is `entropy: nat -> UuidHex`. The validator scheduler that
`run.py` attaches is a function `scheduler: int -> string` from height to
the expected validator key. It is fixed when the `Blockchain` is built.

## Corrected registry

`NFTSmartContract.py` has five defects (see "## Findings"). Four are in
the contract class. For each of these, the model states the code as written
(`MintAsWritten`, `TransferAsWritten`, `RevokeAsWritten`) and exhibits the
defect on a concrete registry. The class `Registry.NFTSmartContract`
implements the corrected behaviour:
- mint refuses an id already registered;
- transfer refuses a revoked token and hands the token itself to the
  receiver;
- revoke lists a token once.

The fifth is in the token class's `from_dict` (`NFTSmartContract.py:83-99`).
It rebuilds the metadata with the current time as issue time, so a reloaded
token's signed data changes. `RegistryTokens.ReloadChangesSignedData` shows
this. The corrected reload `RegistryTokens.RestoreRecord` keeps the stored
issue time, and `RegistryTokens.RestoreRoundTrip` proves that it gives the
token back. `RegistryTokens.NFT.FromDict` uses the corrected reload.

## Model

| member | source | states |
|---|---|---|
| Crypto.SignThenVerify | educhain/core/utils/crypto_utils.py:44-68 | with sound primitives, data signed with a private key verifies under that key's public key |
| Metadata.New | educhain/core/model/NFTmetadata.py:6-13 | the five given fields are kept; an absent or empty issue time becomes the current time, so the issue time is never empty when the clock is not |
| Metadata.ToDict | educhain/core/model/NFTmetadata.py:15-23 | exactly the six field names, each as text |
| Metadata.FromDict | educhain/core/model/NFTmetadata.py:25-27 | an unknown key or a missing required key is refused with TypeError, as the keyword call refuses it; otherwise the required fields are taken over unchanged, a non-empty issue time too, and a missing, null or empty one becomes the current time (values are read as text only; see "## Left out") |
| Metadata.RoundTrip | educhain/core/model/NFTmetadata.py:15-27 | reading back the dictionary of metadata with an issue time gives the same metadata |
| Transactions.SigningView | educhain/core/model/transaction.py:16-22 | the signed view has exactly the four keys sender, recipient, payload and timestamp; neither signature nor hash is signed |
| Transactions.Transaction.constructor | educhain/core/model/transaction.py:7-14 | fields as given; a missing or zero timestamp becomes the current time; the hash is the hash of the signing view |
| Transactions.Transaction.Sign | educhain/core/model/transaction.py:29-31 | the signature is the signing of the signing view; with sound primitives and the sender's own key the transaction is then valid |
| Transactions.Transaction.IsValid | educhain/core/model/transaction.py:33-38 | valid only with a non-empty signature and sender key and a signature that verifies against the signing view |
| Transactions.Transaction.ToDict | educhain/core/model/transaction.py:40-49 | exactly the seven keys of the dictionary form |
| Transactions.ParseDict | educhain/core/model/transaction.py:51-59 | KeyError names the first missing key among sender, recipient and payload, in that order; on success the sender, recipient and payload are read back, a numeric timestamp and a text signature are taken over as stored, and timestamp and signature are None exactly when absent or null |
| Transactions.PayloadRoundTrip | educhain/core/model/transaction.py:40-59 | a payload survives the trip through its dictionary form |
| Transactions.FromDict | educhain/core/model/transaction.py:51-59 | fails exactly when reading fails, with the same error; otherwise builds a fresh transaction from the read fields, whose hash is recomputed |
| Transactions.DictRoundTrip | educhain/core/model/transaction.py:40-59 | reading back a transaction's dictionary gives its fields; the rebuilt hash equals the original when the timestamp is non-zero, and a zero timestamp is replaced by the current time |
| Blocks.Block.constructor | educhain/core/model/block.py:8-16 | fields as given, no transactions when none are given, no signature, timestamp defaulted to now; merkle root and hash agree with the contents |
| Blocks.Block.SignBlock | educhain/core/model/block.py:40-42 | the signature is the signing of the block hash; with sound primitives and the block's own validator key it verifies |
| Blocks.Block.ToDict | educhain/core/model/block.py:45-55 | the eight keys holding the stored index, timestamp, previous hash, validator key, merkle root, hash and signature (null when unsigned), and each transaction's own dictionary in block order |
| Blocks.HashesOfPermutation | educhain/core/model/block.py:21 | permuting the transactions permutes their hashes |
| Blocks.MerkleRootOrderInvariant | educhain/core/model/block.py:18-23 | the merkle root depends only on the multiset of transactions, not their order |
| Blocks.EmptyMerkleRoot | educhain/core/model/block.py:19-20 | a block without transactions has the SHA-256 of the empty string as merkle root |
| Sorting.LessEqTotal | educhain/core/model/block.py:22 | any two strings are comparable in the order `sorted` uses |
| Sorting.LessEqAntisymmetric | educhain/core/model/block.py:22 | strings ordered both ways are equal |
| Sorting.LessEqTransitive | educhain/core/model/block.py:22 | the order is transitive |
| Sorting.Insert | educhain/core/model/block.py:22 | inserting adds the element to the multiset and keeps a sorted sequence sorted |
| Sorting.Sort | educhain/core/model/block.py:22 | `sorted` returns a sorted permutation of its input |
| Sorting.SortedUnique | educhain/core/model/block.py:22 | two sorted sequences with the same elements are equal |
| Sorting.SortPermutationInvariant | educhain/core/model/block.py:22 | sorting gives the same result for any order of the same elements |
| LedgerSpec.NftId | educhain/core/model/contracts.py:21 | a minted id is "EDU-" followed by six upper-case hexadecimal digits |
| LedgerSpec.MintDegree | educhain/core/model/contracts.py:7-30 | succeeds exactly when the sender is an authority and the payload has a non-empty recipient and IPFS hash; then records the NFT under the new id, appends the id to the recipient's holdings and changes nothing else; on failure the state is unchanged |
| LedgerSpec.AddValidator | educhain/core/model/contracts.py:35-49 | succeeds exactly when the super validator sends a non-empty new key; then the key is added (a key already present is accepted without change); authorities never shrink |
| LedgerSpec.AddValidatorIdempotent | educhain/core/model/contracts.py:44-46 | adding the same validator a second time changes nothing and still succeeds |
| LedgerSpec.Execute | educhain/core/model/blockchain.py:33-40 | an unknown payload type fails and changes nothing; authorities only grow, and only by a successful transaction of the super validator; the state database changes only by a successful transaction of an authority |
| LedgerSpec.ApplyAllKeepsAuthorities | educhain/core/model/blockchain.py:73-83 | applying a block's transactions never removes an authority |
| LedgerSpec.ApplyAllUnknownTypes | educhain/core/model/blockchain.py:78-80 | a block of transactions of unknown type leaves the state as it was |
| LedgerSpec.RemoveKey | educhain/core/model/blockchain.py:81-82 | deleting a hash keeps every other pooled transaction and nothing else, and is a no-op when the hash is not pooled |
| LedgerSpec.RemoveKeyDeletes | educhain/core/model/blockchain.py:81-82 | after deletion the hash is no longer pooled |
| LedgerSpec.RemoveKeyDistinct | educhain/core/model/blockchain.py:81-82 | deletion keeps the pool's hashes distinct |
| LedgerSpec.RemoveKeyKeepsOrder | educhain/core/model/blockchain.py:81-82 | deleting a hash leaves the other pooled transactions in their admission order |
| LedgerSpec.PurgeKeepsOrder | educhain/core/model/blockchain.py:78-82 | after a block the pool is the earlier pool, in its own order, less every transaction whose hash the block includes, so the next batch takes the oldest survivors |
| LedgerSpec.PurgeRemovesIncluded | educhain/core/model/blockchain.py:78-82 | after a block, none of its transactions is pooled, and the pool holds exactly the earlier pooled transactions whose hash is not in the block |
| LedgerSpec.PurgeDistinct | educhain/core/model/blockchain.py:78-82 | purging keeps the pool's hashes distinct |
| LedgerSpec.Batch | educhain/core/model/blockchain.py:65-66 | a block takes the first ten pooled transactions, or all of them when there are fewer |
| Ledger.LinkedAppend | educhain/core/model/blockchain.py:42-47 | appending a block that extends the last block's index and hash keeps the chain linked |
| Ledger.LinkedHeights | educhain/core/model/blockchain.py:42-45 | in a linked chain every block's index is its position |
| Ledger.Blockchain.constructor | educhain/core/model/blockchain.py:9-15 | empty chain and mempool, empty state database, authorities are the initial ones plus the super validator |
| Ledger.Blockchain.CreateGenesisBlock | educhain/core/model/blockchain.py:17-20 | appends a block of index 0 with the all-zero previous hash, no transactions, the super validator as producer and the fixed genesis signature; an empty chain becomes linked |
| Ledger.Blockchain.AddTransactionToMempool | educhain/core/model/blockchain.py:25-31 | accepts exactly a valid transaction whose hash is not pooled, appends it, and otherwise leaves the pool unchanged; pooled hashes stay distinct |
| Ledger.Blockchain.ExecuteTransaction | educhain/core/model/blockchain.py:33-40 | the result and the new state are those of the execution specification |
| Ledger.Blockchain.IsValidNewBlock | educhain/core/model/blockchain.py:42-56 | a block is valid exactly when it extends the last block's index and hash, is produced by the scheduled validator, carries that validator's signature of its hash and has the right merkle root |
| Ledger.Blockchain.AddBlock | educhain/core/model/blockchain.py:73-83 | an invalid block changes nothing; a valid block is appended, its transactions are applied as the specification says and removed from the pool; linkage and the ledger invariant are kept |
| Ledger.Blockchain.Accept | educhain/core/model/blockchain.py:76-82 | appends the block, applies its transactions and purges them from the pool |
| Ledger.Blockchain.ExecuteAll | educhain/core/model/blockchain.py:78-82 | the loop leaves the state that applying all transactions in order gives, and the pool purged of them |
| Ledger.Blockchain.Process | educhain/core/model/blockchain.py:79-82 | one iteration executes the transaction and deletes its hash from the pool |
| Ledger.Blockchain.MineBlock | educhain/core/model/blockchain.py:58-71 | a key that is not scheduled gets nothing and changes nothing; a mined block extends the chain with the first ten pooled transactions, which are applied and purged; with sound primitives the scheduled key always mines; linkage and the ledger invariant are kept |
| Ledger.Blockchain.Forge | educhain/core/model/blockchain.py:59-68 | the new block extends the last one with the batch and, with sound primitives, is a valid new block |
| Ledger.NFTContract.MintDegree | educhain/core/model/contracts.py:7-30 | the result and the new state database are those of the mint specification |
| Ledger.AuthoritySetContract.AddValidator | educhain/core/model/contracts.py:35-49 | the result and the new authority set are those of the add-validator specification |
| Tokens.NewState | educhain/core/model/NFT.py:11-23 | the token id is the SHA-256 of student id, issue time and recipient; unsigned, valid and not revoked |
| Tokens.SigningObject | educhain/core/model/NFT.py:25-37 | the signed object has exactly the five identity keys |
| Tokens.SigningBytesOfIdentity | educhain/core/model/NFT.py:25-37 | the signing bytes depend only on the identity fields, not on signature or status |
| Tokens.Signed | educhain/core/model/NFT.py:39-52 | signing keeps identity and status and sets a signature, non-empty with sound primitives |
| Tokens.Revoked | educhain/core/model/NFT.py:54-57 | revoking keeps identity and signature and marks the token revoked and invalid |
| Tokens.Verifies | educhain/core/model/NFT.py:59-78 | a verifying token is unrevoked, signed with a non-empty signature that verifies over its signing bytes |
| Tokens.SignThenVerifies | educhain/core/model/NFT.py:39-78 | with sound primitives an unrevoked token signed with its issuer's key verifies |
| Tokens.RevokeIdempotent | educhain/core/model/NFT.py:54-57 | revoking twice is revoking once |
| Tokens.RevokedNeverVerifies | educhain/core/model/NFT.py:59-62 | a revoked token never verifies, whether re-signed or revoked again |
| Tokens.StateToDict | educhain/core/model/NFT.py:80-90 | the eight keys of the dictionary form |
| Tokens.ParseDict | educhain/core/model/NFT.py:92-102 | a missing metadata, issuer or recipient raises KeyError, in that order; a stored token id or mint time is taken over; missing status flags default to valid and not revoked; a missing token id is recomputed |
| Tokens.DictRoundTrip | educhain/core/model/NFT.py:80-102 | reading back a token's dictionary gives the same token, and verification agrees |
| Tokens.NFT.constructor | educhain/core/model/NFT.py:11-23 | the new object holds the freshly minted state |
| Tokens.NFT.Sign | educhain/core/model/NFT.py:39-52 | the new state is the signed state; with sound primitives an unrevoked token signed with the issuer's key then verifies |
| Tokens.NFT.Revoke | educhain/core/model/NFT.py:54-57 | the new state is the revoked state |
| Tokens.NFT.FromDict | educhain/core/model/NFT.py:92-102 | fails exactly when reading fails, with the same error; otherwise a fresh token holding the read state |
| RegistryTokens.NewMetadata | educhain/core/model/NFTSmartContract.py:10-19 | the six given fields are kept and the issue time is the current time |
| RegistryTokens.MetadataToDict | educhain/core/model/NFTSmartContract.py:21-30 | exactly the seven field names, each as text |
| RegistryTokens.TokenIdOf | educhain/core/model/NFTSmartContract.py:35-36 | the token id is the first sixteen characters of the SHA-256 of student id and issue time |
| RegistryTokens.NewRecord | educhain/core/model/NFTSmartContract.py:34-43 | a new token has that id, the given issuer and recipient, the current mint time, no signature, and is valid and unrevoked |
| RegistryTokens.SigningData | educhain/core/model/NFTSmartContract.py:45-52 | the signed data has exactly the five identity keys |
| RegistryTokens.SignedRecord | educhain/core/model/NFTSmartContract.py:53-56 | signing keeps the signed data and status and sets a signature |
| RegistryTokens.RevokedRecord | educhain/core/model/NFTSmartContract.py:58-61 | revoking keeps identity and signature and marks the token revoked and invalid |
| RegistryTokens.VerifiesRecord | educhain/core/model/NFTSmartContract.py:63-68 | a verifying token is unrevoked and carries a non-empty signature that verifies over its signing data |
| RegistryTokens.SignThenVerifiesRecord | educhain/core/model/NFTSmartContract.py:53-68 | with sound primitives an unrevoked token signed with its issuer's key verifies |
| RegistryTokens.MintedRecordVerifies | educhain/core/model/NFTSmartContract.py:116-117 | with sound primitives a freshly minted and signed token verifies |
| RegistryTokens.RevokedRecordNeverVerifies | educhain/core/model/NFTSmartContract.py:63-66 | a revoked token never verifies, whether re-signed or revoked again |
| RegistryTokens.RecordToDict | educhain/core/model/NFTSmartContract.py:71-81 | the eight keys of the dictionary form |
| RegistryTokens.ParseMetadata | educhain/core/model/NFTSmartContract.py:84-92 | succeeds exactly when the six named fields are present as text, and then keeps their stored values; the first absent field, in the order student_name, student_id, degree_type, pdf_url, pdf_hash, institution, is the KeyError; rebuilt metadata gets the current time as issue time |
| RegistryTokens.ParseRecord | educhain/core/model/NFTSmartContract.py:83-99 | a missing metadata raises KeyError, and a metadata error is passed on; then the first absent key, in the order issuer_pubkey, recipient_address, token_id, minted_at, is the KeyError; a read token holds the stored issuer, recipient, id, mint time, signature and status flags, with missing status flags defaulting to invalid and revoked; the issue time is reset to now |
| RegistryTokens.RecordRoundTrip | educhain/core/model/NFTSmartContract.py:71-99 | as written, reading back a token's dictionary gives the same token except that its metadata's issue time becomes the current time |
| RegistryTokens.ReloadChangesSignedData | educhain/core/model/NFTSmartContract.py:83-99 | as written, reloading a token at a time other than its issue time changes the data its signature covers |
| RegistryTokens.RestoreMetadata | educhain/core/model/NFTSmartContract.py:84-92 | corrected, the metadata is read as before, with the same errors, but keeps the stored issue time |
| RegistryTokens.RestoreRecord | educhain/core/model/NFTSmartContract.py:83-99 | corrected reload: the same errors in the same order as ParseRecord; a read token holds the stored issuer, recipient, id, mint time, signature and status flags, with missing status flags defaulting to invalid and revoked, and the metadata with its stored issue time |
| RegistryTokens.RestoreRoundTrip | educhain/core/model/NFTSmartContract.py:71-99 | corrected, reloading a token's dictionary gives back the token itself, so whether it verifies is unchanged |
| RegistryTokens.NFT.constructor | educhain/core/model/NFTSmartContract.py:34-43 | the new object holds the new token record |
| RegistryTokens.NFT.SignNft | educhain/core/model/NFTSmartContract.py:53-56 | the new record is the signed record; with sound primitives an unrevoked token signed with the issuer's key verifies |
| RegistryTokens.NFT.Revoke | educhain/core/model/NFTSmartContract.py:58-61 | the new record is the revoked record |
| RegistryTokens.NFT.FromDict | educhain/core/model/NFTSmartContract.py:83-99 | corrected to keep the stored issue time: fails exactly when the corrected reading fails, with the same error; otherwise a fresh token holding the read record |
| Registry.BalancesOfConsistent | educhain/core/model/NFTSmartContract.py:154-155 | in a consistent registry balances are never negative and a token's owner has a balance of at least one |
| Registry.Mint | educhain/core/model/NFTSmartContract.py:112-122 | succeeds exactly for the contract owner and a new id; records the token as valid, raises supply and the recipient's balance by one and changes no other balance; a non-owner gets PermissionError |
| Registry.MintKeepsConsistent | educhain/core/model/NFTSmartContract.py:112-122 | minting keeps supply equal to the token count and every balance equal to the tokens owned |
| Registry.Transfer | educhain/core/model/NFTSmartContract.py:125-135 | succeeds exactly for an existing, unrevoked token held by the sender; an unknown id gives "Token <id> does not exist."; the token moves to the receiver, one unit of balance moves with it, and nothing else changes |
| Registry.TransferKeepsConsistent | educhain/core/model/NFTSmartContract.py:125-135 | transferring keeps balances equal to the tokens owned |
| Registry.TransferByOwner | educhain/core/model/NFTSmartContract.py:125-135 | in a consistent registry the owner can always transfer an unrevoked token |
| Registry.Revoke | educhain/core/model/NFTSmartContract.py:139-146 | succeeds exactly for an existing token, and otherwise gives "Token <id> not found."; marks it revoked and invalid and lists it once among the revoked tokens |
| Registry.RevokeKeepsConsistent | educhain/core/model/NFTSmartContract.py:139-146 | revoking keeps the revoked list duplicate-free and equal to the revoked tokens |
| Registry.RevokeIdempotent | educhain/core/model/NFTSmartContract.py:139-146 | revoking twice is revoking once |
| Registry.RevokedStaysRevoked | educhain/core/model/NFTSmartContract.py:125-146 | a revoked token can no longer be transferred |
| Registry.MintAsWritten | educhain/core/model/NFTSmartContract.py:112-122 | as written, succeeds exactly for the contract owner, whether or not the id is registered; on a new id it is the corrected mint; the token is recorded, and supply and the recipient's balance rise by one |
| Registry.TransferAsWritten | educhain/core/model/NFTSmartContract.py:125-135 | as written, succeeds for an existing token held by the sender with a balance entry, revoked or not; the unknown-id and wrong-owner errors; the tokens never change, and on an unrevoked token the balances move as in the corrected transfer |
| Registry.RevokeAsWritten | educhain/core/model/NFTSmartContract.py:139-146 | as written, succeeds exactly for an existing token, and otherwise gives "Token <id> not found."; the id is appended on every call; apart from that list it is the corrected revoke |
| Registry.TransferAsWrittenLosesOwner | educhain/core/model/NFTSmartContract.py:132 | as written, a transfer leaves the token with its old owner while the balances move, and the old owner can transfer it again |
| Registry.TransferMovesOwner | educhain/core/model/NFTSmartContract.py:125-135 | corrected, the token moves, the registry stays consistent and the old owner can no longer transfer it |
| Registry.TransferOfRevoked | educhain/core/model/NFTSmartContract.py:125-135 | as written a revoked token can be transferred; corrected it is refused |
| Registry.MintAsWrittenDuplicate | educhain/core/model/NFTSmartContract.py:119-121 | as written, minting an existing id overwrites the token while supply and balances still rise; corrected it is refused |
| Registry.RevokeAsWrittenTwice | educhain/core/model/NFTSmartContract.py:144-145 | as written, revoking twice lists the token twice; corrected it is listed once |
| Registry.NFTSmartContract.constructor | educhain/core/model/NFTSmartContract.py:103-108 | no tokens, no supply, no balances, nothing revoked; the registry invariant holds |
| Registry.NFTSmartContract.MintNft | educhain/core/model/NFTSmartContract.py:112-122 | the result and the new bookkeeping are those of the corrected mint; a minted token is fresh, registered under its id and holds the signed new record; a valid registry stays valid |
| Registry.NFTSmartContract.Register | educhain/core/model/NFTSmartContract.py:119-121 | recording a new token is a successful mint of the bookkeeping |
| Registry.NFTSmartContract.TransferNft | educhain/core/model/NFTSmartContract.py:125-135 | the result and the new bookkeeping are those of the corrected transfer; the token object's recipient becomes the receiver and nothing else in it changes; a failed transfer changes neither the bookkeeping nor the token object; a valid registry stays valid |
| Registry.NFTSmartContract.Hand | educhain/core/model/NFTSmartContract.py:132-134 | moving a checked token is a successful transfer of the bookkeeping |
| Registry.NFTSmartContract.Reassign | educhain/core/model/NFTSmartContract.py:132 | the token object and the bookkeeping both record the new holder |
| Registry.NFTSmartContract.RevokeNft | educhain/core/model/NFTSmartContract.py:139-146 | the result and the new bookkeeping are those of the corrected revoke; the token's record is revoked and verification then refuses it as revoked; a valid registry stays valid |
| Registry.NFTSmartContract.Withdraw | educhain/core/model/NFTSmartContract.py:143-145 | revoking an existing token is a successful revoke of the bookkeeping |
| Registry.NFTSmartContract.Retire | educhain/core/model/NFTSmartContract.py:144 | the token object and the bookkeeping both mark the token revoked and invalid |
| Registry.NFTSmartContract.GetNft | educhain/core/model/NFTSmartContract.py:149-150 | the registered token, or nothing exactly when the id is unknown |
| Registry.NFTSmartContract.GetBalance | educhain/core/model/NFTSmartContract.py:154-155 | zero for an unknown address; in a valid registry, the number of tokens the address owns |
| Registry.NFTSmartContract.VerifyNft | educhain/core/model/NFTSmartContract.py:158-178 | verified exactly when the token exists and its signature verifies; an unknown token, a revoked token and a bad signature are each refused with their own reason; a verified answer carries the id, student name and id, degree type, document URL and hash, recipient and mint time |

## Left out

- Cryptography internals: ECDSA over secp256k1, SHA-256, Keccak addresses, JSON text and base64 are fields of `Crypto.Primitives`. Only the facts in `Crypto.Sound` are assumed of them.
- Exceptions raised by malformed hexadecimal keys or signatures are not modelled. The primitives are total functions.
- Payload values are text only. Nested or numeric payload values are not modelled.
- The registry's `to_dict` snapshot (`NFTSmartContract.py:180-187`) is not modelled. It only serialises the fields the model already states.
- Console output, the Flask API, threading and the scheduler service are not modelled. The scheduler is a fixed function from height to validator key, given when the chain is built.
- Ledger.Blockchain.LastBlock: requires a non-empty chain. On an empty chain `self.chain[-1]` raises IndexError; the model does not represent that error. Nothing in `blockchain.py` calls `create_genesis_block` itself, and `run.py:19-23` starts the API without calling it.
- Ledger.Blockchain.IsValidNewBlock: requires a non-empty chain, because it reads the last block; the IndexError on an empty chain is not represented.
- Ledger.Blockchain.AddBlock: requires a non-empty chain, because it validates against the last block; the IndexError on an empty chain is not represented.
- Ledger.Blockchain.MineBlock: requires a non-empty chain, because it extends the last block; the IndexError on an empty chain is not represented.
- Ledger.Blockchain.Forge: requires a non-empty chain, because it builds on the last block; the IndexError on an empty chain is not represented.
- Ledger.Blockchain.ExecuteAll: the list `successful_txs` is collected in a local variable as in the source but never read, so no contract speaks of it.
- Ledger.Blockchain.AddBlock: the mempool facts (no included hash is still pooled) are stated by LedgerSpec.PurgeRemovesIncluded about `Purge`, not repeated in the method.
- Registry.NFTSmartContract.MintNft: that the minted token verifies is stated by RegistryTokens.MintedRecordVerifies about the record the method returns, not in the method's own contract.
- Registry.NFTSmartContract: the registry invariant does not record that each token's own `tokenId` equals the key it is registered under. The source never relies on that.
- Registry.NFTSmartContract.TransferNft: the corrected transfer changes `recipient_address`, which is part of the signed data. Whether the source means a transfer to invalidate the issuer's signature is not stated; the model follows the field assignment the source evidently intended.
- Registry.Transfer: the as-written `self.token_balances[from_address] -= 1` raises KeyError when the sender has no balance entry. The corrected transfer keeps that error case, which cannot arise in a consistent registry.
- `uuid4()` and the clocks are parameters (`entropy`, `uuid`, `now`).
- Metadata.FromDict: a field value that is not text (a number, a list, a boolean), the issue time included, is refused with TypeError, while `NFTMetadata(**data)` stores any value. The model's metadata fields are text.
- Transactions.ParseDict: a non-text sender key, recipient or signature and a non-numeric timestamp are refused with TypeError, while Python stores any value there.
- Tokens.ParseDict: a null or non-text token id, mint time, issuer, recipient or signature, and a non-boolean `is_valid` or `revoked`, are refused with TypeError, while `data.get(...)` stores any value there.
- RegistryTokens.ParseMetadata: a non-text metadata field is refused with TypeError, while Python stores any value there.
- RegistryTokens.ParseRecord: a non-text or non-boolean stored value is refused with TypeError, while Python stores any value there. A non-text value before an absent key therefore gives that TypeError rather than the KeyError Python raises.
- RegistryTokens.RestoreMetadata: like ParseMetadata, a non-text metadata field is refused with TypeError, while Python stores any value there.
- RegistryTokens.RestoreRecord: a non-text or non-boolean stored value is refused with TypeError, while Python stores any value there. A non-text value before an absent key therefore gives that TypeError rather than the KeyError Python raises.
- Tokens.ParseDict: one `now` stands for both `utcnow()` calls that `from_dict` makes, the metadata's issue time and the default mint time, which Python reads separately and which may differ. In RegistryTokens.ParseRecord and RegistryTokens.RestoreRecord the same `now` is used, but there `minted_at` is required and overwrites the constructor's mint time, so only the issue time depends on the clock.
- Registry.NFTSmartContract: every method requires the token objects to agree with the registry's bookkeeping (`Synced`). Python lets a caller change a token returned by `mint_nft` or `get_nft` behind the registry's back; the model does not cover that aliasing.

Beyond the five corrections under "## Findings", the registry keeps the code's behaviour:
- Registry.Revoke: a balance still counts a revoked token, because `revoke_nft` never decrements a balance.
- Registry.Revoke: revoking a token again succeeds and leaves the bookkeeping as it was.
- Registry.Transfer: the ownership check comes before the revocation check. Errors keep the code's Python kinds (ValueError, PermissionError, KeyError).

## Findings

| source | as written | input that shows it | evidently intended | confidence | as-written member | corrected member |
|---|---|---|---|---|---|---|
| educhain/core/model/NFTSmartContract.py:132 | `transfer_nft` assigns the receiver to an attribute of the contract, not to the token | one token "t" held by "alice"; transfer "t" from "alice" to "bob" | the token's holder becomes the receiver | not executed | Registry.TransferAsWrittenLosesOwner | Registry.TransferMovesOwner |
| educhain/core/model/NFTSmartContract.py:125-135 | `transfer_nft` does not check whether the token is revoked | a revoked token "t" held by "alice"; transfer to "bob" | a revoked credential cannot change hands | not executed | Registry.TransferOfRevoked | Registry.Transfer |
| educhain/core/model/NFTSmartContract.py:119-121 | `mint_nft` overwrites a registered id and still raises supply and balance | mint id "t" again for "bob" while "alice" holds "t" | a duplicate id is refused | not executed | Registry.MintAsWrittenDuplicate | Registry.Mint |
| educhain/core/model/NFTSmartContract.py:144-145 | `revoke_nft` appends the id every time it is called | revoke "t" twice | a token is listed once among the revoked tokens | not executed | Registry.RevokeAsWrittenTwice | Registry.Revoke |
| educhain/core/model/NFTSmartContract.py:83-99 | `NFT.from_dict` rebuilds the metadata through the constructor, which sets `issued_at` to the current time (line 19), so the reloaded token's signed data differs from what was signed | a signed token issued at "2024-01-01T00:00:00" reloaded at "2024-06-01T00:00:00" | reloading keeps the stored issue time, so a signed token still verifies | not executed | RegistryTokens.ReloadChangesSignedData | RegistryTokens.RestoreRoundTrip |
