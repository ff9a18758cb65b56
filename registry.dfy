/**
 * The credential registry of educhain/core/model/NFTSmartContract.py: an
 * owner-only mint, transfer, revoke and verify over a map from token id to
 * token, a supply counter, a balance table and a list of revoked ids.
 *
 * The registry's bookkeeping is specified on `RegistryView`, a value holding
 * the counter, the balances, each token's owner and status, and the revoked
 * list; `Consistent` is the invariant that ties them together. The class
 * `NFTSmartContract` is proved against the corrected operations `Mint`,
 * `Transfer` and `Revoke`. The `...AsWritten` functions model the source
 * line for line where it departs from them, and the lemmas beside them
 * exhibit each departure on a concrete registry.
 */
module Registry {
  import opened Wrappers
  import opened Crypto
  import opened RegistryTokens

  /** What the registry's bookkeeping sees of a token. */
  datatype TokenInfo = TokenInfo(owner: string, revoked: bool, isValid: bool)

  datatype RegistryView = RegistryView(
    totalSupply: int,
    balances: map<string, int>,
    tokens: map<string, TokenInfo>,
    revokedTokens: seq<string>)

  const EmptyView := RegistryView(0, map[], map[], [])

  /** `token_balances.get(address, 0)` */
  function Balance(balances: map<string, int>, address: string): int {
    if address in balances then balances[address] else 0
  }

  /** The ids of the tokens an address owns. */
  function Owned(tokens: map<string, TokenInfo>, address: string): set<string> {
    set id | id in tokens && tokens[id].owner == address
  }

  function Count(tokens: map<string, TokenInfo>, address: string): nat {
    |Owned(tokens, address)|
  }

  /**
   * The registry's invariant: the supply counts the tokens, every balance
   * counts the tokens its address owns, a token is valid exactly when it is
   * not revoked, and the revoked list names each revoked token once.
   */
  ghost predicate Consistent(v: RegistryView) {
    && v.totalSupply == |v.tokens|
    && (forall a :: Balance(v.balances, a) == Count(v.tokens, a))
    && (forall id | id in v.tokens :: v.tokens[id].isValid == !v.tokens[id].revoked)
    && (forall i, j | 0 <= i < j < |v.revokedTokens| :: v.revokedTokens[i] != v.revokedTokens[j])
    && (forall id | id in v.revokedTokens :: id in v.tokens && v.tokens[id].revoked)
    && (forall id | id in v.tokens && v.tokens[id].revoked :: id in v.revokedTokens)
  }

  /** In a consistent registry no balance is negative, and an owner's balance is at least one. */
  lemma BalancesOfConsistent(v: RegistryView, id: string)
    requires Consistent(v)
    ensures forall a :: Balance(v.balances, a) >= 0
    ensures id in v.tokens ==> Balance(v.balances, v.tokens[id].owner) >= 1 && v.tokens[id].owner in v.balances
  {
    if id in v.tokens {
      assert id in Owned(v.tokens, v.tokens[id].owner);
    }
  }

  // ---- counting owned tokens ----

  /** Recording a token under a new id adds one to its owner's count and nothing to the others. */
  lemma CountInsert(tokens: map<string, TokenInfo>, id: string, info: TokenInfo, a: string)
    requires id !in tokens
    ensures Count(tokens[id := info], a) == Count(tokens, a) + (if info.owner == a then 1 else 0)
  {
    if info.owner == a {
      assert Owned(tokens[id := info], a) == Owned(tokens, a) + {id};
    } else {
      assert Owned(tokens[id := info], a) == Owned(tokens, a);
    }
  }

  /** Changing a recorded token moves it from its old owner's count to its new owner's. */
  lemma CountUpdate(tokens: map<string, TokenInfo>, id: string, info: TokenInfo, a: string)
    requires id in tokens
    ensures Count(tokens[id := info], a) ==
              Count(tokens, a) - (if tokens[id].owner == a then 1 else 0) + (if info.owner == a then 1 else 0)
  {
    var rest := Owned(tokens, a) - {id};
    assert Owned(tokens, a) == if tokens[id].owner == a then rest + {id} else rest;
    assert Owned(tokens[id := info], a) == if info.owner == a then rest + {id} else rest;
  }

  // ---- the corrected operations ----

  const NotOwnerMessage := "Only contract owner can mint NFTs."
  const DuplicateMessage := "Token already exists."
  /** The `ValueError` text of `transfer_nft` for an id that is not registered. */
  function MissingMessage(tokenId: string): string { "Token " + tokenId + " does not exist." }
  /** The `ValueError` text of `revoke_nft` for an id that is not registered. */
  function NotFoundMessage(tokenId: string): string { "Token " + tokenId + " not found." }
  const WrongOwnerMessage := "Not the token owner."
  const RevokedMessage := "Token has been revoked."

  /**
   * `mint_nft`, corrected: only the contract owner mints, and an id already
   * recorded is refused; the new token is valid and belongs to the recipient,
   * the supply and the recipient's balance go up by one.
   */
  function Mint(v: RegistryView, contractOwner: string, issuerPubkey: string, tokenId: string,
                recipient: string): (r: Result<RegistryView>)
    ensures r.Ok? <==> issuerPubkey == contractOwner && tokenId !in v.tokens
    ensures issuerPubkey != contractOwner ==> r == Err(PermissionError(NotOwnerMessage))
    ensures r.Ok? ==>
      && r.value.tokens == v.tokens[tokenId := TokenInfo(recipient, false, true)]
      && r.value.totalSupply == v.totalSupply + 1
      && Balance(r.value.balances, recipient) == Balance(v.balances, recipient) + 1
      && (forall a | a != recipient :: Balance(r.value.balances, a) == Balance(v.balances, a))
      && r.value.revokedTokens == v.revokedTokens
  {
    if issuerPubkey != contractOwner then Err(PermissionError(NotOwnerMessage))
    else if tokenId in v.tokens then Err(ValueError(DuplicateMessage))
    else Ok(RegistryView(v.totalSupply + 1,
                         v.balances[recipient := Balance(v.balances, recipient) + 1],
                         v.tokens[tokenId := TokenInfo(recipient, false, true)],
                         v.revokedTokens))
  }

  lemma MintKeepsConsistent(v: RegistryView, contractOwner: string, issuerPubkey: string, tokenId: string,
                            recipient: string)
    requires Consistent(v)
    requires Mint(v, contractOwner, issuerPubkey, tokenId, recipient).Ok?
    ensures Consistent(Mint(v, contractOwner, issuerPubkey, tokenId, recipient).value)
  {
    var w := Mint(v, contractOwner, issuerPubkey, tokenId, recipient).value;
    forall a ensures Balance(w.balances, a) == Count(w.tokens, a) {
      CountInsert(v.tokens, tokenId, TokenInfo(recipient, false, true), a);
    }
    assert w.tokens.Keys == v.tokens.Keys + {tokenId};
  }

  /**
   * `transfer_nft`, corrected: the token must exist, belong to the sender
   * and not be revoked; it then belongs to the receiver, and one unit of
   * balance moves from sender to receiver.
   */
  function Transfer(v: RegistryView, tokenId: string, from: string, to: string): (r: Result<RegistryView>)
    ensures r.Ok? <==> tokenId in v.tokens && v.tokens[tokenId].owner == from && !v.tokens[tokenId].revoked
                       && from in v.balances
    ensures tokenId !in v.tokens ==> r == Err(ValueError(MissingMessage(tokenId)))
    ensures r.Ok? ==>
      && r.value.tokens == v.tokens[tokenId := v.tokens[tokenId].(owner := to)]
      && r.value.totalSupply == v.totalSupply && r.value.revokedTokens == v.revokedTokens
      && (from != to ==> Balance(r.value.balances, from) == Balance(v.balances, from) - 1
                         && Balance(r.value.balances, to) == Balance(v.balances, to) + 1)
      && (forall a | (a != from && a != to) || from == to :: Balance(r.value.balances, a) == Balance(v.balances, a))
  {
    if tokenId !in v.tokens then Err(ValueError(MissingMessage(tokenId)))
    else if v.tokens[tokenId].owner != from then Err(ValueError(WrongOwnerMessage))
    else if v.tokens[tokenId].revoked then Err(ValueError(RevokedMessage))
    else if from !in v.balances then Err(KeyError(from))
    else
      var debited := v.balances[from := v.balances[from] - 1];
      Ok(v.(tokens := v.tokens[tokenId := v.tokens[tokenId].(owner := to)],
            balances := debited[to := Balance(debited, to) + 1]))
  }

  lemma TransferKeepsConsistent(v: RegistryView, tokenId: string, from: string, to: string)
    requires Consistent(v)
    requires Transfer(v, tokenId, from, to).Ok?
    ensures Consistent(Transfer(v, tokenId, from, to).value)
  {
    var w := Transfer(v, tokenId, from, to).value;
    var info := v.tokens[tokenId].(owner := to);
    forall a ensures Balance(w.balances, a) == Count(w.tokens, a) {
      CountUpdate(v.tokens, tokenId, info, a);
    }
    assert w.tokens.Keys == v.tokens.Keys;
  }

  /** In a consistent registry the owner of an unrevoked token can always transfer it. */
  lemma TransferByOwner(v: RegistryView, tokenId: string, to: string)
    requires Consistent(v)
    requires tokenId in v.tokens && !v.tokens[tokenId].revoked
    ensures Transfer(v, tokenId, v.tokens[tokenId].owner, to).Ok?
  {
    BalancesOfConsistent(v, tokenId);
  }

  /**
   * `revoke_nft`, corrected: the token must exist; it becomes revoked and
   * invalid, and its id is listed unless it already was.
   */
  function Revoke(v: RegistryView, tokenId: string): (r: Result<RegistryView>)
    ensures r.Ok? <==> tokenId in v.tokens
    ensures r.Err? ==> r == Err(ValueError(NotFoundMessage(tokenId)))
    ensures r.Ok? ==>
      && r.value.tokens == v.tokens[tokenId := v.tokens[tokenId].(revoked := true, isValid := false)]
      && r.value.totalSupply == v.totalSupply && r.value.balances == v.balances
      && r.value.revokedTokens == v.revokedTokens + (if v.tokens[tokenId].revoked then [] else [tokenId])
  {
    if tokenId !in v.tokens then Err(ValueError(NotFoundMessage(tokenId)))
    else
      var info := v.tokens[tokenId];
      Ok(v.(tokens := v.tokens[tokenId := info.(revoked := true, isValid := false)],
            revokedTokens := if info.revoked then v.revokedTokens else v.revokedTokens + [tokenId]))
  }

  lemma RevokeKeepsConsistent(v: RegistryView, tokenId: string)
    requires Consistent(v)
    requires Revoke(v, tokenId).Ok?
    ensures Consistent(Revoke(v, tokenId).value)
  {
    var w := Revoke(v, tokenId).value;
    var info := v.tokens[tokenId].(revoked := true, isValid := false);
    forall a ensures Balance(w.balances, a) == Count(w.tokens, a) {
      CountUpdate(v.tokens, tokenId, info, a);
    }
    assert w.tokens.Keys == v.tokens.Keys;
    if !v.tokens[tokenId].revoked {
      assert tokenId !in v.revokedTokens;
      forall i, j | 0 <= i < j < |w.revokedTokens| ensures w.revokedTokens[i] != w.revokedTokens[j] {
        if j == |v.revokedTokens| {
          assert w.revokedTokens[i] == v.revokedTokens[i];
          assert v.revokedTokens[i] in v.revokedTokens;
        }
      }
    }
  }

  /** Revoking twice is revoking once: the second call succeeds and changes nothing. */
  lemma RevokeIdempotent(v: RegistryView, tokenId: string)
    requires Revoke(v, tokenId).Ok?
    ensures Revoke(Revoke(v, tokenId).value, tokenId) == Revoke(v, tokenId)
  {
    var w := Revoke(v, tokenId).value;
    assert w.tokens[tokenId := w.tokens[tokenId].(revoked := true, isValid := false)] == w.tokens;
  }

  /** A transfer is refused once the token is revoked, so no operation undoes a revocation. */
  lemma RevokedStaysRevoked(v: RegistryView, tokenId: string, from: string, to: string)
    requires Revoke(v, tokenId).Ok?
    ensures Transfer(Revoke(v, tokenId).value, tokenId, from, to).Err?
  {
  }

  // ---- the operations as written ----

  /** `mint_nft` as written: no check that the id is new, so a second mint overwrites the first. */
  function MintAsWritten(v: RegistryView, contractOwner: string, issuerPubkey: string, tokenId: string,
                         recipient: string): (r: Result<RegistryView>)
    ensures r.Ok? <==> issuerPubkey == contractOwner
    ensures issuerPubkey != contractOwner ==> r == Err(PermissionError(NotOwnerMessage))
    // on a new id it is the corrected mint; on a registered id it still succeeds
    ensures tokenId !in v.tokens ==> r == Mint(v, contractOwner, issuerPubkey, tokenId, recipient)
    ensures r.Ok? ==>
      && r.value.tokens == v.tokens[tokenId := TokenInfo(recipient, false, true)]
      && r.value.totalSupply == v.totalSupply + 1
      && Balance(r.value.balances, recipient) == Balance(v.balances, recipient) + 1
  {
    if issuerPubkey != contractOwner then Err(PermissionError(NotOwnerMessage))
    else Ok(RegistryView(v.totalSupply + 1,
                         v.balances[recipient := Balance(v.balances, recipient) + 1],
                         v.tokens[tokenId := TokenInfo(recipient, false, true)],
                         v.revokedTokens))
  }

  /**
   * `transfer_nft` as written: no revoked check, the owner is never updated
   * (the assignment goes to an attribute of the contract), and the debit
   * raises KeyError for a sender with no balance entry.
   */
  function TransferAsWritten(v: RegistryView, tokenId: string, from: string, to: string): (r: Result<RegistryView>)
    ensures r.Ok? <==> tokenId in v.tokens && v.tokens[tokenId].owner == from && from in v.balances
    ensures tokenId !in v.tokens ==> r == Err(ValueError(MissingMessage(tokenId)))
    ensures tokenId in v.tokens && v.tokens[tokenId].owner != from ==> r == Err(ValueError(WrongOwnerMessage))
    // the tokens are never touched; on an unrevoked token the balances move as in the corrected transfer
    ensures r.Ok? ==> r.value.tokens == v.tokens
    ensures r.Ok? && !v.tokens[tokenId].revoked ==>
              r.value == Transfer(v, tokenId, from, to).value.(tokens := v.tokens)
  {
    if tokenId !in v.tokens then Err(ValueError(MissingMessage(tokenId)))
    else if v.tokens[tokenId].owner != from then Err(ValueError(WrongOwnerMessage))
    else if from !in v.balances then Err(KeyError(from))
    else
      var debited := v.balances[from := v.balances[from] - 1];
      Ok(v.(balances := debited[to := Balance(debited, to) + 1]))
  }

  /** `revoke_nft` as written: the id is listed again on every call. */
  function RevokeAsWritten(v: RegistryView, tokenId: string): (r: Result<RegistryView>)
    ensures r.Ok? <==> tokenId in v.tokens
    ensures r.Err? ==> r == Err(ValueError(NotFoundMessage(tokenId)))
    // the corrected revoke, except that the id is listed on every call
    ensures r.Ok? ==> r.value.revokedTokens == v.revokedTokens + [tokenId]
    ensures r.Ok? ==> r.value.(revokedTokens := []) == Revoke(v, tokenId).value.(revokedTokens := [])
  {
    if tokenId !in v.tokens then Err(ValueError(NotFoundMessage(tokenId)))
    else
      var info := v.tokens[tokenId];
      Ok(v.(tokens := v.tokens[tokenId := info.(revoked := true, isValid := false)],
            revokedTokens := v.revokedTokens + [tokenId]))
  }

  /** One token "t", owned by "alice", valid. */
  const OneToken := RegistryView(1, map["alice" := 1], map["t" := TokenInfo("alice", false, true)], [])

  lemma OneTokenConsistent()
    ensures Consistent(OneToken)
  {
    forall a ensures Balance(OneToken.balances, a) == Count(OneToken.tokens, a) {
      if a == "alice" {
        assert Owned(OneToken.tokens, a) == {"t"};
      } else {
        assert Owned(OneToken.tokens, a) == {};
      }
    }
    assert OneToken.tokens.Keys == {"t"};
  }

  /**
   * Line 132: after alice transfers "t" to bob, alice still owns it and bob's
   * balance counts a token he does not own; alice can then transfer it
   * again, which drives her balance to -1.
   */
  lemma TransferAsWrittenLosesOwner()
    ensures var once := TransferAsWritten(OneToken, "t", "alice", "bob");
      && once.Ok? && once.value.tokens["t"].owner == "alice"
      && Balance(once.value.balances, "bob") == 1 && Count(once.value.tokens, "bob") == 0
      && !Consistent(once.value)
      && var twice := TransferAsWritten(once.value, "t", "alice", "carol");
         twice.Ok? && Balance(twice.value.balances, "alice") == -1
  {
    var once := TransferAsWritten(OneToken, "t", "alice", "bob").value;
    assert Owned(once.tokens, "bob") == {};
    assert Balance(once.balances, "bob") != Count(once.tokens, "bob");
  }

  /** The corrected transfer hands the token over and keeps every balance equal to its count. */
  lemma TransferMovesOwner()
    ensures var once := Transfer(OneToken, "t", "alice", "bob");
      && once.Ok? && once.value.tokens["t"].owner == "bob" && Consistent(once.value)
      && Transfer(once.value, "t", "alice", "carol").Err?
  {
    OneTokenConsistent();
    TransferKeepsConsistent(OneToken, "t", "alice", "bob");
  }

  /** "t", owned by "alice", revoked. */
  const RevokedToken := RegistryView(1, map["alice" := 1], map["t" := TokenInfo("alice", true, false)], ["t"])

  /** The written transfer moves a revoked token's balance; the corrected one refuses it. */
  lemma TransferOfRevoked()
    ensures TransferAsWritten(RevokedToken, "t", "alice", "bob").Ok?
    ensures Transfer(RevokedToken, "t", "alice", "bob") == Err(ValueError(RevokedMessage))
  {
  }

  /**
   * Minting an id already recorded (same student id and issue time) counts
   * two tokens in the supply while one is recorded, and leaves alice's
   * balance counting a token that is now bob's.
   */
  lemma MintAsWrittenDuplicate()
    ensures var r := MintAsWritten(OneToken, "owner", "owner", "t", "bob");
      && r.Ok? && r.value.totalSupply == 2 && |r.value.tokens| == 1
      && Balance(r.value.balances, "alice") == 1 && Count(r.value.tokens, "alice") == 0
      && !Consistent(r.value)
    ensures Mint(OneToken, "owner", "owner", "t", "bob") == Err(ValueError(DuplicateMessage))
  {
    var r := MintAsWritten(OneToken, "owner", "owner", "t", "bob").value;
    assert r.tokens.Keys == {"t"};
    assert Owned(r.tokens, "alice") == {};
  }

  /** Revoking twice lists the id twice as written, once when corrected. */
  lemma RevokeAsWrittenTwice()
    ensures var once := RevokeAsWritten(OneToken, "t");
      && once.Ok? && RevokeAsWritten(once.value, "t").Ok?
      && RevokeAsWritten(once.value, "t").value.revokedTokens == ["t", "t"]
      && !Consistent(RevokeAsWritten(once.value, "t").value)
    ensures Revoke(Revoke(OneToken, "t").value, "t").value.revokedTokens == ["t"]
  {
    var twice := RevokeAsWritten(RevokeAsWritten(OneToken, "t").value, "t").value;
    assert twice.revokedTokens[0] == twice.revokedTokens[1];
  }

  // ---- the contract object ----

  /** What `verify_nft` answers: a refusal with its reason, or the public fields of a valid token. */
  datatype Verification =
    | Refused(reason: string)
    | Verified(tokenId: string, studentName: string, studentId: string, degreeType: string, pdfUrl: string,
               pdfHash: string, recipientAddress: string, mintedAt: string)

  const NoSuchTokenReason := "Token does not exist."
  const RevokedReason := "Token has been revoked."
  const BadSignatureReason := "Invalid signature."

  class NFTSmartContract {
    /** The signature and hash functions of the tokens. */
    const p: Primitives
    const contractOwner: string
    var totalSupply: int
    var tokenBalances: map<string, int>
    var tokenRegistry: map<string, NFT>
    var revokedTokens: seq<string>
    /** What the bookkeeping sees of each registered token: its owner and status. */
    ghost var tokens: map<string, TokenInfo>

    ghost function View(): RegistryView
      reads this
    {
      RegistryView(totalSupply, tokenBalances, tokens, revokedTokens)
    }

    /** Every id names its own token object, and the ledger knows the same ids. */
    ghost predicate Keyed()
      reads this
    {
      && tokenRegistry.Keys == tokens.Keys
      && (forall i, j | i in tokenRegistry && j in tokenRegistry && i != j :: tokenRegistry[i] != tokenRegistry[j])
    }

    /** Each token object agrees with the ledger on holder, revocation and validity. */
    ghost predicate Mirrored()
      requires Keyed()
      reads this, tokenRegistry.Values
    {
      forall id | id in tokenRegistry ::
        && tokenRegistry[id].recipientAddress == tokens[id].owner
        && tokenRegistry[id].revoked == tokens[id].revoked
        && tokenRegistry[id].isValid == tokens[id].isValid
    }

    ghost predicate Synced()
      reads this, tokenRegistry.Values
    {
      Keyed() && Mirrored()
    }

    ghost predicate Valid()
      reads this, tokenRegistry.Values
    {
      Synced() && Consistent(View())
    }

    /** `NFTSmartContract(contract_owner)`: no tokens, no balances. */
    constructor(p: Primitives, contractOwner: string)
      ensures this.p == p && this.contractOwner == contractOwner
      ensures View() == EmptyView && tokenRegistry == map[]
      ensures Valid()
    {
      this.p := p;
      this.contractOwner := contractOwner;
      totalSupply := 0;
      tokenBalances := map[];
      tokenRegistry := map[];
      revokedTokens := [];
      tokens := map[];
      new;
      forall a ensures Balance(EmptyView.balances, a) == Count(EmptyView.tokens, a) {
        assert Owned(EmptyView.tokens, a) == {};
      }
    }

    /**
     * `mint_nft(metadata, issuer_pubkey, issuer_private_key, recipient_address)`
     * at time `now`, corrected to refuse an id already recorded.
     */
    method MintNft(metadata: LegacyMetadata, issuerPubkey: string, issuerPrivateKey: string,
                   recipientAddress: string, now: string) returns (r: Result<NFT>)
      requires Synced()
      modifies this`totalSupply, this`tokenBalances, this`tokenRegistry, this`tokens
      ensures Synced()
      ensures var spec := Mint(old(View()), contractOwner, issuerPubkey, TokenIdOf(p, metadata), recipientAddress);
        && (r.Ok? <==> spec.Ok?)
        && (r.Err? ==> r.error == spec.error && View() == old(View()) && tokenRegistry == old(tokenRegistry))
        && (r.Ok? ==> View() == spec.value)
      ensures r.Ok? ==> fresh(r.value) && tokenRegistry == old(tokenRegistry)[r.value.tokenId := r.value]
      ensures r.Ok? ==>
        r.value.Record() == SignedRecord(p, NewRecord(p, metadata, issuerPubkey, recipientAddress, now), issuerPrivateKey)
      ensures old(Valid()) ==> Valid()
    {
      ghost var v := View();
      if issuerPubkey != contractOwner {
        return Err(PermissionError(NotOwnerMessage));
      }
      var nft := new NFT(p, metadata, issuerPubkey, recipientAddress, now);
      nft.SignNft(p, issuerPrivateKey);
      if nft.tokenId in tokenRegistry {
        return Err(ValueError(DuplicateMessage));
      }
      Register(nft);
      if Consistent(v) {
        MintKeepsConsistent(v, contractOwner, contractOwner, nft.tokenId, nft.recipientAddress);
      }
      return Ok(nft);
    }

    /** The bookkeeping half of `mint_nft`: records a new, unrevoked token under its id. */
    method Register(nft: NFT)
      requires Synced()
      requires nft.tokenId !in tokenRegistry && !nft.revoked && nft.isValid
      requires forall id | id in tokenRegistry :: tokenRegistry[id] != nft
      modifies this`totalSupply, this`tokenBalances, this`tokenRegistry, this`tokens
      ensures Synced()
      ensures Mint(old(View()), contractOwner, contractOwner, nft.tokenId, nft.recipientAddress) == Ok(View())
      ensures tokenRegistry == old(tokenRegistry)[nft.tokenId := nft]
    {
      tokenRegistry := tokenRegistry[nft.tokenId := nft];
      tokens := tokens[nft.tokenId := TokenInfo(nft.recipientAddress, false, true)];
      totalSupply := totalSupply + 1;
      tokenBalances := tokenBalances[nft.recipientAddress := Balance(tokenBalances, nft.recipientAddress) + 1];
    }

    /**
     * `transfer_nft(token_id, from_address, to_address)`, corrected to refuse
     * a revoked token and to hand the token itself to the receiver.
     */
    method TransferNft(tokenId: string, from: string, to: string) returns (r: Result<bool>)
      requires Synced()
      modifies this`tokenBalances, this`tokens, if tokenId in tokenRegistry then {tokenRegistry[tokenId]} else {}
      ensures tokenRegistry == old(tokenRegistry)
      ensures Synced()
      ensures var spec := Transfer(old(View()), tokenId, from, to);
        && (r.Ok? <==> spec.Ok?)
        && (r.Err? ==> r.error == spec.error && View() == old(View()))
        && (r.Ok? ==> r.value && View() == spec.value)
      ensures r.Ok? ==> tokenRegistry[tokenId].Record() == old(tokenRegistry[tokenId].Record()).(recipientAddress := to)
      ensures r.Err? && tokenId in tokenRegistry ==> tokenRegistry[tokenId].Record() == old(tokenRegistry[tokenId].Record())
      ensures old(Valid()) ==> Valid()
    {
      ghost var v := View();
      if tokenId !in tokenRegistry {
        return Err(ValueError(MissingMessage(tokenId)));
      }
      var nft := tokenRegistry[tokenId];
      if nft.recipientAddress != from {
        return Err(ValueError(WrongOwnerMessage));
      }
      if nft.revoked {
        return Err(ValueError(RevokedMessage));
      }
      if from !in tokenBalances {
        return Err(KeyError(from));
      }
      Hand(tokenId, from, to);
      if Consistent(v) {
        TransferKeepsConsistent(v, tokenId, from, to);
      }
      return Ok(true);
    }

    /** The state-changing half of `transfer_nft`, once every check has passed. */
    method Hand(tokenId: string, from: string, to: string)
      requires Synced()
      requires tokenId in tokenRegistry && from in tokenBalances
      requires tokenRegistry[tokenId].recipientAddress == from && !tokenRegistry[tokenId].revoked
      modifies this`tokenBalances, this`tokens, tokenRegistry[tokenId]
      ensures tokenRegistry == old(tokenRegistry)
      ensures Synced()
      ensures Transfer(old(View()), tokenId, from, to) == Ok(View())
      ensures tokenRegistry[tokenId].Record() == old(tokenRegistry[tokenId].Record()).(recipientAddress := to)
    {
      ghost var v := View();
      Reassign(tokenId, to);
      var debited := tokenBalances[from := tokenBalances[from] - 1];
      tokenBalances := debited[to := Balance(debited, to) + 1];
      assert View() == v.(tokens := v.tokens[tokenId := v.tokens[tokenId].(owner := to)], balances := tokenBalances);
    }

    /** Moves one token to a new holder, in its object and in the ghost ledger alike. */
    method Reassign(tokenId: string, to: string)
      requires Synced()
      requires tokenId in tokenRegistry
      modifies this`tokens, tokenRegistry[tokenId]
      ensures tokenRegistry == old(tokenRegistry)
      ensures Synced()
      ensures tokens == old(tokens)[tokenId := old(tokens)[tokenId].(owner := to)]
      ensures tokenRegistry[tokenId].Record() == old(tokenRegistry[tokenId].Record()).(recipientAddress := to)
    {
      var nft := tokenRegistry[tokenId];
      nft.recipientAddress := to;
      tokens := tokens[tokenId := tokens[tokenId].(owner := to)];
    }

    /** `revoke_nft(token_id)`, corrected to list a token once however often it is revoked. */
    method RevokeNft(tokenId: string) returns (r: Result<bool>)
      requires Synced()
      modifies this`revokedTokens, this`tokens, if tokenId in tokenRegistry then {tokenRegistry[tokenId]} else {}
      ensures tokenRegistry == old(tokenRegistry)
      ensures Synced()
      ensures var spec := Revoke(old(View()), tokenId);
        && (r.Ok? <==> spec.Ok?)
        && (r.Err? ==> r.error == spec.error && View() == old(View()))
        && (r.Ok? ==> r.value && View() == spec.value)
      ensures r.Ok? ==> tokenRegistry[tokenId].Record() == RevokedRecord(old(tokenRegistry[tokenId].Record()))
      ensures r.Ok? ==> VerifyNft(tokenId) == Refused(RevokedReason)
      ensures old(Valid()) ==> Valid()
    {
      ghost var v := View();
      if tokenId !in tokenRegistry {
        return Err(ValueError(NotFoundMessage(tokenId)));
      }
      Withdraw(tokenId);
      if Consistent(v) {
        RevokeKeepsConsistent(v, tokenId);
      }
      return Ok(true);
    }

    /** The state-changing half of `revoke_nft`, once the token is known to exist. */
    method Withdraw(tokenId: string)
      requires Synced()
      requires tokenId in tokenRegistry
      modifies this`revokedTokens, this`tokens, tokenRegistry[tokenId]
      ensures tokenRegistry == old(tokenRegistry)
      ensures Synced()
      ensures Revoke(old(View()), tokenId) == Ok(View())
      ensures tokenRegistry[tokenId].Record() == RevokedRecord(old(tokenRegistry[tokenId].Record()))
    {
      ghost var v := View();
      var wasRevoked := tokenRegistry[tokenId].revoked;
      Retire(tokenId);
      if !wasRevoked {
        revokedTokens := revokedTokens + [tokenId];
      }
      assert View() == v.(tokens := v.tokens[tokenId := v.tokens[tokenId].(revoked := true, isValid := false)],
                          revokedTokens := revokedTokens);
    }

    /** Marks one token revoked and invalid, in its object and in the ghost ledger alike. */
    method Retire(tokenId: string)
      requires Synced()
      requires tokenId in tokenRegistry
      modifies this`tokens, tokenRegistry[tokenId]
      ensures tokenRegistry == old(tokenRegistry)
      ensures Synced()
      ensures tokens == old(tokens)[tokenId := old(tokens)[tokenId].(revoked := true, isValid := false)]
      ensures tokenRegistry[tokenId].Record() == RevokedRecord(old(tokenRegistry[tokenId].Record()))
    {
      tokenRegistry[tokenId].Revoke();
      tokens := tokens[tokenId := tokens[tokenId].(revoked := true, isValid := false)];
    }

    /** `get_nft(token_id)` */
    function GetNft(tokenId: string): (r: Option<NFT>)
      reads this
      ensures r.Some? <==> tokenId in tokenRegistry
      ensures r.Some? ==> r.value == tokenRegistry[tokenId]
    {
      if tokenId in tokenRegistry then Some(tokenRegistry[tokenId]) else None
    }

    /** `get_balance(address)`: in a valid registry, the number of tokens the address owns. */
    function GetBalance(address: string): (r: int)
      reads this, tokenRegistry.Values
      ensures address !in tokenBalances ==> r == 0
      ensures Valid() ==> r == Count(View().tokens, address) && r >= 0
    {
      Balance(tokenBalances, address)
    }

    /**
     * `verify_nft(token_id)`: an unknown token, a revoked token and a bad
     * signature are refused with distinct reasons; a valid token is answered
     * with its public fields and without its signature.
     */
    function VerifyNft(tokenId: string): (r: Verification)
      reads this, tokenRegistry.Values
      ensures r.Verified? <==> tokenId in tokenRegistry && tokenRegistry[tokenId].VerifyNft(p)
      ensures tokenId !in tokenRegistry ==> r == Refused(NoSuchTokenReason)
      ensures tokenId in tokenRegistry && tokenRegistry[tokenId].revoked ==> r == Refused(RevokedReason)
      ensures tokenId in tokenRegistry && !tokenRegistry[tokenId].revoked && !tokenRegistry[tokenId].VerifyNft(p) ==>
                r == Refused(BadSignatureReason)
      ensures r.Verified? ==>
        var s := tokenRegistry[tokenId].Record();
        && r.tokenId == tokenId && r.studentId == s.metadata.studentId && r.studentName == s.metadata.studentName
        && r.degreeType == s.metadata.degreeType && r.pdfUrl == s.metadata.pdfUrl && r.pdfHash == s.metadata.pdfHash
        && r.recipientAddress == s.recipientAddress && r.mintedAt == s.mintedAt
    {
      if tokenId !in tokenRegistry then Refused(NoSuchTokenReason)
      else
        var nft := tokenRegistry[tokenId];
        if nft.revoked then Refused(RevokedReason)
        else if !nft.VerifyNft(p) then Refused(BadSignatureReason)
        else Verified(tokenId, nft.metadata.studentName, nft.metadata.studentId, nft.metadata.degreeType,
                      nft.metadata.pdfUrl, nft.metadata.pdfHash, nft.recipientAddress, nft.mintedAt)
    }
  }
}
