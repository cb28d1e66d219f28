/** The validator around a node: it hands out the first coins, and the leader's builds blocks. */
module Cryptowallet {
  import opened Common
  import opened Ledger
  import opened Blocks
  import opened BlockBuilding
  import opened BrachaNode
  import opened BrachaRound
  import opened NodeSpec

  class Validator {
    const walletsIds: seq<u32>
    const node: Node
    var utxoSets: Wallets
    var memoryPool: seq<Transaction>

    constructor (walletsIds: seq<u32>, node: Node)
      ensures this.walletsIds == walletsIds && this.node == node
      ensures utxoSets == map[] && memoryPool == []
    {
      this.walletsIds, this.node := walletsIds, node;
      utxoSets, memoryPool := map[], [];
    }

    /** Looking up a wallet that is not known creates an empty list for it. */
    method UtxoSet(id: u32) returns (list: seq<UTXO>)
      modifies this`utxoSets
      ensures list == Of(old(utxoSets), id)
      ensures utxoSets == if id in old(utxoSets) then old(utxoSets) else old(utxoSets)[id := []]
    {
      if id !in utxoSets {
        utxoSets := utxoSets[id := []];
      }
      list := utxoSets[id];
    }

    /** One coin for each wallet; the server gets the wallets' lists, and the node gets them joined. */
    method InitializeCoins(coins: u64) returns (serverLists: Wallets)
      requires node.Valid()
      modifies this`utxoSets, node`utxolist, node`walletIds
      ensures node.Valid()
      ensures utxoSets == serverLists == WithCoins(old(utxoSets), FirstCoins(walletsIds, coins))
      ensures node.utxolist == FirstCoins(walletsIds, coins) && node.walletIds == walletsIds
    {
      hide Node.Valid, FirstCoins, WithCoins;
      var initUtxolist := HandOut(coins);
      node.SetUTXOlists(initUtxolist, walletsIds);
      serverLists := utxoSets;
    }

    /** The loop over the wallets. */
    method HandOut(coins: u64) returns (all: seq<UTXO>)
      modifies this`utxoSets
      ensures all == FirstCoins(walletsIds, coins)
      ensures utxoSets == WithCoins(old(utxoSets), FirstCoins(walletsIds, coins))
    {
      hide FirstCoins, WithCoins;
      ghost var list := FirstCoins(walletsIds, coins);
      var initTxId: u32 := 0;
      var initUtxolist := new UTXOlist();
      FirstCoinsLength(walletsIds, coins);
      NoCoins(utxoSets);
      assert list[..0] == [];
      for i := 0 to |walletsIds|
        invariant fresh(initUtxolist) && initTxId == i % TWO_TO_32
        invariant initUtxolist.utxolist == list[..i]
        invariant utxoSets == WithCoins(old(utxoSets), list[..i])
      {
        var id := walletsIds[i];
        var utxo := UTXO(initTxId, 0, Output(coins, id));
        FirstCoin(walletsIds, coins, i);
        OneMoreCoin(old(utxoSets), list, i);
        initTxId := (initTxId + 1) % TWO_TO_32;
        var own := UtxoSet(id);
        utxoSets := utxoSets[id := own + [utxo]];
        initUtxolist.Add(utxo);
      }
      assert list[..|walletsIds|] == list;
      all := initUtxolist.utxolist;
    }

    /**
     * The leader's next block, from the newest pooled transaction to the oldest. Result 0 means that
     * there was nothing to do; a block that is already finalized ends in an exception.
     */
    method CreateBlk(bx: Block) returns (o: Outcome, made: int)
      requires node.isLead
      modifies this`memoryPool, this`utxoSets, bx
      ensures old(memoryPool) == [] ==>
        o == Ok && made == 0 && memoryPool == [] && utxoSets == old(utxoSets) && bx.Value() == old(bx.Value())
      ensures old(memoryPool) != [] && old(bx.isMutable) ==>
        var txs := Build(old(utxoSets), walletsIds, old(bx.txs), old(memoryPool));
        && o == Ok && made == 1 && memoryPool == []
        && utxoSets == LookedUp(old(utxoSets), old(memoryPool))
        && bx.Value() == old(bx.Value()).(txs := txs, isMutable := false,
             header := old(bx.header).(merkleRoot := RootOf(node.codec.h, txs)))
      ensures old(memoryPool) != [] && !old(bx.isMutable) ==>
        o.Thrown? && bx.Value() == old(bx.Value()) && memoryPool < old(memoryPool)
    {
      hide Joins, RootOf, LookedUp, Build;
      made := 0;
      if memoryPool == [] {
        return Ok, made;
      }
      ghost var sets, pool := utxoSets, memoryPool;
      while memoryPool != []
        invariant memoryPool <= pool
        invariant forall id :: Of(utxoSets, id) == Of(sets, id)
        invariant LookedUp(utxoSets, memoryPool) == LookedUp(sets, pool)
        invariant bx.Value() == old(bx.Value()).(txs := bx.txs)
        invariant !bx.isMutable ==> bx.txs == old(bx.txs)
        invariant Build(sets, walletsIds, bx.txs, memoryPool) == Build(sets, walletsIds, old(bx.txs), pool)
        decreases |memoryPool|
      {
        BuildStep(sets, walletsIds, bx.txs, memoryPool);
        LookedUpStep(utxoSets, memoryPool);
        SameJoins(sets, utxoSets, walletsIds, bx.txs, memoryPool[|memoryPool| - 1]);
        o := Consider(bx);
        if o.Thrown? {
          return o, made;
        }
      }
      BuildDone(sets, walletsIds, bx.txs);
      LookedUpDone(utxoSets);
      o := bx.Finalize(node.codec.h);
      if o.Ok? {
        made := 1;
      }
    }

    /** Take the newest transaction out of the pool, and into the block if it joins. */
    method Consider(bx: Block) returns (o: Outcome)
      requires memoryPool != []
      modifies this`memoryPool, this`utxoSets, bx
      ensures memoryPool == old(memoryPool)[..|old(memoryPool)| - 1]
      ensures var tx := old(memoryPool)[|old(memoryPool)| - 1];
        && utxoSets == (if tx.senderID in old(utxoSets) then old(utxoSets) else old(utxoSets)[tx.senderID := []])
        && var joins := Joins(old(utxoSets), walletsIds, old(bx.txs), tx);
           && (o.Thrown? <==> joins && !old(bx.isMutable))
           && bx.Value() ==
                if joins && o.Ok? then old(bx.Value()).(txs := old(bx.txs) + [tx]) else old(bx.Value())
    {
      hide Spendable, SharesInput;
      o := Ok;
      var curTx := memoryPool[|memoryPool| - 1];
      memoryPool := memoryPool[..|memoryPool| - 1];
      var walletId := curTx.senderID;
      var list := UtxoSet(walletId);
      var spendable := CheckSpendingConditions(curTx, list, walletsIds);
      if !spendable {
        return;
      }
      var consistent := bx.VerifyConsistent(curTx);
      if !consistent {
        return;
      }
      o := bx.AddTransaction(curTx);
    }

    /**
     * One turn of the leader's proposing: a new block takes the whole pool, is finalized, and goes out
     * signed as a SEND. Nothing happens on an empty pool.
     */
    method ProposeNext() returns (proposed: bool, ghost block: BlockValue)
      requires node.Valid() && node.isLead
      modifies this`memoryPool, this`utxoSets, node, node.myNextKeyPair
      ensures node.Valid() && memoryPool == [] && proposed == (old(memoryPool) != [])
      ensures utxoSets == LookedUp(old(utxoSets), old(memoryPool))
      ensures !proposed ==> node.State() == old(node.State())
      ensures proposed ==>
        && node.State() == Emit(node.TheEnv(), old(node.State()), SEND, block, 0)
        && !block.isMutable && block.header.merkleRoot == RootOf(node.codec.h, block.txs)
        && block.txs == Build(old(utxoSets), walletsIds, [], old(memoryPool))
        && GoodProposal(old(utxoSets), walletsIds, old(memoryPool), old(node.utxolist), old(node.walletIds), block.txs)
    {
      hide Build, LookedUp, RootOf, GoodProposal, StoreInv, Emit;
      BuiltIsGood(utxoSets, walletsIds, memoryPool, node.utxolist, node.walletIds);
      LookedUpDone(utxoSets);
      var blk := new Block.Empty();
      var o, made := CreateBlk(blk);
      block := blk.Value();
      proposed := made == 1;
      if proposed {
        o := node.Propose(blk.Value());
      }
    }
  }

  /** Every omitted transaction has a reason; every block of a safe pool is acceptable to the node. */
  ghost predicate GoodProposal(
      sets: Wallets, wallets: seq<u32>, pool: seq<Transaction>, list: seq<UTXO>, ids: seq<u32>, txs: seq<Transaction>)
  {
    && (forall tx :: tx in pool ==>
          || tx in txs
          || !Spendable(tx, Of(sets, tx.senderID), wallets)
          || exists other :: other in txs && SharesInput(other, tx))
    && (JoinsWallets(list, sets) && ids == wallets ==>
          && (SafePool(sets, wallets, pool) ==> BlockOk(txs, list, ids))
          && (BlockOk(txs, list, ids) <==> forall k :: 0 <= k < |txs| ==> Distinct(txs[k].inputs)))
  }

  lemma BuiltIsGood(sets: Wallets, wallets: seq<u32>, pool: seq<Transaction>, list: seq<UTXO>, ids: seq<u32>)
    ensures GoodProposal(sets, wallets, pool, list, ids, Build(sets, wallets, [], pool))
  {
    hide Spendable, SharesInput, Build, BlockOk, JoinsWallets, SafePool, Distinct;
    var txs := Build(sets, wallets, [], pool);
    forall tx | tx in pool
      ensures tx in txs || !Spendable(tx, Of(sets, tx.senderID), wallets)
        || exists other :: other in txs && SharesInput(other, tx)
    {
      LeftOutForAReason(sets, wallets, [], pool, tx);
    }
    if JoinsWallets(list, sets) && ids == wallets {
      BuiltBlockPasses(sets, wallets, pool, list);
      if SafePool(sets, wallets, pool) {
        SafePoolPasses(sets, wallets, pool, list);
      }
    }
  }

  lemma FirstCoinsLength(wallets: seq<u32>, coins: u64)
    ensures |FirstCoins(wallets, coins)| == |wallets|
  {
  }

  lemma FirstCoin(wallets: seq<u32>, coins: u64, i: nat)
    requires i < |wallets|
    ensures |FirstCoins(wallets, coins)| == |wallets|
    ensures FirstCoins(wallets, coins)[i] == UTXO(i % TWO_TO_32, 0, Output(coins, wallets[i]))
  {
  }

  lemma NoCoins(sets: Wallets)
    ensures WithCoins(sets, []) == sets
  {
  }

  lemma OneMoreCoin(sets: Wallets, list: seq<UTXO>, i: nat)
    requires i < |list|
    ensures WithCoins(sets, list[..i + 1]) == WithCoin(WithCoins(sets, list[..i]), list[i])
  {
    assert list[..i + 1][..i] == list[..i];
  }

  lemma SameJoins(sets: Wallets, more: Wallets, wallets: seq<u32>, txs: seq<Transaction>, tx: Transaction)
    requires forall id :: Of(more, id) == Of(sets, id)
    ensures Joins(more, wallets, txs, tx) == Joins(sets, wallets, txs, tx)
  {
  }

  lemma BuildStep(sets: Wallets, wallets: seq<u32>, txs: seq<Transaction>, pool: seq<Transaction>)
    requires pool != []
    ensures var tx, rest := pool[|pool| - 1], pool[..|pool| - 1];
      Build(sets, wallets, txs, pool)
        == Build(sets, wallets, if Joins(sets, wallets, txs, tx) then txs + [tx] else txs, rest)
  {
  }

  lemma BuildDone(sets: Wallets, wallets: seq<u32>, txs: seq<Transaction>)
    ensures Build(sets, wallets, txs, []) == txs
  {
  }

  lemma LookedUpStep(sets: Wallets, pool: seq<Transaction>)
    requires pool != []
    ensures var id := pool[|pool| - 1].senderID;
      LookedUp(sets, pool) == LookedUp(if id in sets then sets else sets[id := []], pool[..|pool| - 1])
  {
  }

  lemma LookedUpDone(sets: Wallets)
    ensures LookedUp(sets, []) == sets
  {
  }
}
