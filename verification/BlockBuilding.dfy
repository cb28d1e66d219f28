/** Which block a leader builds from its memory pool, and why it is acceptable and maximal. */
module BlockBuilding {
  import opened Common
  import opened Lamport
  import opened Ledger
  import opened Conservation

  type Wallets = map<u32, seq<UTXO>>

  /** The unspent outputs of one wallet; none if the wallet is not known. */
  function Of(sets: Wallets, id: u32): seq<UTXO> {
    if id in sets then sets[id] else []
  }

  ghost predicate NoneShares(txs: seq<Transaction>, tx: Transaction) {
    forall other :: other in txs ==> !SharesInput(other, tx)
  }

  /** A transaction joins the block if its sender can spend what it spends, and the block does not spend it yet. */
  ghost predicate Joins(sets: Wallets, wallets: seq<u32>, txs: seq<Transaction>, tx: Transaction) {
    Spendable(tx, Of(sets, tx.senderID), wallets) && NoneShares(txs, tx)
  }

  /** The transactions of a block after taking the whole pool, newest first. */
  ghost function Build(sets: Wallets, wallets: seq<u32>, txs: seq<Transaction>, pool: seq<Transaction>)
    : seq<Transaction>
    decreases |pool|
  {
    if pool == [] then txs
    else
      var tx, rest := pool[|pool| - 1], pool[..|pool| - 1];
      Build(sets, wallets, if Joins(sets, wallets, txs, tx) then txs + [tx] else txs, rest)
  }

  /** Looking up a sender creates an empty list for an unknown wallet. */
  function LookedUp(sets: Wallets, pool: seq<Transaction>): Wallets
    decreases |pool|
  {
    if pool == [] then sets
    else
      var id := pool[|pool| - 1].senderID;
      LookedUp(if id in sets then sets else sets[id := []], pool[..|pool| - 1])
  }

  // ----- what is in the block -----

  /** The block keeps what it had, and everything new comes from the pool. */
  lemma {:induction false} BuildTakesFromPool(
      sets: Wallets, wallets: seq<u32>, txs: seq<Transaction>, pool: seq<Transaction>)
    ensures var block := Build(sets, wallets, txs, pool);
      txs <= block && multiset(block) <= multiset(txs) + multiset(pool)
    decreases |pool|
  {
    hide Joins;
    if pool != [] {
      var tx, rest := pool[|pool| - 1], pool[..|pool| - 1];
      assert pool == rest + [tx];
      BuildTakesFromPool(sets, wallets, if Joins(sets, wallets, txs, tx) then txs + [tx] else txs, rest);
    }
  }

  /** Everything new was spendable by its sender. */
  lemma {:induction false} BuildTakesSpendables(
      sets: Wallets, wallets: seq<u32>, txs: seq<Transaction>, pool: seq<Transaction>)
    ensures var block := Build(sets, wallets, txs, pool);
      txs <= block && forall k :: |txs| <= k < |block| ==> Spendable(block[k], Of(sets, block[k].senderID), wallets)
    decreases |pool|
  {
    hide Spendable, NoneShares;
    if pool != [] {
      var tx, rest := pool[|pool| - 1], pool[..|pool| - 1];
      var more := if Joins(sets, wallets, txs, tx) then txs + [tx] else txs;
      BuildTakesSpendables(sets, wallets, more, rest);
      if Joins(sets, wallets, txs, tx) {
        assert Build(sets, wallets, more, rest)[|txs|] == more[|txs|] == tx;
      }
    }
  }

  ghost predicate NoSharing(txs: seq<Transaction>) {
    forall i, j :: 0 <= i < j < |txs| ==> !SharesInput(txs[i], txs[j])
  }

  lemma {:induction false} BuildNeverShares(
      sets: Wallets, wallets: seq<u32>, txs: seq<Transaction>, pool: seq<Transaction>)
    requires NoSharing(txs)
    ensures NoSharing(Build(sets, wallets, txs, pool))
    decreases |pool|
  {
    hide Spendable, SharesInput;
    if pool != [] {
      var tx, rest := pool[|pool| - 1], pool[..|pool| - 1];
      BuildNeverShares(sets, wallets, if Joins(sets, wallets, txs, tx) then txs + [tx] else txs, rest);
    }
  }

  /** Maximality: a pooled transaction that is left out cannot be spent, or shares an input with the block. */
  lemma {:induction false} LeftOutForAReason(
      sets: Wallets, wallets: seq<u32>, txs: seq<Transaction>, pool: seq<Transaction>, tx: Transaction)
    requires tx in pool
    ensures var block := Build(sets, wallets, txs, pool);
      || tx in block
      || !Spendable(tx, Of(sets, tx.senderID), wallets)
      || exists other :: other in block && SharesInput(other, tx)
    decreases |pool|
  {
    hide Spendable, SharesInput;
    var last, rest := pool[|pool| - 1], pool[..|pool| - 1];
    var more := if Joins(sets, wallets, txs, last) then txs + [last] else txs;
    var block := Build(sets, wallets, more, rest);
    assert pool == rest + [last];
    BuildTakesFromPool(sets, wallets, more, rest);
    if tx == last {
      if Joins(sets, wallets, txs, last) {
        assert block[|txs|] == tx;
      } else if Spendable(tx, Of(sets, tx.senderID), wallets) {
        var other :| other in txs && SharesInput(other, tx);
        var k :| 0 <= k < |txs| && txs[k] == other;
        assert block[k] == other;
      }
    } else {
      LeftOutForAReason(sets, wallets, more, rest, tx);
    }
  }

  ghost predicate InPool(pool: seq<Transaction>, picked: seq<nat>) {
    forall p :: p in picked ==> p < |pool|
  }

  /** The transaction at position k shares no input with the newer ones that were picked. */
  ghost predicate FreeOfNewer(pool: seq<Transaction>, picked: seq<nat>, k: nat)
    requires k < |pool| && InPool(pool, picked)
  {
    forall p :: p in picked && k < p ==> !SharesInput(pool[p], pool[k])
  }

  /** Positions from the newest to the oldest. */
  ghost predicate NewestFirst(pool: seq<Transaction>, picked: seq<nat>) {
    InPool(pool, picked) && forall i, j :: 0 <= i < j < |picked| ==> picked[i] > picked[j]
  }

  /** The transactions of a pool at these positions, in this order. */
  ghost function At(pool: seq<Transaction>, picked: seq<nat>): seq<Transaction>
    requires NewestFirst(pool, picked)
  {
    seq(|picked|, i requires 0 <= i < |picked| => assert picked[i] in picked; pool[picked[i]])
  }

  /** A transaction is picked exactly if its sender can spend it and nothing before it in the block shares an input. */
  ghost predicate Greedy(
      sets: Wallets, wallets: seq<u32>, txs: seq<Transaction>, pool: seq<Transaction>, picked: seq<nat>)
    requires NewestFirst(pool, picked)
  {
    forall k :: 0 <= k < |pool| ==>
      (k in picked <==>
        && Spendable(pool[k], Of(sets, pool[k].senderID), wallets)
        && NoneShares(txs, pool[k]) && FreeOfNewer(pool, picked, k))
  }

  /** Which transactions are in the block, exactly, and where: the greedy choice from the newest on. */
  lemma {:induction false} BuildIsGreedy(
      sets: Wallets, wallets: seq<u32>, txs: seq<Transaction>, pool: seq<Transaction>)
    returns (picked: seq<nat>)
    ensures NewestFirst(pool, picked) && Greedy(sets, wallets, txs, pool, picked)
    ensures Build(sets, wallets, txs, pool) == txs + At(pool, picked)
    decreases |pool|
  {
    hide Joins, NewestFirst, Greedy, At;
    picked := [];
    if pool == [] {
      NothingToPick(sets, wallets, txs);
    } else {
      var tx, rest := pool[|pool| - 1], pool[..|pool| - 1];
      if Joins(sets, wallets, txs, tx) {
        picked := BuildIsGreedy(sets, wallets, txs + [tx], rest);
        picked := PickNewest(sets, wallets, txs, pool, picked);
      } else {
        picked := BuildIsGreedy(sets, wallets, txs, rest);
        LeaveNewest(sets, wallets, txs, pool, picked);
      }
    }
  }

  lemma NothingToPick(sets: Wallets, wallets: seq<u32>, txs: seq<Transaction>)
    ensures NewestFirst([], []) && Greedy(sets, wallets, txs, [], []) && txs + At([], []) == txs
  {
  }

  lemma PickNewest(sets: Wallets, wallets: seq<u32>, txs: seq<Transaction>, pool: seq<Transaction>, older: seq<nat>)
    returns (picked: seq<nat>)
    requires pool != [] && Joins(sets, wallets, txs, pool[|pool| - 1]) && NewestFirst(pool[..|pool| - 1], older)
    requires Greedy(sets, wallets, txs + [pool[|pool| - 1]], pool[..|pool| - 1], older)
    ensures NewestFirst(pool, picked) && Greedy(sets, wallets, txs, pool, picked)
    ensures txs + At(pool, picked) == txs + [pool[|pool| - 1]] + At(pool[..|pool| - 1], older)
  {
    hide Spendable, SharesInput, FreeOfNewer;
    var n, tx, rest := |pool| - 1, pool[|pool| - 1], pool[..|pool| - 1];
    picked := [n] + older;
    NewestGoesFirst(pool, older);
    assert forall k :: k in picked <==> k in older || k == n;
    forall k | 0 <= k < |pool|
      ensures k in picked <==>
        && Spendable(pool[k], Of(sets, pool[k].senderID), wallets)
        && NoneShares(txs, pool[k]) && FreeOfNewer(pool, picked, k)
    {
      FreeOfOneNewer(pool, older, picked, k);
      if k < n {
        assert rest[k] == pool[k];
        assert NoneShares(txs + [tx], pool[k]) <==> NoneShares(txs, pool[k]) && !SharesInput(tx, pool[k]);
      }
    }
  }

  lemma LeaveNewest(sets: Wallets, wallets: seq<u32>, txs: seq<Transaction>, pool: seq<Transaction>, older: seq<nat>)
    requires pool != [] && !Joins(sets, wallets, txs, pool[|pool| - 1]) && NewestFirst(pool[..|pool| - 1], older)
    requires Greedy(sets, wallets, txs, pool[..|pool| - 1], older)
    ensures NewestFirst(pool, older) && Greedy(sets, wallets, txs, pool, older)
    ensures At(pool, older) == At(pool[..|pool| - 1], older)
  {
    hide Spendable, SharesInput, FreeOfNewer, NoneShares;
    var n, rest := |pool| - 1, pool[..|pool| - 1];
    NewestGoesFirst(pool, older);
    forall k | 0 <= k < |pool|
      ensures k in older <==>
        && Spendable(pool[k], Of(sets, pool[k].senderID), wallets)
        && NoneShares(txs, pool[k]) && FreeOfNewer(pool, older, k)
    {
      FreeOfOneNewer(pool, older, older, k);
      assert k < n ==> rest[k] == pool[k];
    }
  }

  lemma NewestGoesFirst(pool: seq<Transaction>, older: seq<nat>)
    requires pool != [] && NewestFirst(pool[..|pool| - 1], older)
    ensures var n, rest := |pool| - 1, pool[..|pool| - 1];
      && NewestFirst(pool, older) && At(pool, older) == At(rest, older)
      && NewestFirst(pool, [n] + older) && At(pool, [n] + older) == [pool[n]] + At(rest, older)
  {
    var n := |pool| - 1;
    var picked := [n] + older;
    forall i, j | 0 <= i < j < |picked| ensures picked[i] > picked[j] {
      assert picked[j] == older[j - 1] && older[j - 1] in older;
      assert i > 0 ==> picked[i] == older[i - 1];
    }
    forall i | 0 <= i < |older| ensures older[i] < n && picked[i + 1] == older[i] {
      assert older[i] in older;
    }
  }

  /** The newest transaction is free of newer ones; an older one need not share with it if it is picked. */
  lemma FreeOfOneNewer(pool: seq<Transaction>, older: seq<nat>, picked: seq<nat>, k: nat)
    requires pool != [] && k < |pool| && InPool(pool[..|pool| - 1], older)
    requires picked == older || picked == [|pool| - 1] + older
    ensures InPool(pool, picked)
    ensures if k == |pool| - 1 then FreeOfNewer(pool, picked, k)
      else FreeOfNewer(pool, picked, k) <==>
             && FreeOfNewer(pool[..|pool| - 1], older, k)
             && (|pool| - 1 in picked ==> !SharesInput(pool[|pool| - 1], pool[k]))
  {
    hide SharesInput;
    var n, rest := |pool| - 1, pool[..|pool| - 1];
    assert forall p :: p in picked ==> p in older || p == n;
    assert forall p :: p in older ==> p in picked && p < n && rest[p] == pool[p];
  }

  // ----- the node's list -----

  /** No two entries of the list are outputs of the same transaction with the same index. */
  ghost predicate UniqueOutpoints(list: seq<UTXO>) {
    forall i, j :: 0 <= i < j < |list| ==>
      list[i].transactionId != list[j].transactionId || list[i].outputIndex != list[j].outputIndex
  }

  ghost predicate InSomeWallet(utxo: UTXO, sets: Wallets) {
    exists id :: id in sets && utxo in sets[id]
  }

  /** The list and the wallets' lists have the same entries. */
  ghost predicate SameEntries(list: seq<UTXO>, sets: Wallets) {
    && (forall id, k :: id in sets && 0 <= k < |sets[id]| ==> sets[id][k] in list)
    && (forall k :: 0 <= k < |list| ==> InSomeWallet(list[k], sets))
  }

  /** The node's list joins the wallets' lists. */
  ghost predicate JoinsWallets(list: seq<UTXO>, sets: Wallets) {
    UniqueOutpoints(list) && SameEntries(list, sets)
  }

  lemma SpendsOne(list: seq<UTXO>, input: Input, a: UTXO, b: UTXO)
    requires UniqueOutpoints(list) && a in list && b in list && Spends(input, a) && Spends(input, b)
    ensures a == b
  {
    var i :| 0 <= i < |list| && list[i] == a;
    var j :| 0 <= j < |list| && list[j] == b;
    assert i == j || i < j || j < i;
  }

  /** An input that finds an entry in a part of the list finds the same entry in the whole list. */
  lemma SameEntry(list: seq<UTXO>, part: seq<UTXO>, input: Input)
    requires UniqueOutpoints(list) && (forall k :: 0 <= k < |part| ==> part[k] in list)
    requires Position(part, input).Some?
    ensures Position(list, input).Some? && SpentValue(list, input) == SpentValue(part, input)
  {
    var entry := part[Position(part, input).value];
    assert entry in list && Spends(input, entry);
    if Position(list, input).Some? {
      SpendsOne(list, input, entry, list[Position(list, input).value]);
    }
  }

  lemma {:induction false} SameInputTotal(list: seq<UTXO>, part: seq<UTXO>, inputs: seq<Input>)
    requires UniqueOutpoints(list) && (forall k :: 0 <= k < |part| ==> part[k] in list)
    requires forall input :: input in inputs ==> Position(part, input).Some?
    ensures InputTotal(list, inputs) == InputTotal(part, inputs)
    ensures forall input :: input in inputs ==> Position(list, input).Some?
  {
    hide Position, SpentValue, UniqueOutpoints;
    if inputs != [] {
      SameInputTotal(list, part, inputs[..|inputs| - 1]);
      SameEntry(list, part, inputs[|inputs| - 1]);
    }
  }

  /** What a wallet can spend, the node's list can spend. */
  lemma SpendableInTheWhole(tx: Transaction, list: seq<UTXO>, sets: Wallets, wallets: seq<u32>)
    requires JoinsWallets(list, sets) && Spendable(tx, Of(sets, tx.senderID), wallets)
    ensures Spendable(tx, list, wallets)
  {
    hide UniqueOutpoints, Position;
    if tx.inputs != [] {
      SameInputTotal(list, Of(sets, tx.senderID), tx.inputs);
    }
  }

  /** A block's inputs are distinct exactly when they are within each transaction and across transactions. */
  lemma {:induction false} DistinctInputs(txs: seq<Transaction>)
    ensures Distinct(AllInputs(txs)) <==>
      NoSharing(txs) && forall k :: 0 <= k < |txs| ==> Distinct(txs[k].inputs)
  {
    if txs != [] {
      var front, tx := txs[..|txs| - 1], txs[|txs| - 1];
      DistinctInputs(front);
      DistinctConcat(AllInputs(front), tx.inputs);
      InputsOfAll(front, tx);
      assert txs == front + [tx];
      NoSharingOneMore(front, tx);
    }
  }

  lemma NoSharingOneMore(front: seq<Transaction>, tx: Transaction)
    ensures NoSharing(front + [tx]) <==> NoSharing(front) && NoneShares(front, tx)
  {
    hide SharesInput;
    var txs := front + [tx];
    if NoSharing(txs) {
      forall i, j | 0 <= i < j < |front| ensures !SharesInput(front[i], front[j]) {
        assert txs[i] == front[i] && txs[j] == front[j];
      }
      forall other | other in front ensures !SharesInput(other, tx) {
        var i :| 0 <= i < |front| && front[i] == other;
        assert txs[i] == other && txs[|front|] == tx;
      }
    }
  }

  lemma DistinctConcat<T>(a: seq<T>, b: seq<T>)
    ensures Distinct(a + b) <==> Distinct(a) && Distinct(b) && forall x :: x in a ==> x !in b
  {
    var c := a + b;
    if Distinct(c) {
      forall i, j | 0 <= i < j < |b| ensures b[i] != b[j] {
        assert c[|a| + i] == b[i] && c[|a| + j] == b[j];
      }
      forall x | x in a ensures x !in b {
        var i :| 0 <= i < |a| && a[i] == x;
        assert forall j :: 0 <= j < |b| ==> c[|a| + j] == b[j];
        assert c[i] == x;
      }
      assert forall i :: 0 <= i < |a| ==> c[i] == a[i];
    }
    if Distinct(a) && Distinct(b) && forall x :: x in a ==> x !in b {
      forall i, j | 0 <= i < j < |c| ensures c[i] != c[j] {
        if i < |a| {
          assert c[i] in a;
        }
      }
    }
  }

  lemma {:induction false} InputsOfAll(txs: seq<Transaction>, tx: Transaction)
    ensures NoneShares(txs, tx) <==> forall x :: x in AllInputs(txs) ==> x !in tx.inputs
  {
    if txs != [] {
      var front, last := txs[..|txs| - 1], txs[|txs| - 1];
      InputsOfAll(front, tx);
      assert txs == front + [last];
      assert NoneShares(txs, tx) <==> NoneShares(front, tx) && !SharesInput(last, tx);
    }
  }

  /**
   * A block built from an empty one passes verification against the node's list if and only if each of
   * its transactions has pairwise distinct inputs.
   */
  lemma BuiltBlockPasses(sets: Wallets, wallets: seq<u32>, pool: seq<Transaction>, list: seq<UTXO>)
    requires JoinsWallets(list, sets)
    ensures var block := Build(sets, wallets, [], pool);
      BlockOk(block, list, wallets) <==> forall k :: 0 <= k < |block| ==> Distinct(block[k].inputs)
  {
    hide Spendable, JoinsWallets, Distinct, SharesInput;
    var block := Build(sets, wallets, [], pool);
    BuildTakesSpendables(sets, wallets, [], pool);
    BuildNeverShares(sets, wallets, [], pool);
    DistinctInputs(block);
    forall tx | tx in block ensures Spendable(tx, list, wallets) {
      var k :| 0 <= k < |block| && block[k] == tx;
      SpendableInTheWhole(tx, list, sets, wallets);
    }
  }

  // ----- which pools are safe -----

  /** No transaction that its sender could spend names an input twice. */
  ghost predicate SafePool(sets: Wallets, wallets: seq<u32>, pool: seq<Transaction>) {
    forall tx :: tx in pool && Spendable(tx, Of(sets, tx.senderID), wallets) ==> Distinct(tx.inputs)
  }

  /** A safe pool makes an acceptable block. */
  lemma SafePoolPasses(sets: Wallets, wallets: seq<u32>, pool: seq<Transaction>, list: seq<UTXO>)
    requires JoinsWallets(list, sets) && SafePool(sets, wallets, pool)
    ensures BlockOk(Build(sets, wallets, [], pool), list, wallets)
  {
    hide Spendable, Distinct, BlockOk, JoinsWallets;
    var block := Build(sets, wallets, [], pool);
    BuildTakesFromPool(sets, wallets, [], pool);
    BuildTakesSpendables(sets, wallets, [], pool);
    forall k | 0 <= k < |block| ensures Distinct(block[k].inputs) {
      assert block[k] in multiset(block);
      assert block[k] in pool;
    }
    BuiltBlockPasses(sets, wallets, pool, list);
  }

  /** If the newest transaction can be spent and names an input twice, the block is not acceptable. */
  lemma UnsafeNewestFails(
      sets: Wallets, wallets: seq<u32>, older: seq<Transaction>, tx: Transaction, list: seq<UTXO>)
    requires JoinsWallets(list, sets)
    requires Spendable(tx, Of(sets, tx.senderID), wallets) && !Distinct(tx.inputs)
    ensures !BlockOk(Build(sets, wallets, [], older + [tx]), list, wallets)
  {
    hide Spendable, Distinct, BlockOk, JoinsWallets;
    var pool := older + [tx];
    assert pool[|pool| - 1] == tx && pool[..|pool| - 1] == older && Joins(sets, wallets, [], tx);
    BuildTakesFromPool(sets, wallets, [tx], older);
    var block := Build(sets, wallets, [], pool);
    assert block == Build(sets, wallets, [] + [tx], older) && [] + [tx] == [tx];
    assert block[0] == tx;
    BuiltBlockPasses(sets, wallets, pool, list);
  }

  /**
   * Exactly when block building can be trusted: a pool is safe if and only if every pool made of its
   * transactions, in any order and any selection, makes a block that passes verification.
   */
  lemma SafePoolExactly(sets: Wallets, wallets: seq<u32>, pool: seq<Transaction>, list: seq<UTXO>)
    requires JoinsWallets(list, sets)
    ensures SafePool(sets, wallets, pool) <==>
      forall q :: (forall tx :: tx in q ==> tx in pool) ==> BlockOk(Build(sets, wallets, [], q), list, wallets)
  {
    hide Spendable, Distinct, BlockOk, JoinsWallets, Build;
    if SafePool(sets, wallets, pool) {
      forall q: seq<Transaction> | forall tx :: tx in q ==> tx in pool
        ensures BlockOk(Build(sets, wallets, [], q), list, wallets)
      {
        SafePoolPasses(sets, wallets, q, list);
      }
    } else {
      var tx :| tx in pool && Spendable(tx, Of(sets, tx.senderID), wallets) && !Distinct(tx.inputs);
      UnsafeNewestFails(sets, wallets, [], tx, list);
      assert [] + [tx] == [tx];
      assert forall y :: y in [tx] ==> y in pool;
    }
  }

  /** A pool that is not safe: one transaction that spends the same entry twice. */
  lemma SpendsTwice(key: SigKey)
    returns (sets: Wallets, wallets: seq<u32>, pool: seq<Transaction>, list: seq<UTXO>)
    ensures JoinsWallets(list, sets) && Build(sets, wallets, [], pool) == pool
    ensures !BlockOk(pool, list, wallets)
  {
    var entry, input := UTXO(1, 0, Output(5, 7)), Input(1, 0);
    var tx := Transaction([input, input], [Output(10, 7)], [], 7, 2, key);
    sets, wallets, pool, list := map[7 := [entry]], [7], [tx], [entry];
    SpendableTwice(tx, entry, input);
    assert tx.inputs[0] == tx.inputs[1];
    assert InSomeWallet(list[0], sets) by { assert entry in sets[7]; }
    UnsafeNewestFails(sets, wallets, [], tx, list);
    BuildOne(sets, wallets, tx);
  }

  lemma BuildOne(sets: Wallets, wallets: seq<u32>, tx: Transaction)
    requires Spendable(tx, Of(sets, tx.senderID), wallets)
    ensures Build(sets, wallets, [], [tx]) == [tx] && [] + [tx] == [tx]
  {
    hide Spendable;
    assert [tx][..0] == [] && Joins(sets, wallets, [], tx);
    assert Build(sets, wallets, [tx], []) == [tx];
  }

  lemma SpendableTwice(tx: Transaction, entry: UTXO, input: Input)
    requires Spends(input, entry) && tx.inputs == [input, input] && |tx.outputs| == 1
    requires tx.outputs[0].value == 2 * entry.output.value
    ensures Spendable(tx, [entry], [tx.outputs[0].receiverID])
  {
    var list := [entry];
    assert Position(list, input) == Some(0);
    assert [input, input][..1] == [input] && [input][..0] == [] && tx.outputs[..0] == [];
    assert InputTotal(list, [input]) == SpentValue(list, input);
    assert InputTotal(list, tx.inputs) == 2 * entry.output.value;
    assert tx.outputs == [tx.outputs[0]];
    assert OutputTotal(tx.outputs) == tx.outputs[0].value;
  }

  // ----- the lists after building -----

  lemma {:induction false} LookingUpAddsNothing(sets: Wallets, pool: seq<Transaction>, id: u32)
    ensures Of(LookedUp(sets, pool), id) == Of(sets, id)
    ensures id in sets ==> id in LookedUp(sets, pool)
    decreases |pool|
  {
    if pool != [] {
      var sender := pool[|pool| - 1].senderID;
      LookingUpAddsNothing(if sender in sets then sets else sets[sender := []], pool[..|pool| - 1], id);
    }
  }

  /** Building a block leaves the wallets ready for the next one. */
  lemma StillJoined(list: seq<UTXO>, sets: Wallets, pool: seq<Transaction>)
    requires JoinsWallets(list, sets)
    ensures JoinsWallets(list, LookedUp(sets, pool))
  {
    hide LookedUp, UniqueOutpoints;
    var after := LookedUp(sets, pool);
    forall id, k | id in after && 0 <= k < |after[id]| ensures after[id][k] in list {
      LookingUpAddsNothing(sets, pool, id);
    }
    forall k | 0 <= k < |list| ensures InSomeWallet(list[k], after) {
      assert InSomeWallet(list[k], sets);
      var id :| id in sets && list[k] in sets[id];
      LookingUpAddsNothing(sets, pool, id);
      assert list[k] in after[id];
    }
  }

  // ----- the first coins -----

  /** One output of the same value for each wallet in turn, with increasing transaction numbers. */
  function FirstCoins(wallets: seq<u32>, coins: u64): seq<UTXO> {
    seq(|wallets|, i requires 0 <= i < |wallets| => UTXO(i % TWO_TO_32, 0, Output(coins, wallets[i])))
  }

  function WithCoin(sets: Wallets, utxo: UTXO): Wallets {
    sets[utxo.output.receiverID := Of(sets, utxo.output.receiverID) + [utxo]]
  }

  function WithCoins(sets: Wallets, list: seq<UTXO>): Wallets {
    if list == [] then sets else WithCoin(WithCoins(sets, list[..|list| - 1]), list[|list| - 1])
  }

  lemma {:induction false} CoinsInTheirWallets(list: seq<UTXO>)
    ensures SameEntries(list, WithCoins(map[], list))
  {
    if list != [] {
      var front, last := list[..|list| - 1], list[|list| - 1];
      CoinsInTheirWallets(front);
      assert list == front + [last];
      CoinInItsWallet(front, WithCoins(map[], front), last);
    }
  }

  lemma CoinInItsWallet(front: seq<UTXO>, sets: Wallets, last: UTXO)
    requires SameEntries(front, sets)
    ensures SameEntries(front + [last], WithCoin(sets, last))
  {
    var list, more, w := front + [last], WithCoin(sets, last), last.output.receiverID;
    forall id, k | id in more && 0 <= k < |more[id]| ensures more[id][k] in list {
      if id != w {
        assert more[id] == sets[id] && sets[id][k] in front;
      } else if k < |Of(sets, w)| {
        assert more[w][k] == sets[w][k] && sets[w][k] in front;
      } else {
        assert more[w][k] == last == list[|front|];
      }
    }
    forall k | 0 <= k < |list| ensures InSomeWallet(list[k], more) {
      if k < |front| {
        assert InSomeWallet(front[k], sets);
        var id :| id in sets && front[k] in sets[id];
        assert list[k] in more[id];
      } else {
        assert more[w][|Of(sets, w)|] == last;
        assert list[k] in more[w];
      }
    }
  }

  lemma FirstCoinsAreUnique(wallets: seq<u32>, coins: u64)
    requires |wallets| <= TWO_TO_32
    ensures UniqueOutpoints(FirstCoins(wallets, coins))
  {
    assert forall i :: 0 <= i < |wallets| ==> FirstCoins(wallets, coins)[i].transactionId == i;
  }

  /** Coins handed out to wallets that had none: the node's list joins the wallets' lists. */
  lemma FirstCoinsJoin(wallets: seq<u32>, coins: u64)
    requires |wallets| <= TWO_TO_32
    ensures JoinsWallets(FirstCoins(wallets, coins), WithCoins(map[], FirstCoins(wallets, coins)))
  {
    hide FirstCoins, SameEntries, UniqueOutpoints;
    var list := FirstCoins(wallets, coins);
    CoinsInTheirWallets(list);
    FirstCoinsAreUnique(wallets, coins);
  }

  lemma NoFirstCoins(coins: u64)
    ensures FirstCoins([], coins) == []
  {
  }

  lemma FewerCoins(wallets: seq<u32>, coins: u64)
    requires wallets != []
    ensures var n, list := |wallets| - 1, FirstCoins(wallets, coins);
      list[..n] == FirstCoins(wallets[..n], coins) && list[n] == UTXO(n % TWO_TO_32, 0, Output(coins, wallets[n]))
      && |list| == n + 1
  {
  }

  /** Every wallet gets as many coins as it is listed times, each of the same value and for itself. */
  lemma {:induction false} WalletGetsItsCoins(sets: Wallets, wallets: seq<u32>, coins: u64, id: u32)
    ensures var had, has := Of(sets, id), Of(WithCoins(sets, FirstCoins(wallets, coins)), id);
      && had <= has && |has| == |had| + multiset(wallets)[id]
      && forall k :: |had| <= k < |has| ==> has[k].output == Output(coins, id)
  {
    hide FirstCoins;
    if wallets == [] {
      NoFirstCoins(coins);
    } else {
      var n := |wallets| - 1;
      WalletGetsItsCoins(sets, wallets[..n], coins, id);
      FewerCoins(wallets, coins);
      assert wallets == wallets[..n] + [wallets[n]];
    }
  }

  /** The first coins are worth the coin's value once for each wallet listed. */
  lemma {:induction false} FirstCoinsAreWorth(wallets: seq<u32>, coins: u64)
    ensures ListTotal(FirstCoins(wallets, coins)) == coins * |wallets|
  {
    hide FirstCoins;
    if wallets == [] {
      NoFirstCoins(coins);
    } else {
      FirstCoinsAreWorth(wallets[..|wallets| - 1], coins);
      FewerCoins(wallets, coins);
    }
  }
}
