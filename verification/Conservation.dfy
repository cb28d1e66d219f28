/** What an accepted block does to the total value of the ledger. */
module Conservation {
  import opened Common
  import opened Lamport
  import opened Ledger

  // ----- sums -----

  function ListTotal(list: seq<UTXO>): int {
    if list == [] then 0 else ListTotal(list[..|list| - 1]) + list[|list| - 1].output.value
  }

  /** Every entry counts once, with its value, wherever it stands. */
  lemma {:induction false} EveryEntryCounts(a: seq<UTXO>, entry: UTXO, b: seq<UTXO>)
    ensures ListTotal(a + [entry] + b) == ListTotal(a + b) + entry.output.value
  {
    if b == [] {
      assert a + [entry] + b == a + [entry] && a + b == a;
    } else {
      var n := |b| - 1;
      EveryEntryCounts(a, entry, b[..n]);
      assert (a + [entry] + b)[..|a| + 1 + n] == a + [entry] + b[..n];
      assert (a + b)[..|a| + n] == a + b[..n];
    }
  }

  ghost predicate Inside(ps: seq<nat>, n: nat) {
    forall k :: 0 <= k < |ps| ==> ps[k] < n
  }

  /** The sum of the values at some positions of the list. */
  function ValuesAt(list: seq<UTXO>, ps: seq<nat>): int
    requires Inside(ps, |list|)
  {
    if ps == [] then 0 else ValuesAt(list, ps[..|ps| - 1]) + list[ps[|ps| - 1]].output.value
  }

  lemma {:induction false} ValuesAtShorter(list: seq<UTXO>, n: nat, ps: seq<nat>)
    requires n <= |list| && Inside(ps, n)
    ensures ValuesAt(list[..n], ps) == ValuesAt(list, ps)
  {
    if ps != [] {
      ValuesAtShorter(list, n, ps[..|ps| - 1]);
    }
  }

  lemma {:induction false} ValuesAtWithout(list: seq<UTXO>, ps: seq<nat>, k: nat)
    requires Inside(ps, |list|) && k < |ps|
    ensures Inside(ps[..k] + ps[k + 1..], |list|)
    ensures ValuesAt(list, ps) == ValuesAt(list, ps[..k] + ps[k + 1..]) + list[ps[k]].output.value
  {
    var rest := ps[..k] + ps[k + 1..];
    if k == |ps| - 1 {
      assert rest == ps[..k];
    } else {
      ValuesAtWithout(list, ps[..|ps| - 1], k);
      assert rest[..|rest| - 1] == ps[..|ps| - 1][..k] + ps[..|ps| - 1][k + 1..];
    }
  }

  /** Distinct positions cannot hold more than the whole list. */
  lemma {:induction false} DistinctPositionsHoldAtMostAll(list: seq<UTXO>, ps: seq<nat>)
    requires Inside(ps, |list|) && Distinct(ps)
    ensures 0 <= ValuesAt(list, ps) <= ListTotal(list)
  {
    if list != [] {
      var n := |list| - 1;
      if n in ps {
        var k :| 0 <= k < |ps| && ps[k] == n;
        var rest := ps[..k] + ps[k + 1..];
        ValuesAtWithout(list, ps, k);
        assert Inside(rest, n);
        ValuesAtShorter(list, n, rest);
        DistinctPositionsHoldAtMostAll(list[..n], rest);
      } else {
        ValuesAtShorter(list, n, ps);
        DistinctPositionsHoldAtMostAll(list[..n], ps);
      }
    }
  }

  // ----- what a block spends -----

  ghost predicate AllFound(list: seq<UTXO>, inputs: seq<Input>) {
    forall input :: input in inputs ==> Position(list, input).Some?
  }

  /** Where the inputs find their entries. */
  function Positions(list: seq<UTXO>, inputs: seq<Input>): (ps: seq<nat>)
    requires AllFound(list, inputs)
    ensures |ps| == |inputs| && Inside(ps, |list|)
  {
    seq(|inputs|, i requires 0 <= i < |inputs| => Position(list, inputs[i]).value)
  }

  lemma {:induction false} InputTotalIsValuesAt(list: seq<UTXO>, inputs: seq<Input>)
    requires AllFound(list, inputs)
    ensures InputTotal(list, inputs) == ValuesAt(list, Positions(list, inputs))
  {
    if inputs != [] {
      var front := inputs[..|inputs| - 1];
      InputTotalIsValuesAt(list, front);
      assert Positions(list, inputs)[..|inputs| - 1] == Positions(list, front);
    }
  }

  /** Different inputs never find the same entry. */
  lemma DistinctInputsDistinctPositions(list: seq<UTXO>, inputs: seq<Input>)
    requires AllFound(list, inputs) && Distinct(inputs)
    ensures Distinct(Positions(list, inputs))
  {
    hide Position;
    forall i, j | 0 <= i < j < |inputs|
      ensures Position(list, inputs[i]) != Position(list, inputs[j])
    {
      assert inputs[i] in inputs && inputs[j] in inputs && inputs[i] != inputs[j];
      PositionSpends(list, inputs[i]);
      PositionSpends(list, inputs[j]);
    }
  }

  lemma PositionSpends(list: seq<UTXO>, input: Input)
    requires Position(list, input).Some?
    ensures Position(list, input).value < |list| && Spends(input, list[Position(list, input).value])
  {
  }

  function BlockOutputs(txs: seq<Transaction>): int {
    if txs == [] then 0 else BlockOutputs(txs[..|txs| - 1]) + OutputTotal(txs[|txs| - 1].outputs)
  }

  /** How many times the two totals of a transaction differ by 2^32: what a 32-bit comparison cannot see. */
  function Overflow(tx: Transaction, list: seq<UTXO>): int {
    OutputTotal(tx.outputs) / TWO_TO_32 - InputTotal(list, tx.inputs) / TWO_TO_32
  }

  function BlockOverflow(txs: seq<Transaction>, list: seq<UTXO>): int {
    if txs == [] then 0 else BlockOverflow(txs[..|txs| - 1], list) + Overflow(txs[|txs| - 1], list)
  }

  lemma SpendableBalance(tx: Transaction, list: seq<UTXO>, wallets: seq<u32>)
    requires Spendable(tx, list, wallets)
    ensures OutputTotal(tx.outputs) == InputTotal(list, tx.inputs) + TWO_TO_32 * Overflow(tx, list)
    ensures AllFound(list, tx.inputs)
  {
  }

  lemma {:induction false} InputTotalAppend(list: seq<UTXO>, a: seq<Input>, b: seq<Input>)
    ensures InputTotal(list, a + b) == InputTotal(list, a) + InputTotal(list, b)
  {
    if b == [] {
      assert a + b == a;
    } else {
      InputTotalAppend(list, a, b[..|b| - 1]);
      assert (a + b)[..|a + b| - 1] == a + b[..|b| - 1];
    }
  }

  lemma {:induction false} BlockBalance(txs: seq<Transaction>, list: seq<UTXO>, wallets: seq<u32>)
    requires forall tx :: tx in txs ==> Spendable(tx, list, wallets)
    ensures AllFound(list, AllInputs(txs))
    ensures BlockOutputs(txs) == InputTotal(list, AllInputs(txs)) + TWO_TO_32 * BlockOverflow(txs, list)
  {
    hide Spendable, InputTotal, OutputTotal, Position, Overflow;
    if txs == [] {
      NoInputsNoTotal(list);
    } else {
      var front, tx := txs[..|txs| - 1], txs[|txs| - 1];
      assert tx in txs;
      BlockBalance(front, list, wallets);
      SpendableBalance(tx, list, wallets);
      InputTotalAppend(list, AllInputs(front), tx.inputs);
    }
  }

  lemma NoInputsNoTotal(list: seq<UTXO>)
    ensures InputTotal(list, []) == 0
  {
  }

  /**
   * What an accepted block does, for all blocks and lists. It spends pairwise distinct entries, and
   * its outputs differ from their sum by a multiple of 2^32.
   */
  lemma AcceptedBlockBalance(txs: seq<Transaction>, list: seq<UTXO>, wallets: seq<u32>) returns (spent: seq<nat>)
    requires BlockOk(txs, list, wallets)
    ensures |spent| == |AllInputs(txs)| && Inside(spent, |list|) && Distinct(spent)
    ensures forall k :: 0 <= k < |spent| ==> Spends(AllInputs(txs)[k], list[spent[k]])
    ensures ValuesAt(list, spent) <= ListTotal(list)
    ensures BlockOutputs(txs) == ValuesAt(list, spent) + TWO_TO_32 * BlockOverflow(txs, list)
  {
    hide Spendable, InputTotal, BlockOverflow, BlockOutputs, ValuesAt, Position;
    var inputs := AllInputs(txs);
    BlockBalance(txs, list, wallets);
    spent := Positions(list, inputs);
    InputTotalIsValuesAt(list, inputs);
    DistinctInputsDistinctPositions(list, inputs);
    DistinctPositionsHoldAtMostAll(list, spent);
    forall k | 0 <= k < |spent| ensures Spends(inputs[k], list[spent[k]]) {
      assert inputs[k] in inputs;
      PositionSpends(list, inputs[k]);
    }
  }

  /** The block's outputs are worth exactly what it spends if and only if the overflows cancel. */
  lemma ConservesExactly(txs: seq<Transaction>, list: seq<UTXO>, wallets: seq<u32>)
    requires BlockOk(txs, list, wallets)
    ensures BlockOutputs(txs) == InputTotal(list, AllInputs(txs)) <==> BlockOverflow(txs, list) == 0
  {
    BlockBalance(txs, list, wallets);
  }

  /** The 32-bit comparison sees all there is to see of this transaction. */
  predicate HighWordsAgree(tx: Transaction, list: seq<UTXO>) {
    OutputTotal(tx.outputs) / TWO_TO_32 == InputTotal(list, tx.inputs) / TWO_TO_32
  }

  /** What the transactions up to the n-th create is what they spend. */
  ghost predicate BalancedUpTo(txs: seq<Transaction>, list: seq<UTXO>, n: nat)
    requires n <= |txs|
  {
    BlockOutputs(txs[..n]) == InputTotal(list, AllInputs(txs[..n]))
  }

  lemma BlockOverflowStep(txs: seq<Transaction>, list: seq<UTXO>, n: nat)
    requires n < |txs|
    ensures BlockOverflow(txs[..n + 1], list) == BlockOverflow(txs[..n], list) + Overflow(txs[n], list)
  {
    assert txs[..n + 1][..n] == txs[..n];
  }

  /**
   * Value is conserved transaction by transaction through the whole block if and only if the totals of
   * each transaction agree above their low 32 bits.
   */
  lemma {:induction false} HighWordsDecide(txs: seq<Transaction>, list: seq<UTXO>, wallets: seq<u32>)
    requires forall tx :: tx in txs ==> Spendable(tx, list, wallets)
    ensures (forall n :: 0 <= n <= |txs| ==> BalancedUpTo(txs, list, n))
       <==> forall k :: 0 <= k < |txs| ==> HighWordsAgree(txs[k], list)
  {
    hide Spendable, InputTotal, OutputTotal, AllInputs, BlockOutputs;
    forall n | 0 <= n <= |txs| ensures BalancedUpTo(txs, list, n) <==> BlockOverflow(txs[..n], list) == 0 {
      BlockBalance(txs[..n], list, wallets);
    }
    forall n | 0 <= n < |txs|
      ensures BlockOverflow(txs[..n + 1], list) == BlockOverflow(txs[..n], list) + Overflow(txs[n], list)
    {
      BlockOverflowStep(txs, list, n);
    }
    if forall n :: 0 <= n <= |txs| ==> BalancedUpTo(txs, list, n) {
      forall k | 0 <= k < |txs| ensures HighWordsAgree(txs[k], list) {
        assert BalancedUpTo(txs, list, k) && BalancedUpTo(txs, list, k + 1);
      }
    }
    if forall k :: 0 <= k < |txs| ==> HighWordsAgree(txs[k], list) {
      forall n | 0 <= n <= |txs| ensures BalancedUpTo(txs, list, n) {
        NoOverflowUpTo(txs, list, n);
      }
    }
  }

  lemma {:induction false} NoOverflowUpTo(txs: seq<Transaction>, list: seq<UTXO>, n: nat)
    requires n <= |txs| && forall k :: 0 <= k < |txs| ==> HighWordsAgree(txs[k], list)
    ensures BlockOverflow(txs[..n], list) == 0
  {
    if n > 0 {
      NoOverflowUpTo(txs, list, n - 1);
      BlockOverflowStep(txs, list, n - 1);
      assert HighWordsAgree(txs[n - 1], list);
    }
  }

  ghost predicate TotalsFit(tx: Transaction, list: seq<UTXO>) {
    0 <= InputTotal(list, tx.inputs) < TWO_TO_32 && 0 <= OutputTotal(tx.outputs) < TWO_TO_32
  }

  lemma {:induction false} NoOverflow(txs: seq<Transaction>, list: seq<UTXO>)
    requires forall tx :: tx in txs ==> TotalsFit(tx, list)
    ensures BlockOverflow(txs, list) == 0
  {
    if txs != [] {
      NoOverflow(txs[..|txs| - 1], list);
      assert txs[|txs| - 1] in txs;
    }
  }

  /**
   * Conservation. If no transaction's totals reach 2^32, an accepted block's outputs are worth exactly
   * the pairwise distinct entries it spends, and so at most the whole list.
   */
  lemma BlockConservation(txs: seq<Transaction>, list: seq<UTXO>, wallets: seq<u32>) returns (spent: seq<nat>)
    requires BlockOk(txs, list, wallets)
    requires forall tx :: tx in txs ==> TotalsFit(tx, list)
    ensures |spent| == |AllInputs(txs)| && Inside(spent, |list|) && Distinct(spent)
    ensures forall k :: 0 <= k < |spent| ==> Spends(AllInputs(txs)[k], list[spent[k]])
    ensures BlockOutputs(txs) == ValuesAt(list, spent) <= ListTotal(list)
  {
    hide BlockOk, ListTotal, ValuesAt, BlockOutputs, BlockOverflow;
    spent := AcceptedBlockBalance(txs, list, wallets);
    NoOverflow(txs, list);
  }

  lemma SingleTotals(tx: Transaction, input: Input, output: Output, entry: UTXO)
    requires Spends(input, entry)
    ensures OutputTotal([output]) == output.value && ListTotal([entry]) == entry.output.value
    ensures Position([entry], input) == Some(0) && InputTotal([entry], [input]) == entry.output.value
    ensures AllInputs([tx]) == tx.inputs && BlockOutputs([tx]) == OutputTotal(tx.outputs)
  {
    SingleEntry(input, entry);
    assert [output][..0] == [] && [entry][..0] == [] && [tx][..0] == [];
    SingleInput([entry], input);
  }

  lemma SingleEntry(input: Input, entry: UTXO)
    requires Spends(input, entry)
    ensures Position([entry], input) == Some(0)
  {
  }

  lemma SingleInput(list: seq<UTXO>, input: Input)
    ensures InputTotal(list, [input]) == SpentValue(list, input)
  {
    hide SpentValue;
    assert [input][..0] == [];
  }

  /** A block of one transaction with one input and one output. */
  lemma SingleBlockOk(tx: Transaction, entry: UTXO, wallet: u32)
    requires |tx.inputs| == 1 && Spends(tx.inputs[0], entry)
    requires |tx.outputs| == 1 && tx.outputs[0].receiverID == wallet
    requires tx.outputs[0].value % TWO_TO_32 == entry.output.value % TWO_TO_32
    ensures BlockOk([tx], [entry], [wallet])
  {
    hide InputTotal, OutputTotal, Position, AllInputs;
    SingleTotals(tx, tx.inputs[0], tx.outputs[0], entry);
    assert tx.inputs == [tx.inputs[0]] && tx.outputs == [tx.outputs[0]];
    assert Spendable(tx, [entry], [wallet]);
  }

  /** The bound is needed: an accepted block whose output is worth 2^32 more than the whole list. */
  lemma ValueFromOverflow(key: SigKey) returns (txs: seq<Transaction>, list: seq<UTXO>, wallets: seq<u32>)
    ensures BlockOk(txs, list, wallets)
    ensures BlockOutputs(txs) == ListTotal(list) + TWO_TO_32
  {
    hide BlockOk, BlockOutputs, ListTotal, OutputTotal, InputTotal, AllInputs;
    var entry, input, output := UTXO(1, 0, Output(7, 5)), Input(1, 0), Output(TWO_TO_32 + 7, 5);
    var tx := Transaction([input], [output], [], 5, 2, key);
    txs, list, wallets := [tx], [entry], [5];
    SingleTotals(tx, input, output, entry);
    SingleBlockOk(tx, entry, 5);
  }
}
