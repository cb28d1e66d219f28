/** Transactions, unspent outputs, and the checks that decide what a block may spend. */
module Ledger {
  import opened Common
  import opened Lamport

  const TWO_TO_31 := 0x8000_0000
  const TWO_TO_32 := 0x1_0000_0000

  type u16 = x: int | 0 <= x < 0x1_0000
  type u32 = x: int | 0 <= x < TWO_TO_32
  type u64 = x: int | 0 <= x < TWO_TO_64
  type i32 = x: int | -TWO_TO_31 <= x < TWO_TO_31

  datatype Input = Input(txID: u32, outputIndex: u64)

  datatype Output = Output(value: u64, receiverID: u32)

  datatype UTXO = UTXO(transactionId: u32, outputIndex: i32, output: Output)

  datatype Transaction = Transaction(
    inputs: seq<Input>,
    outputs: seq<Output>,
    senderSig: seq<Bytes>,
    senderID: u16,
    txID: u32,
    publicKey: SigKey)

  // ----- the order that the set of inputs relies on -----

  predicate InputLess(a: Input, b: Input) {
    if a.txID < b.txID then true
    else if a.txID == b.txID then a.outputIndex < b.outputIndex
    else false
  }

  /** A strict order, in which exactly equal inputs are incomparable: the set merges nothing else. */
  lemma InputOrder(a: Input, b: Input, c: Input)
    ensures !InputLess(a, a)
    ensures InputLess(a, b) && InputLess(b, c) ==> InputLess(a, c)
    ensures (!InputLess(a, b) && !InputLess(b, a)) <==> a == b
  {
  }

  // ----- machine integers -----

  /** A number stored in a 32-bit `int`. */
  function ToInt32(x: int): (r: i32)
    ensures (r - x) % TWO_TO_32 == 0
  {
    (x + TWO_TO_31) % TWO_TO_32 - TWO_TO_31
  }

  /** An `int` where an unsigned 64-bit number is expected. */
  function ToU64(x: i32): (r: u64)
    ensures (r - x) % TWO_TO_64 == 0
  {
    if x < 0 then x + TWO_TO_64 else x
  }

  /** `total += value` with an `int` total and a 64-bit value. */
  function AddTo(total: i32, value: u64): i32 {
    ToInt32((ToU64(total) + value) % TWO_TO_64)
  }

  lemma AddToWraps(sum: int, value: u64)
    ensures AddTo(ToInt32(sum), value) == ToInt32(sum + value)
  {
    var t := ToInt32(sum);
    var k := (sum + TWO_TO_31) / TWO_TO_32;
    assert sum == t + TWO_TO_32 * k;
    var w := ToU64(t) + value;
    var j := w / TWO_TO_64;
    assert w == TWO_TO_64 * j + w % TWO_TO_64;
    var m := TWO_TO_32 * j - (if t < 0 then TWO_TO_32 else 0) + k;
    assert sum + value == w % TWO_TO_64 + TWO_TO_32 * m;
    SameInt32(w % TWO_TO_64, m);
  }

  lemma SameInt32(x: int, m: int)
    ensures ToInt32(x + TWO_TO_32 * m) == ToInt32(x)
  {
  }

  /** Two sums look equal in 32 bits when they are equal modulo 2^32. */
  lemma Int32Equal(x: int, y: int)
    ensures ToInt32(x) == ToInt32(y) <==> x % TWO_TO_32 == y % TWO_TO_32
  {
  }

  // ----- spending conditions -----

  predicate Spends(input: Input, utxo: UTXO) {
    input.txID == utxo.transactionId && input.outputIndex == ToU64(utxo.outputIndex)
  }

  /** The position of the first entry that the input names; None if there is none. */
  function Position(list: seq<UTXO>, input: Input): (r: Option<nat>)
    ensures r.Some? ==> r.value < |list| && Spends(input, list[r.value])
    ensures r.Some? ==> forall i :: 0 <= i < r.value ==> !Spends(input, list[i])
    ensures r.None? <==> forall i :: 0 <= i < |list| ==> !Spends(input, list[i])
  {
    if list == [] then None
    else if Spends(input, list[0]) then Some(0)
    else
      match Position(list[1..], input)
      case None =>
        assert forall i :: 1 <= i < |list| ==> list[i] == list[1..][i - 1];
        None
      case Some(k) =>
        assert forall i :: 1 <= i <= k ==> list[i] == list[1..][i - 1];
        Some(k + 1)
  }

  /** The value of the entry an input spends. */
  function SpentValue(list: seq<UTXO>, input: Input): int {
    match Position(list, input)
    case None => 0
    case Some(i) => list[i].output.value
  }

  function InputTotal(list: seq<UTXO>, inputs: seq<Input>): int {
    if inputs == [] then 0
    else InputTotal(list, inputs[..|inputs| - 1]) + SpentValue(list, inputs[|inputs| - 1])
  }

  function OutputTotal(outputs: seq<Output>): int {
    if outputs == [] then 0
    else OutputTotal(outputs[..|outputs| - 1]) + outputs[|outputs| - 1].value
  }

  /** What the program demands of a transaction. Totals are compared in 32 bits. */
  predicate Spendable(tx: Transaction, list: seq<UTXO>, wallets: seq<u32>) {
    if tx.inputs == [] then tx.outputs == []
    else
      && (forall input :: input in tx.inputs ==> Position(list, input).Some?)
      && InputTotal(list, tx.inputs) % TWO_TO_32 == OutputTotal(tx.outputs) % TWO_TO_32
      && (forall output :: output in tx.outputs ==> output.receiverID in wallets)
  }

  /** The search for the entry of one input. */
  method FindUtxo(input: Input, utxo: seq<UTXO>) returns (found: bool, value: u64)
    ensures found <==> Position(utxo, input).Some?
    ensures found ==> value == SpentValue(utxo, input)
  {
    found, value := false, 0;
    for j := 0 to |utxo|
      invariant !found && forall i :: 0 <= i < j ==> !Spends(input, utxo[i])
    {
      if Spends(input, utxo[j]) {
        found, value := true, utxo[j].output.value;
        FirstPosition(utxo, input, j);
        break;
      }
    }
  }

  lemma FirstPosition(list: seq<UTXO>, input: Input, j: nat)
    requires j < |list| && Spends(input, list[j]) && forall i :: 0 <= i < j ==> !Spends(input, list[i])
    ensures Position(list, input) == Some(j)
  {
  }

  /** The first loop: the total of the outputs, in 32 bits. */
  method TotalOutput(outputs: seq<Output>) returns (total: i32)
    ensures total == ToInt32(OutputTotal(outputs))
  {
    hide AddTo, ToInt32;
    total := 0;
    ToInt32Zero();
    for i := 0 to |outputs|
      invariant total == ToInt32(OutputTotal(outputs[..i]))
    {
      AddToWraps(OutputTotal(outputs[..i]), outputs[i].value);
      assert outputs[..i + 1][..i] == outputs[..i];
      total := AddTo(total, outputs[i].value);
    }
    assert outputs[..|outputs|] == outputs;
  }

  lemma ToInt32Zero()
    ensures ToInt32(0) == 0
  {
  }

  /** The second loop: the total of the entries that the inputs name. */
  method TotalInput(inputs: seq<Input>, utxo: seq<UTXO>) returns (allFound: bool, total: i32)
    ensures allFound <==> forall input :: input in inputs ==> Position(utxo, input).Some?
    ensures allFound ==> total == ToInt32(InputTotal(utxo, inputs))
  {
    hide AddTo, ToInt32, SpentValue, Position;
    total := 0;
    ToInt32Zero();
    for i := 0 to |inputs|
      invariant total == ToInt32(InputTotal(utxo, inputs[..i]))
      invariant forall k :: 0 <= k < i ==> Position(utxo, inputs[k]).Some?
    {
      var found, value := FindUtxo(inputs[i], utxo);
      if !found {
        return false, total;
      }
      AddToWraps(InputTotal(utxo, inputs[..i]), value);
      assert inputs[..i + 1][..i] == inputs[..i];
      total := AddTo(total, value);
    }
    assert inputs[..|inputs|] == inputs;
    allFound := true;
  }

  /** The third loop: every receiver is a known wallet. */
  method ReceiversKnown(outputs: seq<Output>, walletIds: seq<u32>) returns (ok: bool)
    ensures ok <==> forall output :: output in outputs ==> output.receiverID in walletIds
  {
    for i := 0 to |outputs|
      invariant forall k :: 0 <= k < i ==> outputs[k].receiverID in walletIds
    {
      var found := false;
      for k := 0 to |walletIds|
        invariant !found && outputs[i].receiverID !in walletIds[..k]
      {
        if outputs[i].receiverID == walletIds[k] {
          found := true;
          break;
        }
      }
      if !found {
        return false;
      }
    }
    return true;
  }

  /** Some entry of the list is the output that the input names, by transaction number and index. */
  ghost predicate NamesAnEntry(input: Input, list: seq<UTXO>) {
    exists k ::
      0 <= k < |list| && list[k].transactionId == input.txID && ToU64(list[k].outputIndex) == input.outputIndex
  }

  lemma PositionIfNamed(list: seq<UTXO>, input: Input)
    ensures Position(list, input).Some? <==> NamesAnEntry(input, list)
  {
    if Position(list, input).Some? {
      var k := Position(list, input).value;
      assert list[k].transactionId == input.txID && ToU64(list[k].outputIndex) == input.outputIndex;
    }
    if k :| 0 <= k < |list| && list[k].transactionId == input.txID && ToU64(list[k].outputIndex) == input.outputIndex {
      assert Spends(input, list[k]);
    }
  }

  /** The value of the first entry that an input names. */
  lemma SpentIsTheFirstNamed(list: seq<UTXO>, input: Input, k: nat)
    requires k < |list| && list[k].transactionId == input.txID && ToU64(list[k].outputIndex) == input.outputIndex
    requires forall i :: 0 <= i < k ==>
      list[i].transactionId != input.txID || ToU64(list[i].outputIndex) != input.outputIndex
    ensures Position(list, input) == Some(k) && SpentValue(list, input) == list[k].output.value
  {
    assert Spends(input, list[k]) && forall i :: 0 <= i < k ==> !Spends(input, list[i]);
    FirstPosition(list, input, k);
  }

  /** Every output counts once, with its value, wherever it stands. */
  lemma {:induction false} EveryOutputCounts(a: seq<Output>, output: Output, b: seq<Output>)
    ensures OutputTotal(a + [output] + b) == OutputTotal(a + b) + output.value
  {
    if b == [] {
      assert a + [output] + b == a + [output] && a + b == a;
    } else {
      var n := |b| - 1;
      EveryOutputCounts(a, output, b[..n]);
      assert (a + [output] + b)[..|a| + 1 + n] == a + [output] + b[..n];
      assert (a + b)[..|a| + n] == a + b[..n];
    }
  }

  /**
   * A transaction is accepted exactly if it has neither inputs nor outputs, or if it has inputs, each
   * of them names an entry, the totals agree modulo 2^32, and every receiver is a known wallet.
   */
  method CheckSpendingConditions(tx: Transaction, utxo: seq<UTXO>, walletIds: seq<u32>) returns (ok: bool)
    ensures ok <==> Spendable(tx, utxo, walletIds)
    ensures ok <==>
      || (tx.inputs == [] && tx.outputs == [])
      || (&& tx.inputs != []
          && (forall input :: input in tx.inputs ==> NamesAnEntry(input, utxo))
          && InputTotal(utxo, tx.inputs) % 0x1_0000_0000 == OutputTotal(tx.outputs) % 0x1_0000_0000
          && (forall output :: output in tx.outputs ==> output.receiverID in walletIds))
  {
    forall input ensures Position(utxo, input).Some? <==> NamesAnEntry(input, utxo) {
      PositionIfNamed(utxo, input);
    }
    hide Position, NamesAnEntry;
    if |tx.inputs| == 0 {
      return |tx.outputs| == 0;
    }
    var totalOutputValue := TotalOutput(tx.outputs);
    var found, totalInputValue := TotalInput(tx.inputs, utxo);
    if !found {
      return false;
    }
    Int32Equal(InputTotal(utxo, tx.inputs), OutputTotal(tx.outputs));
    if totalInputValue != totalOutputValue {
      return false;
    }
    ok := ReceiversKnown(tx.outputs, walletIds);
  }

  /** A list of unspent outputs that changes in place. */
  class UTXOlist {
    var utxolist: seq<UTXO>

    constructor ()
      ensures utxolist == []
    {
      utxolist := [];
    }

    method Add(utxo: UTXO)
      modifies this
      ensures utxolist == old(utxolist) + [utxo]
    {
      utxolist := utxolist + [utxo];
    }

    method Clear()
      modifies this
      ensures utxolist == []
    {
      utxolist := [];
    }

    /** The position of the entry an input spends; -1 if there is none. */
    method Index(input: Input) returns (index: int)
      ensures index == -1 || Position(utxolist, input) == Some(index)
      ensures index == -1 <==> forall i :: 0 <= i < |utxolist| ==> !Spends(input, utxolist[i])
      ensures index >= 0 ==>
        && index < |utxolist| && utxolist[index].transactionId == input.txID
        && ToU64(utxolist[index].outputIndex) == input.outputIndex
      ensures index == -1 ==> !NamesAnEntry(input, utxolist)
    {
      PositionIfNamed(utxolist, input);
      for i := 0 to |utxolist|
        invariant forall k :: 0 <= k < i ==> !Spends(input, utxolist[k])
      {
        if Spends(input, utxolist[i]) {
          FirstPosition(utxolist, input, i);
          return i;
        }
      }
      return -1;
    }

    method Erase(index: nat)
      requires index < |utxolist|
      modifies this
      ensures utxolist == old(utxolist[..index] + utxolist[index + 1..])
    {
      utxolist := utxolist[..index] + utxolist[index + 1..];
    }
  }

  // ----- whole blocks -----

  function AllInputs(txs: seq<Transaction>): seq<Input> {
    if txs == [] then [] else AllInputs(txs[..|txs| - 1]) + txs[|txs| - 1].inputs
  }

  function Elements<T>(s: seq<T>): set<T> {
    set x | x in s
  }

  lemma {:induction false} DistinctBySize<T>(s: seq<T>)
    ensures |Elements(s)| <= |s|
    ensures Distinct(s) <==> |Elements(s)| == |s|
  {
    if s != [] {
      var front, x := s[..|s| - 1], s[|s| - 1];
      assert s == front + [x];
      DistinctBySize(front);
      assert Elements(s) == Elements(front) + {x};
      if Distinct(s) {
        assert Distinct(front) && x !in front;
      } else if Distinct(front) {
        assert x in front;
      }
    }
  }

  /** What the program demands of a block: spendable transactions, and no input twice in the whole block. */
  predicate BlockOk(txs: seq<Transaction>, list: seq<UTXO>, wallets: seq<u32>) {
    && (forall tx :: tx in txs ==> Spendable(tx, list, wallets))
    && Distinct(AllInputs(txs))
  }

  /** `Block::verify`: a set and a counter of all inputs. */
  method VerifyTransactions(txs: seq<Transaction>, list: seq<UTXO>, wallets: seq<u32>) returns (ok: bool)
    ensures ok <==> BlockOk(txs, list, wallets)
  {
    hide Spendable;
    var allInputs: set<Input> := {};
    var numberOfInputs := 0;
    for i := 0 to |txs|
      invariant forall k :: 0 <= k < i ==> Spendable(txs[k], list, wallets)
      invariant allInputs == Elements(AllInputs(txs[..i]))
      invariant numberOfInputs == |AllInputs(txs[..i])|
    {
      var spendable := CheckSpendingConditions(txs[i], list, wallets);
      if !spendable {
        return false;
      }
      assert txs[..i + 1][..i] == txs[..i];
      numberOfInputs := numberOfInputs + |txs[i].inputs|;
      allInputs := allInputs + Elements(txs[i].inputs);
    }
    assert txs[..|txs|] == txs;
    DistinctBySize(AllInputs(txs));
    return numberOfInputs == |allInputs|;
  }

  /** An accepted block pays known wallets only. */
  lemma AcceptedPaysKnownWallets(txs: seq<Transaction>, list: seq<UTXO>, wallets: seq<u32>, k: nat, j: nat)
    requires BlockOk(txs, list, wallets) && k < |txs| && j < |txs[k].outputs|
    ensures txs[k].outputs[j].receiverID in wallets
  {
    assert txs[k] in txs && txs[k].outputs[j] in txs[k].outputs;
  }

  /** And spends existing entries only: those with the inputs' own transaction numbers and indices. */
  lemma AcceptedSpendsEntries(txs: seq<Transaction>, list: seq<UTXO>, wallets: seq<u32>, k: nat, j: nat)
    requires BlockOk(txs, list, wallets) && k < |txs| && j < |txs[k].inputs|
    ensures NamesAnEntry(txs[k].inputs[j], list)
  {
    assert txs[k] in txs && txs[k].inputs[j] in txs[k].inputs;
    PositionIfNamed(list, txs[k].inputs[j]);
  }

  predicate SharesInput(a: Transaction, b: Transaction) {
    exists input :: input in a.inputs && input in b.inputs
  }

  /** `Block::verifyTxConsist`: the new transaction uses no input of those already in the block. */
  method VerifyTxConsist(txs: seq<Transaction>, newTx: Transaction) returns (ok: bool)
    ensures ok <==> forall tx :: tx in txs ==> !SharesInput(tx, newTx)
  {
    for i := 0 to |txs|
      invariant forall k :: 0 <= k < i ==> !SharesInput(txs[k], newTx)
    {
      for j := 0 to |txs[i].inputs|
        invariant forall k :: 0 <= k < j ==> txs[i].inputs[k] !in newTx.inputs
      {
        if txs[i].inputs[j] in newTx.inputs {
          assert SharesInput(txs[i], newTx);
          return false;
        }
      }
    }
    return true;
  }
}
