/** Headers and blocks: building, finalizing, signing and identifying them. */
module Blocks {
  import opened Common
  import opened Lamport
  import opened Ledger
  import opened Merkle

  /** What the blocks of one network have in common: the hash, and how a key is written as text. */
  datatype Codec = Codec(h: HashFn, keyText: SigKey -> Bytes)

  // ----- digests -----

  const DIGITS: Bytes := [48, 49, 50, 51, 52, 53, 54, 55, 56, 57]

  /** A number as decimal text. */
  function Decimal(n: nat): (text: Bytes)
    ensures text != []
  {
    if n < 10 then [DIGITS[n]] else Decimal(n / 10) + [DIGITS[n % 10]]
  }

  function DigitValue(c: bv8): nat {
    if c == 48 then 0 else if c == 49 then 1 else if c == 50 then 2 else if c == 51 then 3 else if c == 52 then 4
    else if c == 53 then 5 else if c == 54 then 6 else if c == 55 then 7 else if c == 56 then 8 else 9
  }

  /** The number that a decimal text denotes. */
  function NumberOf(text: Bytes): nat {
    if text == [] then 0 else 10 * NumberOf(text[..|text| - 1]) + DigitValue(text[|text| - 1])
  }

  lemma DigitRoundTrip(n: nat)
    requires n < 10
    ensures DigitValue(DIGITS[n]) == n
  {
    assert n == 0 || n == 1 || n == 2 || n == 3 || n == 4 || n == 5 || n == 6 || n == 7 || n == 8 || n == 9;
  }

  /** The decimal text of a number denotes that number, and it starts with 0 for 0 only. */
  lemma {:induction false} DecimalRoundTrip(n: nat)
    ensures NumberOf(Decimal(n)) == n
    ensures n > 0 ==> Decimal(n)[0] != DIGITS[0]
  {
    DigitRoundTrip(n % 10);
    if n >= 10 {
      DecimalRoundTrip(n / 10);
      assert Decimal(n)[..|Decimal(n)| - 1] == Decimal(n / 10);
    } else {
      assert Decimal(n)[..0] == [];
    }
  }

  function InputsText(inputs: seq<Input>): Bytes {
    if inputs == [] then []
    else
      var last := inputs[|inputs| - 1];
      InputsText(inputs[..|inputs| - 1]) + Decimal(last.txID) + Decimal(last.outputIndex)
  }

  function OutputsText(outputs: seq<Output>): Bytes {
    if outputs == [] then []
    else
      var last := outputs[|outputs| - 1];
      OutputsText(outputs[..|outputs| - 1]) + Decimal(last.value) + Decimal(last.receiverID)
  }

  function TxText(tx: Transaction): Bytes {
    Decimal(tx.txID) + InputsText(tx.inputs) + OutputsText(tx.outputs)
  }

  function TxDigest(h: HashFn, tx: Transaction): Bytes {
    h(TxText(tx))
  }

  function TxDigests(h: HashFn, txs: seq<Transaction>): seq<Bytes> {
    seq(|txs|, i requires 0 <= i < |txs| => TxDigest(h, txs[i]))
  }

  lemma OneMoreInput(inputs: seq<Input>, i: nat)
    requires i < |inputs|
    ensures InputsText(inputs[..i + 1])
         == InputsText(inputs[..i]) + Decimal(inputs[i].txID) + Decimal(inputs[i].outputIndex)
  {
    hide Decimal;
    assert inputs[..i + 1][..i] == inputs[..i];
  }

  lemma OneMoreOutput(outputs: seq<Output>, i: nat)
    requires i < |outputs|
    ensures OutputsText(outputs[..i + 1])
         == OutputsText(outputs[..i]) + Decimal(outputs[i].value) + Decimal(outputs[i].receiverID)
  {
    hide Decimal;
    assert outputs[..i + 1][..i] == outputs[..i];
  }

  lemma Reassociate(w: Bytes, x: Bytes, y: Bytes, z: Bytes)
    ensures w + x + y + z == w + (x + y + z)
  {
  }

  method GetTxDigest(h: HashFn, tx: Transaction) returns (digest: Bytes)
    ensures digest == TxDigest(h, tx)
  {
    hide Decimal, InputsText, OutputsText;
    var data := Decimal(tx.txID);
    ghost var start := data;
    NoText();
    for i := 0 to |tx.inputs|
      invariant data == start + InputsText(tx.inputs[..i])
    {
      OneMoreInput(tx.inputs, i);
      Reassociate(start, InputsText(tx.inputs[..i]), Decimal(tx.inputs[i].txID), Decimal(tx.inputs[i].outputIndex));
      data := data + Decimal(tx.inputs[i].txID);
      data := data + Decimal(tx.inputs[i].outputIndex);
    }
    assert tx.inputs[..|tx.inputs|] == tx.inputs;
    start := data;
    for i := 0 to |tx.outputs|
      invariant data == start + OutputsText(tx.outputs[..i])
    {
      OneMoreOutput(tx.outputs, i);
      Reassociate(start, OutputsText(tx.outputs[..i]), Decimal(tx.outputs[i].value), Decimal(tx.outputs[i].receiverID));
      data := data + Decimal(tx.outputs[i].value);
      data := data + Decimal(tx.outputs[i].receiverID);
    }
    assert tx.outputs[..|tx.outputs|] == tx.outputs;
    digest := h(data);
  }

  lemma NoText()
    ensures InputsText([]) == [] && OutputsText([]) == []
  {
  }

  // ----- headers -----

  datatype Header = Header(prevBlockDigest: Bytes, merkleRoot: Bytes) {
    function ID(h: HashFn): Bytes { h(prevBlockDigest + merkleRoot) }
  }

  /** The Merkle root of some transactions; the empty text if there are none. */
  function RootOf(h: HashFn, txs: seq<Transaction>): Bytes {
    if txs == [] then [] else BottomUp(h, TxDigests(h, txs))
  }

  method CalculateMerkleRoot(h: HashFn, txs: seq<Transaction>) returns (root: Bytes)
    ensures root == RootOf(h, txs)
  {
    if txs == [] {
      return [];
    }
    var hashes: seq<Bytes> := [];
    for i := 0 to |txs|
      invariant hashes == TxDigests(h, txs)[..i]
    {
      var digest := GetTxDigest(h, txs[i]);
      hashes := hashes + [digest];
    }
    assert hashes == TxDigests(h, txs);
    root := MerkleRoot(h, hashes);
  }

  lemma TxDigestsHold(h: HashFn, txs: seq<Transaction>)
    requires DigestsHave64Chars(h)
    ensures AllDigests(TxDigests(h, txs))
  {
    hide Decimal, InputsText, OutputsText;
  }

  /** The texts that are hashed for a header ID, from the transactions' digests on. */
  function HeaderTexts(h: HashFn, a: Header, txs: seq<Transaction>): set<Bytes> {
    {a.prevBlockDigest + a.merkleRoot} + if txs == [] then {} else HashedTexts(h, TxDigests(h, txs))
  }

  /** Header texts of the same length parts are equal part by part. */
  lemma SplitHeader(a: Header, b: Header)
    requires a.prevBlockDigest + a.merkleRoot == b.prevBlockDigest + b.merkleRoot
    requires |a.prevBlockDigest| == |b.prevBlockDigest| || |a.merkleRoot| == |b.merkleRoot|
    ensures a == b
  {
    var x, y := a.prevBlockDigest + a.merkleRoot, b.prevBlockDigest + b.merkleRoot;
    assert |x| == |y|;
    assert x[..|a.prevBlockDigest|] == a.prevBlockDigest && y[..|b.prevBlockDigest|] == b.prevBlockDigest;
    assert x[|a.prevBlockDigest|..] == a.merkleRoot && y[|b.prevBlockDigest|..] == b.merkleRoot;
  }

  /**
   * A header ID binds: two equally long transaction lists, on predecessors with equally long digests,
   * get the same ID only if the predecessors and all transaction digests are the same, or two of the
   * very texts hashed for the IDs collide; the proof names them.
   */
  lemma HeaderIdBinds(h: HashFn, a: Header, txsA: seq<Transaction>, b: Header, txsB: seq<Transaction>)
    returns (x: Bytes, y: Bytes)
    requires DigestsHave64Chars(h)
    requires a.merkleRoot == RootOf(h, txsA) && b.merkleRoot == RootOf(h, txsB)
    requires |txsA| == |txsB| && |a.prevBlockDigest| == |b.prevBlockDigest|
    requires a.ID(h) == b.ID(h)
    ensures (a.prevBlockDigest == b.prevBlockDigest && TxDigests(h, txsA) == TxDigests(h, txsB))
         || Collide(h, HeaderTexts(h, a, txsA) + HeaderTexts(h, b, txsB), x, y)
  {
    hide TxDigests, BottomUp;
    x, y := a.prevBlockDigest + a.merkleRoot, b.prevBlockDigest + b.merkleRoot;
    if x == y {
      SplitHeader(a, b);
      TxDigestsLength(h, txsA);
      TxDigestsLength(h, txsB);
      if txsA != [] {
        TxDigestsHold(h, txsA);
        TxDigestsHold(h, txsB);
        x, y := RootBinds(h, TxDigests(h, txsA), TxDigests(h, txsB));
      }
    }
  }

  lemma TxDigestsLength(h: HashFn, txs: seq<Transaction>)
    ensures |TxDigests(h, txs)| == |txs|
  {
  }

  // ----- blocks -----

  datatype BlockSignature = BlockSignature(signature: seq<Bytes>, publicKey: SigKey, validatorId: u16, round: u16)

  /** A block as it is copied, stored and sent. */
  datatype BlockValue = BlockValue(
    header: Header,
    txs: seq<Transaction>,
    validatorSigs: seq<BlockSignature>,
    validatorSig: seq<Bytes>,
    validatorId: u16,
    nextKey: SigKey,
    id: u64,
    empty: bool,
    isMutable: bool)

  const NO_KEY := SigKey([], [])

  const MUTABLE_DIGEST := "Cannot digest mutable block."
  const BAD_KEY := "Cannot convert SigKey to string"

  /** What a validator signs: the header, who signs, and the key announced for its next message. */
  function DigestText(c: Codec, b: BlockValue): Bytes {
    b.header.ID(c.h) + Decimal(b.validatorId)
    + if b.nextKey.S0 != [] && b.nextKey.S1 != [] then c.keyText(b.nextKey) else []
  }

  function DigestOf(c: Codec, b: BlockValue): Bytes {
    c.h(DigestText(c, b))
  }

  /** No digest of a mutable block, nor of one that announces a malformed key. */
  function DigestOutcome(b: BlockValue): Outcome {
    if b.isMutable then Thrown(MUTABLE_DIGEST)
    else if b.nextKey.S0 != [] && b.nextKey.S1 != [] && !b.nextKey.Complete() then Thrown(BAD_KEY)
    else Ok
  }

  /** The block with a validator's name and next key on it, signed. */
  function SignedBlock(c: Codec, b: BlockValue, key: SigKey, id: u16, next: SigKey): BlockValue {
    var announced := b.(validatorId := id, nextKey := next);
    announced.(validatorSig := Signed(DigestOf(c, announced), key))
  }

  /** A block after it has been encoded, sent and decoded: the collected signatures stay behind. */
  function OnWire(b: BlockValue): BlockValue {
    b.(validatorSigs := [], empty := false, isMutable := false)
  }

  class Block {
    var header: Header
    var txs: seq<Transaction>
    var validatorSigs: seq<BlockSignature>
    var validatorSig: seq<Bytes>
    var validatorId: u16
    var validatorNextPublicKey: SigKey
    var id: u64
    var empty: bool
    var isMutable: bool

    function Value(): BlockValue
      reads this
    {
      BlockValue(header, txs, validatorSigs, validatorSig, validatorId, validatorNextPublicKey, id, empty, isMutable)
    }

    /** A new block; who signs it is not known yet. */
    constructor (id: u64, prevBlockDigest: Bytes)
      ensures Value() == BlockValue(Header(prevBlockDigest, []), [], [], [], validatorId, NO_KEY, id, false, true)
    {
      header := Header(prevBlockDigest, []);
      txs, validatorSigs, validatorSig, validatorNextPublicKey := [], [], [], NO_KEY;
      this.id := id;
      empty, isMutable := false, true;
    }

    constructor Empty()
      ensures Value() == BlockValue(Header([], []), [], [], [], validatorId, NO_KEY, 0, true, true)
    {
      header := Header([], []);
      txs, validatorSigs, validatorSig, validatorNextPublicKey := [], [], [], NO_KEY;
      id := 0;
      empty, isMutable := true, true;
    }

    constructor Copy(b: BlockValue)
      ensures Value() == b
    {
      header, txs, validatorSigs, validatorSig := b.header, b.txs, b.validatorSigs, b.validatorSig;
      validatorId, validatorNextPublicKey := b.validatorId, b.nextKey;
      id, empty, isMutable := b.id, b.empty, b.isMutable;
    }

    method AddTransaction(tx: Transaction) returns (o: Outcome)
      modifies this
      ensures o.Ok? <==> old(isMutable)
      ensures Value() == if o.Ok? then old(Value()).(txs := old(txs) + [tx]) else old(Value())
    {
      if isMutable {
        txs := txs + [tx];
        o := Ok;
      } else {
        o := Thrown("Cannot add transaction to an immutable block.");
      }
    }

    /** From here on the transactions are fixed, and the header holds their root. */
    method Finalize(h: HashFn) returns (o: Outcome)
      modifies this
      ensures o.Ok? <==> old(isMutable)
      ensures Value() ==
        if o.Ok? then old(Value()).(isMutable := false, header := old(header).(merkleRoot := RootOf(h, old(txs))))
        else old(Value())
    {
      if !isMutable {
        return Thrown("Cannot finalize immutable block.");
      }
      isMutable := false;
      var root := CalculateMerkleRoot(h, txs);
      header := header.(merkleRoot := root);
      o := Ok;
    }

    method Verify(utxolist: seq<UTXO>, receiverIds: seq<u32>) returns (ok: bool)
      ensures ok <==> BlockOk(txs, utxolist, receiverIds)
    {
      ok := VerifyTransactions(txs, utxolist, receiverIds);
    }

    method VerifyConsistent(newTx: Transaction) returns (ok: bool)
      ensures ok <==> forall tx :: tx in txs ==> !SharesInput(tx, newTx)
    {
      ok := VerifyTxConsist(txs, newTx);
    }

    method GetDigest(c: Codec) returns (o: Outcome, digest: Bytes)
      ensures o == DigestOutcome(Value())
      ensures o == Thrown("Cannot digest mutable block.") <==> isMutable
      ensures o == Thrown("Cannot convert SigKey to string") <==>
        && !isMutable && validatorNextPublicKey.S0 != [] && validatorNextPublicKey.S1 != []
        && (|validatorNextPublicKey.S0| != 256 || |validatorNextPublicKey.S1| != 256)
      ensures o.Ok? ==> digest == DigestOf(c, Value())
    {
      digest := [];
      if isMutable {
        return Thrown(MUTABLE_DIGEST), digest;
      }
      var input := header.ID(c.h);
      input := input + Decimal(validatorId);
      if validatorNextPublicKey.S0 != [] && validatorNextPublicKey.S1 != [] {
        if !validatorNextPublicKey.Complete() {
          return Thrown(BAD_KEY), digest;
        }
        input := input + c.keyText(validatorNextPublicKey);
      } else {
        assert input == input + [];
      }
      return Ok, c.h(input);
    }

    /** Replaces the signature. With a malformed next key the exception comes after name and key are stored. */
    method Sign(c: Codec, key: SigKey, validatorId: u16, nextPublicKey: SigKey) returns (o: Outcome)
      modifies this
      ensures o.Ok? <==> DigestOutcome(old(Value()).(nextKey := nextPublicKey)).Ok?
      ensures Value() ==
        if o.Ok? then SignedBlock(c, old(Value()), key, validatorId, nextPublicKey)
        else if old(isMutable) then old(Value())
        else old(Value()).(validatorId := validatorId, nextKey := nextPublicKey)
    {
      if isMutable {
        return Thrown("Cannot sign mutable block.");
      }
      this.validatorId := validatorId;
      validatorNextPublicKey := nextPublicKey;
      var digest;
      o, digest := GetDigest(c);
      if o.Ok? {
        validatorSig := [];
        validatorSig := Lamport.Sign(digest, key);
      }
    }

    method VerifySignature(c: Codec, key: SigKey) returns (o: Outcome, ok: bool)
      ensures o == DigestOutcome(Value())
      ensures o.Ok? ==> ok == (Verdict(c.h, DigestOf(c, Value()), validatorSig, key) == 1)
    {
      var digest;
      o, digest := GetDigest(c);
      if o.Thrown? {
        return o, false;
      }
      var verdict := Lamport.Verify(c.h, digest, validatorSig, key);
      ok := verdict == 1;
    }

    method AddValidatorSignature(sig: BlockSignature)
      modifies this
      ensures Value() == old(Value()).(validatorSigs := old(validatorSigs) + [sig])
    {
      validatorSigs := validatorSigs + [sig];
    }

    method RemoveSignatures()
      modifies this
      ensures Value() == old(Value()).(validatorSig := [], validatorId := 0, nextKey := NO_KEY, validatorSigs := [])
    {
      validatorSig, validatorId, validatorNextPublicKey, validatorSigs := [], 0, NO_KEY, [];
    }
  }

  // ----- what a block signature says -----

  /** A signed block verifies under the public half of the key, and its digest is that of the signed text. */
  lemma SignedBlockVerifies(c: Codec, b: BlockValue, pair: KeyPair, id: u16, next: SigKey)
    requires Matches(c.h, pair)
    ensures var s := SignedBlock(c, b, pair.priv, id, next);
      Verdict(c.h, DigestOf(c, s), s.validatorSig, pair.pub) == 1
  {
    hide Signed, Verdict, Matches;
    var announced := b.(validatorId := id, nextKey := next);
    DigestIgnoresSignature(c, announced, Signed(DigestOf(c, announced), pair.priv));
    OwnSignatureVerifies(c.h, pair, DigestOf(c, announced));
  }

  lemma DigestIgnoresSignature(c: Codec, b: BlockValue, sig: seq<Bytes>)
    ensures DigestOf(c, b.(validatorSig := sig)) == DigestOf(c, b)
  {
  }

  /** Everything but the signer, the announced key and the signature is the block's own. */
  lemma SignedBlockIs(c: Codec, b: BlockValue, key: SigKey, id: u16, next: SigKey)
    ensures var t := SignedBlock(c, b, key, id, next);
      && t.validatorId == id && t.nextKey == next && t.validatorSig == Signed(DigestOf(c, t), key)
      && t.header == b.header && t.txs == b.txs && t.id == b.id && t.validatorSigs == b.validatorSigs
      && t.empty == b.empty && t.isMutable == b.isMutable
  {
    hide DigestOf, Signed;
    var announced := b.(validatorId := id, nextKey := next);
    DigestIgnoresSignature(c, announced, Signed(DigestOf(c, announced), key));
  }

  lemma SignedBlockHasDigest(c: Codec, b: BlockValue, key: SigKey, id: u16, next: SigKey)
    requires !b.isMutable && next.Complete()
    ensures DigestOutcome(SignedBlock(c, b, key, id, next)).Ok?
  {
    hide DigestOf, Signed;
  }

  /**
   * A signature made for block a is good for block b, under a key whose halves differ everywhere,
   * exactly when their digests agree in the first 32 of their 64 characters.
   */
  lemma BlockSignatureExactness(c: Codec, a: BlockValue, b: BlockValue, pair: KeyPair)
    requires DigestsHave64Chars(c.h) && Matches(c.h, pair)
    requires forall i :: 0 <= i < KEY_LEN ==> pair.pub.S0[i] != pair.pub.S1[i]
    ensures Verdict(c.h, DigestOf(c, b), Signed(DigestOf(c, a), pair.priv), pair.pub) == 1
       <==> DigestOf(c, a)[..32] == DigestOf(c, b)[..32]
  {
    hide Verdict, Signed, Matches, DigestText;
    LamportExactness(c.h, pair, DigestOf(c, a), DigestOf(c, b));
    var x, y := DigestOf(c, a)[..32], DigestOf(c, b)[..32];
    assert Crop(DigestOf(c, a)) == x && Crop(DigestOf(c, b)) == y;
    assert ZeroExtend(x) == x && ZeroExtend(y) == y;
  }
}
