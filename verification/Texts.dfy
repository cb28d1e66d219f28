/** What can be read back from the texts that are hashed for transactions and for block signatures. */
module Texts {
  import opened Common
  import opened Lamport
  import opened Ledger
  import opened Merkle
  import opened Blocks

  // ----- decimal numbers in a row -----

  /** How many decimal digits a number has. */
  function DigitCount(n: nat): nat {
    if n < 10 then 1 else 1 + DigitCount(n / 10)
  }

  lemma {:induction false} DecimalLength(n: nat)
    ensures |Decimal(n)| == DigitCount(n)
  {
    if n >= 10 {
      DecimalLength(n / 10);
    }
  }

  /** Where field k begins: after the digits of the fields before it. */
  function Offset(fields: seq<nat>, k: nat): nat
    requires k <= |fields|
  {
    if k == 0 then 0 else Offset(fields, k - 1) + DigitCount(fields[k - 1])
  }

  function Joined(fields: seq<nat>): Bytes {
    if fields == [] then [] else Joined(fields[..|fields| - 1]) + Decimal(fields[|fields| - 1])
  }

  lemma {:induction false} JoinedAppend(a: seq<nat>, b: seq<nat>)
    ensures Joined(a + b) == Joined(a) + Joined(b)
  {
    hide Decimal;
    if b == [] {
      assert a + b == a;
    } else {
      JoinedAppend(a, b[..|b| - 1]);
      assert (a + b)[..|a + b| - 1] == a + b[..|b| - 1];
    }
  }

  lemma JoinedTwo(m: nat, n: nat)
    ensures Joined([m, n]) == Decimal(m) + Decimal(n)
  {
    hide Decimal;
    assert [m, n][..1] == [m];
    JoinedOne(m);
  }

  lemma {:induction false} OffsetOfPrefix(fields: seq<nat>, n: nat, k: nat)
    requires k <= n <= |fields|
    ensures Offset(fields[..n], k) == Offset(fields, k)
  {
    if k > 0 {
      OffsetOfPrefix(fields, n, k - 1);
    }
  }

  /** The text is as long as all digits together, and each number reads back at its offset. */
  lemma {:induction false} JoinedReadsBack(fields: seq<nat>)
    ensures |Joined(fields)| == Offset(fields, |fields|)
    ensures forall k :: 0 <= k < |fields| ==> ReadsAt(Joined(fields), fields, k)
  {
    hide Decimal, NumberOf;
    if fields != [] {
      var n := |fields| - 1;
      var front := fields[..n];
      JoinedReadsBack(front);
      DecimalLength(fields[n]);
      DecimalRoundTrip(fields[n]);
      OffsetOfPrefix(fields, n, n);
      assert Joined(fields) == Joined(front) + Decimal(fields[n]);
      forall k | 0 <= k < n ensures ReadsAt(Joined(fields), fields, k) {
        assert ReadsAt(Joined(front), front, k);
        OffsetOfPrefix(fields, n, k);
        ReadsOn(Joined(front), Decimal(fields[n]), front, fields, k);
      }
      var text, from := Joined(fields), Offset(fields, n);
      assert text[from..from + DigitCount(fields[n])] == Decimal(fields[n]);
    }
  }

  /** More text behind a field does not disturb it. */
  lemma ReadsOn(text: Bytes, more: Bytes, front: seq<nat>, fields: seq<nat>, k: nat)
    requires k < |front| && k < |fields| && front[k] == fields[k] && Offset(front, k) == Offset(fields, k)
    requires ReadsAt(text, front, k)
    ensures ReadsAt(text + more, fields, k)
  {
    hide NumberOf, DigitCount, Offset;
    var from, to := Offset(fields, k), Offset(fields, k) + DigitCount(fields[k]);
    assert (text + more)[from..to] == text[from..to];
  }

  /** At its offset, field k can be read from the text. */
  predicate ReadsAt(text: Bytes, fields: seq<nat>, k: nat)
    requires k < |fields|
  {
    var from := Offset(fields, k);
    var to := from + DigitCount(fields[k]);
    to <= |text| && NumberOf(text[from..to]) == fields[k]
  }

  // ----- the text of a transaction -----

  function FieldCount(tx: Transaction): nat {
    1 + 2 * |tx.inputs| + 2 * |tx.outputs|
  }

  /** The number of a transaction, then two numbers of each input, then two of each output. */
  function Field(tx: Transaction, k: nat): nat
    requires k < FieldCount(tx)
  {
    if k == 0 then tx.txID
    else if k <= 2 * |tx.inputs| then
      var input := tx.inputs[(k - 1) / 2];
      if k % 2 == 1 then input.txID else input.outputIndex
    else
      var output := tx.outputs[(k - 1) / 2 - |tx.inputs|];
      if k % 2 == 1 then output.value else output.receiverID
  }

  function Fields(tx: Transaction): seq<nat> {
    seq(FieldCount(tx), k requires 0 <= k < FieldCount(tx) => Field(tx, k))
  }

  function InputFields(inputs: seq<Input>): (fields: seq<nat>)
    ensures |fields| == 2 * |inputs|
    ensures forall i :: 0 <= i < |inputs| ==>
      fields[2 * i] == inputs[i].txID && fields[2 * i + 1] == inputs[i].outputIndex
  {
    if inputs == [] then []
    else InputFields(inputs[..|inputs| - 1]) + [inputs[|inputs| - 1].txID, inputs[|inputs| - 1].outputIndex]
  }

  function OutputFields(outputs: seq<Output>): (fields: seq<nat>)
    ensures |fields| == 2 * |outputs|
    ensures forall i :: 0 <= i < |outputs| ==>
      fields[2 * i] == outputs[i].value && fields[2 * i + 1] == outputs[i].receiverID
  {
    if outputs == [] then []
    else OutputFields(outputs[..|outputs| - 1]) + [outputs[|outputs| - 1].value, outputs[|outputs| - 1].receiverID]
  }

  lemma {:induction false} InputsTextIsJoined(inputs: seq<Input>)
    ensures InputsText(inputs) == Joined(InputFields(inputs))
  {
    hide Decimal;
    if inputs != [] {
      var last := inputs[|inputs| - 1];
      InputsTextIsJoined(inputs[..|inputs| - 1]);
      JoinedAppend(InputFields(inputs[..|inputs| - 1]), [last.txID, last.outputIndex]);
      JoinedTwo(last.txID, last.outputIndex);
    }
  }

  lemma {:induction false} OutputsTextIsJoined(outputs: seq<Output>)
    ensures OutputsText(outputs) == Joined(OutputFields(outputs))
  {
    hide Decimal;
    if outputs != [] {
      var last := outputs[|outputs| - 1];
      OutputsTextIsJoined(outputs[..|outputs| - 1]);
      JoinedAppend(OutputFields(outputs[..|outputs| - 1]), [last.value, last.receiverID]);
      JoinedTwo(last.value, last.receiverID);
    }
  }

  lemma FieldsInParts(tx: Transaction)
    ensures Fields(tx) == [tx.txID] + InputFields(tx.inputs) + OutputFields(tx.outputs)
  {
    hide InputFields, OutputFields;
    var parts := [tx.txID] + InputFields(tx.inputs) + OutputFields(tx.outputs);
    forall k | 0 <= k < FieldCount(tx) ensures Field(tx, k) == parts[k] {
      var i := (k - 1) / 2;
      if 0 < k <= 2 * |tx.inputs| {
        assert k == 2 * i + 1 || k == 2 * i + 2;
      } else if k > 0 {
        var j := i - |tx.inputs|;
        assert k - 1 - 2 * |tx.inputs| == 2 * j || k - 1 - 2 * |tx.inputs| == 2 * j + 1;
      }
    }
  }

  lemma TextIsJoined(tx: Transaction)
    ensures TxText(tx) == Joined(Fields(tx))
  {
    hide Decimal, InputsText, OutputsText, Joined, Fields;
    FieldsInParts(tx);
    InputsTextIsJoined(tx.inputs);
    OutputsTextIsJoined(tx.outputs);
    JoinedAppend([tx.txID] + InputFields(tx.inputs), OutputFields(tx.outputs));
    JoinedAppend([tx.txID], InputFields(tx.inputs));
    JoinedOne(tx.txID);
  }

  lemma JoinedOne(n: nat)
    ensures Joined([n]) == Decimal(n)
  {
    hide Decimal;
    assert [n][..0] == [];
  }

  /**
   * What the text of a transaction holds: as many characters as all its fields have digits, and every
   * field, in the order number, inputs, outputs, at the offset given by the digits before it.
   */
  lemma TextReadsBack(tx: Transaction)
    ensures |TxText(tx)| == Offset(Fields(tx), FieldCount(tx))
    ensures forall k :: 0 <= k < FieldCount(tx) ==> ReadsAt(TxText(tx), Fields(tx), k)
  {
    hide Joined, TxText, ReadsAt;
    TextIsJoined(tx);
    JoinedReadsBack(Fields(tx));
  }

  lemma {:induction false} SameOffsets(a: seq<nat>, b: seq<nat>, k: nat)
    requires |a| == |b| && k <= |a| && forall i :: 0 <= i < |a| ==> DigitCount(a[i]) == DigitCount(b[i])
    ensures Offset(a, k) == Offset(b, k)
  {
    if k > 0 {
      SameOffsets(a, b, k - 1);
    }
  }

  /** As many inputs and outputs, and the same digit counts field by field. */
  ghost predicate SameLayout(a: Transaction, b: Transaction) {
    && |a.inputs| == |b.inputs| && |a.outputs| == |b.outputs|
    && forall k :: 0 <= k < FieldCount(a) ==> DigitCount(Field(a, k)) == DigitCount(Field(b, k))
  }

  lemma SameTextSameFields(a: Transaction, b: Transaction)
    requires SameLayout(a, b) && TxText(a) == TxText(b)
    ensures forall k :: 0 <= k < FieldCount(a) ==> Field(a, k) == Field(b, k)
  {
    hide TxText, DigitCount, NumberOf, Field;
    TextReadsBack(a);
    TextReadsBack(b);
    forall k | 0 <= k < FieldCount(a) ensures Field(a, k) == Field(b, k) {
      SameOffsets(Fields(a), Fields(b), k);
      assert ReadsAt(TxText(a), Fields(a), k) && ReadsAt(TxText(b), Fields(b), k);
    }
  }

  lemma InputIsFields(tx: Transaction, i: nat)
    requires i < |tx.inputs|
    ensures Field(tx, 2 * i + 1) == tx.inputs[i].txID && Field(tx, 2 * i + 2) == tx.inputs[i].outputIndex
  {
  }

  lemma OutputIsFields(tx: Transaction, j: nat)
    requires j < |tx.outputs|
    ensures var k := 2 * |tx.inputs| + 2 * j;
      Field(tx, k + 1) == tx.outputs[j].value && Field(tx, k + 2) == tx.outputs[j].receiverID
  {
  }

  /** Transactions of the same layout with one text agree in number, inputs and outputs. */
  lemma LayoutBindsText(a: Transaction, b: Transaction)
    requires SameLayout(a, b) && TxText(a) == TxText(b)
    ensures a.txID == b.txID && a.inputs == b.inputs && a.outputs == b.outputs
  {
    SameTextSameFields(a, b);
    hide TxText, DigitCount;
    assert Field(a, 0) == Field(b, 0);
    hide Field;
    forall i | 0 <= i < |a.inputs| ensures a.inputs[i] == b.inputs[i] {
      InputIsFields(a, i);
      InputIsFields(b, i);
    }
    forall j | 0 <= j < |a.outputs| ensures a.outputs[j] == b.outputs[j] {
      OutputIsFields(a, j);
      OutputIsFields(b, j);
    }
  }

  /** So transactions of one layout and one digest agree, or their two texts collide. */
  lemma LayoutBindsDigest(h: HashFn, a: Transaction, b: Transaction)
    requires SameLayout(a, b) && TxDigest(h, a) == TxDigest(h, b)
    ensures (a.txID == b.txID && a.inputs == b.inputs && a.outputs == b.outputs)
         || (TxText(a) != TxText(b) && h(TxText(a)) == h(TxText(b)))
  {
    hide TxText, SameLayout;
    if TxText(a) == TxText(b) {
      LayoutBindsText(a, b);
    }
  }

  // ----- the text that a block signature is for -----

  predicate IsDigit(c: bv8) {
    48 <= c <= 57
  }

  lemma {:induction false} DecimalIsDigits(n: nat)
    ensures forall i :: 0 <= i < |Decimal(n)| ==> IsDigit(Decimal(n)[i])
  {
    DigitsAreDigits(n % 10);
    if n >= 10 {
      DecimalIsDigits(n / 10);
    }
  }

  lemma DigitsAreDigits(n: nat)
    requires n < 10
    ensures IsDigit(DIGITS[n])
  {
    assert n == 0 || n == 1 || n == 2 || n == 3 || n == 4 || n == 5 || n == 6 || n == 7 || n == 8 || n == 9;
  }

  /** A text after which a decimal number can be told to have ended. */
  predicate EndsNumber(text: Bytes) {
    text == [] || !IsDigit(text[0])
  }

  /** Two numbers, each followed by such a text. */
  lemma NumberThenText(m: nat, s: Bytes, n: nat, t: Bytes)
    requires Decimal(m) + s == Decimal(n) + t && EndsNumber(s) && EndsNumber(t)
    ensures m == n && s == t
  {
    hide IsDigit;
    DecimalIsDigits(m);
    DecimalIsDigits(n);
    var x, y := Decimal(m), Decimal(n);
    SameNumberLength(x, s, y, t);
    assert (x + s)[..|x|] == x && (y + t)[..|x|] == y;
    assert (x + s)[|x|..] == s && (y + t)[|x|..] == t;
    DecimalRoundTrip(m);
    DecimalRoundTrip(n);
  }

  lemma SameNumberLength(x: Bytes, s: Bytes, y: Bytes, t: Bytes)
    requires x + s == y + t && EndsNumber(s) && EndsNumber(t)
    requires (forall i :: 0 <= i < |x| ==> IsDigit(x[i])) && (forall i :: 0 <= i < |y| ==> IsDigit(y[i]))
    ensures |x| == |y|
  {
    var z, w := x + s, y + t;
    assert z == w;
    assert |x| < |z| ==> z[|x|] == s[0];
    assert |y| < |w| ==> w[|y|] == t[0];
  }

  /** The text of a key is never empty and does not start with a digit, as that of a JSON object. */
  ghost predicate KeyTextsMarked(c: Codec) {
    forall key: SigKey :: key.Complete() ==> c.keyText(key) != [] && !IsDigit(c.keyText(key)[0])
  }

  /** The text of the key that a block announces; empty if it announces none. */
  function AnnouncedText(c: Codec, b: BlockValue): Bytes {
    if b.nextKey.S0 == [] || b.nextKey.S1 == [] then [] else c.keyText(b.nextKey)
  }

  /** What a validator's signature is for: header ID, validator, announced key. */
  function SignedText(c: Codec, b: BlockValue): Bytes {
    b.header.ID(c.h) + (Decimal(b.validatorId) + AnnouncedText(c, b))
  }

  lemma DigestIsOfSignedText(c: Codec, b: BlockValue)
    ensures DigestOf(c, b) == c.h(SignedText(c, b))
  {
    hide Decimal;
    assert b.header.ID(c.h) + Decimal(b.validatorId) + AnnouncedText(c, b) == SignedText(c, b);
  }

  lemma SignedTextBinds(c: Codec, a: BlockValue, b: BlockValue)
    requires DigestsHave64Chars(c.h) && KeyTextsMarked(c) && DigestOutcome(a).Ok? && DigestOutcome(b).Ok?
    requires SignedText(c, a) == SignedText(c, b)
    ensures a.header.ID(c.h) == b.header.ID(c.h) && a.validatorId == b.validatorId
    ensures AnnouncedText(c, a) == AnnouncedText(c, b)
  {
    hide Decimal, IsDigit;
    var restA, restB := Decimal(a.validatorId) + AnnouncedText(c, a), Decimal(b.validatorId) + AnnouncedText(c, b);
    assert SignedText(c, a)[..64] == a.header.ID(c.h) && SignedText(c, b)[..64] == b.header.ID(c.h);
    assert SignedText(c, a)[64..] == restA && SignedText(c, b)[64..] == restB;
    NumberThenText(a.validatorId, AnnouncedText(c, a), b.validatorId, AnnouncedText(c, b));
  }

  /**
   * A block's digest binds: two blocks with one digest have the same header ID, the same validator and the
   * same text of the announced key, or their two signed texts collide.
   */
  lemma DigestBinds(c: Codec, a: BlockValue, b: BlockValue)
    requires DigestsHave64Chars(c.h) && KeyTextsMarked(c) && DigestOutcome(a).Ok? && DigestOutcome(b).Ok?
    requires DigestOf(c, a) == DigestOf(c, b)
    ensures (&& a.header.ID(c.h) == b.header.ID(c.h) && a.validatorId == b.validatorId
             && AnnouncedText(c, a) == AnnouncedText(c, b))
         || (SignedText(c, a) != SignedText(c, b) && c.h(SignedText(c, a)) == c.h(SignedText(c, b)))
  {
    hide DigestOf, SignedText;
    DigestIsOfSignedText(c, a);
    DigestIsOfSignedText(c, b);
    if SignedText(c, a) == SignedText(c, b) {
      SignedTextBinds(c, a, b);
    }
  }

  /**
   * A genuine signature for block a that is good for block b, under a key whose halves differ
   * everywhere: the blocks have the same header ID, validator and announced key text, or the hashes of
   * their two signed texts agree in the first 32 characters.
   */
  lemma GenuineSignatureBinds(c: Codec, a: BlockValue, b: BlockValue, pair: KeyPair)
    requires DigestsHave64Chars(c.h) && KeyTextsMarked(c) && DigestOutcome(a).Ok? && DigestOutcome(b).Ok?
    requires Matches(c.h, pair) && forall i :: 0 <= i < KEY_LEN ==> pair.pub.S0[i] != pair.pub.S1[i]
    requires Verdict(c.h, DigestOf(c, b), Signed(DigestOf(c, a), pair.priv), pair.pub) == 1
    ensures (&& a.header.ID(c.h) == b.header.ID(c.h) && a.validatorId == b.validatorId
             && AnnouncedText(c, a) == AnnouncedText(c, b))
         || (SignedText(c, a) != SignedText(c, b)
             && c.h(SignedText(c, a))[..32] == c.h(SignedText(c, b))[..32])
  {
    hide DigestOf, SignedText, Verdict, Signed, Matches;
    BlockSignatureExactness(c, a, b, pair);
    DigestIsOfSignedText(c, a);
    DigestIsOfSignedText(c, b);
    if SignedText(c, a) == SignedText(c, b) {
      SignedTextBinds(c, a, b);
    }
  }

  /** The text of a block signature, part by part: 64 characters of ID, the validator's number, the key. */
  lemma SignedTextReadsBack(c: Codec, b: BlockValue)
    requires DigestsHave64Chars(c.h)
    ensures var text, end := SignedText(c, b), 64 + DigitCount(b.validatorId);
      && DigestOf(c, b) == c.h(text) && end <= |text|
      && text[..64] == b.header.ID(c.h)
      && NumberOf(text[64..end]) == b.validatorId
      && text[end..] == if b.nextKey.S0 == [] || b.nextKey.S1 == [] then [] else c.keyText(b.nextKey)
  {
    hide Decimal, NumberOf, DigitCount;
    var text, id, number := SignedText(c, b), b.header.ID(c.h), Decimal(b.validatorId);
    DigestIsOfSignedText(c, b);
    DecimalLength(b.validatorId);
    DecimalRoundTrip(b.validatorId);
    assert text == id + number + AnnouncedText(c, b);
    assert text[64..64 + |number|] == number;
  }

  // ----- the texts that a header ID is for -----

  /** The ID is the hash of a text that holds the predecessor's digest first and then the root. */
  lemma HeaderTextReadsBack(h: HashFn, a: Header) returns (text: Bytes)
    ensures a.ID(h) == h(text) && |text| == |a.prevBlockDigest| + |a.merkleRoot|
    ensures text[..|a.prevBlockDigest|] == a.prevBlockDigest && text[|a.prevBlockDigest|..] == a.merkleRoot
  {
    text := a.prevBlockDigest + a.merkleRoot;
  }

  /** The root of up to three transactions: earlier ones to the left, an odd last one paired with itself. */
  lemma SmallRoots(h: HashFn, a: Transaction, b: Transaction, c: Transaction)
    ensures RootOf(h, []) == [] && RootOf(h, [a]) == TxDigest(h, a)
    ensures RootOf(h, [a, b]) == h(TxDigest(h, a) + TxDigest(h, b))
    ensures RootOf(h, [a, b, c])
         == h(h(TxDigest(h, a) + TxDigest(h, b)) + h(TxDigest(h, c) + TxDigest(h, c)))
  {
    hide TxDigest;
    var x, y, z := TxDigest(h, a), TxDigest(h, b), TxDigest(h, c);
    assert TxDigests(h, [a]) == [x] && TxDigests(h, [a, b]) == [x, y] && TxDigests(h, [a, b, c]) == [x, y, z];
    assert PairText([x, y, z], 0) == x + y && PairText([x, y, z], 1) == z + z && PairText([x, y], 0) == x + y;
    assert NextLevel(h, [x, y, z]) == [h(x + y), h(z + z)];
    assert NextLevel(h, [x, y]) == [h(x + y)];
    assert PairText([h(x + y), h(z + z)], 0) == h(x + y) + h(z + z);
    assert NextLevel(h, [h(x + y), h(z + z)]) == [h(h(x + y) + h(z + z))];
    assert BottomUp(h, [x, y]) == BottomUp(h, [h(x + y)]) == h(x + y);
    assert BottomUp(h, [x, y, z]) == BottomUp(h, [h(x + y), h(z + z)]);
  }
}
