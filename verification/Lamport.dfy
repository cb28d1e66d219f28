/** Lamport one-time signatures and the bitset conversions, for any hash function. */
module Lamport {
  import opened Common

  const KEY_LEN := 256

  datatype SigKey = SigKey(S0: seq<Bytes>, S1: seq<Bytes>) {
    predicate Complete() { |S0| == KEY_LEN && |S1| == KEY_LEN }
  }

  datatype KeyPair = KeyPair(priv: SigKey, pub: SigKey)

  type Bitset = b: seq<bool> | |b| == 256 witness seq(256, _ => false)

  const NO_BITS: Bitset := seq(256, _ => false)

  // ----- bits and bytes -----

  function Bit(x: bv8, j: nat): bool
    requires j < 8
  {
    (x >> j) & 1 == 1
  }

  function OneOrZero(b: bool): bv8 {
    if b then 1 else 0
  }

  function WithBit(x: bv8, b: bool, j: nat): bv8
    requires j < 8
  {
    x | (OneOrZero(b) << j)
  }

  /** No bit of x from j on is set. */
  predicate FitsBelow(x: bv8, j: nat) {
    j >= 8 || x < (1 << j)
  }

  /** The byte whose bits below j are the first j of b. */
  function LowBits(b: seq<bool>, j: nat): bv8
    requires |b| == 8 && j <= 8
  {
    if j == 0 then 0 else WithBit(LowBits(b, j - 1), b[j - 1], j - 1)
  }

  lemma AddBit(x: bv8, b: bool, j: nat)
    requires j < 8 && FitsBelow(x, j)
    ensures FitsBelow(WithBit(x, b, j), j + 1) && Bit(WithBit(x, b, j), j) == b
    ensures forall i :: 0 <= i < j ==> Bit(WithBit(x, b, j), i) == Bit(x, i)
  {
    assert j == 0 || j == 1 || j == 2 || j == 3 || j == 4 || j == 5 || j == 6 || j == 7;
    forall i | 0 <= i < j ensures Bit(WithBit(x, b, j), i) == Bit(x, i) {
      assert i == 0 || i == 1 || i == 2 || i == 3 || i == 4 || i == 5 || i == 6;
    }
  }

  lemma ZeroFits()
    ensures FitsBelow(0, 0)
  {
  }

  lemma {:induction false} AssembledBits(b: seq<bool>, j: nat)
    requires |b| == 8 && j <= 8
    ensures FitsBelow(LowBits(b, j), j)
    ensures forall i :: 0 <= i < j ==> Bit(LowBits(b, j), i) == b[i]
  {
    hide Bit, WithBit, FitsBelow;
    if j > 0 {
      AssembledBits(b, j - 1);
      AddBit(LowBits(b, j - 1), b[j - 1], j - 1);
    } else {
      ZeroFits();
    }
  }

  lemma SameBitsSameByte(x: bv8, y: bv8)
    requires forall j :: 0 <= j < 8 ==> Bit(x, j) == Bit(y, j)
    ensures x == y
  {
    assert Bit(x, 0) == Bit(y, 0) && Bit(x, 1) == Bit(y, 1) && Bit(x, 2) == Bit(y, 2) && Bit(x, 3) == Bit(y, 3);
    assert Bit(x, 4) == Bit(y, 4) && Bit(x, 5) == Bit(y, 5) && Bit(x, 6) == Bit(y, 6) && Bit(x, 7) == Bit(y, 7);
  }

  // ----- strings and bitsets -----

  /** Bit k of a text, least significant bit of each byte first; 0 past its end. */
  function TextBit(text: Bytes, k: nat): bool {
    k / 8 < |text| && Bit(text[k / 8], k % 8)
  }

  function BitsOf(text: Bytes): Bitset {
    seq(256, k requires 0 <= k < 256 => TextBit(text, k))
  }

  function TextOf(bits: Bitset): (text: Bytes)
    ensures |text| == 32
  {
    seq(32, i requires 0 <= i < 32 => LowBits(bits[8 * i..8 * i + 8], 8))
  }

  method BitsetToString(bits: Bitset) returns (str: Bytes)
    ensures str == TextOf(bits)
  {
    hide WithBit;
    str := [];
    var i := 0;
    while i < KEY_LEN
      invariant 0 <= i <= 256 && i % 8 == 0
      invariant str == TextOf(bits)[..i / 8]
    {
      var byte: bv8 := 0;
      for j := 0 to 8
        invariant byte == LowBits(bits[i..i + 8], j)
      {
        byte := WithBit(byte, bits[i + j], j);
      }
      assert TextOf(bits)[i / 8] == byte;
      str := str + [byte];
      i := i + 8;
    }
  }

  /** The program writes past the bitset for texts of more than 32 bytes; its callers crop first. */
  method StringToBitset(str: Bytes) returns (bits: Bitset)
    requires |str| <= 32
    ensures bits == BitsOf(str)
  {
    hide Bit;
    bits := NO_BITS;
    var index := 0;
    for i := 0 to |str|
      invariant index == 8 * i
      invariant forall k :: 0 <= k < 256 ==> bits[k] == (k < index && TextBit(str, k))
    {
      for j := 0 to 8
        invariant index == 8 * i + j
        invariant forall k :: 0 <= k < 256 ==> bits[k] == (k < index && TextBit(str, k))
      {
        assert index / 8 == i && index % 8 == j;
        bits := bits[index := Bit(str[i], j)];
        index := index + 1;
      }
    }
  }

  function ZeroExtend(text: Bytes): Bytes
    requires |text| <= 32
  {
    text + seq(32 - |text|, _ => 0)
  }

  lemma TextOfBit(bits: Bitset, k: nat)
    requires k < 256
    ensures TextBit(TextOf(bits), k) == bits[k]
  {
    hide Bit, LowBits;
    var i := k / 8;
    AssembledBits(bits[8 * i..8 * i + 8], 8);
    assert bits[8 * i..8 * i + 8][k % 8] == bits[k];
  }

  /** Bitset to string and back. */
  lemma BitsOfTextOf(bits: Bitset)
    ensures BitsOf(TextOf(bits)) == bits
  {
    hide TextBit, TextOf;
    forall k | 0 <= k < 256 ensures BitsOf(TextOf(bits))[k] == bits[k] {
      TextOfBit(bits, k);
    }
  }

  lemma ZeroHasNoBits(j: nat)
    requires j < 8
    ensures !Bit(0, j)
  {
    assert j == 0 || j == 1 || j == 2 || j == 3 || j == 4 || j == 5 || j == 6 || j == 7;
  }

  /** String to bitset and back: the string, zero-extended to 32 bytes. */
  lemma TextOfBitsOf(text: Bytes)
    requires |text| <= 32
    ensures TextOf(BitsOf(text)) == ZeroExtend(text)
  {
    hide Bit, LowBits;
    forall i | 0 <= i < 32 ensures TextOf(BitsOf(text))[i] == ZeroExtend(text)[i] {
      forall j | 0 <= j < 8 ensures Bit(TextOf(BitsOf(text))[i], j) == Bit(ZeroExtend(text)[i], j) {
        TextOfBit(BitsOf(text), 8 * i + j);
        assert (8 * i + j) / 8 == i && (8 * i + j) % 8 == j;
        ZeroHasNoBits(j);
      }
      SameBitsSameByte(TextOf(BitsOf(text))[i], ZeroExtend(text)[i]);
    }
  }

  // ----- keys -----

  /** The public key holds the hashes of the private key. */
  ghost predicate Matches(h: HashFn, pair: KeyPair) {
    && pair.priv.Complete() && pair.pub.Complete()
    && forall i :: 0 <= i < KEY_LEN ==>
         pair.pub.S0[i] == h(pair.priv.S0[i]) && pair.pub.S1[i] == h(pair.priv.S1[i])
  }

  /** The pairs of random bitsets that one key generation draws. */
  type Coins = c: seq<(Bitset, Bitset)> | |c| == 256
    witness seq(256, _ => (NO_BITS, NO_BITS))

  function Generated(h: HashFn, coins: Coins): KeyPair {
    KeyPair(
      SigKey(seq(256, i requires 0 <= i < 256 => TextOf(coins[i].0)),
             seq(256, i requires 0 <= i < 256 => TextOf(coins[i].1))),
      SigKey(seq(256, i requires 0 <= i < 256 => h(TextOf(coins[i].0))),
             seq(256, i requires 0 <= i < 256 => h(TextOf(coins[i].1)))))
  }

  lemma GeneratedMatches(h: HashFn, coins: Coins)
    ensures Matches(h, Generated(h, coins))
    ensures forall i :: 0 <= i < KEY_LEN ==>
      |Generated(h, coins).priv.S0[i]| == 32 && |Generated(h, coins).priv.S1[i]| == 32
  {
    hide LowBits;
  }

  class Signature {
    var privateKey: SigKey
    var publicKey: SigKey

    constructor ()
      ensures privateKey == publicKey == SigKey([], [])
    {
      privateKey, publicKey := SigKey([], []), SigKey([], []);
    }

    /** Key generation from the random bits drawn; what was there before is forgotten. */
    method KeyGen(h: HashFn, coins: Coins)
      modifies this
      ensures KeyPair(privateKey, publicKey) == Generated(h, coins)
    {
      hide TextOf;
      privateKey, publicKey := SigKey([], []), SigKey([], []);
      for i := 0 to KEY_LEN
        invariant privateKey.S0 == Generated(h, coins).priv.S0[..i] && privateKey.S1 == Generated(h, coins).priv.S1[..i]
        invariant publicKey.S0 == Generated(h, coins).pub.S0[..i] && publicKey.S1 == Generated(h, coins).pub.S1[..i]
      {
        var k0 := BitsetToString(coins[i].0);
        var k1 := BitsetToString(coins[i].1);
        privateKey := SigKey(privateKey.S0 + [k0], privateKey.S1 + [k1]);
        publicKey := SigKey(publicKey.S0 + [h(k0)], publicKey.S1 + [h(k1)]);
      }
    }
  }

  // ----- signing and verifying -----

  /** The part of a message that is signed. */
  function Crop(m: Bytes): (c: Bytes)
    ensures |c| <= 32
  {
    if |m| > KEY_LEN / 8 then m[..KEY_LEN / 8] else m
  }

  function Signed(m: Bytes, key: SigKey): seq<Bytes> {
    if !key.Complete() then []
    else seq(256, i requires 0 <= i < 256 => if BitsOf(Crop(m))[i] then key.S1[i] else key.S0[i])
  }

  function Verdict(h: HashFn, m: Bytes, sig: seq<Bytes>, key: SigKey): int {
    if !key.Complete() || |sig| != KEY_LEN then -1
    else if forall i :: 0 <= i < 256 ==> h(sig[i]) == (if BitsOf(Crop(m))[i] then key.S1[i] else key.S0[i]) then 1
    else 0
  }

  method Sign(m: Bytes, key: SigKey) returns (sig: seq<Bytes>)
    ensures sig == Signed(m, key)
  {
    hide TextBit;
    sig := [];
    if |key.S0| != KEY_LEN || |key.S1| != KEY_LEN {
      return;
    }
    var mBits := StringToBitset(Crop(m));
    for i := 0 to KEY_LEN
      invariant sig == Signed(m, key)[..i]
    {
      sig := sig + [if mBits[i] then key.S1[i] else key.S0[i]];
    }
  }

  method Verify(h: HashFn, m: Bytes, sig: seq<Bytes>, key: SigKey) returns (verdict: int)
    ensures verdict == Verdict(h, m, sig, key)
  {
    hide TextBit;
    if |key.S0| != KEY_LEN || |key.S1| != KEY_LEN || |sig| != KEY_LEN {
      return -1;
    }
    var mBits := StringToBitset(Crop(m));
    for i := 0 to KEY_LEN
      invariant forall j :: 0 <= j < i ==> h(sig[j]) == (if mBits[j] then key.S1[j] else key.S0[j])
    {
      var k := if mBits[i] then key.S1[i] else key.S0[i];
      if k != h(sig[i]) {
        return 0;
      }
    }
    return 1;
  }

  // ----- exactness -----

  /** Where two messages differ, the two halves of the public key happen to agree. */
  ghost predicate DifferOnlyWhereHalvesAgree(m1: Bytes, m2: Bytes, pub: SigKey)
    requires pub.Complete()
  {
    forall i :: 0 <= i < 256 && BitsOf(Crop(m1))[i] != BitsOf(Crop(m2))[i] ==> pub.S0[i] == pub.S1[i]
  }

  /** A signature on m1 verifies for m2 exactly when ... */
  lemma VerifiesExactly(h: HashFn, pair: KeyPair, m1: Bytes, m2: Bytes)
    requires Matches(h, pair)
    ensures Verdict(h, m2, Signed(m1, pair.priv), pair.pub)
         == if DifferOnlyWhereHalvesAgree(m1, m2, pair.pub) then 1 else 0
  {
    hide BitsOf;
    var sig := Signed(m1, pair.priv);
    forall i | 0 <= i < 256
      ensures h(sig[i]) == if BitsOf(Crop(m1))[i] then pair.pub.S1[i] else pair.pub.S0[i]
    {
    }
    if !DifferOnlyWhereHalvesAgree(m1, m2, pair.pub) {
      var i :| 0 <= i < 256 && BitsOf(Crop(m1))[i] != BitsOf(Crop(m2))[i] && pair.pub.S0[i] != pair.pub.S1[i];
      assert h(sig[i]) != if BitsOf(Crop(m2))[i] then pair.pub.S1[i] else pair.pub.S0[i];
    }
  }

  /** A message verifies with its own signature, whatever the key. */
  lemma OwnSignatureVerifies(h: HashFn, pair: KeyPair, m: Bytes)
    requires Matches(h, pair)
    ensures Verdict(h, m, Signed(m, pair.priv), pair.pub) == 1
  {
    hide BitsOf;
    VerifiesExactly(h, pair, m, m);
  }

  lemma SameBitsSameText(a: Bytes, b: Bytes)
    requires |a| <= 32 && |b| <= 32
    ensures BitsOf(a) == BitsOf(b) <==> ZeroExtend(a) == ZeroExtend(b)
  {
    TextOfBitsOf(a);
    TextOfBitsOf(b);
    if ZeroExtend(a) == ZeroExtend(b) {
      BitsOfZeroExtended(a);
      BitsOfZeroExtended(b);
    }
  }

  lemma BitsOfZeroExtended(a: Bytes)
    requires |a| <= 32
    ensures BitsOf(ZeroExtend(a)) == BitsOf(a)
  {
    hide Bit;
    forall k | 0 <= k < 256 ensures TextBit(ZeroExtend(a), k) == TextBit(a, k) {
      ZeroHasNoBits(k % 8);
    }
  }

  /**
   * Exactness. If the two halves of the public key differ at every index, a signature on m1 verifies
   * for m2 exactly when the first 32 bytes of m1 and m2, zero-extended, are equal.
   */
  lemma LamportExactness(h: HashFn, pair: KeyPair, m1: Bytes, m2: Bytes)
    requires Matches(h, pair)
    requires forall i :: 0 <= i < KEY_LEN ==> pair.pub.S0[i] != pair.pub.S1[i]
    ensures Verdict(h, m2, Signed(m1, pair.priv), pair.pub) == 1
       <==> ZeroExtend(Crop(m1)) == ZeroExtend(Crop(m2))
  {
    hide BitsOf, ZeroExtend;
    VerifiesExactly(h, pair, m1, m2);
    SameBitsSameText(Crop(m1), Crop(m2));
    assert DifferOnlyWhereHalvesAgree(m1, m2, pair.pub) <==> BitsOf(Crop(m1)) == BitsOf(Crop(m2));
  }

  // ----- the same, read off the bytes -----

  const MASKS: seq<bv8> := [1, 2, 4, 8, 16, 32, 64, 128]

  lemma BitIsMask(x: bv8, j: nat)
    requires j < 8
    ensures Bit(x, j) <==> x & MASKS[j] != 0
  {
    assert j == 0 || j == 1 || j == 2 || j == 3 || j == 4 || j == 5 || j == 6 || j == 7;
  }

  /** Bit k of a message: least significant first in each byte; there are no bits past the end. */
  predicate HasBit(m: Bytes, k: nat) {
    k / 8 < |m| && m[k / 8] & MASKS[k % 8] != 0
  }

  /** Packing puts bit 8i+j in place j of byte i. */
  lemma PackedByMask(bits: Bitset, k: nat)
    requires k < 256
    ensures HasBit(TextOf(bits), k) <==> bits[k]
  {
    hide Bit;
    TextOfBit(bits, k);
    BitIsMask(TextOf(bits)[k / 8], k % 8);
  }

  /** Unpacking takes it from there. */
  lemma UnpackedByMask(text: Bytes, k: nat)
    requires |text| <= 32 && k < 256
    ensures BitsOf(text)[k] <==> HasBit(text, k)
  {
    hide Bit;
    if k / 8 < |text| {
      BitIsMask(text[k / 8], k % 8);
    }
  }

  lemma CroppedBit(m: Bytes, k: nat)
    requires k < 256
    ensures BitsOf(Crop(m))[k] <==> HasBit(m, k)
  {
    hide BitsOf;
    UnpackedByMask(Crop(m), k);
  }

  /** Signing reveals the second secret of place k where the message has bit k, and the first elsewhere. */
  lemma SignedByMask(m: Bytes, key: SigKey, k: nat)
    requires key.Complete() && k < 256
    ensures |Signed(m, key)| == 256 && Signed(m, key)[k] == if HasBit(m, k) then key.S1[k] else key.S0[k]
  {
    hide BitsOf, HasBit;
    CroppedBit(m, k);
  }

  /** Verifying compares every revealed secret with the half that the bit selects. */
  lemma VerdictByMask(h: HashFn, m: Bytes, sig: seq<Bytes>, key: SigKey)
    requires key.Complete() && |sig| == 256
    ensures Verdict(h, m, sig, key) == 1 <==>
      forall k :: 0 <= k < 256 ==> h(sig[k]) == if HasBit(m, k) then key.S1[k] else key.S0[k]
  {
    hide BitsOf, HasBit;
    forall k | 0 <= k < 256 ensures BitsOf(Crop(m))[k] <==> HasBit(m, k) {
      CroppedBit(m, k);
    }
  }

  /** The three answers: -1 for a key or signature of the wrong size, otherwise 1 or 0. */
  lemma VerdictCases(h: HashFn, m: Bytes, sig: seq<Bytes>, key: SigKey)
    ensures Verdict(h, m, sig, key) == -1 <==> |key.S0| != 256 || |key.S1| != 256 || |sig| != 256
    ensures Verdict(h, m, sig, key) in {-1, 0, 1}
  {
    hide BitsOf;
  }

  /** Byte i of a message, 0 past its end. */
  function ByteAt(m: Bytes, i: nat): bv8 {
    if i < |m| then m[i] else 0
  }

  /** Exactness, byte by byte: what a signature covers is the first 32 bytes. */
  lemma FirstBytesDecide(h: HashFn, pair: KeyPair, m1: Bytes, m2: Bytes)
    requires Matches(h, pair)
    requires forall i :: 0 <= i < KEY_LEN ==> pair.pub.S0[i] != pair.pub.S1[i]
    ensures Verdict(h, m2, Signed(m1, pair.priv), pair.pub) == 1
       <==> forall i :: 0 <= i < 32 ==> ByteAt(m1, i) == ByteAt(m2, i)
  {
    hide Verdict, Signed, Matches;
    LamportExactness(h, pair, m1, m2);
    var x, y := ZeroExtend(Crop(m1)), ZeroExtend(Crop(m2));
    assert forall i :: 0 <= i < 32 ==> x[i] == ByteAt(m1, i) && y[i] == ByteAt(m2, i);
  }

  /** Every secret of a generated key reads back as the bits drawn for its place. */
  lemma SecretsAreDraws(h: HashFn, coins: Coins, k: nat)
    requires k < 256
    ensures Generated(h, coins).priv.Complete()
    ensures BitsOf(Generated(h, coins).priv.S0[k]) == coins[k].0
    ensures BitsOf(Generated(h, coins).priv.S1[k]) == coins[k].1
  {
    hide BitsOf, TextOf;
    BitsOfTextOf(coins[k].0);
    BitsOfTextOf(coins[k].1);
  }

  /** Every secret of the private key reads back as the bits drawn for its place. */
  ghost predicate DrawnFrom(key: SigKey, coins: Coins) {
    key.Complete() && forall k :: 0 <= k < 256 ==> BitsOf(key.S0[k]) == coins[k].0 && BitsOf(key.S1[k]) == coins[k].1
  }

  lemma GeneratedIsDrawn(h: HashFn, coins: Coins)
    ensures DrawnFrom(Generated(h, coins).priv, coins)
  {
    hide BitsOf, Generated;
    SecretsAreDraws(h, coins, 0);
    forall k | 0 <= k < 256
      ensures BitsOf(Generated(h, coins).priv.S0[k]) == coins[k].0
      ensures BitsOf(Generated(h, coins).priv.S1[k]) == coins[k].1
    {
      SecretsAreDraws(h, coins, k);
    }
  }

  /** The public key hashes the secrets packed from the same bits. */
  lemma PublicHashesDraws(h: HashFn, coins: Coins)
    ensures Generated(h, coins).pub.Complete()
    ensures forall k :: 0 <= k < 256 ==>
      && Generated(h, coins).pub.S0[k] == h(TextOf(coins[k].0))
      && Generated(h, coins).pub.S1[k] == h(TextOf(coins[k].1))
  {
    hide TextOf;
  }

  /** Different draws make different private keys. */
  lemma DifferentDrawsDiffer(h: HashFn, coins: Coins, others: Coins)
    requires coins != others
    ensures Generated(h, coins).priv != Generated(h, others).priv
  {
    hide BitsOf, Generated;
    var k :| 0 <= k < 256 && coins[k] != others[k];
    SecretsAreDraws(h, coins, k);
    SecretsAreDraws(h, others, k);
    assert coins[k].0 != others[k].0 || coins[k].1 != others[k].1;
  }
}
