/** The hash that the program really uses, in place of an arbitrary one. */
module Sha256Instance {
  import opened Common
  import opened Fips180
  import opened Hasher
  import opened Ledger
  import opened Blocks

  /** The program's `hash` has the one property that the other components ask of a hash. */
  lemma HexDigestIsAHash()
    ensures DigestsHave64Chars(HexDigest)
  {
  }

  /** Two texts with the same printed hash are a collision of SHA-256 itself. */
  lemma SameTextSameDigest(x: Bytes, y: Bytes)
    requires HexDigest(x) == HexDigest(y)
    ensures Digest(x) == Digest(y)
  {
    hide Digest, Hex;
    HexIsInjective(Digest(x), Digest(y));
  }

  /** Header IDs bind the transactions, or the proof names a collision of SHA-256. */
  lemma BlockIdsBind(a: Header, txsA: seq<Transaction>, b: Header, txsB: seq<Transaction>)
    returns (x: Bytes, y: Bytes)
    requires a.merkleRoot == RootOf(HexDigest, txsA) && b.merkleRoot == RootOf(HexDigest, txsB)
    requires |txsA| == |txsB| && |a.prevBlockDigest| == |b.prevBlockDigest|
    requires a.ID(HexDigest) == b.ID(HexDigest)
    ensures (a.prevBlockDigest == b.prevBlockDigest && TxDigests(HexDigest, txsA) == TxDigests(HexDigest, txsB))
         || (x != y && Digest(x) == Digest(y)
             && {x, y} <= HeaderTexts(HexDigest, a, txsA) + HeaderTexts(HexDigest, b, txsB))
  {
    hide Digest, Hex, HexDigest, RootOf, TxDigests, HeaderTexts;
    HexDigestIsAHash();
    x, y := HeaderIdBinds(HexDigest, a, txsA, b, txsB);
    if x != y && HexDigest(x) == HexDigest(y) {
      SameTextSameDigest(x, y);
    }
  }
}
