/** The compression function of SHA-256, unrolled as the program unrolls it. */
module Sha256 {
  import opened Common
  import opened Fips180

  const BLOCK_SIZE := 64

  // ----- the helpers of processBlock -----

  function F1(e: Word, f: Word, g: Word): Word {
    var term1 := RotR(6, e) ^ RotR(11, e) ^ RotR(25, e);
    var term2 := (e & f) ^ (!e & g);
    Sum2(term1, term2)
  }

  function F2(a: Word, b: Word, c: Word): Word {
    var term1 := RotR(2, a) ^ RotR(13, a) ^ RotR(22, a);
    var term2 := ((a | b) & c) | (a & b);
    Sum2(term1, term2)
  }

  lemma F1Is(e: Word, f: Word, g: Word)
    ensures F1(e, f, g) == Sum2(BigSigma1(e), Ch(e, f, g))
  {
    hide RotR, Sum2;
  }

  lemma MajorityForms(a: Word, b: Word, c: Word)
    ensures ((a | b) & c) | (a & b) == Maj(a, b, c)
  {
  }

  lemma F2Is(a: Word, b: Word, c: Word)
    ensures F2(a, b, c) == Sum2(BigSigma0(a), Maj(a, b, c))
  {
    hide RotR, Sum2, Maj;
    MajorityForms(a, b, c);
  }

  lemma Reassociate(h: Word, s: Word, c: Word, k: Word, w: Word)
    ensures Sum4(h, Sum2(s, c), k, w) == Sum5(h, s, c, k, w)
  {
    hide Sum4, Sum5;
    Flatten(h, s, c, k, w);
  }

  lemma Flatten(h: Word, s: Word, c: Word, k: Word, w: Word)
    ensures Sum4(h, s + c, k, w) == Sum5(h, s, c, k, w)
  {
  }

  lemma Reverse(p: Word, q: Word, r: Word, s: Word)
    ensures Sum4(p, q, r, s) == Sum4(s, r, q, p)
  {
  }

  /** Four statements of the unrolled loop make one step, up to the renaming of the registers. */
  lemma StatementsAreStep(r: Regs, k: Word, w: Word)
    ensures var x := Sum4(r.h, F1(r.e, r.f, r.g), k, w);
      Regs(Sum2(x, F2(r.a, r.b, r.c)), r.a, r.b, r.c, Sum2(r.d, x), r.e, r.f, r.g) == Step(r, k, w)
  {
    hide F1, F2, BigSigma1, BigSigma0, Ch, Maj, Sum2, Sum4, Sum5;
    F1Is(r.e, r.f, r.g);
    F2Is(r.a, r.b, r.c);
    Reassociate(r.h, BigSigma1(r.e), Ch(r.e, r.f, r.g), k, w);
  }

  /** The next word of the message schedule. */
  function Extend(w16: Word, w15: Word, w7: Word, w2: Word): Word {
    Sum4(w16, RotR(7, w15) ^ RotR(18, w15) ^ (w15 >> 3), w7, RotR(17, w2) ^ RotR(19, w2) ^ (w2 >> 10))
  }

  lemma ExtendIs(w16: Word, w15: Word, w7: Word, w2: Word)
    ensures Extend(w16, w15, w7, w2) == Sum4(SmallSigma1(w2), w7, SmallSigma0(w15), w16)
  {
    hide RotR, Sum4;
    Reverse(w16, SmallSigma0(w15), w7, SmallSigma1(w2));
  }

  /** Loading a word as the program does: little-endian, then bytes swapped. */
  function LoadLittleEndian(b0: bv8, b1: bv8, b2: bv8, b3: bv8): Word {
    (b0 as bv32) | (b1 as bv32 << 8) | (b2 as bv32 << 16) | (b3 as bv32 << 24)
  }

  function Swap(x: Word): Word {
    (x >> 24) | ((x >> 8) & 0x0000FF00) | ((x << 8) & 0x00FF0000) | (x << 24)
  }

  lemma SwapLoads(b0: bv8, b1: bv8, b2: bv8, b3: bv8)
    ensures Swap(LoadLittleEndian(b0, b1, b2, b3)) == BigEndianWord(b0, b1, b2, b3)
  {
  }

  // ----- eight rounds -----

  /** Eight steps of the 64-step loop, with the given constants and words. */
  function Eight(r: Regs, k: seq<Word>, w: seq<Word>): Regs
    requires |k| == 8 && |w| == 8
  {
    Step(Step(Step(Step(Step(Step(Step(Step(r, k[0], w[0]), k[1], w[1]), k[2], w[2]), k[3], w[3]),
      k[4], w[4]), k[5], w[5]), k[6], w[6]), k[7], w[7])
  }

  /** One of the eight groups of unrolled rounds: the registers are renamed instead of moved. */
  method EightRounds(r: Regs, k: seq<Word>, w: seq<Word>) returns (r': Regs)
    requires |k| == 8 && |w| == 8
    ensures r' == Eight(r, k, w)
  {
    hide Step, Sum2, Sum4, F1, F2;
    var a, b, c, d, e, f, g, h := r.a, r.b, r.c, r.d, r.e, r.f, r.g, r.h;
    var x, y: Word;

    x := Sum4(h, F1(e, f, g), k[0], w[0]);
    y := F2(a, b, c);
    ghost var r0 := Regs(a, b, c, d, e, f, g, h);
    d := Sum2(d, x);
    h := Sum2(x, y);
    StatementsAreStep(r0, k[0], w[0]);

    x := Sum4(g, F1(d, e, f), k[1], w[1]);
    y := F2(h, a, b);
    ghost var r1 := Regs(h, a, b, c, d, e, f, g);
    c := Sum2(c, x);
    g := Sum2(x, y);
    StatementsAreStep(r1, k[1], w[1]);

    x := Sum4(f, F1(c, d, e), k[2], w[2]);
    y := F2(g, h, a);
    ghost var r2 := Regs(g, h, a, b, c, d, e, f);
    b := Sum2(b, x);
    f := Sum2(x, y);
    StatementsAreStep(r2, k[2], w[2]);

    x := Sum4(e, F1(b, c, d), k[3], w[3]);
    y := F2(f, g, h);
    ghost var r3 := Regs(f, g, h, a, b, c, d, e);
    a := Sum2(a, x);
    e := Sum2(x, y);
    StatementsAreStep(r3, k[3], w[3]);

    x := Sum4(d, F1(a, b, c), k[4], w[4]);
    y := F2(e, f, g);
    ghost var r4 := Regs(e, f, g, h, a, b, c, d);
    h := Sum2(h, x);
    d := Sum2(x, y);
    StatementsAreStep(r4, k[4], w[4]);

    x := Sum4(c, F1(h, a, b), k[5], w[5]);
    y := F2(d, e, f);
    ghost var r5 := Regs(d, e, f, g, h, a, b, c);
    g := Sum2(g, x);
    c := Sum2(x, y);
    StatementsAreStep(r5, k[5], w[5]);

    x := Sum4(b, F1(g, h, a), k[6], w[6]);
    y := F2(c, d, e);
    ghost var r6 := Regs(c, d, e, f, g, h, a, b);
    f := Sum2(f, x);
    b := Sum2(x, y);
    StatementsAreStep(r6, k[6], w[6]);

    x := Sum4(a, F1(f, g, h), k[7], w[7]);
    y := F2(b, c, d);
    ghost var r7 := Regs(b, c, d, e, f, g, h, a);
    e := Sum2(e, x);
    a := Sum2(x, y);
    StatementsAreStep(r7, k[7], w[7]);

    r' := Regs(a, b, c, d, e, f, g, h);
  }

  lemma ScheduleStart(words: seq<Word>, m: seq<Word>)
    requires |words| == 64 && |m| == 16 && words[..16] == m
    ensures Scheduled(words, m, 8) && Scheduled(words, m, 16)
  {
    assert forall t :: 0 <= t < 16 ==> words[t] == words[..16][t];
  }

  lemma ScheduleNext(m: seq<Word>, t: nat)
    requires |m| == 16 && t >= 16
    ensures W(m, t) == Sum4(SmallSigma1(W(m, t - 2)), W(m, t - 7), SmallSigma0(W(m, t - 15)), W(m, t - 16))
  {
    hide Sum4, SmallSigma0, SmallSigma1;
  }

  /** The first `count` words of the schedule are in place. */
  ghost predicate Scheduled(words: seq<Word>, m: seq<Word>, count: nat) {
    |m| == 16 && |words| == 64 && count <= 64 && forall t :: 0 <= t < count ==> words[t] == W(m, t)
  }

  lemma StepsNext(r: Regs, m: seq<Word>, i: nat, j: nat)
    requires |m| == 16 && i < 8 && j < 8
    ensures Steps(r, m, 8 * i + j + 1) == Step(Steps(r, m, 8 * i + j), KRow(i)[j], W(m, 8 * i + j))
  {
    hide Step, KRow, W;
  }

  /** Four steps, with constants and words from position j on. */
  function Four(r: Regs, k: seq<Word>, w: seq<Word>, j: nat): Regs
    requires |k| == |w| == 8 && j <= 4
  {
    Step(Step(Step(Step(r, k[j], w[j]), k[j + 1], w[j + 1]), k[j + 2], w[j + 2]), k[j + 3], w[j + 3])
  }

  lemma EightIsTwiceFour(r: Regs, k: seq<Word>, w: seq<Word>)
    requires |k| == |w| == 8
    ensures Eight(r, k, w) == Four(Four(r, k, w, 0), k, w, 4)
  {
    hide Step;
  }

  lemma FourAreSteps(r: Regs, m: seq<Word>, i: nat, w: seq<Word>, j: nat)
    requires |m| == 16 && i < 8 && |w| == 8 && (j == 0 || j == 4)
    requires w[j] == W(m, 8 * i + j) && w[j + 1] == W(m, 8 * i + j + 1)
    requires w[j + 2] == W(m, 8 * i + j + 2) && w[j + 3] == W(m, 8 * i + j + 3)
    ensures Four(Steps(r, m, 8 * i + j), KRow(i), w, j) == Steps(r, m, 8 * i + j + 4)
  {
    hide Step, KRow, Steps, W;
    StepsNext(r, m, i, j);
    StepsNext(r, m, i, j + 1);
    StepsNext(r, m, i, j + 2);
    StepsNext(r, m, i, j + 3);
  }

  /** Eight rounds with the schedule's words and a row of constants are eight of the 64 steps. */
  lemma EightAreSteps(r: Regs, m: seq<Word>, i: nat, w: seq<Word>)
    requires |m| == 16 && i < 8 && |w| == 8
    requires w[0] == W(m, 8 * i) && w[1] == W(m, 8 * i + 1) && w[2] == W(m, 8 * i + 2) && w[3] == W(m, 8 * i + 3)
    requires w[4] == W(m, 8 * i + 4) && w[5] == W(m, 8 * i + 5) && w[6] == W(m, 8 * i + 6) && w[7] == W(m, 8 * i + 7)
    ensures Eight(Steps(r, m, 8 * i), KRow(i), w) == Steps(r, m, 8 * i + 8)
  {
    hide Four, Eight, KRow, Steps, W;
    EightIsTwiceFour(Steps(r, m, 8 * i), KRow(i), w);
    FourAreSteps(r, m, i, w, 0);
    FourAreSteps(r, m, i, w, 4);
  }

  /** The schedule is extended eight words at a time, between the groups of rounds. */
  method ExtendSchedule(words: array<Word>, from: nat, ghost m: seq<Word>)
    requires words.Length == 64 && 16 <= from <= 56 && Scheduled(words[..], m, from)
    modifies words
    ensures Scheduled(words[..], m, from + 8)
  {
    hide Extend, Sum4, SmallSigma0, SmallSigma1, W;
    var i := from;
    while i < from + 8
      invariant from <= i <= from + 8
      invariant forall t :: 0 <= t < i ==> words[t] == W(m, t)
    {
      ExtendIs(words[i - 16], words[i - 15], words[i - 7], words[i - 2]);
      ScheduleNext(m, i);
      words[i] := Extend(words[i - 16], words[i - 15], words[i - 7], words[i - 2]);
      i := i + 1;
    }
  }

  /** The block as sixteen big-endian words. */
  method LoadWords(data: Bytes, words: array<Word>)
    requires |data| == 64 && words.Length == 64
    modifies words
    ensures words[..16] == WordsOf(data)
  {
    hide BigEndianWord, Swap, LoadLittleEndian;
    var i := 0;
    while i < 16
      invariant 0 <= i <= 16
      invariant forall t :: 0 <= t < i ==> words[t] == WordsOf(data)[t]
    {
      SwapLoads(data[4 * i], data[4 * i + 1], data[4 * i + 2], data[4 * i + 3]);
      words[i] := Swap(LoadLittleEndian(data[4 * i], data[4 * i + 1], data[4 * i + 2], data[4 * i + 3]));
      i := i + 1;
    }
  }

  /** One group of eight rounds, given its constants and the schedule so far. */
  method Group(r: Regs, k: seq<Word>, words: array<Word>, i: nat, ghost hash: Regs, ghost m: seq<Word>)
    returns (r': Regs)
    requires words.Length == 64 && i < 8 && k == KRow(i)
    requires Scheduled(words[..], m, 8 * i + 8) && r == Steps(hash, m, 8 * i)
    ensures r' == Steps(hash, m, 8 * i + 8)
  {
    hide Eight, KRow, W, Steps;
    r' := EightRounds(r, k, words[8 * i..8 * i + 8]);
    assert words[..][8 * i..8 * i + 8] == words[8 * i..8 * i + 8];
    EightAreSteps(hash, m, i, words[8 * i..8 * i + 8]);
  }

  /** Process one block of 64 bytes: the compression function of the standard. */
  method CompressBlock(hash: Regs, data: Bytes) returns (hash': Regs)
    requires |data| == 64
    ensures hash' == Compress(hash, WordsOf(data))
  {
    hide Step, W, WordsOf, Sum2, Scheduled;
    var words := new Word[64];
    ghost var m := WordsOf(data);
    LoadWords(data, words);
    assert words[..][..16] == words[..16];
    ScheduleStart(words[..], m);
    var r := hash;
    r := Group(r, [0x428a2f98, 0x71374491, 0xb5c0fbcf, 0xe9b5dba5,
                   0x3956c25b, 0x59f111f1, 0x923f82a4, 0xab1c5ed5], words, 0, hash, m);
    r := Group(r, [0xd807aa98, 0x12835b01, 0x243185be, 0x550c7dc3,
                   0x72be5d74, 0x80deb1fe, 0x9bdc06a7, 0xc19bf174], words, 1, hash, m);
    ExtendSchedule(words, 16, m);
    r := Group(r, [0xe49b69c1, 0xefbe4786, 0x0fc19dc6, 0x240ca1cc,
                   0x2de92c6f, 0x4a7484aa, 0x5cb0a9dc, 0x76f988da], words, 2, hash, m);
    ExtendSchedule(words, 24, m);
    r := Group(r, [0x983e5152, 0xa831c66d, 0xb00327c8, 0xbf597fc7,
                   0xc6e00bf3, 0xd5a79147, 0x06ca6351, 0x14292967], words, 3, hash, m);
    ExtendSchedule(words, 32, m);
    r := Group(r, [0x27b70a85, 0x2e1b2138, 0x4d2c6dfc, 0x53380d13,
                   0x650a7354, 0x766a0abb, 0x81c2c92e, 0x92722c85], words, 4, hash, m);
    ExtendSchedule(words, 40, m);
    r := Group(r, [0xa2bfe8a1, 0xa81a664b, 0xc24b8b70, 0xc76c51a3,
                   0xd192e819, 0xd6990624, 0xf40e3585, 0x106aa070], words, 5, hash, m);
    ExtendSchedule(words, 48, m);
    r := Group(r, [0x19a4c116, 0x1e376c08, 0x2748774c, 0x34b0bcb5,
                   0x391c0cb3, 0x4ed8aa4a, 0x5b9cca4f, 0x682e6ff3], words, 6, hash, m);
    ExtendSchedule(words, 56, m);
    r := Group(r, [0x748f82ee, 0x78a5636f, 0x84c87814, 0x8cc70208,
                   0x90befffa, 0xa4506ceb, 0xbef9a3f7, 0xc67178f2], words, 7, hash, m);
    hash' := Plus(r, hash);
  }
}
