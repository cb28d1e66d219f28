/** SHA-256 as FIPS 180-4 defines it, for messages of whole bytes. */
module Fips180 {
  import opened Common

  type Word = bv32

  // Section 3.2: operations on words. Addition is modulo 2^32.
  function RotR(n: Word, x: Word): Word
    requires 0 < n < 32
  {
    (x >> n) | (x << (32 - n))
  }

  function Sum2(x: Word, y: Word): Word { x + y }
  function Sum4(x: Word, y: Word, z: Word, w: Word): Word { x + y + z + w }
  function Sum5(x: Word, y: Word, z: Word, w: Word, v: Word): Word { x + y + z + w + v }

  // Section 4.1.2: the six functions.
  function Ch(x: Word, y: Word, z: Word): Word { (x & y) ^ (!x & z) }
  function Maj(x: Word, y: Word, z: Word): Word { (x & y) ^ (x & z) ^ (y & z) }
  function BigSigma0(x: Word): Word { RotR(2, x) ^ RotR(13, x) ^ RotR(22, x) }
  function BigSigma1(x: Word): Word { RotR(6, x) ^ RotR(11, x) ^ RotR(25, x) }
  function SmallSigma0(x: Word): Word { RotR(7, x) ^ RotR(18, x) ^ (x >> 3) }
  function SmallSigma1(x: Word): Word { RotR(17, x) ^ RotR(19, x) ^ (x >> 10) }

  // Section 4.2.2: the constants, eight to a row.
  function KRow(i: nat): (row: seq<Word>)
    requires i < 8
    ensures |row| == 8
  {
    if i == 0 then [0x428a2f98, 0x71374491, 0xb5c0fbcf, 0xe9b5dba5, 0x3956c25b, 0x59f111f1, 0x923f82a4, 0xab1c5ed5]
    else if i == 1 then [0xd807aa98, 0x12835b01, 0x243185be, 0x550c7dc3, 0x72be5d74, 0x80deb1fe, 0x9bdc06a7, 0xc19bf174]
    else if i == 2 then [0xe49b69c1, 0xefbe4786, 0x0fc19dc6, 0x240ca1cc, 0x2de92c6f, 0x4a7484aa, 0x5cb0a9dc, 0x76f988da]
    else if i == 3 then [0x983e5152, 0xa831c66d, 0xb00327c8, 0xbf597fc7, 0xc6e00bf3, 0xd5a79147, 0x06ca6351, 0x14292967]
    else if i == 4 then [0x27b70a85, 0x2e1b2138, 0x4d2c6dfc, 0x53380d13, 0x650a7354, 0x766a0abb, 0x81c2c92e, 0x92722c85]
    else if i == 5 then [0xa2bfe8a1, 0xa81a664b, 0xc24b8b70, 0xc76c51a3, 0xd192e819, 0xd6990624, 0xf40e3585, 0x106aa070]
    else if i == 6 then [0x19a4c116, 0x1e376c08, 0x2748774c, 0x34b0bcb5, 0x391c0cb3, 0x4ed8aa4a, 0x5b9cca4f, 0x682e6ff3]
    else [0x748f82ee, 0x78a5636f, 0x84c87814, 0x8cc70208, 0x90befffa, 0xa4506ceb, 0xbef9a3f7, 0xc67178f2]
  }

  function K(t: nat): Word
    requires t < 64
  {
    KRow(t / 8)[t % 8]
  }

  // Section 5.1.1: padding.

  /** The least k with l + 1 + k congruent to 448 modulo 512. */
  function ZeroBits(l: nat): nat { (447 - l) % 512 }

  lemma ZeroBitsIsLeast(l: nat, k: nat)
    ensures (l + 1 + ZeroBits(l)) % 512 == 448
    ensures (l + 1 + k) % 512 == 448 ==> ZeroBits(l) <= k
  {
  }

  /** The last `count` base-256 digits of n, most significant first. */
  function BigEndian(n: nat, count: nat): (digits: Bytes)
    ensures |digits| == count
  {
    if count == 0 then [] else BigEndian(n / 256, count - 1) + [(n % 256) as bv8]
  }

  /** For whole bytes: seven of the 0 bits complete the byte of the 1 bit, the others are these bytes. */
  function ZeroBytes(length: nat): (z: nat)
    ensures ZeroBits(8 * length) == 7 + 8 * z
    ensures z == if length % 64 < 56 then 55 - length % 64 else 119 - length % 64
  {
    ZeroBitsOfBytes(length / 64, length % 64);
    (ZeroBits(8 * length) - 7) / 8
  }

  lemma ZeroBitsOfBytes(blocks: nat, rest: nat)
    requires rest < 64
    ensures ZeroBits(8 * (64 * blocks + rest)) == 7 + 8 * (if rest < 56 then 55 - rest else 119 - rest)
  {
    var k := 7 + 8 * (if rest < 56 then 55 - rest else 119 - rest);
    var c := 0 - blocks - if rest < 56 then 0 else 1;
    assert 447 - 8 * (64 * blocks + rest) == 512 * c + k;
  }

  lemma PaddedIsWholeBlocks(blocks: nat, rest: nat)
    requires rest < 64
    ensures (64 * blocks + rest + (if rest < 56 then 55 - rest else 119 - rest) + 9) % 64 == 0
  {
    var k := blocks + if rest < 56 then 1 else 2;
    assert 64 * blocks + rest + (if rest < 56 then 55 - rest else 119 - rest) + 9 == 64 * k;
  }

  /** What is appended to a message of `length` bytes: a 1 bit, k 0 bits, the length in bits. */
  function Padding(length: nat): (pad: Bytes)
    ensures |pad| == ZeroBytes(length) + 9
    ensures (length + |pad|) % 64 == 0
  {
    PaddedIsWholeBlocks(length / 64, length % 64);
    [0x80] + seq(ZeroBytes(length), _ => 0) + BigEndian(8 * length, 8)
  }

  // Section 5.2.1: parsing a block into sixteen words.

  function BigEndianWord(b0: bv8, b1: bv8, b2: bv8, b3: bv8): Word {
    (b0 as bv32 << 24) | (b1 as bv32 << 16) | (b2 as bv32 << 8) | (b3 as bv32)
  }

  function WordsOf(block: Bytes): (m: seq<Word>)
    requires |block| == 64
    ensures |m| == 16
  {
    seq(16, i requires 0 <= i < 16 =>
      BigEndianWord(block[4 * i], block[4 * i + 1], block[4 * i + 2], block[4 * i + 3]))
  }

  // Section 6.2.2: the hash computation.

  /** The message schedule. */
  function W(m: seq<Word>, t: nat): Word
    requires |m| == 16
  {
    if t < 16 then m[t]
    else Sum4(SmallSigma1(W(m, t - 2)), W(m, t - 7), SmallSigma0(W(m, t - 15)), W(m, t - 16))
  }

  datatype Regs = Regs(a: Word, b: Word, c: Word, d: Word, e: Word, f: Word, g: Word, h: Word)

  /** One step of the 64-step loop. */
  function Step(r: Regs, k: Word, w: Word): Regs {
    var t1 := Sum5(r.h, BigSigma1(r.e), Ch(r.e, r.f, r.g), k, w);
    var t2 := Sum2(BigSigma0(r.a), Maj(r.a, r.b, r.c));
    Regs(Sum2(t1, t2), r.a, r.b, r.c, Sum2(r.d, t1), r.e, r.f, r.g)
  }

  /** The working variables after t steps. */
  function Steps(r: Regs, m: seq<Word>, t: nat): Regs
    requires |m| == 16 && t <= 64
  {
    if t == 0 then r else Step(Steps(r, m, t - 1), K(t - 1), W(m, t - 1))
  }

  function Plus(x: Regs, y: Regs): Regs {
    Regs(x.a + y.a, x.b + y.b, x.c + y.c, x.d + y.d, x.e + y.e, x.f + y.f, x.g + y.g, x.h + y.h)
  }

  /** The intermediate hash value after one more block. */
  function Compress(hash: Regs, m: seq<Word>): Regs
    requires |m| == 16
  {
    Plus(Steps(hash, m, 64), hash)
  }

  predicate WholeBlocks(data: Bytes) {
    |data| % 64 == 0
  }

  /** The intermediate hash value after all blocks of `data`. */
  function CompressAll(hash: Regs, data: Bytes): Regs
    requires WholeBlocks(data)
  {
    if data == [] then hash
    else
      var n := |data| - 64;
      Compress(CompressAll(hash, data[..n]), WordsOf(data[n..]))
  }

  // Section 5.3.3: the initial hash value.
  const H0 := Regs(0x6a09e667, 0xbb67ae85, 0x3c6ef372, 0xa54ff53a, 0x510e527f, 0x9b05688c, 0x1f83d9ab, 0x5be0cd19)

  function WordBytes(w: Word): (bytes: Bytes)
    ensures |bytes| == 4
  {
    [((w >> 24) & 0xff) as bv8, ((w >> 16) & 0xff) as bv8, ((w >> 8) & 0xff) as bv8, (w & 0xff) as bv8]
  }

  /** The first byte of a word is its most significant one. */
  lemma BigEndianWordBytes(b0: bv8, b1: bv8, b2: bv8, b3: bv8)
    ensures var w := BigEndianWord(b0, b1, b2, b3);
      w >> 24 == b0 as bv32 && (w >> 16) & 0xff == b1 as bv32 && (w >> 8) & 0xff == b2 as bv32 && w & 0xff == b3 as bv32
  {
  }

  /** Writing a word and reading it again. */
  lemma WordBytesRoundTrip(w: Word)
    ensures BigEndianWord(WordBytes(w)[0], WordBytes(w)[1], WordBytes(w)[2], WordBytes(w)[3]) == w
  {
  }

  function RegsBytes(r: Regs): (bytes: Bytes)
    ensures |bytes| == 32
  {
    WordBytes(r.a) + WordBytes(r.b) + WordBytes(r.c) + WordBytes(r.d)
    + WordBytes(r.e) + WordBytes(r.f) + WordBytes(r.g) + WordBytes(r.h)
  }

  lemma FourByFour(s: seq<Bytes>, i: nat)
    requires |s| == 8 && i < 8 && forall k :: 0 <= k < 8 ==> |s[k]| == 4
    ensures var x := s[0] + s[1] + s[2] + s[3] + s[4] + s[5] + s[6] + s[7];
      |x| == 32 && x[4 * i..4 * i + 4] == s[i]
  {
    assert i == 0 || i == 1 || i == 2 || i == 3 || i == 4 || i == 5 || i == 6 || i == 7;
  }

  /** Bytes 4i to 4i + 3 of a digest are word i of the hash value, in the order a to h. */
  lemma RegsBytesReadBack(r: Regs, i: nat)
    requires i < 8
    ensures RegsBytes(r)[4 * i..4 * i + 4] == WordBytes([r.a, r.b, r.c, r.d, r.e, r.f, r.g, r.h][i])
  {
    hide WordBytes;
    FourByFour([WordBytes(r.a), WordBytes(r.b), WordBytes(r.c), WordBytes(r.d),
                WordBytes(r.e), WordBytes(r.f), WordBytes(r.g), WordBytes(r.h)], i);
  }

  /** The padded message: whole blocks. */
  function Padded(message: Bytes): (padded: Bytes)
    ensures WholeBlocks(padded)
  {
    message + Padding(|message|)
  }

  function Digest(message: Bytes): (digest: Bytes)
    ensures |digest| == 32
  {
    RegsBytes(CompressAll(H0, Padded(message)))
  }

  lemma CompressAllAppend(hash: Regs, data: Bytes, block: Bytes)
    requires WholeBlocks(data) && |block| == 64
    ensures WholeBlocks(data + block)
    ensures CompressAll(hash, data + block) == Compress(CompressAll(hash, data), WordsOf(block))
  {
    hide Compress, WordsOf;
    assert (data + block)[..|data + block| - 64] == data;
    assert (data + block)[|data + block| - 64..] == block;
  }

  // ----- the length field -----

  /** The last `count` base-256 digits of n as numbers, and the number with given digits. */
  function Digits(n: nat, count: nat): (digits: seq<nat>)
    ensures |digits| == count && forall i :: 0 <= i < count ==> digits[i] < 256
  {
    if count == 0 then [] else Digits(n / 256, count - 1) + [n % 256]
  }

  function FromDigits(digits: seq<nat>): nat {
    if digits == [] then 0 else FromDigits(digits[..|digits| - 1]) * 256 + digits[|digits| - 1]
  }

  function Pow256(k: nat): (p: nat)
    ensures p > 0
  {
    if k == 0 then 1 else 256 * Pow256(k - 1)
  }

  lemma ModDiv(n: nat, p: nat)
    requires p > 0
    ensures (n % (256 * p)) / 256 == (n / 256) % p
    ensures (n % (256 * p)) % 256 == n % 256
  {
    var q, r := (n / 256) / p, (n / 256) % p;
    assert n / 256 == p * q + r;
    assert n == 256 * (p * q + r) + n % 256;
    assert n == (256 * p) * q + (256 * r + n % 256);
    ModIs(n, 256 * p, q, 256 * r + n % 256);
  }

  lemma MulStep(d: nat, a: nat, b: nat)
    ensures a < b ==> d * a + d <= d * b
  {
    if a < b {
      assert d * (a + 1) <= d * b;
    }
  }

  lemma ModIs(n: nat, d: nat, q: nat, r: nat)
    requires d > 0 && n == d * q + r && r < d
    ensures n / d == q && n % d == r
  {
    MulStep(d, n / d, q);
    MulStep(d, q, n / d);
  }

  lemma DivDiv(n: nat, p: nat)
    requires p > 0
    ensures (n / 256) / p == n / (256 * p)
  {
    var q, r := (n / 256) / p, (n / 256) % p;
    assert n / 256 == p * q + r;
    assert n == (256 * p) * q + (256 * r + n % 256);
    ModIs(n, 256 * p, q, 256 * r + n % 256);
  }

  /** The base-256 digit of n with weight 256^k: the bits from 8k on, as a byte. */
  function Digit(n: nat, k: nat): bv8 {
    (n / Pow256(k) % 256) as bv8
  }

  lemma {:induction false} BigEndianDigit(n: nat, count: nat, i: nat)
    requires i < count
    ensures BigEndian(n, count)[i] == Digit(n, count - 1 - i)
  {
    if i < count - 1 {
      BigEndianDigit(n / 256, count - 1, i);
      DivDiv(n, Pow256(count - 2 - i));
    }
  }

  /** The digits are those of n modulo 256^count ... */
  lemma {:induction false} BigEndianMod(n: nat, count: nat)
    ensures BigEndian(n % Pow256(count), count) == BigEndian(n, count)
  {
    if count > 0 {
      ModDiv(n, Pow256(count - 1));
      BigEndianMod(n / 256, count - 1);
    }
  }

  lemma {:induction false} BigEndianIsDigits(n: nat, count: nat)
    ensures forall i :: 0 <= i < count ==> BigEndian(n, count)[i] == Digits(n, count)[i] as bv8
  {
    if count > 0 {
      BigEndianIsDigits(n / 256, count - 1);
    }
  }

  /** ... and they can be read back. */
  lemma {:induction false} DigitsValue(n: nat, count: nat)
    ensures FromDigits(Digits(n, count)) == n % Pow256(count)
  {
    if count > 0 {
      DigitsValue(n / 256, count - 1);
      ModDiv(n, Pow256(count - 1));
      var x := n % Pow256(count);
      assert x == x / 256 * 256 + x % 256;
      assert Digits(n, count)[..count - 1] == Digits(n / 256, count - 1);
    }
  }

  /** Below 2^61 bytes the last eight bytes of the padding are the length in bits, as the standard demands. */
  lemma LengthFieldIsExact(length: nat)
    requires length < 0x2000_0000_0000_0000
    ensures var pad, digits := Padding(length), Digits(8 * length, 8);
      && FromDigits(digits) == 8 * length
      && forall i :: 0 <= i < 8 ==> pad[|pad| - 8 + i] == digits[i] as bv8
  {
    hide BigEndian, Digits;
    DigitsValue(8 * length, 8);
    BigEndianIsDigits(8 * length, 8);
    assert Pow256(8) == 0x1_0000_0000_0000_0000;
  }
}
