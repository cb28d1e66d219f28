/** The class SHA256: hashing a message that arrives in pieces. */
module Hasher {
  import opened Common
  import opened Fips180
  import opened Sha256

  /** A number kept in 64 bits. */
  function Wrap64(x: nat): nat {
    x % TWO_TO_64
  }

  lemma Wrap64Add(x: nat, y: nat)
    ensures Wrap64(Wrap64(x) + y) == Wrap64(x + y)
  {
    var q := x / TWO_TO_64;
    assert x == TWO_TO_64 * q + x % TWO_TO_64;
    var z := x % TWO_TO_64 + y;
    assert z == TWO_TO_64 * (z / TWO_TO_64) + z % TWO_TO_64;
    ModIs(x + y, TWO_TO_64, q + z / TWO_TO_64, z % TWO_TO_64);
  }

  // ----- output as text -----

  /** The character for a value below 16: '0'..'9', 'a'..'f'. */
  const DEC2HEX: Bytes := [48, 49, 50, 51, 52, 53, 54, 55, 56, 57, 97, 98, 99, 100, 101, 102]

  function HexDigit(n: bv8): bv8 {
    if n < 10 then 48 + n else 87 + n
  }

  function Hex(raw: Bytes): (text: Bytes)
    ensures |text| == 2 * |raw|
  {
    if raw == [] then []
    else Hex(raw[..|raw| - 1]) + [HexDigit(raw[|raw| - 1] >> 4), HexDigit(raw[|raw| - 1] & 15)]
  }

  lemma TableIsHexDigit(n: bv8)
    requires n < 16
    ensures (n as nat) < 16 && |DEC2HEX| == 16 && DEC2HEX[n as nat] == HexDigit(n)
  {
    assert n == 0 || n == 1 || n == 2 || n == 3 || n == 4 || n == 5 || n == 6 || n == 7
        || n == 8 || n == 9 || n == 10 || n == 11 || n == 12 || n == 13 || n == 14 || n == 15;
  }

  lemma HexDigitsTellBytes(x: bv8, y: bv8)
    requires HexDigit(x >> 4) == HexDigit(y >> 4) && HexDigit(x & 15) == HexDigit(y & 15)
    ensures x == y
  {
  }

  /** Different digests print differently: a collision of the texts is a collision of SHA-256. */
  lemma {:induction false} HexIsInjective(a: Bytes, b: Bytes)
    requires Hex(a) == Hex(b)
    ensures a == b
  {
    assert |a| == |b|;
    if a != [] {
      var n := |a| - 1;
      assert Hex(a)[..2 * n] == Hex(a[..n]) && Hex(b)[..2 * n] == Hex(b[..n]);
      HexIsInjective(a[..n], b[..n]);
      assert Hex(a)[2 * n] == Hex(b)[2 * n] && Hex(a)[2 * n + 1] == Hex(b)[2 * n + 1];
      HexDigitsTellBytes(a[n], b[n]);
    }
  }

  /** The program's hash of a text. */
  function HexDigest(message: Bytes): (text: Bytes)
    ensures |text| == 64
  {
    Hex(Digest(message))
  }

  lemma HalfBytes(x: bv8)
    ensures (x >> 4) & 15 == x >> 4 && (x >> 4) < 16 && (x & 15) < 16
  {
  }

  method ToHex(raw: Bytes) returns (text: Bytes)
    ensures text == Hex(raw)
  {
    hide HexDigit, DEC2HEX;
    text := [];
    for i := 0 to |raw|
      invariant text == Hex(raw[..i])
    {
      HalfBytes(raw[i]);
      TableIsHexDigit((raw[i] >> 4) & 15);
      TableIsHexDigit(raw[i] & 15);
      text := text + [DEC2HEX[((raw[i] >> 4) & 15) as nat]];
      text := text + [DEC2HEX[(raw[i] & 15) as nat]];
      assert raw[..i + 1][..i] == raw[..i];
    }
    assert raw[..|raw|] == raw;
  }

  // ----- the final blocks -----

  function Zeros(n: nat): Bytes {
    seq(n, _ => 0)
  }

  /** Write the message length at a position of a buffer, most significant byte first. */
  method StoreLength(a: array<bv8>, at: nat, msgBits: nat)
    requires at + 8 <= a.Length
    modifies a
    ensures a[at..at + 8] == BigEndian(msgBits, 8)
    ensures a[..at] == old(a[..at]) && a[at + 8..] == old(a[at + 8..])
  {
    hide Digit, BigEndian;
    a[at] := Digit(msgBits, 7);
    a[at + 1] := Digit(msgBits, 6);
    a[at + 2] := Digit(msgBits, 5);
    a[at + 3] := Digit(msgBits, 4);
    a[at + 4] := Digit(msgBits, 3);
    a[at + 5] := Digit(msgBits, 2);
    a[at + 6] := Digit(msgBits, 1);
    a[at + 7] := Digit(msgBits, 0);
    EightDigits(msgBits);
  }

  lemma EightDigits(n: nat)
    ensures BigEndian(n, 8) ==
      [Digit(n, 7), Digit(n, 6), Digit(n, 5), Digit(n, 4), Digit(n, 3), Digit(n, 2), Digit(n, 1), Digit(n, 0)]
  {
    hide Digit, BigEndian;
    forall i | 0 <= i < 8 ensures BigEndian(n, 8)[i] == Digit(n, 7 - i) {
      BigEndianDigit(n, 8, i);
    }
  }

  /** The tail of a message with its padding is one block, or two when fewer than nine bytes are free. */
  lemma PaddedTail(tail: Bytes, length: nat)
    requires |tail| < 64 && length % 64 == |tail|
    ensures |tail| < 56 ==>
      tail + Padding(length) == tail + [0x80] + Zeros(55 - |tail|) + BigEndian(8 * length, 8)
    ensures |tail| >= 56 ==>
      tail + Padding(length) == (tail + [0x80] + Zeros(63 - |tail|)) + (Zeros(56) + BigEndian(8 * length, 8))
  {
    if |tail| >= 56 {
      assert Zeros(119 - |tail|) == Zeros(63 - |tail|) + Zeros(56);
    }
  }

  /** The length field does not notice that the byte count has wrapped. */
  lemma LengthField(length: nat, processed: nat, buffered: nat)
    requires processed + buffered == length
    ensures BigEndian(Wrap64(8 * (Wrap64(processed) + buffered)), 8) == BigEndian(8 * length, 8)
  {
    assert Pow256(8) == TWO_TO_64;
    var a, q := 8 * (Wrap64(processed) + buffered), processed / TWO_TO_64;
    assert processed == TWO_TO_64 * q + processed % TWO_TO_64;
    assert 8 * length == TWO_TO_64 * (8 * q) + a;
    assert a == TWO_TO_64 * (a / TWO_TO_64) + a % TWO_TO_64;
    ModIs(8 * length, TWO_TO_64, 8 * q + a / TWO_TO_64, a % TWO_TO_64);
    BigEndianMod(a, 8);
    BigEndianMod(8 * length, 8);
  }

  lemma PaddedFrom(message: Bytes, done: Bytes, tail: Bytes)
    requires message == done + tail
    ensures Padded(message) == done + (tail + Padding(|message|))
  {
    hide Padding;
  }

  class SHA256 {
    /** The number of bytes processed, in 64 bits. */
    var numBytes: nat
    /** The number of bytes waiting in the buffer. */
    var bufferSize: nat
    const buffer: array<bv8>
    /** The eight hash words. */
    var hash: Regs
    /** Everything added since the last reset. */
    ghost var message: Bytes

    /** The bytes waiting in the buffer. */
    ghost function Waiting(): Bytes
      reads this`bufferSize, buffer
      requires bufferSize <= buffer.Length
    {
      buffer[..bufferSize]
    }

    /** The full blocks of m have gone into the hash words, the rest is in the buffer. */
    ghost predicate Holds(m: Bytes)
      reads this, buffer
    {
      && buffer.Length == 64 && bufferSize <= 64 && bufferSize <= |m|
      && (|m| - bufferSize) % 64 == 0
      && numBytes == Wrap64(|m| - bufferSize)
      && hash == CompressAll(H0, m[..|m| - bufferSize])
      && Waiting() == m[|m| - bufferSize..]
    }

    ghost predicate Valid()
      reads this, buffer
    {
      Holds(message) && bufferSize < 64
    }

    constructor ()
      ensures Valid() && fresh(buffer) && message == []
    {
      numBytes := 0;
      bufferSize := 0;
      hash := H0;
      buffer := new bv8[64];
      message := [];
    }

    method Reset()
      requires Valid()
      modifies this
      ensures Valid() && message == []
    {
      numBytes := 0;
      bufferSize := 0;
      hash := H0;
      message := [];
    }

    /** Move one byte into the buffer. */
    method Buffer(x: bv8, ghost m: Bytes)
      requires Holds(m) && bufferSize < 64
      modifies this`bufferSize, buffer
      ensures Holds(m + [x]) && bufferSize == old(bufferSize) + 1
    {
      hide CompressAll, Wrap64;
      buffer[bufferSize] := x;
      bufferSize := bufferSize + 1;
      assert (m + [x])[..|m + [x]| - bufferSize] == m[..|m| - (bufferSize - 1)];
    }

    /** Process the full buffer. */
    method ProcessFullBuffer(ghost m: Bytes)
      requires Holds(m) && bufferSize == BLOCK_SIZE
      modifies this
      ensures Holds(m) && bufferSize == 0 && message == old(message)
    {
      hide CompressAll, Compress, WordsOf, Wrap64;
      ghost var done := m[..|m| - 64];
      assert done + buffer[..] == m && m[..|m|] == m;
      CompressAllAppend(H0, done, buffer[..]);
      hash := CompressBlock(hash, buffer[..]);
      Wrap64Add(|done|, BLOCK_SIZE);
      numBytes := Wrap64(numBytes + BLOCK_SIZE);
      bufferSize := 0;
    }

    /** Process a block of the input directly. */
    method ProcessInput(block: Bytes, ghost m: Bytes)
      requires Holds(m) && bufferSize == 0 && |block| == BLOCK_SIZE
      modifies this`numBytes, this`hash
      ensures Holds(m + block)
    {
      hide CompressAll, Compress, WordsOf, Wrap64;
      assert m[..|m|] == m && (m + block)[..|m + block|] == m + block;
      CompressAllAppend(H0, m, block);
      hash := CompressBlock(hash, block);
      Wrap64Add(|m|, BLOCK_SIZE);
      numBytes := Wrap64(numBytes + BLOCK_SIZE);
    }

    /** Record what the fields now hold. */
    ghost method Added(m: Bytes)
      requires Holds(m) && bufferSize < BLOCK_SIZE
      modifies this`message
      ensures Valid() && message == m
    {
      message := m;
    }

    /** Add any number of bytes. */
    method Add(data: Bytes)
      requires Valid()
      modifies this, buffer
      ensures Valid() && message == old(message) + data
    {
      hide CompressAll, Holds;
      ghost var before := message;
      var current: nat := 0;
      var left: nat := |data|;
      assert before + data[..0] == before;
      if bufferSize > 0 {
        while left > 0 && bufferSize < BLOCK_SIZE
          invariant current + left == |data| && bufferSize <= 64
          invariant bufferSize < 64 || left < |data|
          invariant Holds(before + data[..current])
        {
          Buffer(data[current], before + data[..current]);
          assert before + data[..current] + [data[current]] == before + data[..current + 1];
          current := current + 1;
          left := left - 1;
        }
      }
      if bufferSize == BLOCK_SIZE {
        ProcessFullBuffer(before + data[..current]);
      }
      if left == 0 {
        assert data[..current] == data;
        Added(before + data);
        return;
      }
      while left >= BLOCK_SIZE
        invariant current + left == |data| && bufferSize == 0
        invariant Holds(before + data[..current])
      {
        ProcessInput(data[current..current + BLOCK_SIZE], before + data[..current]);
        assert before + data[..current] + data[current..current + BLOCK_SIZE]
            == before + data[..current + BLOCK_SIZE];
        current := current + BLOCK_SIZE;
        left := left - BLOCK_SIZE;
      }
      while left > 0
        invariant current + left == |data| && bufferSize + left < 64
        invariant Holds(before + data[..current])
      {
        Buffer(data[current], before + data[..current]);
        assert before + data[..current] + [data[current]] == before + data[..current + 1];
        current := current + 1;
        left := left - 1;
      }
      assert data[..current] == data;
      Added(before + data);
    }

    /**
     * A 1 bit and 0 bits up to the end of the buffer. Since `bufferSize` is below 64, the 1 bit always
     * goes into `buffer`, and only bytes past `bufferSize` are overwritten.
     */
    method FillBuffer()
      requires buffer.Length == 64 && bufferSize < 64
      modifies buffer
      ensures buffer[..] == old(buffer[..bufferSize]) + [0x80] + Zeros(63 - bufferSize)
    {
      ghost var tail := buffer[..bufferSize];
      buffer[bufferSize] := 128;
      var i := bufferSize + 1;
      while i < BLOCK_SIZE
        invariant bufferSize + 1 <= i <= 64
        invariant buffer[..i] == tail + [0x80] + Zeros(i - bufferSize - 1)
      {
        buffer[i] := 0;
        i := i + 1;
      }
    }

    /** Append the padding to the `tail` in the buffer; with fewer than nine bytes free it runs over into `extra`. */
    method Pad(extra: array<bv8>, ghost tail: Bytes, ghost length: nat) returns (paddedLength: nat)
      requires buffer.Length == extra.Length == 64 && buffer != extra && bufferSize < 64
      requires buffer[..bufferSize] == tail && length % 64 == bufferSize && bufferSize <= length
      requires numBytes == Wrap64(length - bufferSize)
      modifies buffer, extra
      ensures paddedLength == 56 || paddedLength == 120
      ensures buffer[..bufferSize] == tail
      ensures tail + Padding(length) == if paddedLength == 56 then buffer[..] else buffer[..] + extra[..]
    {
      hide Padding, BigEndian, Wrap64;
      paddedLength := PaddedLength();
      FillBuffer();
      var i := BLOCK_SIZE;
      while i < paddedLength
        invariant 64 <= i && (paddedLength == 120 ==> i <= 120) && (paddedLength == 56 ==> i == 64)
        invariant buffer[..] == tail + [0x80] + Zeros(63 - bufferSize)
        invariant extra[..i - 64] == Zeros(i - 64)
      {
        extra[i - BLOCK_SIZE] := 0;
        i := i + 1;
      }
      var msgBits := Wrap64(8 * (numBytes + bufferSize));
      LengthField(length, length - bufferSize, bufferSize);
      PaddedTail(tail, length);
      if paddedLength < BLOCK_SIZE {
        StoreLength(buffer, paddedLength, msgBits);
        assert buffer[..] == buffer[..56] + buffer[56..64];
        assert buffer[..bufferSize] == buffer[..56][..bufferSize];
      } else {
        StoreLength(extra, paddedLength - BLOCK_SIZE, msgBits);
        assert extra[..] == extra[..56] + extra[56..64];
      }
    }

    /** Pad and process what is left in the buffer: one block or two. */
    method ProcessBuffer()
      requires buffer.Length == 64 && bufferSize < buffer.Length && Valid()
      modifies this`hash, buffer
      ensures hash == CompressAll(H0, Padded(message))
      ensures Waiting() == old(Waiting())
    {
      hide CompressAll, Padding, Padded, Compress, WordsOf, Holds, WholeBlocks;
      WhatIsHeld();
      ghost var done, tail := message[..|message| - bufferSize], Waiting();
      var extra := new bv8[64];
      var paddedLength := Pad(extra, tail, |message|);
      PaddedFrom(message, done, tail);
      hash := CompressBlock(hash, buffer[..]);
      CompressAllAppend(H0, done, buffer[..]);
      if paddedLength > BLOCK_SIZE {
        hash := CompressBlock(hash, extra[..]);
        CompressAllAppend(H0, done + buffer[..], extra[..]);
        assert done + buffer[..] + extra[..] == done + (buffer[..] + extra[..]);
      }
    }

    /** What a valid hasher holds of its message. */
    lemma WhatIsHeld()
      requires Valid()
      ensures bufferSize < 64 == buffer.Length && bufferSize <= |message|
      ensures var done := message[..|message| - bufferSize];
        WholeBlocks(done) && hash == CompressAll(H0, done) && message == done + Waiting()
      ensures numBytes == Wrap64(|message| - bufferSize) && |message| % 64 == bufferSize
    {
      hide CompressAll, Wrap64;
    }

    /** Where the length field goes, counted from the start of the buffer. */
    method PaddedLength() returns (paddedLength: nat)
      requires bufferSize < 64
      ensures paddedLength == if bufferSize < 56 then 56 else 120
    {
      paddedLength := bufferSize * 8;
      paddedLength := paddedLength + 1;
      var lower11Bits := paddedLength % 512;
      if lower11Bits <= 448 {
        paddedLength := paddedLength + 448 - lower11Bits;
      } else {
        paddedLength := paddedLength + 512 + 448 - lower11Bits;
      }
      paddedLength := paddedLength / 8;
    }

    /** The latest hash as bytes. The hash words are put back, so more bytes can be added afterwards. */
    method GetHashBytes() returns (raw: Bytes)
      requires Valid()
      modifies this`hash, buffer
      ensures Valid() && hash == old(hash)
      ensures raw == Digest(message)
    {
      hide CompressAll, RegsBytes, Padded;
      var oldHash := hash;
      ProcessBuffer();
      raw := RegsBytes(hash);
      hash := oldHash;
    }

    /** The latest hash as 64 hexadecimal characters. */
    method GetHash() returns (text: Bytes)
      requires Valid()
      modifies this`hash, buffer
      ensures Valid() && hash == old(hash)
      ensures text == HexDigest(message) && Denotes(text, Digest(message))
    {
      hide Digest, Holds, Denotes, Hex;
      var raw := GetHashBytes();
      text := ToHex(raw);
      HexDenotes(raw);
    }

    /** Hash one text from scratch. */
    method Call(data: Bytes) returns (text: Bytes)
      requires Valid()
      modifies this, buffer
      ensures Valid() && message == data
      ensures text == HexDigest(data) && Denotes(text, Digest(data))
    {
      hide Holds, HexDigest, Digest, Denotes;
      Reset();
      Add(data);
      text := GetHash();
    }
  }

  /** The program's `hash`. */
  method Hash(data: Bytes) returns (text: Bytes)
    ensures text == HexDigest(data) && Denotes(text, Digest(data))
  {
    hide HexDigest, Digest, Denotes;
    var sha256 := new SHA256();
    text := sha256.Call(data);
  }

  // ----- whole sessions -----

  /** What a user does with one hasher. */
  datatype Use = Feed(data: Bytes) | Ask

  /** Everything fed so far. */
  function Fed(uses: seq<Use>): Bytes {
    if uses == [] then []
    else Fed(uses[..|uses| - 1]) + match uses[|uses| - 1] case Feed(data) => data case Ask => []
  }

  /** The answers a one-shot hash would give, asked about everything fed so far. */
  function Answers(uses: seq<Use>): seq<Bytes> {
    if uses == [] then []
    else
      var before := Answers(uses[..|uses| - 1]);
      if uses[|uses| - 1].Ask? then before + [HexDigest(Fed(uses[..|uses| - 1]))] else before
  }

  lemma OneMoreUse(uses: seq<Use>, i: nat)
    requires i < |uses|
    ensures Fed(uses[..i + 1]) == Fed(uses[..i]) + if uses[i].Feed? then uses[i].data else []
    ensures Answers(uses[..i + 1]) == Answers(uses[..i]) + if uses[i].Ask? then [HexDigest(Fed(uses[..i]))] else []
  {
    hide HexDigest;
    assert uses[..i + 1][..i] == uses[..i];
  }

  /** Streaming equals one-shot: pieces of any sizes, with any number of questions between them. */
  method Session(uses: seq<Use>) returns (answers: seq<Bytes>)
    ensures answers == Answers(uses)
  {
    hide HexDigest, SHA256.Holds;
    var sha256 := new SHA256();
    answers := [];
    assert uses[..0] == [];
    for i := 0 to |uses|
      invariant sha256.Valid() && fresh(sha256) && fresh(sha256.buffer)
      invariant sha256.message == Fed(uses[..i])
      invariant answers == Answers(uses[..i])
    {
      hide Fed, Answers;
      OneMoreUse(uses, i);
      if uses[i].Feed? {
        sha256.Add(uses[i].data);
      } else {
        var text := sha256.GetHash();
        answers := answers + [text];
      }
    }
    assert uses[..|uses|] == uses;
  }

  // ----- the text, read as hexadecimal -----

  predicate IsHexCharacter(c: bv8) {
    48 <= c <= 57 || 97 <= c <= 102
  }

  /** The value of a character '0'..'9' or 'a'..'f'. */
  function ValueOf(c: bv8): bv8 {
    if c <= 57 then c - 48 else c - 87
  }

  /** Characters 2i and 2i+1 denote byte i, high half first. */
  predicate Denotes(text: Bytes, raw: Bytes) {
    && |text| == 2 * |raw|
    && (forall i :: 0 <= i < |text| ==> IsHexCharacter(text[i]))
    && (forall i :: 0 <= i < |raw| ==> ByteDenoted(text, i) == raw[i])
  }

  function ByteDenoted(text: Bytes, i: nat): bv8
    requires 2 * i + 1 < |text|
  {
    16 * ValueOf(text[2 * i]) + ValueOf(text[2 * i + 1])
  }

  lemma HalvesDenote(x: bv8)
    ensures IsHexCharacter(HexDigit(x >> 4)) && IsHexCharacter(HexDigit(x & 15))
    ensures 16 * ValueOf(HexDigit(x >> 4)) + ValueOf(HexDigit(x & 15)) == x
  {
  }

  lemma OneMoreDenoted(text: Bytes, raw: Bytes, high: bv8, low: bv8)
    requires Denotes(text, raw) && IsHexCharacter(high) && IsHexCharacter(low)
    ensures Denotes(text + [high, low], raw + [16 * ValueOf(high) + ValueOf(low)])
  {
    hide IsHexCharacter, ValueOf;
    var n, more := |raw|, text + [high, low];
    assert more[2 * n] == high && more[2 * n + 1] == low;
    forall i | 0 <= i < n ensures ByteDenoted(more, i) == raw[i] {
      assert more[2 * i] == text[2 * i] && more[2 * i + 1] == text[2 * i + 1];
      assert ByteDenoted(text, i) == raw[i];
    }
  }

  /** A printed text, read as hexadecimal, is the bytes printed. */
  lemma {:induction false} HexDenotes(raw: Bytes)
    ensures Denotes(Hex(raw), raw)
  {
    hide IsHexCharacter, ValueOf, HexDigit;
    if raw != [] {
      hide Denotes;
      var front, last := raw[..|raw| - 1], raw[|raw| - 1];
      HexDenotes(front);
      HalvesDenote(last);
      OneMoreDenoted(Hex(front), front, HexDigit(last >> 4), HexDigit(last & 15));
      assert front + [last] == raw;
    }
  }
}
