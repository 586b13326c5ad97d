/** Device-side bit dilation: packed codes become eight signed nibbles per word. */
module Dilation {
  import opened LowBitCodes

  function ExpandW2Half(x: bv32): bv32 {
    var p0 := x & 0x0000ffff;
    var p1 := (p0 | (p0 << 8)) & 0x00ff00ff;
    var p2 := (p1 | (p1 << 4)) & 0x0f0f0f0f;
    var p := (p2 | (p2 << 2)) & 0x33333333;
    var invertedHigh := !p & 0x22222222;
    0x11111111 | ((p & 0x11111111) << 1) | (invertedHigh << 1) | (invertedHigh << 2)
  }

  function ExpandW3SequentialHalf(x: bv32): bv32 {
    var p0 := (x & 0x00000fff) | ((x & 0x00fff000) << 4);
    var p1 := (p0 & 0x003f003f) | ((p0 & 0x0fc00fc0) << 2);
    var p := (p1 & 0x07070707) | ((p1 & 0x38383838) << 1);
    var inverted := !p & 0x44444444;
    (p & 0x33333333) | inverted | (inverted << 1)
  }

  /** Nibble j of a word. */
  function Nibble(word: bv32, j: bv32): bv32
    requires j < 8
  {
    (word >> (j * 4)) & 15
  }

  /** The two's complement nibble of a signed level. */
  function SignedNibble(code: bv32, f: Format): bv32 {
    match f
    case W2 => ((code << 1) + 13) & 15
    case W3 => (code + 12) & 15
    case W4 => code & 15
  }

  function ValueOf(nibble: bv32): int {
    if nibble & 8 != 0 then nibble as int - 16 else nibble as int
  }

  /** The nibble of a code stands for the level the code stands for. */
  lemma NibbleValue(code: bv8, f: Format)
    requires IsCode(code, f)
    ensures ValueOf(SignedNibble(code as bv32, f)) == DecodeValue(code, f)
  {
  }

  // ---- the sixteen codes of one lane

  /** A little-endian word of memory. */
  function Word(b0: bv8, b1: bv8, b2: bv8, b3: bv8): bv32 {
    b0 as bv32 | (b1 as bv32 << 8) | (b2 as bv32 << 16) | (b3 as bv32 << 24)
  }

  /** The two words a lane feeds to the matrix instruction. */
  function WordsW2(b0: bv8, b1: bv8, b2: bv8, b3: bv8): (bv32, bv32) {
    var packed := Word(b0, b1, b2, b3);
    (ExpandW2Half(packed), ExpandW2Half(packed >> 16))
  }

  function WordsW3(b0: bv8, b1: bv8, b2: bv8, b3: bv8, b4: bv8, b5: bv8): (bv32, bv32) {
    var low, high := Word(b0, b1, b2, b3), Word(b4, b5, 0, 0);
    (ExpandW3SequentialHalf(low), ExpandW3SequentialHalf((low >> 24) | (high << 8)))
  }

  function WordsW4(b0: bv8, b1: bv8, b2: bv8, b3: bv8, b4: bv8, b5: bv8, b6: bv8, b7: bv8): (bv32, bv32) {
    (Word(b0, b1, b2, b3), Word(b4, b5, b6, b7))
  }

  function LaneBytes(f: Format): nat {
    match f case W2 => 4 case W3 => 6 case W4 => 8
  }

  /** A lane reads its half of a fragment: 4, 6 or 8 bytes. */
  function LaneWords(bytes: seq<bv8>, f: Format): (bv32, bv32)
    requires |bytes| == LaneBytes(f)
  {
    match f
    case W2 => WordsW2(bytes[0], bytes[1], bytes[2], bytes[3])
    case W3 => WordsW3(bytes[0], bytes[1], bytes[2], bytes[3], bytes[4], bytes[5])
    case W4 => WordsW4(bytes[0], bytes[1], bytes[2], bytes[3], bytes[4], bytes[5], bytes[6], bytes[7])
  }

  function Index(j: nat): (r: bv64)
    requires j < 16
    ensures r < 16
  {
    if j == 0 then 0 else if j == 1 then 1 else if j == 2 then 2 else if j == 3 then 3
    else if j == 4 then 4 else if j == 5 then 5 else if j == 6 then 6 else if j == 7 then 7
    else if j == 8 then 8 else if j == 9 then 9 else if j == 10 then 10 else if j == 11 then 11
    else if j == 12 then 12 else if j == 13 then 13 else if j == 14 then 14 else 15
  }

  /** Element k of the sixteen nibbles of two words. */
  function ElementAt(words: (bv32, bv32), k: bv64): bv32
    requires k < 16
  {
    Nibble(if k < 8 then words.0 else words.1, (k & 7) as bv32)
  }

  /** The bytes of a lane as one bit stream. */
  function Stream(b0: bv8, b1: bv8, b2: bv8, b3: bv8, b4: bv8, b5: bv8, b6: bv8, b7: bv8): bv64 {
    b0 as bv64 | (b1 as bv64 << 8) | (b2 as bv64 << 16) | (b3 as bv64 << 24)
    | (b4 as bv64 << 32) | (b5 as bv64 << 40) | (b6 as bv64 << 48) | (b7 as bv64 << 56)
  }

  /** Every nibble is the signed nibble of its code in the stream. */
  lemma DilatedW2(b0: bv8, b1: bv8, b2: bv8, b3: bv8, k: bv64)
    requires k < 16
    ensures ElementAt(WordsW2(b0, b1, b2, b3), k)
            == SignedNibble(((Stream(b0, b1, b2, b3, 0, 0, 0, 0) >> (k * 2)) & 3) as bv32, W2)
  {
  }

  lemma DilatedW3(b0: bv8, b1: bv8, b2: bv8, b3: bv8, b4: bv8, b5: bv8, k: bv64)
    requires k < 16
    ensures ElementAt(WordsW3(b0, b1, b2, b3, b4, b5), k)
            == SignedNibble(((Stream(b0, b1, b2, b3, b4, b5, 0, 0) >> (k * 3)) & 7) as bv32, W3)
  {
  }

  lemma DilatedW4(b0: bv8, b1: bv8, b2: bv8, b3: bv8, b4: bv8, b5: bv8, b6: bv8, b7: bv8, k: bv64)
    requires k < 16
    ensures ElementAt(WordsW4(b0, b1, b2, b3, b4, b5, b6, b7), k)
         == SignedNibble(((Stream(b0, b1, b2, b3, b4, b5, b6, b7) >> (k * 4)) & 15) as bv32, W4)
  {
  }

  // ---- the codes as bytes hold them

  /** The three bits from a bit of a byte on. */
  function CodeFrom(bytes: seq<bv8>, byte: nat, shift: bv8): bv8
    requires byte < |bytes| && (shift > 5 ==> byte + 1 < |bytes|) && shift < 8
  {
    if shift > 5 then ((bytes[byte] >> shift) | (bytes[byte + 1] << (8 - shift))) & 7 else (bytes[byte] >> shift) & 7
  }

  /** Code j of a fragment whose three-bit codes follow each other. */
  function SequentialCode(bytes: seq<bv8>, j: nat): bv8
    requires (3 * j + 2) / 8 < |bytes|
  {
    CodeFrom(bytes, 3 * j / 8, Bit8(3 * j))
  }

  function LaneCode(bytes: seq<bv8>, j: nat, f: Format): bv8
    requires |bytes| == LaneBytes(f) && j < 16
  {
    match f
    case W2 => (bytes[j / 4] >> Shift2(j)) & 3
    case W3 => SequentialCode(bytes, j)
    case W4 => (bytes[j / 2] >> Shift4(j)) & 15
  }

  /** Byte q of a stream. */
  predicate ByteAt(w: bv64, at: bv64, b: bv8)
    requires at <= 56
  {
    (w >> at) & 0xff == b as bv64
  }

  lemma StreamBytes(b0: bv8, b1: bv8, b2: bv8, b3: bv8, b4: bv8, b5: bv8, b6: bv8, b7: bv8)
    ensures var w := Stream(b0, b1, b2, b3, b4, b5, b6, b7);
            && ByteAt(w, 0, b0) && ByteAt(w, 8, b1) && ByteAt(w, 16, b2) && ByteAt(w, 24, b3)
            && ByteAt(w, 32, b4) && ByteAt(w, 40, b5) && ByteAt(w, 48, b6) && ByteAt(w, 56, b7)
  {
  }

  lemma PairInStream(w: bv64, at: bv64, b: bv8, shift: bv8)
    requires at in {0, 8, 16, 24} && ByteAt(w, at, b) && shift in {0, 2, 4, 6}
    ensures ((w >> (at + shift as bv64)) & 3) as bv8 == (b >> shift) & 3
  {
  }

  lemma NibbleInStream(w: bv64, at: bv64, b: bv8, shift: bv8)
    requires at in {0, 8, 16, 24, 32, 40, 48, 56} && ByteAt(w, at, b) && shift in {0, 4}
    ensures ((w >> (at + shift as bv64)) & 15) as bv8 == (b >> shift) & 15
  {
  }

  lemma TripleInStream(w: bv64, at: bv64, b: bv8, shift: bv8)
    requires at in {0, 8, 16, 24, 32, 40} && ByteAt(w, at, b) && shift <= 5
    ensures ((w >> (at + shift as bv64)) & 7) as bv8 == (b >> shift) & 7
  {
  }

  lemma SplitInStream(w: bv64, at: bv64, b: bv8, c: bv8, shift: bv8)
    requires at in {0, 8, 16, 24, 32} && ByteAt(w, at, b) && ByteAt(w, at + 8, c) && 5 < shift < 8
    ensures ((w >> (at + shift as bv64)) & 7) as bv8 == ((b >> shift) | (c << (8 - shift))) & 7
  {
  }

  /** Where byte q starts in a stream. */
  function ByteStart(q: nat): (r: bv64)
    requires q < 8
    ensures r in {0, 8, 16, 24, 32, 40, 48, 56} && (q < 4 ==> r in {0, 8, 16, 24})
            && (q < 6 ==> r in {0, 8, 16, 24, 32, 40})
    ensures q < 5 ==> r in {0, 8, 16, 24, 32}
  {
    if q == 0 then 0 else if q == 1 then 8 else if q == 2 then 16 else if q == 3 then 24
    else if q == 4 then 32 else if q == 5 then 40 else if q == 6 then 48 else 56
  }

  lemma CodeStart2(j: nat)
    requires j < 16
    ensures Index(j) * 2 == ByteStart(j / 4) + Shift2(j) as bv64
  {
  }

  lemma CodeStart3(j: nat)
    requires j < 16
    ensures 3 * j / 8 < 6 && Index(j) * 3 == ByteStart(3 * j / 8) + Bit8(3 * j) as bv64
  {
    if j < 8 {
    } else {
    }
  }

  lemma CodeStart4(j: nat)
    requires j < 16
    ensures Index(j) * 4 == ByteStart(j / 2) + Shift4(j) as bv64
  {
  }

  /** The stream at code j is the code the bytes hold. */
  lemma StreamW2(w: bv64, bytes: seq<bv8>, j: nat)
    requires |bytes| == 4 && j < 16 && forall q | 0 <= q < 4 :: ByteAt(w, ByteStart(q), bytes[q])
    ensures ((w >> (Index(j) * 2)) & 3) as bv8 == LaneCode(bytes, j, W2)
  {
    CodeStart2(j);
    PairInStream(w, ByteStart(j / 4), bytes[j / 4], Shift2(j));
  }

  lemma StreamW3(w: bv64, bytes: seq<bv8>, j: nat)
    requires |bytes| == 6 && j < 16 && forall q | 0 <= q < 6 :: ByteAt(w, ByteStart(q), bytes[q])
    ensures ((w >> (Index(j) * 3)) & 7) as bv8 == LaneCode(bytes, j, W3)
  {
    CodeStart3(j);
    var q, shift := 3 * j / 8, Bit8(3 * j);
    if shift > 5 {
      assert ByteStart(q + 1) == ByteStart(q) + 8;
      SplitInStream(w, ByteStart(q), bytes[q], bytes[q + 1], shift);
    } else {
      TripleInStream(w, ByteStart(q), bytes[q], shift);
    }
  }

  lemma StreamW4(w: bv64, bytes: seq<bv8>, j: nat)
    requires |bytes| == 8 && j < 16 && forall q | 0 <= q < 8 :: ByteAt(w, ByteStart(q), bytes[q])
    ensures ((w >> (Index(j) * 4)) & 15) as bv8 == LaneCode(bytes, j, W4)
  {
    CodeStart4(j);
    NibbleInStream(w, ByteStart(j / 2), bytes[j / 2], Shift4(j));
  }

  /** Element j of a lane's two words stands for the level of code j of the lane's bytes. */
  lemma LaneLevels(bytes: seq<bv8>, f: Format, j: nat)
    requires |bytes| == LaneBytes(f) && j < 16
    ensures IsCode(LaneCode(bytes, j, f), f)
    ensures ValueOf(ElementAt(LaneWords(bytes, f), Index(j))) == DecodeValue(LaneCode(bytes, j, f), f)
  {
    match f
    case W2 => LevelW2(bytes, j);
    case W3 => LevelW3(bytes, j);
    case W4 => LevelW4(bytes, j);
  }

  lemma Narrow(x: bv64)
    requires x < 16
    ensures x as bv32 == x as bv8 as bv32
  {
  }

  /** A signed nibble made of a code's bits stands for the level of the code. */
  lemma LevelFrom(element: bv32, x: bv64, code: bv8, f: Format)
    requires x < 16 && element == SignedNibble(x as bv32, f) && x as bv8 == code && IsCode(code, f)
    ensures ValueOf(element) == DecodeValue(code, f)
  {
    Narrow(x);
    NibbleValue(code, f);
  }

  lemma BelowFour(x: bv64)
    requires x < 4
    ensures IsCode(x as bv8, W2)
  {
  }

  lemma ElementsW2(bytes: seq<bv8>, w: bv64, k: bv64)
    requires |bytes| == 4 && w == Stream(bytes[0], bytes[1], bytes[2], bytes[3], 0, 0, 0, 0) && k < 16
    ensures ElementAt(LaneWords(bytes, W2), k) == SignedNibble(((w >> (k * 2)) & 3) as bv32, W2)
  {
    DilatedW2(bytes[0], bytes[1], bytes[2], bytes[3], k);
  }

  lemma BytesW2(bytes: seq<bv8>, w: bv64, q: nat)
    requires |bytes| == 4 && w == Stream(bytes[0], bytes[1], bytes[2], bytes[3], 0, 0, 0, 0) && q < 4
    ensures ByteAt(w, ByteStart(q), bytes[q])
  {
    StreamBytes(bytes[0], bytes[1], bytes[2], bytes[3], 0, 0, 0, 0);
  }

  /** A stream that holds the bytes, and whose bits the elements of the words are made of. */
  lemma StreamW2Of(bytes: seq<bv8>) returns (w: bv64)
    requires |bytes| == 4
    ensures forall q | 0 <= q < 4 :: ByteAt(w, ByteStart(q), bytes[q])
    ensures forall k: bv64 | k < 16 ::
              ElementAt(LaneWords(bytes, W2), k) == SignedNibble(((w >> (k * 2)) & 3) as bv32, W2)
  {
    w := Stream(bytes[0], bytes[1], bytes[2], bytes[3], 0, 0, 0, 0);
    forall q | 0 <= q < 4
      ensures ByteAt(w, ByteStart(q), bytes[q])
    {
      BytesW2(bytes, w, q);
    }
    forall k: bv64 | k < 16
      ensures ElementAt(LaneWords(bytes, W2), k) == SignedNibble(((w >> (k * 2)) & 3) as bv32, W2)
    {
      ElementsW2(bytes, w, k);
    }
  }

  /** The bits of code j in the stream, as the words and the bytes show them. */
  lemma BitsW2(bytes: seq<bv8>, j: nat) returns (x: bv64)
    requires |bytes| == 4 && j < 16
    ensures x < 4 && ElementAt(LaneWords(bytes, W2), Index(j)) == SignedNibble(x as bv32, W2)
    ensures x as bv8 == LaneCode(bytes, j, W2)
  {
    var w := StreamW2Of(bytes);
    x := (w >> (Index(j) * 2)) & 3;
    StreamW2(w, bytes, j);
  }

  lemma LevelW2(bytes: seq<bv8>, j: nat)
    requires |bytes| == 4 && j < 16
    ensures IsCode(LaneCode(bytes, j, W2), W2)
    ensures ValueOf(ElementAt(LaneWords(bytes, W2), Index(j))) == DecodeValue(LaneCode(bytes, j, W2), W2)
  {
    var x := BitsW2(bytes, j);
    BelowFour(x);
    LevelFrom(ElementAt(LaneWords(bytes, W2), Index(j)), x, LaneCode(bytes, j, W2), W2);
  }

  lemma ElementsW3(bytes: seq<bv8>, w: bv64, k: bv64)
    requires |bytes| == 6 && w == Stream(bytes[0], bytes[1], bytes[2], bytes[3], bytes[4], bytes[5], 0, 0) && k < 16
    ensures ElementAt(LaneWords(bytes, W3), k) == SignedNibble(((w >> (k * 3)) & 7) as bv32, W3)
  {
    DilatedW3(bytes[0], bytes[1], bytes[2], bytes[3], bytes[4], bytes[5], k);
  }

  lemma BytesW3(bytes: seq<bv8>, w: bv64, q: nat)
    requires |bytes| == 6 && w == Stream(bytes[0], bytes[1], bytes[2], bytes[3], bytes[4], bytes[5], 0, 0) && q < 6
    ensures ByteAt(w, ByteStart(q), bytes[q])
  {
    StreamBytes(bytes[0], bytes[1], bytes[2], bytes[3], bytes[4], bytes[5], 0, 0);
    if q < 4 {
    } else {
    }
  }

  /** A stream that holds the bytes, and whose bits the elements of the words are made of. */
  lemma StreamW3Of(bytes: seq<bv8>) returns (w: bv64)
    requires |bytes| == 6
    ensures forall q | 0 <= q < 6 :: ByteAt(w, ByteStart(q), bytes[q])
    ensures forall k: bv64 | k < 16 ::
              ElementAt(LaneWords(bytes, W3), k) == SignedNibble(((w >> (k * 3)) & 7) as bv32, W3)
  {
    w := Stream(bytes[0], bytes[1], bytes[2], bytes[3], bytes[4], bytes[5], 0, 0);
    forall q | 0 <= q < 6
      ensures ByteAt(w, ByteStart(q), bytes[q])
    {
      BytesW3(bytes, w, q);
    }
    forall k: bv64 | k < 16
      ensures ElementAt(LaneWords(bytes, W3), k) == SignedNibble(((w >> (k * 3)) & 7) as bv32, W3)
    {
      ElementsW3(bytes, w, k);
    }
  }

  /** The bits of code j in the stream, as the words and the bytes show them. */
  lemma BitsW3(bytes: seq<bv8>, j: nat) returns (x: bv64)
    requires |bytes| == 6 && j < 16
    ensures x < 8 && ElementAt(LaneWords(bytes, W3), Index(j)) == SignedNibble(x as bv32, W3)
    ensures x as bv8 == LaneCode(bytes, j, W3)
  {
    var w := StreamW3Of(bytes);
    x := (w >> (Index(j) * 3)) & 7;
    StreamW3(w, bytes, j);
  }

  lemma BelowEight(x: bv64)
    requires x < 8
    ensures IsCode(x as bv8, W3)
  {
  }

  lemma LevelW3(bytes: seq<bv8>, j: nat)
    requires |bytes| == 6 && j < 16
    ensures IsCode(LaneCode(bytes, j, W3), W3)
    ensures ValueOf(ElementAt(LaneWords(bytes, W3), Index(j))) == DecodeValue(LaneCode(bytes, j, W3), W3)
  {
    var x := BitsW3(bytes, j);
    BelowEight(x);
    LevelFrom(ElementAt(LaneWords(bytes, W3), Index(j)), x, LaneCode(bytes, j, W3), W3);
  }

  lemma ElementsW4(bytes: seq<bv8>, w: bv64, k: bv64)
    requires |bytes| == 8 && w == Stream(bytes[0], bytes[1], bytes[2], bytes[3], bytes[4], bytes[5], bytes[6], bytes[7])
             && k < 16
    ensures ElementAt(LaneWords(bytes, W4), k) == SignedNibble(((w >> (k * 4)) & 15) as bv32, W4)
  {
    DilatedW4(bytes[0], bytes[1], bytes[2], bytes[3], bytes[4], bytes[5], bytes[6], bytes[7], k);
  }

  lemma BytesW4(bytes: seq<bv8>, w: bv64, q: nat)
    requires |bytes| == 8 && w == Stream(bytes[0], bytes[1], bytes[2], bytes[3], bytes[4], bytes[5], bytes[6], bytes[7])
             && q < 8
    ensures ByteAt(w, ByteStart(q), bytes[q])
  {
    StreamBytes(bytes[0], bytes[1], bytes[2], bytes[3], bytes[4], bytes[5], bytes[6], bytes[7]);
    if q < 4 {
    } else {
    }
  }

  /** A stream that holds the bytes, and whose bits the elements of the words are made of. */
  lemma StreamW4Of(bytes: seq<bv8>) returns (w: bv64)
    requires |bytes| == 8
    ensures forall q | 0 <= q < 8 :: ByteAt(w, ByteStart(q), bytes[q])
    ensures forall k: bv64 | k < 16 ::
              ElementAt(LaneWords(bytes, W4), k) == SignedNibble(((w >> (k * 4)) & 15) as bv32, W4)
  {
    w := Stream(bytes[0], bytes[1], bytes[2], bytes[3], bytes[4], bytes[5], bytes[6], bytes[7]);
    forall q | 0 <= q < 8
      ensures ByteAt(w, ByteStart(q), bytes[q])
    {
      BytesW4(bytes, w, q);
    }
    forall k: bv64 | k < 16
      ensures ElementAt(LaneWords(bytes, W4), k) == SignedNibble(((w >> (k * 4)) & 15) as bv32, W4)
    {
      ElementsW4(bytes, w, k);
    }
  }

  /** The bits of code j in the stream, as the words and the bytes show them. */
  lemma BitsW4(bytes: seq<bv8>, j: nat) returns (x: bv64)
    requires |bytes| == 8 && j < 16
    ensures x < 16 && ElementAt(LaneWords(bytes, W4), Index(j)) == SignedNibble(x as bv32, W4)
    ensures x as bv8 == LaneCode(bytes, j, W4)
  {
    var w := StreamW4Of(bytes);
    x := (w >> (Index(j) * 4)) & 15;
    StreamW4(w, bytes, j);
  }

  lemma BelowSixteen(x: bv64)
    requires x < 16
    ensures IsCode(x as bv8, W4)
  {
  }

  lemma LevelW4(bytes: seq<bv8>, j: nat)
    requires |bytes| == 8 && j < 16
    ensures IsCode(LaneCode(bytes, j, W4), W4)
    ensures ValueOf(ElementAt(LaneWords(bytes, W4), Index(j))) == DecodeValue(LaneCode(bytes, j, W4), W4)
  {
    var x := BitsW4(bytes, j);
    BelowSixteen(x);
    LevelFrom(ElementAt(LaneWords(bytes, W4), Index(j)), x, LaneCode(bytes, j, W4), W4);
  }
}
