/** Three-bit codes that follow each other in the bytes of a fragment, so that some lie across a
    byte border. */
module SequentialCodes {
  import opened LowBitCodes
  import opened Dilation

  /** A code added from a bit of a byte on: the low part in that byte, what is shifted out in the
      next. */
  function StoreFrom(bytes: seq<bv8>, byte: nat, shift: bv8, code: bv8): (r: seq<bv8>)
    requires byte < |bytes| && (shift > 5 ==> byte + 1 < |bytes|) && shift < 8
    ensures |r| == |bytes|
  {
    var low := bytes[byte := bytes[byte] | (code << shift)];
    if shift > 5 then low[byte + 1 := low[byte + 1] | (code >> (8 - shift))] else low
  }

  /** Code j added to its bits. */
  function StoreSequential(bytes: seq<bv8>, j: nat, code: bv8): (r: seq<bv8>)
    requires (3 * j + 2) / 8 < |bytes|
    ensures |r| == |bytes|
  {
    StoreFrom(bytes, 3 * j / 8, Bit8(3 * j), code)
  }

  // ---- one byte, two codes

  lemma OwnCode(b: bv8, code: bv8, s: bv8)
    requires s <= 5 && code < 8
    ensures ((b | (code << s)) >> s) & 7 == ((b >> s) & 7) | code
  {
  }

  lemma OwnSplitCode(b: bv8, c: bv8, code: bv8, s: bv8)
    requires 5 < s < 8 && code < 8
    ensures (((b | (code << s)) >> s) | ((c | (code >> (8 - s))) << (8 - s))) & 7
            == (((b >> s) | (c << (8 - s))) & 7) | code
  {
  }

  /** A code below or above in the same byte is not touched. */
  lemma CodeBelow(b: bv8, code: bv8, s: bv8, t: bv8)
    requires s < 8 && t <= 5 && t + 3 <= s && code < 8
    ensures ((b | (code << s)) >> t) & 7 == (b >> t) & 7
  {
  }

  lemma CodeAbove(b: bv8, code: bv8, s: bv8, t: bv8)
    requires s <= 5 && t < 8 && s + 3 <= t && code < 8
    ensures (b | (code << s)) >> t == b >> t
  {
  }

  /** Nor is one that starts in the byte the code runs into, or that runs into the code's byte. */
  lemma CodeAfter(c: bv8, code: bv8, s: bv8, t: bv8)
    requires 5 < s < 8 && t < 8 && s <= t + 5 && code < 8
    ensures (c | (code >> (8 - s))) >> t == c >> t
  {
  }

  lemma CodeBefore(c: bv8, code: bv8, s: bv8, t: bv8)
    requires s < 8 && 5 < t < 8 && t <= s + 5 && code < 8
    ensures ((c | (code << s)) << (8 - t)) & 7 == (c << (8 - t)) & 7
  {
  }

  // ---- places

  lemma BitOrder(x: nat, y: nat)
    requires x < 8 && y < 8
    ensures x + 3 <= y ==> Bit8(x) + 3 <= Bit8(y)
    ensures x <= y + 5 ==> Bit8(x) <= Bit8(y) + 5
    ensures x > 5 <==> Bit8(x) > 5
  {
  }

  /** Two codes are three bits apart or more. */
  lemma Gap(i: nat, j: nat)
    requires i < j
    ensures 3 * i / 8 == 3 * j / 8 ==> Bit8(3 * i) + 3 <= Bit8(3 * j) && Bit8(3 * i) <= 5
    ensures 3 * i / 8 + 1 == 3 * j / 8 ==> Bit8(3 * i) <= Bit8(3 * j) + 5
    ensures 3 * i / 8 <= 3 * j / 8
  {
    BitOrder(3 * i % 8, 3 * j % 8);
  }

  /** Storing adds the code to its own place and touches no other. */
  lemma StoredSequential(bytes: seq<bv8>, i: nat, code: bv8, j: nat)
    requires (3 * i + 2) / 8 < |bytes| && (3 * j + 2) / 8 < |bytes| && code < 8
    ensures SequentialCode(StoreSequential(bytes, i, code), j)
         == if i == j then SequentialCode(bytes, j) | code else SequentialCode(bytes, j)
  {
    if i == j {
      StoredOwn(bytes, i, code);
    } else if i < j {
      StoredBelow(bytes, i, code, j);
    } else {
      StoredAbove(bytes, i, code, j);
    }
  }

  lemma StoredOwn(bytes: seq<bv8>, i: nat, code: bv8)
    requires (3 * i + 2) / 8 < |bytes| && code < 8
    ensures SequentialCode(StoreSequential(bytes, i, code), i) == SequentialCode(bytes, i) | code
  {
    OwnFrom(bytes, 3 * i / 8, Bit8(3 * i), code);
  }

  lemma OwnFrom(bytes: seq<bv8>, q: nat, s: bv8, code: bv8)
    requires q < |bytes| && (s > 5 ==> q + 1 < |bytes|) && s < 8 && code < 8
    ensures CodeFrom(StoreFrom(bytes, q, s, code), q, s) == CodeFrom(bytes, q, s) | code
  {
    if s > 5 {
      OwnSplitCode(bytes[q], bytes[q + 1], code, s);
    } else {
      OwnCode(bytes[q], code, s);
    }
  }

  lemma StoredBelow(bytes: seq<bv8>, i: nat, code: bv8, j: nat)
    requires i < j && (3 * j + 2) / 8 < |bytes| && code < 8
    ensures SequentialCode(StoreSequential(bytes, i, code), j) == SequentialCode(bytes, j)
  {
    Gap(i, j);
    BelowFrom(bytes, 3 * i / 8, Bit8(3 * i), code, 3 * j / 8, Bit8(3 * j));
  }

  lemma BelowFrom(bytes: seq<bv8>, p: nat, s: bv8, code: bv8, q: nat, t: bv8)
    requires p <= q < |bytes| && (s > 5 ==> p + 1 < |bytes|) && (t > 5 ==> q + 1 < |bytes|) && s < 8 && t < 8
             && code < 8
    requires (p == q ==> s <= 5 && s + 3 <= t) && (p + 1 == q ==> s <= t + 5)
    ensures CodeFrom(StoreFrom(bytes, p, s, code), q, t) == CodeFrom(bytes, q, t)
  {
    if p == q {
      CodeAbove(bytes[q], code, s, t);
    } else if p + 1 == q && s > 5 {
      CodeAfter(bytes[q], code, s, t);
    }
  }

  lemma StoredAbove(bytes: seq<bv8>, i: nat, code: bv8, j: nat)
    requires j < i && (3 * i + 2) / 8 < |bytes| && code < 8
    ensures SequentialCode(StoreSequential(bytes, i, code), j) == SequentialCode(bytes, j)
  {
    Gap(j, i);
    AboveFrom(bytes, 3 * i / 8, Bit8(3 * i), code, 3 * j / 8, Bit8(3 * j));
  }

  lemma AboveFrom(bytes: seq<bv8>, p: nat, s: bv8, code: bv8, q: nat, t: bv8)
    requires q <= p < |bytes| && (s > 5 ==> p + 1 < |bytes|) && (t > 5 ==> q + 1 < |bytes|) && s < 8 && t < 8
             && code < 8
    requires (p == q ==> t <= 5 && t + 3 <= s) && (q + 1 == p ==> t <= s + 5)
    ensures CodeFrom(StoreFrom(bytes, p, s, code), q, t) == CodeFrom(bytes, q, t)
  {
    if p == q {
      CodeBelow(bytes[q], code, s, t);
    } else if q + 1 == p && t > 5 {
      CodeBefore(bytes[p], code, s, t);
    }
  }
}
