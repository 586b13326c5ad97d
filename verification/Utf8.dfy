/** UTF-8 as section 3 of RFC 3629 lays it out, with the structural checks the tokenizer and the
    server make: lead bytes, continuation bytes and lengths, but not overlong forms, surrogates or
    the upper limit of code points. */
module Utf8 {
  type Byte = b: nat | b < 256

  type Text = seq<Byte>

  /** The length a lead byte announces, or 0. */
  function LeadLength(first: Byte): nat {
    if first < 0x80 then 1
    else if 0xC0 <= first < 0xE0 then 2
    else if 0xE0 <= first < 0xF0 then 3
    else if 0xF0 <= first < 0xF8 then 4
    else 0
  }

  predicate Continuation(b: Byte) {
    0x80 <= b < 0xC0
  }

  /** The length of the sequence at an offset, or 0 when none is complete and well formed there. */
  function SequenceLength(text: Text, offset: nat): (r: nat)
    ensures r != 0 ==> offset + r <= |text|
  {
    if offset >= |text| then 0
    else
      var n := LeadLength(text[offset]);
      if n == 0 || offset + n > |text| then 0
      else if forall k | offset < k < offset + n :: Continuation(text[k]) then n
      else 0
  }

  /** The bits of a lead byte that belong to the code point. */
  function LeadBits(first: Byte): nat {
    if first < 0x80 then first else if first < 0xE0 then first % 0x20 else if first < 0xF0 then first % 0x10
      else first % 0x08
  }

  /** The code point so far, and n more continuation bytes. */
  function Continued(value: nat, text: Text, offset: nat, n: nat): nat
    requires offset + n <= |text|
    decreases n
  {
    if n == 0 then value else Continued(value * 0x40 + text[offset] % 0x40, text, offset + 1, n - 1)
  }

  datatype Decoded = NotDecoded | Decoded(codepoint: nat, next: nat)

  /** The code point at an offset. */
  function CodepointAt(text: Text, offset: nat): (r: Decoded)
    ensures r.Decoded? ==> offset < r.next <= |text|
  {
    var n := SequenceLength(text, offset);
    if n == 0 then NotDecoded
    else Decoded(Continued(LeadBits(text[offset]), text, offset + 1, n - 1), offset + n)
  }

  /** Reads one code point, byte by byte. */
  method DecodeCodepoint(text: Text, offset: nat) returns (r: Decoded)
    ensures r == CodepointAt(text, offset)
  {
    if offset >= |text| { return NotDecoded; }
    var first := text[offset];
    if first < 0x80 { return Decoded(first, offset + 1); }
    var count: nat, value: nat := 0, 0;
    if 0xC0 <= first < 0xE0 {
      count, value := 1, first % 0x20;
    } else if 0xE0 <= first < 0xF0 {
      count, value := 2, first % 0x10;
    } else if 0xF0 <= first < 0xF8 {
      count, value := 3, first % 0x08;
    } else {
      return NotDecoded;
    }
    if offset + 1 + count > |text| { return NotDecoded; }
    ghost var lead := value;
    for index := 0 to count
      invariant forall k | offset < k <= offset + index :: Continuation(text[k])
      invariant Continued(value, text, offset + 1 + index, count - index) == Continued(lead, text, offset + 1, count)
    {
      var byte := text[offset + 1 + index];
      if !Continuation(byte) { return NotDecoded; }
      value := value * 0x40 + byte % 0x40;
    }
    r := Decoded(value, offset + 1 + count);
  }

  /** The bytes of a code point.  Those of 22 bits and more lose bits. */
  function Encoded(codepoint: nat): (r: Text)
    ensures 1 <= |r| <= 4
  {
    if codepoint < 0x80 then [codepoint]
    else if codepoint < 0x800 then [0xC0 + codepoint / 0x40, 0x80 + codepoint % 0x40]
    else if codepoint < 0x1_0000 then
      [0xE0 + codepoint / 0x1000, 0x80 + codepoint / 0x40 % 0x40, 0x80 + codepoint % 0x40]
    else
      [0xF0 + codepoint / 0x4_0000 % 0x10, 0x80 + codepoint / 0x1000 % 0x40, 0x80 + codepoint / 0x40 % 0x40,
       0x80 + codepoint % 0x40]
  }

  method AppendUtf8(output: Text, codepoint: nat) returns (r: Text)
    ensures r == output + Encoded(codepoint)
  {
    r := output;
    if codepoint < 0x80 {
      r := r + [codepoint];
    } else if codepoint < 0x800 {
      r := r + [0xC0 + codepoint / 0x40];
      r := r + [0x80 + codepoint % 0x40];
    } else if codepoint < 0x1_0000 {
      r := r + [0xE0 + codepoint / 0x1000];
      r := r + [0x80 + codepoint / 0x40 % 0x40];
      r := r + [0x80 + codepoint % 0x40];
    } else {
      r := r + [0xF0 + codepoint / 0x4_0000 % 0x10];
      r := r + [0x80 + codepoint / 0x1000 % 0x40];
      r := r + [0x80 + codepoint / 0x40 % 0x40];
      r := r + [0x80 + codepoint % 0x40];
    }
  }

  /** The bytes of e stand in a text from an offset on. */
  ghost predicate StandsAt(text: Text, at: nat, e: Text) {
    at + |e| <= |text| && text[at..at + |e|] == e
  }

  lemma TwoRead(text: Text, at: nat, a: Byte, b: Byte)
    requires StandsAt(text, at, [a, b]) && 0xC0 <= a < 0xE0 && Continuation(b)
    ensures CodepointAt(text, at) == Decoded(a % 0x20 * 0x40 + b % 0x40, at + 2)
  {
    var e := text[at..at + 2];
    assert text[at] == e[0] && text[at + 1] == e[1];
    var next := at + 1;
    assert Continued(a % 0x20, text, next, 1) == Continued(a % 0x20 * 0x40 + b % 0x40, text, next + 1, 0);
  }

  lemma ThreeRead(text: Text, at: nat, a: Byte, b: Byte, c: Byte)
    requires StandsAt(text, at, [a, b, c]) && 0xE0 <= a < 0xF0 && Continuation(b) && Continuation(c)
    ensures CodepointAt(text, at) == Decoded((a % 0x10 * 0x40 + b % 0x40) * 0x40 + c % 0x40, at + 3)
  {
    var e := text[at..at + 3];
    assert text[at] == e[0] && text[at + 1] == e[1] && text[at + 2] == e[2];
    TwoContinued(a % 0x10, text, at + 1);
  }

  lemma FourRead(text: Text, at: nat, a: Byte, b: Byte, c: Byte, d: Byte)
    requires StandsAt(text, at, [a, b, c, d]) && 0xF0 <= a && Continuation(b) && Continuation(c) && Continuation(d)
    ensures a < 0xF8 ==>
              CodepointAt(text, at) == Decoded(((a % 0x08 * 0x40 + b % 0x40) * 0x40 + c % 0x40) * 0x40 + d % 0x40,
                                               at + 4)
    ensures a >= 0xF8 ==> CodepointAt(text, at) == NotDecoded
  {
    var e := text[at..at + 4];
    assert text[at] == e[0] && text[at + 1] == e[1] && text[at + 2] == e[2] && text[at + 3] == e[3];
    if a < 0xF8 {
      ThreeContinued(a % 0x08, text, at + 1);
    }
  }

  lemma {:induction false} TwoContinued(lead: nat, text: Text, at: nat)
    requires at + 2 <= |text|
    ensures Continued(lead, text, at, 2) == (lead * 0x40 + text[at] % 0x40) * 0x40 + text[at + 1] % 0x40
  {
    assert Continued(lead, text, at, 2) == Continued(lead * 0x40 + text[at] % 0x40, text, at + 1, 1);
  }

  lemma {:induction false} ThreeContinued(lead: nat, text: Text, at: nat)
    requires at + 3 <= |text|
    ensures Continued(lead, text, at, 3)
            == ((lead * 0x40 + text[at] % 0x40) * 0x40 + text[at + 1] % 0x40) * 0x40 + text[at + 2] % 0x40
  {
    assert Continued(lead, text, at, 3) == Continued(lead * 0x40 + text[at] % 0x40, text, at + 1, 2);
    TwoContinued(lead * 0x40 + text[at] % 0x40, text, at + 1);
  }

  /** The six-bit digits of a number. */
  lemma Digits(n: nat)
    ensures n / 0x1000 == n / 0x40 / 0x40 && n / 0x4_0000 == n / 0x1000 / 0x40
    ensures n == n / 0x40 * 0x40 + n % 0x40
    ensures n / 0x40 == n / 0x1000 * 0x40 + n / 0x40 % 0x40
    ensures n / 0x1000 == n / 0x4_0000 * 0x40 + n / 0x1000 % 0x40
  {
  }

  /** What four bytes read back as. */
  lemma FourDigits(n: nat, a: nat, b: nat, c: nat, d: nat, top: nat)
    requires top == n / 0x4_0000 && a == 0xF0 + top % 0x10 && b == 0x80 + n / 0x1000 % 0x40
             && c == 0x80 + n / 0x40 % 0x40 && d == 0x80 + n % 0x40
    ensures top < 8 ==> a < 0xF8 && ((a % 0x08 * 0x40 + b % 0x40) * 0x40 + c % 0x40) * 0x40 + d % 0x40 == n
    ensures top >= 8 && a < 0xF8 ==> ((a % 0x08 * 0x40 + b % 0x40) * 0x40 + c % 0x40) * 0x40 + d % 0x40 < n
  {
    Digits(n);
    assert b % 0x40 == n / 0x1000 % 0x40 && c % 0x40 == n / 0x40 % 0x40 && d % 0x40 == n % 0x40;
    if a < 0xF8 {
      assert a % 0x08 == top % 0x10;
    }
  }

  /** A code point reads back exactly when it has at most 21 bits. */
  lemma CodepointRoundTrip(text: Text, at: nat, codepoint: nat)
    requires codepoint < 0x1_0000_0000 && StandsAt(text, at, Encoded(codepoint))
    ensures CodepointAt(text, at) == Decoded(codepoint, at + |Encoded(codepoint)|) <==> codepoint < 0x20_0000
  {
    if codepoint < 0x1_0000 {
      ShortRoundTrip(text, at, codepoint);
    } else {
      var e := Encoded(codepoint);
      FourRead(text, at, e[0], e[1], e[2], e[3]);
      FourDigits(codepoint, e[0], e[1], e[2], e[3], codepoint / 0x4_0000);
    }
  }

  lemma ShortRoundTrip(text: Text, at: nat, codepoint: nat)
    requires codepoint < 0x1_0000 && StandsAt(text, at, Encoded(codepoint))
    ensures CodepointAt(text, at) == Decoded(codepoint, at + |Encoded(codepoint)|)
  {
    if codepoint < 0x80 {
      assert text[at] == text[at..at + 1][0];
    } else if codepoint < 0x800 {
      TwoRoundTrip(text, at, codepoint, Encoded(codepoint));
    } else {
      ThreeRoundTrip(text, at, codepoint, Encoded(codepoint));
    }
  }

  lemma TwoRoundTrip(text: Text, at: nat, codepoint: nat, e: Text)
    requires 0x80 <= codepoint < 0x800 && e == Encoded(codepoint) && StandsAt(text, at, e)
    ensures |e| == 2 && CodepointAt(text, at) == Decoded(codepoint, at + 2)
  {
    TwoRead(text, at, e[0], e[1]);
  }

  lemma ThreeRoundTrip(text: Text, at: nat, codepoint: nat, e: Text)
    requires 0x800 <= codepoint < 0x1_0000 && e == Encoded(codepoint) && StandsAt(text, at, e)
    ensures |e| == 3 && CodepointAt(text, at) == Decoded(codepoint, at + 3)
  {
    ThreeRead(text, at, e[0], e[1], e[2]);
    Digits(codepoint);
    assert e[1] % 0x40 == codepoint / 0x40 % 0x40 && e[2] % 0x40 == codepoint % 0x40
           && e[0] % 0x10 == codepoint / 0x1000;
  }
}
