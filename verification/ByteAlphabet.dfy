/** The byte-level alphabet: every byte has a code point of its own, visible bytes themselves and
    the others numbered from 256 on; text in this alphabet and back. */
module ByteAlphabet {
  import opened Utf8
  import opened Options

  predicate Direct(b: nat) {
    33 <= b <= 126 || 161 <= b <= 172 || 174 <= b <= 255
  }

  /** How many bytes below b are not direct. */
  function Substitutes(b: nat): nat {
    if b == 0 then 0 else Substitutes(b - 1) + if Direct(b - 1) then 0 else 1
  }

  function Code(b: Byte): nat {
    if Direct(b) then b else 256 + Substitutes(b)
  }

  lemma {:induction false} SubstitutesGrow(a: nat, b: nat)
    requires a <= b
    ensures Substitutes(a) <= Substitutes(b) <= Substitutes(a) + (b - a)
    ensures a < b && !Direct(a) ==> Substitutes(a) < Substitutes(b)
    decreases b
  {
    if a < b {
      SubstitutesGrow(a, b - 1);
    }
  }

  /** Different bytes have different code points. */
  lemma CodeInjective(a: Byte, b: Byte)
    requires Code(a) == Code(b)
    ensures a == b
  {
    if !Direct(a) && !Direct(b) {
      if a < b {
        SubstitutesGrow(a, b);
      } else if b < a {
        SubstitutesGrow(b, a);
      }
    }
  }

  lemma CodeSmall(b: Byte)
    ensures 33 <= Code(b) < 512
  {
    SubstitutesGrow(0, b);
  }

  method ByteEncoder() returns (encoder: seq<nat>)
    ensures |encoder| == 256 && forall b: Byte :: encoder[b] == Code(b)
  {
    encoder := [];
    var substitute := 256;
    for byte := 0 to 256
      invariant |encoder| == byte && substitute == 256 + Substitutes(byte)
      invariant forall b: Byte | b < byte :: encoder[b] == Code(b)
    {
      if Direct(byte) {
        encoder := encoder + [byte];
      } else {
        encoder := encoder + [substitute];
        substitute := substitute + 1;
      }
    }
  }

  /** The decoder has a byte exactly for the code points of bytes, and it is the byte whose code
      point that is. */
  ghost predicate Inverse(decoder: map<nat, Byte>, n: nat) {
    && (forall b: Byte | b < n :: Code(b) in decoder && decoder[Code(b)] == b)
    && forall c | c in decoder :: decoder[c] < n && Code(decoder[c]) == c
  }

  method ByteDecoder() returns (decoder: map<nat, Byte>)
    ensures Inverse(decoder, 256)
  {
    decoder := map[];
    var substitute := 256;
    for byte := 0 to 256
      invariant substitute == 256 + Substitutes(byte) && Inverse(decoder, byte)
    {
      var codepoint := byte;
      if !Direct(byte) {
        codepoint := substitute;
        substitute := substitute + 1;
      }
      assert codepoint == Code(byte);
      if codepoint in decoder {
        CodeInjective(decoder[codepoint], byte);
        assert false;
      }
      decoder := decoder[codepoint := byte];
    }
  }

  // ---- text in the alphabet

  /** Bytes written letter by letter. */
  function Spell(letter: Byte -> Text, bytes: Text): Text {
    if bytes == [] then [] else letter(bytes[0]) + Spell(letter, bytes[1..])
  }

  /** The code points of the alphabet as text. */
  function Letter(): Byte -> Text {
    (b: Byte) => Encoded(Code(b))
  }

  function Spelled(bytes: Text): Text {
    Spell(Letter(), bytes)
  }

  /** The byte with a code point, if there is one. */
  ghost function ByteWith(codepoint: nat): Option<Byte> {
    if exists b: Byte :: Code(b) == codepoint then
      var b: Byte :| Code(b) == codepoint;
      Some(b)
    else None
  }

  lemma ByteWithCode(b: Byte)
    ensures ByteWith(Code(b)) == Some(b)
  {
    var found := ByteWith(Code(b)).value;
    CodeInjective(found, b);
  }

  /** Text of the alphabet read back as bytes, if it is such a text. */
  ghost function Unspelled(piece: Text, offset: nat): (r: Option<Text>)
    requires offset <= |piece|
    decreases |piece| - offset
  {
    if offset == |piece| then Some([])
    else
      var d := CodepointAt(piece, offset);
      if d.NotDecoded? || ByteWith(d.codepoint).None? then None
      else Prepended([ByteWith(d.codepoint).value], Unspelled(piece, d.next))
  }

  function Prepended(bytes: Text, rest: Option<Text>): Option<Text> {
    match rest
    case None => None
    case Some(more) => Some(bytes + more)
  }

  lemma StandsHead(text: Text, at: nat, a: Text, b: Text)
    requires StandsAt(text, at, a + b)
    ensures StandsAt(text, at, a) && StandsAt(text, at + |a|, b)
  {
    var all := text[at..at + |a + b|];
    assert all[..|a|] == a && all[|a|..] == b;
    assert text[at..at + |a|] == all[..|a|];
    assert text[at + |a|..at + |a| + |b|] == all[|a|..];
  }

  lemma PrependedTwice(a: Text, b: Text, rest: Option<Text>)
    ensures Prepended(a, Prepended(b, rest)) == Prepended(a + b, rest) && Prepended([], rest) == rest
  {
    if rest.Some? {
      assert a + (b + rest.value) == (a + b) + rest.value;
      assert [] + rest.value == rest.value;
    }
  }

  /** Reading at a letter gives its byte and goes on behind it. */
  ghost predicate ReadsLetter(letter: Byte -> Text, read: nat -> Option<Text>, text: Text, at: nat, b: Byte) {
    StandsAt(text, at, letter(b)) ==> read(at) == Prepended([b], read(at + |letter(b)|))
  }

  lemma {:induction false} SpellReads(letter: Byte -> Text, read: nat -> Option<Text>, text: Text, at: nat, bytes: Text)
    requires StandsAt(text, at, Spell(letter, bytes)) && forall i: nat, b: Byte :: ReadsLetter(letter, read, text, i, b)
    ensures read(at) == Prepended(bytes, read(at + |Spell(letter, bytes)|))
    decreases |bytes|
  {
    PrependedTwice([], [], read(at));
    if bytes != [] {
      var e, rest := letter(bytes[0]), bytes[1..];
      StandsHead(text, at, e, Spell(letter, rest));
      assert ReadsLetter(letter, read, text, at, bytes[0]);
      SpellReads(letter, read, text, at + |e|, rest);
      PrependedTwice([bytes[0]], rest, read(at + |e| + |Spell(letter, rest)|));
      assert bytes == [bytes[0]] + rest;
    }
  }

  ghost function Reader(text: Text): nat -> Option<Text> {
    (at: nat) => if at <= |text| then Unspelled(text, at) else None
  }

  lemma ReadsLetters(text: Text, at: nat, b: Byte)
    ensures ReadsLetter(Letter(), Reader(text), text, at, b)
  {
    if StandsAt(text, at, Encoded(Code(b))) {
      CodeSmall(b);
      CodepointRoundTrip(text, at, Code(b));
      ByteWithCode(b);
    }
  }

  lemma AllLettersRead(text: Text, letter: Byte -> Text, read: nat -> Option<Text>)
    requires letter == Letter() && read == Reader(text)
    ensures forall i: nat, b: Byte :: ReadsLetter(letter, read, text, i, b)
  {
    forall i: nat, b: Byte
      ensures ReadsLetter(letter, read, text, i, b)
    {
      ReadsLetters(text, i, b);
    }
  }

  lemma {:induction false} SpelledReadsBy(text: Text, at: nat, bytes: Text, letter: Byte -> Text,
                                          read: nat -> Option<Text>, spelled: Text)
    requires letter == Letter() && read == Reader(text) && spelled == Spell(letter, bytes)
    requires StandsAt(text, at, spelled)
    ensures at + |spelled| <= |text| && read(at) == Prepended(bytes, read(at + |spelled|))
  {
    AllLettersRead(text, letter, read);
    SpellReads(letter, read, text, at, bytes);
  }

  lemma {:induction false} ReaderReads(text: Text, at: nat, read: nat -> Option<Text>)
    requires at <= |text| && read == Reader(text)
    ensures read(at) == Unspelled(text, at)
  {
  }

  /** Bytes written in the alphabet read back, whatever follows them. */
  lemma SpelledReads(text: Text, at: nat, bytes: Text)
    requires StandsAt(text, at, Spelled(bytes))
    ensures Unspelled(text, at) == Prepended(bytes, Unspelled(text, at + |Spelled(bytes)|))
  {
    var read, spelled := Reader(text), Spelled(bytes);
    SpelledReadsBy(text, at, bytes, Letter(), read, spelled);
    ReaderReads(text, at, read);
    ReaderReads(text, at + |spelled|, read);
  }

  /** Visible text is its own spelling. */
  lemma {:induction false} VisibleSpelled(bytes: Text)
    requires forall i | 0 <= i < |bytes| :: 33 <= bytes[i] <= 126
    ensures Spelled(bytes) == bytes
  {
    if bytes != [] {
      assert Letter()(bytes[0]) == [bytes[0]];
      VisibleSpelled(bytes[1..]);
    }
  }

  lemma SpelledAlone(bytes: Text)
    ensures Unspelled(Spelled(bytes), 0) == Some(bytes)
  {
    var s := Spelled(bytes);
    assert s[0..|s|] == s;
    SpelledReads(s, 0, bytes);
    assert bytes + [] == bytes;
  }

  lemma {:induction false} SpellAppend(letter: Byte -> Text, a: Text, b: Text)
    ensures Spell(letter, a + b) == Spell(letter, a) + Spell(letter, b)
    decreases |a|
  {
    if a == [] {
      assert a + b == b;
    } else {
      assert (a + b)[1..] == a[1..] + b;
      SpellAppend(letter, a[1..], b);
    }
  }

  /** The spelling contains no zero byte. */
  lemma {:induction false} SpelledVisible(bytes: Text)
    ensures 0 !in Spelled(bytes)
  {
    if bytes != [] {
      CodeSmall(bytes[0]);
      assert Letter()(bytes[0]) == Encoded(Code(bytes[0]));
      SpelledVisible(bytes[1..]);
    }
  }
}
