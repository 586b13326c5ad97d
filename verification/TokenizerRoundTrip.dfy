/** Decoding what was encoded gives the normalised text. */
module TokenizerRoundTrip {
  import opened Utf8
  import opened ByteAlphabet
  import opened Bpe
  import opened Tokenizer

  /** Looking a piece up and taking the piece of a token are inverse; special contents are visible
      text and stand for their tokens. */
  ghost predicate Consistent(t: Tables): (r: bool)
    ensures r ==> Usable(t.added)
  {
    && (forall s | s in t.tokenIds :: t.tokenIds[s] < |t.pieces| && t.pieces[t.tokenIds[s]] == s)
    && forall i | 0 <= i < |t.added| :: SpecialConsistent(t, t.added[i])
  }

  ghost predicate SpecialConsistent(t: Tables, s: Special) {
    s.id < |t.pieces| && t.pieces[s.id] == s.content && s.content != []
      && forall k | 0 <= k < |s.content| :: 33 <= s.content[k] <= 126
  }

  // ---- spelled symbols

  ghost predicate IsSpelled(symbol: Text) {
    exists bytes: Text :: Spelled(bytes) == symbol
  }

  ghost predicate AllSpelled(symbols: seq<Text>) {
    forall i | 0 <= i < |symbols| :: IsSpelled(symbols[i])
  }

  lemma SpelledInjective(a: Text, b: Text)
    requires Spelled(a) == Spelled(b)
    ensures a == b
  {
    SpelledAlone(a);
    SpelledAlone(b);
  }

  lemma JoinedSpelled(a: Text, b: Text)
    requires IsSpelled(a) && IsSpelled(b)
    ensures IsSpelled(a + b)
  {
    var x: Text :| Spelled(x) == a;
    var y: Text :| Spelled(y) == b;
    SpellAppend(Letter(), x, y);
    assert Spelled(x + y) == a + b;
  }

  lemma {:induction false} PassSpelled(symbols: seq<Text>, key: Text)
    requires AllSpelled(symbols)
    ensures AllSpelled(MergeAll(symbols, key))
    decreases |symbols|
  {
    if |symbols| >= 2 {
      if KeyAt(symbols, 0) == key {
        JoinedSpelled(symbols[0], symbols[1]);
        PassSpelled(symbols[2..], key);
      } else {
        PassSpelled(symbols[1..], key);
      }
    }
  }

  /** Merged symbols are spellings. */
  lemma {:induction false} MergedSpelled(symbols: seq<Text>, ranks: Ranks)
    requires AllSpelled(symbols)
    ensures AllSpelled(Merged(symbols, ranks))
    decreases |symbols|
  {
    var key := Best(symbols, ranks, |symbols|);
    BestOccurs(symbols, ranks);
    if key != [] {
      PassSpelled(symbols, key);
      MergedSpelled(MergeAll(symbols, key), ranks);
    }
  }

  lemma {:induction false} LettersSpelled(bytes: Text)
    ensures AllSpelled(Letters(bytes))
  {
    if bytes != [] {
      LettersSpelled(bytes[1..]);
      assert Letters(bytes)[1..] == Letters(bytes[1..]);
      var one := [bytes[0]];
      assert one[1..] == [] && Spell(Letter(), []) == [];
      assert Spelled(one) == Letters(bytes)[0];
      forall i | 0 <= i < |bytes|
        ensures IsSpelled(Letters(bytes)[i])
      {
        if i > 0 {
          assert Letters(bytes)[i] == Letters(bytes[1..])[i - 1];
        }
      }
    }
  }

  // ---- decoding a concatenation

  lemma {:induction false} FirstDecoded(pieces: seq<Text>, id: nat, ids: seq<nat>, first: Text, rest: Text)
    requires id < |pieces| && PieceBytes(pieces[id]) == Ok(first) && Decoding(pieces, ids) == Ok(rest)
    ensures Decoding(pieces, [id] + ids) == Ok(first + rest)
  {
    assert ([id] + ids)[1..] == ids;
  }

  lemma HeadAppend<T>(a: seq<T>, b: seq<T>)
    requires a != []
    ensures a + b == [a[0]] + (a[1..] + b)
  {
  }

  lemma Associative<T>(a: seq<T>, b: seq<T>, c: seq<T>)
    ensures a + (b + c) == a + b + c
  {
  }

  lemma DecodedParts(pieces: seq<Text>, ids: seq<nat>, x: Text) returns (first: Text, rest: Text)
    requires ids != [] && Decoding(pieces, ids) == Ok(x)
    ensures ids[0] < |pieces| && PieceBytes(pieces[ids[0]]) == Ok(first) && Decoding(pieces, ids[1..]) == Ok(rest)
    ensures x == first + rest
  {
    first, rest := PieceBytes(pieces[ids[0]]).value, Decoding(pieces, ids[1..]).value;
  }

  lemma {:induction false} DecodedAppend(pieces: seq<Text>, a: seq<nat>, b: seq<nat>, x: Text, y: Text)
    requires Decoding(pieces, a) == Ok(x) && Decoding(pieces, b) == Ok(y)
    ensures Decoding(pieces, a + b) == Ok(x + y)
    decreases |a|
  {
    if a == [] {
      assert a + b == b && x + y == y;
    } else {
      var first, rest := DecodedParts(pieces, a, x);
      DecodedAppend(pieces, a[1..], b, rest, y);
      FirstDecoded(pieces, a[0], a[1..] + b, first, rest + y);
      HeadAppend(a, b);
      Associative(first, rest, y);
    }
  }

  lemma {:induction false} OneDecoded(pieces: seq<Text>, id: nat, bytes: Text)
    requires id < |pieces| && pieces[id] == Spelled(bytes)
    ensures Decoding(pieces, [id]) == Ok(bytes)
  {
    SpelledAlone(bytes);
    assert [id][1..] == [];
    assert bytes + [] == bytes;
  }

  /** Tokens of spelled symbols decode to what the symbols spell together. */
  lemma {:induction false} SymbolsDecode(t: Tables, symbols: seq<Text>, ids: seq<nat>) returns (bytes: Text)
    requires Consistent(t) && AllSpelled(symbols) && Found(t.tokenIds, symbols) == Ok(ids)
    ensures Spelled(bytes) == Flatten(symbols) && Decoding(t.pieces, ids) == Ok(bytes)
    decreases |symbols|
  {
    if symbols == [] {
      bytes := [];
    } else {
      assert IsSpelled(symbols[0]);
      var x: Text :| Spelled(x) == symbols[0];
      FoundIs(t.tokenIds, symbols[1..], ids[1..]);
      var rest := SymbolsDecode(t, symbols[1..], ids[1..]);
      OneDecoded(t.pieces, ids[0], x);
      DecodedAppend(t.pieces, [ids[0]], ids[1..], x, rest);
      assert [ids[0]] + ids[1..] == ids;
      SpellAppend(Letter(), x, rest);
      bytes := x + rest;
    }
  }

  lemma {:induction false} PretokenDecodes(t: Tables, pretoken: Text, ids: seq<nat>)
    requires Consistent(t) && Encoding(t, pretoken) == Ok(ids)
    ensures Decoding(t.pieces, ids) == Ok(pretoken)
  {
    LettersSpelled(pretoken);
    LettersFlatten(pretoken);
    MergedSpelled(Letters(pretoken), t.ranks);
    MergedFlatten(Letters(pretoken), t.ranks);
    var bytes := SymbolsDecode(t, Merged(Letters(pretoken), t.ranks), ids);
    SpelledInjective(bytes, pretoken);
  }

  lemma {:induction false} PretokensDecode(t: Tables, pretokens: seq<Text>, ids: seq<nat>)
    requires Consistent(t) && EncodedPretokens(t, pretokens) == Ok(ids)
    ensures Decoding(t.pieces, ids) == Ok(Flatten(pretokens))
    decreases |pretokens|
  {
    if pretokens != [] {
      var first, rest := Encoding(t, pretokens[0]).value, EncodedPretokens(t, pretokens[1..]).value;
      PretokenDecodes(t, pretokens[0], first);
      PretokensDecode(t, pretokens[1..], rest);
      DecodedAppend(t.pieces, first, rest, pretokens[0], Flatten(pretokens[1..]));
    }
  }

  // ---- the theorem

  /** A segment of ordinary text, normalised. */
  function Normalized(t: Tables, segment: Text): Result<Text> {
    if segment == [] then Ok([]) else t.normalize(segment)
  }

  /** The text from the cursor on, with its ordinary segments normalised and its special contents as
      they are. */
  function NormalizedFrom(t: Tables, text: Text, cursor: nat): Result<Text>
    requires Usable(t.added) && cursor <= |text|
    decreases |text| - cursor
  {
    if cursor == |text| then Ok([])
    else
      var c := CutOf(text, t.added, cursor, |t.added|);
      CutIsFirst(text, t.added, cursor, |t.added|);
      if c.NoCut? then Normalized(t, text[cursor..])
      else
        match Normalized(t, text[cursor..c.position])
        case Failed(e) => Failed(e)
        case Ok(segment) =>
          Joined(segment + t.added[c.index].content, NormalizedFrom(t, text, Behind(t.added, c)))
  }

  lemma {:induction false} NormalDecodes(t: Tables, segment: Text, ids: seq<nat>)
    requires Consistent(t) && EncodedNormal(t, segment) == Ok(ids)
    ensures Normalized(t, segment).Ok? && Decoding(t.pieces, ids) == Normalized(t, segment)
  {
    if segment != [] {
      var normalized := t.normalize(segment).value;
      PretokensPartition(t.matcher, normalized, 0);
      PretokensDecode(t, PretokensFrom(t.matcher, normalized, 0).value, ids);
      assert normalized[0..] == normalized;
    }
  }

  lemma SpecialDecodes(t: Tables, s: Special)
    requires SpecialConsistent(t, s)
    ensures Decoding(t.pieces, [s.id]) == Ok(s.content)
  {
    VisibleSpelled(s.content);
    OneDecoded(t.pieces, s.id, s.content);
  }

  lemma {:induction false} NormalizedLast(t: Tables, text: Text, cursor: nat, c: Cut)
    requires Usable(t.added) && cursor < |text| && c == CutOf(text, t.added, cursor, |t.added|) && c.NoCut?
    ensures NormalizedFrom(t, text, cursor) == Normalized(t, text[cursor..])
  {
  }

  /** A segment, a special and what follows. */
  lemma {:induction false} ThreeDecode(t: Tables, segment: Text, ids: seq<nat>, s: Special, rest: seq<nat>, after: Text)
    requires Consistent(t) && EncodedNormal(t, segment) == Ok(ids) && SpecialConsistent(t, s)
    requires Decoding(t.pieces, rest) == Ok(after)
    ensures Normalized(t, segment).Ok?
    ensures Decoding(t.pieces, ids + [s.id] + rest) == Ok(Normalized(t, segment).value + s.content + after)
  {
    NormalDecodes(t, segment, ids);
    SpecialDecodes(t, s);
    DecodedAppend(t.pieces, ids, [s.id], Normalized(t, segment).value, s.content);
    DecodedAppend(t.pieces, ids + [s.id], rest, Normalized(t, segment).value + s.content, after);
  }

  /** What DecodeInvertsEncode says of a cursor. */
  ghost predicate DecodesFrom(t: Tables, text: Text, cursor: nat)
    requires Consistent(t) && cursor <= |text| && EncodedFrom(t, text, cursor).Ok?
  {
    && NormalizedFrom(t, text, cursor).Ok?
    && Decoding(t.pieces, EncodedFrom(t, text, cursor).value) == NormalizedFrom(t, text, cursor)
  }

  lemma {:induction false} LastDecodes(t: Tables, text: Text, cursor: nat, c: Cut)
    requires Consistent(t) && cursor < |text| && EncodedFrom(t, text, cursor).Ok?
    requires c == CutOf(text, t.added, cursor, |t.added|) && c.NoCut?
    ensures DecodesFrom(t, text, cursor)
  {
    EncodedStep(t, text, cursor, c);
    NormalizedLast(t, text, cursor, c);
    NormalDecodes(t, text[cursor..], EncodedFrom(t, text, cursor).value);
  }

  /** Behind a special the text encodes too. */
  lemma {:induction false} EncodesBehind(t: Tables, text: Text, cursor: nat, c: Cut)
    requires Consistent(t) && cursor < |text| && EncodedFrom(t, text, cursor).Ok?
    requires c == CutOf(text, t.added, cursor, |t.added|) && c.Cut?
    ensures cursor <= c.position && cursor < Behind(t.added, c) <= |text|
            && EncodedFrom(t, text, Behind(t.added, c)).Ok?
    ensures EncodedNormal(t, text[cursor..c.position]).Ok?
    ensures EncodedFrom(t, text, cursor).value
            == EncodedNormal(t, text[cursor..c.position]).value + [t.added[c.index].id]
               + EncodedFrom(t, text, Behind(t.added, c)).value
  {
    EncodedStep(t, text, cursor, c);
  }

  lemma {:induction false} NormalizedBehind(t: Tables, text: Text, cursor: nat, c: Cut, next: nat, normal: Text,
                                            after: Text)
    requires Usable(t.added) && cursor < |text| && c == CutOf(text, t.added, cursor, |t.added|) && c.Cut?
    requires next == Behind(t.added, c) <= |text| && cursor <= c.position
    requires Normalized(t, text[cursor..c.position]) == Ok(normal) && NormalizedFrom(t, text, next) == Ok(after)
    ensures NormalizedFrom(t, text, cursor) == Ok(normal + t.added[c.index].content + after)
  {
    CutIsFirst(text, t.added, cursor, |t.added|);
    assert NormalizedFrom(t, text, cursor)
        == Joined(normal + t.added[c.index].content, NormalizedFrom(t, text, Behind(t.added, c)));
  }

  lemma {:induction false} CutDecodes(t: Tables, text: Text, cursor: nat, c: Cut, next: nat)
    requires Consistent(t) && cursor < |text| && EncodedFrom(t, text, cursor).Ok?
    requires c == CutOf(text, t.added, cursor, |t.added|) && c.Cut? && next == Behind(t.added, c) <= |text|
    requires EncodedFrom(t, text, next).Ok? && DecodesFrom(t, text, next)
    ensures DecodesFrom(t, text, cursor)
  {
    EncodesBehind(t, text, cursor, c);
    var s, segment := t.added[c.index], text[cursor..c.position];
    var ids, rest, after := EncodedNormal(t, segment).value, EncodedFrom(t, text, next).value,
                            NormalizedFrom(t, text, next).value;
    assert SpecialConsistent(t, s);
    ThreeDecode(t, segment, ids, s, rest, after);
    NormalizedBehind(t, text, cursor, c, next, Normalized(t, segment).value, after);
  }

  /** If a text encodes, its tokens decode to the text with every ordinary segment normalised. */
  lemma {:induction false} DecodeInvertsEncode(t: Tables, text: Text, cursor: nat)
    requires Consistent(t) && cursor <= |text| && EncodedFrom(t, text, cursor).Ok?
    ensures NormalizedFrom(t, text, cursor).Ok?
    ensures Decoding(t.pieces, EncodedFrom(t, text, cursor).value) == NormalizedFrom(t, text, cursor)
    decreases |text| - cursor
  {
    if cursor < |text| {
      var c := CutOf(text, t.added, cursor, |t.added|);
      if c.NoCut? {
        LastDecodes(t, text, cursor, c);
      } else {
        EncodesBehind(t, text, cursor, c);
        DecodeInvertsEncode(t, text, Behind(t.added, c));
        CutDecodes(t, text, cursor, c, Behind(t.added, c));
      }
    }
  }

  lemma {:induction false} DecodingInVocabulary(pieces: seq<Text>, ids: seq<nat>)
    requires Decoding(pieces, ids).Ok?
    ensures forall id | id in ids :: id < |pieces|
    decreases |ids|
  {
    if ids != [] {
      DecodingInVocabulary(pieces, ids[1..]);
      assert ids == [ids[0]] + ids[1..];
    }
  }

  /** Encoding gives tokens of the vocabulary only. */
  lemma {:induction false} EncodedInVocabulary(t: Tables, text: Text)
    requires Consistent(t) && EncodedFrom(t, text, 0).Ok?
    ensures forall id | id in EncodedFrom(t, text, 0).value :: id < |t.pieces|
  {
    DecodeInvertsEncode(t, text, 0);
    DecodingInVocabulary(t.pieces, EncodedFrom(t, text, 0).value);
  }
}
