/** The tokenizer: special contents are cut out, the text between them is normalised, cut into
    pretokens, spelled in the byte alphabet, merged and looked up; decoding undoes it. */
module Tokenizer {
  import opened Utf8
  import opened ByteAlphabet
  import opened Bpe
  import opened Options

  datatype Error = InvalidArgument | CorruptArtifact | Internal

  datatype Result<T> = Ok(value: T) | Failed(error: Error)

  /** What the regular expression matches at an offset. */
  datatype Match = NoMatch | Match(begin: nat, end: nat)

  datatype Special = Special(content: Text, id: nat)

  /** The vocabulary, with the normaliser and the matcher it is used with. */
  datatype Tables = Tables(pieces: seq<Text>, tokenIds: map<Text, nat>, ranks: Ranks, added: seq<Special>,
                           normalize: Text -> Result<Text>, matcher: (Text, nat) -> Match)

  // ---- decoding

  ghost function PieceBytes(piece: Text): Result<Text> {
    match Unspelled(piece, 0)
    case None => Failed(CorruptArtifact)
    case Some(bytes) => Ok(bytes)
  }

  function Joined(front: Text, rest: Result<Text>): Result<Text> {
    match rest
    case Failed(e) => Failed(e)
    case Ok(bytes) => Ok(front + bytes)
  }

  ghost function Decoding(pieces: seq<Text>, tokens: seq<nat>): Result<Text> {
    if tokens == [] then Ok([])
    else if tokens[0] >= |pieces| then Failed(InvalidArgument)
    else
      match PieceBytes(pieces[tokens[0]])
      case Failed(e) => Failed(e)
      case Ok(bytes) => Joined(bytes, Decoding(pieces, tokens[1..]))
  }

  lemma JoinedTwice(a: Text, b: Text, rest: Result<Text>)
    ensures Joined(a, Joined(b, rest)) == Joined(a + b, rest) && Joined([], rest) == rest
  {
    if rest.Ok? {
      assert a + (b + rest.value) == (a + b) + rest.value;
      assert [] + rest.value == rest.value;
    }
  }

  lemma DecoderAgrees(decoder: map<nat, Byte>, codepoint: nat)
    requires Inverse(decoder, 256)
    ensures ByteWith(codepoint) == if codepoint in decoder then Some(decoder[codepoint]) else None
  {
    if codepoint in decoder {
      ByteWithCode(decoder[codepoint]);
    }
  }

  /** Appends the bytes of one piece. */
  method DecodePiece(decoder: map<nat, Byte>, piece: Text) returns (r: Result<Text>)
    requires Inverse(decoder, 256)
    ensures r == PieceBytes(piece)
  {
    var output, offset := [], 0;
    PrependedTwice([], [], Unspelled(piece, 0));
    while offset < |piece|
      invariant offset <= |piece| && Prepended(output, Unspelled(piece, offset)) == Unspelled(piece, 0)
      decreases |piece| - offset
    {
      var d := DecodeCodepoint(piece, offset);
      if d.NotDecoded? { return Failed(CorruptArtifact); }
      DecoderAgrees(decoder, d.codepoint);
      if d.codepoint !in decoder { return Failed(CorruptArtifact); }
      PrependedTwice(output, [decoder[d.codepoint]], Unspelled(piece, d.next));
      output := output + [decoder[d.codepoint]];
      offset := d.next;
    }
    assert output + [] == output;
    r := Ok(output);
  }

  method Decode(t: Tables, tokens: seq<nat>) returns (r: Result<Text>)
    ensures r == Decoding(t.pieces, tokens)
  {
    var decoder := ByteDecoder();
    var output := [];
    JoinedTwice([], [], Decoding(t.pieces, tokens));
    for i := 0 to |tokens|
      invariant Joined(output, Decoding(t.pieces, tokens[i..])) == Decoding(t.pieces, tokens)
    {
      var rest := tokens[i..];
      assert rest[0] == tokens[i] && rest[1..] == tokens[i + 1..];
      if tokens[i] >= |t.pieces| { return Failed(InvalidArgument); }
      var bytes := DecodePiece(decoder, t.pieces[tokens[i]]);
      if bytes.Failed? { return bytes; }
      JoinedTwice(output, bytes.value, Decoding(t.pieces, tokens[i + 1..]));
      output := output + bytes.value;
    }
    assert tokens[|tokens|..] == [] && output + [] == output;
    r := Ok(output);
  }

  // ---- pretokens

  /** A match that does not start at the offset, is empty or leaves the text is an error. */
  function PretokensFrom(matcher: (Text, nat) -> Match, text: Text, offset: nat): Result<seq<Text>>
    requires offset <= |text|
    decreases |text| - offset
  {
    if offset == |text| then Ok([])
    else
      match matcher(text, offset)
      case NoMatch => Failed(InvalidArgument)
      case Match(begin, end) =>
        if begin != offset || end <= offset || end > |text| then Failed(Internal)
        else
          match PretokensFrom(matcher, text, end)
          case Failed(e) => Failed(e)
          case Ok(rest) => Ok([text[offset..end]] + rest)
  }

  function Before(front: seq<Text>, rest: Result<seq<Text>>): Result<seq<Text>> {
    match rest
    case Failed(e) => Failed(e)
    case Ok(more) => Ok(front + more)
  }

  lemma BeforeTwice(a: seq<Text>, b: seq<Text>, rest: Result<seq<Text>>)
    ensures Before(a, Before(b, rest)) == Before(a + b, rest) && Before([], rest) == rest
  {
    if rest.Ok? {
      assert a + (b + rest.value) == (a + b) + rest.value;
      assert [] + rest.value == rest.value;
    }
  }

  method SplitPretokens(matcher: (Text, nat) -> Match, text: Text) returns (r: Result<seq<Text>>)
    ensures r == PretokensFrom(matcher, text, 0)
  {
    var output: seq<Text>, offset := [], 0;
    BeforeTwice([], [], PretokensFrom(matcher, text, 0));
    while offset < |text|
      invariant offset <= |text| && Before(output, PretokensFrom(matcher, text, offset))
                == PretokensFrom(matcher, text, 0)
      decreases |text| - offset
    {
      var m := matcher(text, offset);
      if m.NoMatch? { return Failed(InvalidArgument); }
      if m.begin != offset || m.end <= offset || m.end > |text| { return Failed(Internal); }
      BeforeTwice(output, [text[offset..m.end]], PretokensFrom(matcher, text, m.end));
      output := output + [text[offset..m.end]];
      offset := m.end;
    }
    assert output + [] == output;
    r := Ok(output);
  }

  /** Pretokens are non-empty and make up the text. */
  lemma {:induction false} PretokensPartition(matcher: (Text, nat) -> Match, text: Text, offset: nat)
    requires offset <= |text| && PretokensFrom(matcher, text, offset).Ok?
    ensures Flatten(PretokensFrom(matcher, text, offset).value) == text[offset..]
    ensures [] !in PretokensFrom(matcher, text, offset).value
    decreases |text| - offset
  {
    if offset < |text| {
      var end := matcher(text, offset).end;
      PretokensPartition(matcher, text, end);
      var all := PretokensFrom(matcher, text, offset).value;
      assert all[1..] == PretokensFrom(matcher, text, end).value;
      assert text[offset..end] + text[end..] == text[offset..];
    }
  }

  // ---- one pretoken

  function Letters(bytes: Text): (r: seq<Text>)
    ensures |r| == |bytes|
  {
    seq(|bytes|, i requires 0 <= i < |bytes| => Letter()(bytes[i]))
  }

  function Found(tokenIds: map<Text, nat>, symbols: seq<Text>): Result<seq<nat>> {
    if forall i | 0 <= i < |symbols| :: symbols[i] in tokenIds
    then Ok(seq(|symbols|, i requires 0 <= i < |symbols| => tokenIds[symbols[i]]))
    else Failed(CorruptArtifact)
  }

  function Encoding(t: Tables, pretoken: Text): Result<seq<nat>> {
    Found(t.tokenIds, Merged(Letters(pretoken), t.ranks))
  }

  /** Spells a pretoken and cuts the spelling into its letters. */
  method SpellLetters(encoder: seq<nat>, pretoken: Text) returns (symbols: seq<Text>)
    requires |encoder| == 256 && forall b: Byte :: encoder[b] == Code(b)
    ensures symbols == Letters(pretoken)
  {
    var encoded := [];
    for i := 0 to |pretoken|
      invariant encoded == Spelled(pretoken[..i])
    {
      SpelledNext(pretoken, i);
      encoded := AppendUtf8(encoded, encoder[pretoken[i]]);
    }
    assert pretoken[..|pretoken|] == pretoken;
    symbols := CutLetters(encoded, pretoken);
  }

  method CutLetters(encoded: Text, ghost pretoken: Text) returns (symbols: seq<Text>)
    requires encoded == Spelled(pretoken)
    ensures symbols == Letters(pretoken)
  {
    symbols := [];
    var offset := 0;
    ghost var k := 0;
    while offset < |encoded|
      invariant LettersCut(encoded, pretoken, k, offset, symbols)
      decreases |encoded| - offset
    {
      var begin := offset;
      var d := DecodeCodepoint(encoded, offset);
      CutNext(encoded, pretoken, k, offset, symbols);
      offset := d.next;
      symbols, k := symbols + [encoded[begin..offset]], k + 1;
    }
    AllLetters(pretoken, k);
    assert pretoken[..|pretoken|] == pretoken;
  }

  /** The first k letters are cut off. */
  ghost predicate LettersCut(encoded: Text, pretoken: Text, k: nat, offset: nat, symbols: seq<Text>) {
    && encoded == Spelled(pretoken) && k <= |pretoken| && offset == |Spelled(pretoken[..k])| <= |encoded|
    && symbols == Letters(pretoken[..k])
  }

  lemma CutNext(encoded: Text, pretoken: Text, k: nat, offset: nat, symbols: seq<Text>)
    requires LettersCut(encoded, pretoken, k, offset, symbols) && offset < |encoded|
    ensures CodepointAt(encoded, offset).Decoded?
    ensures var next := CodepointAt(encoded, offset).next;
            LettersCut(encoded, pretoken, k + 1, next, symbols + [encoded[offset..next]])
  {
    LetterStands(pretoken, k);
    CodeSmall(pretoken[k]);
    CodepointRoundTrip(encoded, offset, Code(pretoken[k]));
    SpelledNext(pretoken, k);
    LettersNext(pretoken, k);
    PrefixShorter(pretoken, k + 1);
  }

  lemma LettersNext(pretoken: Text, k: nat)
    requires k < |pretoken|
    ensures Letters(pretoken[..k + 1]) == Letters(pretoken[..k]) + [Encoded(Code(pretoken[k]))]
  {
    assert Letter()(pretoken[k]) == Encoded(Code(pretoken[k]));
  }

  lemma PrefixShorter(pretoken: Text, k: nat)
    requires k <= |pretoken|
    ensures |Spelled(pretoken[..k])| <= |Spelled(pretoken)|
  {
    assert pretoken == pretoken[..k] + pretoken[k..];
    SpellAppend(Letter(), pretoken[..k], pretoken[k..]);
  }

  lemma SpelledNext(pretoken: Text, i: nat)
    requires i < |pretoken|
    ensures Spelled(pretoken[..i + 1]) == Spelled(pretoken[..i]) + Encoded(Code(pretoken[i]))
  {
    assert pretoken[..i + 1] == pretoken[..i] + [pretoken[i]];
    SpellAppend(Letter(), pretoken[..i], [pretoken[i]]);
    assert Spell(Letter(), [pretoken[i]]) == Letter()(pretoken[i]) + Spell(Letter(), []);
  }

  /** Behind the spelling of k bytes stands the letter of the next one, if there is one. */
  lemma LetterStands(pretoken: Text, k: nat)
    requires k <= |pretoken|
    ensures |Spelled(pretoken[..k])| < |Spelled(pretoken)| ==>
              k < |pretoken| && StandsAt(Spelled(pretoken), |Spelled(pretoken[..k])|, Encoded(Code(pretoken[k])))
  {
    assert pretoken == pretoken[..k] + pretoken[k..];
    SpellAppend(Letter(), pretoken[..k], pretoken[k..]);
    if k < |pretoken| {
      var front, e, rest := Spelled(pretoken[..k]), Encoded(Code(pretoken[k])), Spelled(pretoken[k + 1..]);
      assert pretoken[k..][1..] == pretoken[k + 1..];
      assert Spelled(pretoken) == front + (e + rest);
    }
  }

  lemma AllLetters(pretoken: Text, k: nat)
    requires k <= |pretoken| && |Spelled(pretoken[..k])| >= |Spelled(pretoken)|
    ensures k == |pretoken|
  {
    if k < |pretoken| {
      assert pretoken == pretoken[..k] + pretoken[k..];
      SpellAppend(Letter(), pretoken[..k], pretoken[k..]);
    }
  }

  lemma FoundIs(tokenIds: map<Text, nat>, symbols: seq<Text>, ids: seq<nat>)
    requires |ids| == |symbols|
             && forall j | 0 <= j < |symbols| :: symbols[j] in tokenIds && ids[j] == tokenIds[symbols[j]]
    ensures Found(tokenIds, symbols) == Ok(ids)
  {
    assert Found(tokenIds, symbols).value == ids;
  }

  method EncodePretoken(t: Tables, encoder: seq<nat>, pretoken: Text) returns (r: Result<seq<nat>>)
    requires |encoder| == 256 && forall b: Byte :: encoder[b] == Code(b)
    ensures r == Encoding(t, pretoken)
  {
    var letters := SpellLetters(encoder, pretoken);
    var symbols := MergeLoop(letters, t.ranks);
    var output := [];
    for i := 0 to |symbols|
      invariant |output| == i
                && forall j | 0 <= j < i :: symbols[j] in t.tokenIds && output[j] == t.tokenIds[symbols[j]]
    {
      if symbols[i] !in t.tokenIds { return Failed(CorruptArtifact); }
      output := output + [t.tokenIds[symbols[i]]];
    }
    FoundIs(t.tokenIds, symbols, output);
    r := Ok(output);
  }

  // ---- ordinary text

  function Then(front: seq<nat>, rest: Result<seq<nat>>): Result<seq<nat>> {
    match rest
    case Failed(e) => Failed(e)
    case Ok(more) => Ok(front + more)
  }

  function EncodedPretokens(t: Tables, pretokens: seq<Text>): Result<seq<nat>> {
    if pretokens == [] then Ok([])
    else
      match Encoding(t, pretokens[0])
      case Failed(e) => Failed(e)
      case Ok(ids) => Then(ids, EncodedPretokens(t, pretokens[1..]))
  }

  function EncodedNormal(t: Tables, segment: Text): Result<seq<nat>> {
    if segment == [] then Ok([])
    else
      match t.normalize(segment)
      case Failed(e) => Failed(e)
      case Ok(normalized) =>
        match PretokensFrom(t.matcher, normalized, 0)
        case Failed(e) => Failed(e)
        case Ok(pretokens) => EncodedPretokens(t, pretokens)
  }

  lemma ThenTwice(a: seq<nat>, b: seq<nat>, rest: Result<seq<nat>>)
    ensures Then(a, Then(b, rest)) == Then(a + b, rest) && Then([], rest) == rest
  {
    if rest.Ok? {
      assert a + (b + rest.value) == (a + b) + rest.value;
      assert [] + rest.value == rest.value;
    }
  }

  method EncodeNormal(t: Tables, encoder: seq<nat>, segment: Text) returns (r: Result<seq<nat>>)
    requires |encoder| == 256 && forall b: Byte :: encoder[b] == Code(b)
    ensures r == EncodedNormal(t, segment)
  {
    if segment == [] { return Ok([]); }
    var normalized := t.normalize(segment);
    if normalized.Failed? { return Failed(normalized.error); }
    var pretokens := SplitPretokens(t.matcher, normalized.value);
    if pretokens.Failed? { return Failed(pretokens.error); }
    var all, output := pretokens.value, [];
    ThenTwice([], [], EncodedPretokens(t, all));
    for i := 0 to |all|
      invariant Then(output, EncodedPretokens(t, all[i..])) == EncodedPretokens(t, all)
    {
      var rest := all[i..];
      assert rest[0] == all[i] && rest[1..] == all[i + 1..];
      var ids := EncodePretoken(t, encoder, all[i]);
      if ids.Failed? { return ids; }
      ThenTwice(output, ids.value, EncodedPretokens(t, all[i + 1..]));
      output := output + ids.value;
    }
    assert all[|all|..] == [] && output + [] == output;
    r := Ok(output);
  }

  // ---- special contents

  predicate StandsThere(text: Text, at: nat, content: Text)
    ensures StandsThere(text, at, content) <==> StandsAt(text, at, content)
  {
    at + |content| <= |text| && text[at..at + |content|] == content
  }

  /** The first position at or behind the cursor where a content stands, or |text| + 1. */
  function Find(text: Text, content: Text, cursor: nat): (r: nat)
    requires cursor <= |text|
    ensures cursor <= r <= |text| + 1 && (r <= |text| ==> StandsAt(text, r, content))
    ensures NotBetween(text, content, cursor, r)
    decreases |text| - cursor
  {
    if StandsThere(text, cursor, content) then cursor
    else if cursor == |text| then |text| + 1
    else Find(text, content, cursor + 1)
  }

  /** A content does not start between the cursor and p. */
  ghost predicate NotBetween(text: Text, content: Text, cursor: nat, p: nat) {
    forall q: nat | cursor <= q < p :: !StandsAt(text, q, content)
  }

  /** Where the text is cut: at a position, for a special of the table. */
  datatype Cut = NoCut | Cut(index: nat, position: nat)

  function Position(c: Cut, text: Text): nat {
    if c.NoCut? then |text| + 1 else c.position
  }

  /** The cut for the first n specials. */
  function CutOf(text: Text, added: seq<Special>, cursor: nat, n: nat): (r: Cut)
    requires n <= |added| && cursor <= |text|
    ensures r.Cut? ==> cursor <= r.position <= |text| && r.index < n
    decreases n
  {
    if n == 0 then NoCut
    else
      var c := CutOf(text, added, cursor, n - 1);
      var found := Find(text, added[n - 1].content, cursor);
      if found < Position(c, text) then Cut(n - 1, found) else c
  }

  /** The text is cut where a special first starts, for the first of the table that starts there. */
  ghost predicate FirstCut(text: Text, added: seq<Special>, cursor: nat, n: nat, c: Cut)
    requires n <= |added|
  {
    && (forall j | 0 <= j < n :: NotBetween(text, added[j].content, cursor, Position(c, text)))
    && (c.Cut? ==>
          && c.index < n && StandsAt(text, c.position, added[c.index].content)
          && forall j | 0 <= j < c.index :: !StandsAt(text, c.position, added[j].content))
  }

  lemma {:induction false} CutIsFirst(text: Text, added: seq<Special>, cursor: nat, n: nat)
    requires n <= |added| && cursor <= |text|
    ensures FirstCut(text, added, cursor, n, CutOf(text, added, cursor, n))
  {
    if n > 0 {
      CutIsFirst(text, added, cursor, n - 1);
    }
  }

  method FindSpecial(added: seq<Special>, text: Text, cursor: nat) returns (c: Cut)
    requires cursor <= |text|
    ensures c == CutOf(text, added, cursor, |added|)
  {
    c := NoCut;
    for n := 0 to |added|
      invariant c == CutOf(text, added, cursor, n)
    {
      var found := Find(text, added[n].content, cursor);
      if found < Position(c, text) {
        c := Cut(n, found);
      }
    }
  }

  // ---- encoding

  /** No special content is empty. */
  ghost predicate Usable(added: seq<Special>) {
    forall i | 0 <= i < |added| :: added[i].content != []
  }

  /** Where encoding goes on behind a cut. */
  function Behind(added: seq<Special>, c: Cut): nat
    requires c.Cut? && c.index < |added|
  {
    c.position + |added[c.index].content|
  }

  /** Encoding ends: at every cursor it reaches the text ends, or no special follows, or a segment
      fails, or the special it cuts out is not empty. */
  predicate Ends(t: Tables, text: Text, cursor: nat): (r: bool)
    requires cursor <= |text|
    ensures Usable(t.added) ==> r
    decreases |text| - cursor
  {
    cursor == |text| ||
    var c := CutOf(text, t.added, cursor, |t.added|);
    CutIsFirst(text, t.added, cursor, |t.added|);
    || c.NoCut? || EncodedNormal(t, text[cursor..c.position]).Failed?
    || (Behind(t.added, c) > cursor && Ends(t, text, Behind(t.added, c)))
  }

  function EncodedFrom(t: Tables, text: Text, cursor: nat): Result<seq<nat>>
    requires cursor <= |text| && Ends(t, text, cursor)
    decreases |text| - cursor
  {
    if cursor == |text| then Ok([])
    else
      var c := CutOf(text, t.added, cursor, |t.added|);
      CutIsFirst(text, t.added, cursor, |t.added|);
      if c.NoCut? then EncodedNormal(t, text[cursor..])
      else
        match EncodedNormal(t, text[cursor..c.position])
        case Failed(e) => Failed(e)
        case Ok(ids) => Then(ids + [t.added[c.index].id], EncodedFrom(t, text, Behind(t.added, c)))
  }

  /** One step of encoding. */
  lemma {:induction false} EncodedStep(t: Tables, text: Text, cursor: nat, c: Cut)
    requires cursor < |text| && Ends(t, text, cursor) && c == CutOf(text, t.added, cursor, |t.added|)
    ensures c.NoCut? ==> EncodedFrom(t, text, cursor) == EncodedNormal(t, text[cursor..])
    ensures c.Cut? ==>
              && cursor <= c.position && Behind(t.added, c) <= |text|
              && var ids := EncodedNormal(t, text[cursor..c.position]);
                 && (ids.Failed? ==> EncodedFrom(t, text, cursor) == ids)
                 && (ids.Ok? ==>
                       && cursor < Behind(t.added, c) && Ends(t, text, Behind(t.added, c))
                       && EncodedFrom(t, text, cursor)
                          == Then(ids.value + [t.added[c.index].id], EncodedFrom(t, text, Behind(t.added, c))))
  {
    CutIsFirst(text, t.added, cursor, |t.added|);
  }

  /** Encodes up to and including the next special content, or to the end. */
  method EncodeNext(t: Tables, encoder: seq<nat>, text: Text, cursor: nat) returns (r: Result<seq<nat>>, next: nat)
    requires cursor < |text| && Ends(t, text, cursor)
    requires |encoder| == 256 && forall b: Byte :: encoder[b] == Code(b)
    ensures r.Failed? ==> EncodedFrom(t, text, cursor) == r
    ensures r.Ok? ==>
              && cursor < next <= |text| && Ends(t, text, next)
              && EncodedFrom(t, text, cursor) == Then(r.value, EncodedFrom(t, text, next))
  {
    next := |text|;
    var c := FindSpecial(t.added, text, cursor);
    EncodedStep(t, text, cursor, c);
    if c.NoCut? {
      r := EncodeNormal(t, encoder, text[cursor..]);
      if r.Ok? {
        assert r.value + [] == r.value;
      }
      return;
    }
    r := EncodeNormal(t, encoder, text[cursor..c.position]);
    if r.Failed? { return; }
    r := Ok(r.value + [t.added[c.index].id]);
    next := Behind(t.added, c);
  }

  // ---- what an encoding is, without the functions that compute it

  /** The identifiers of a pretoken: those of symbols that make up its spelling, are reached from its
      letters by passes for best pairs, and hold no pair that can be merged. */
  ghost predicate IsPart(t: Tables, pretoken: Text, ids: seq<nat>) {
    exists symbols: seq<Text> ::
      && Flatten(symbols) == Spelled(pretoken) && IsMerged(Letters(pretoken), symbols, t.ranks)
      && AreIds(t.tokenIds, symbols, ids)
  }

  ghost predicate AreIds(tokenIds: map<Text, nat>, symbols: seq<Text>, ids: seq<nat>) {
    |ids| == |symbols| && forall i | 0 <= i < |ids| :: symbols[i] in tokenIds && ids[i] == tokenIds[symbols[i]]
  }

  /** Identifiers that split into one part per pretoken. */
  ghost predicate AreParts(t: Tables, pretokens: seq<Text>, ids: seq<nat>) {
    if pretokens == [] then ids == []
    else exists n: nat | n <= |ids| :: IsPart(t, pretokens[0], ids[..n]) && AreParts(t, pretokens[1..], ids[n..])
  }

  /** Pretokens that are what the matcher matches, one behind the other, from an offset to the end. */
  ghost predicate AreMatches(matcher: (Text, nat) -> Match, text: Text, offset: nat, pretokens: seq<Text>)
    decreases |pretokens|
  {
    if pretokens == [] then offset == |text|
    else
      var end := offset + |pretokens[0]|;
      && offset < end <= |text| && matcher(text, offset) == Match(offset, end) && text[offset..end] == pretokens[0]
      && AreMatches(matcher, text, end, pretokens[1..])
  }

  ghost predicate IsSegment(t: Tables, segment: Text, ids: seq<nat>) {
    if segment == [] then ids == []
    else exists normalized: Text, pretokens: seq<Text> ::
      && t.normalize(segment) == Ok(normalized) && AreMatches(t.matcher, normalized, 0, pretokens)
      && AreParts(t, pretokens, ids)
  }

  /** The first n identifiers are those of the segment before the first cut, the next one its special's. */
  ghost predicate StartsWith(t: Tables, text: Text, cursor: nat, c: Cut, n: nat, ids: seq<nat>) {
    && c.Cut? && n < |ids| && FirstCut(text, t.added, cursor, |t.added|, c)
    && cursor <= c.position && cursor < Behind(t.added, c) <= |text|
    && IsSegment(t, text[cursor..c.position], ids[..n]) && ids[n] == t.added[c.index].id
  }

  /** The text from the cursor on is cut at the first special contents, and the identifiers are those of
      the segments between them and of the specials. */
  ghost predicate Encodes(t: Tables, text: Text, cursor: nat, ids: seq<nat>)
    requires cursor <= |text|
    decreases |text| - cursor
  {
    if cursor == |text| then ids == []
    else if FirstCut(text, t.added, cursor, |t.added|, NoCut) then IsSegment(t, text[cursor..], ids)
    else exists c: Cut, n: nat | StartsWith(t, text, cursor, c, n, ids) ::
      Encodes(t, text, Behind(t.added, c), ids[n + 1..])
  }

  lemma {:induction false} LettersFlatten(bytes: Text)
    ensures Flatten(Letters(bytes)) == Spelled(bytes)
  {
    if bytes != [] {
      LettersFlatten(bytes[1..]);
      assert Letters(bytes)[1..] == Letters(bytes[1..]);
    }
  }

  lemma {:induction false} MergedFlatten(symbols: seq<Text>, ranks: Ranks)
    ensures Flatten(Merged(symbols, ranks)) == Flatten(symbols)
    decreases |symbols|
  {
    var key := Best(symbols, ranks, |symbols|);
    BestOccurs(symbols, ranks);
    if key != [] {
      MergeKeepsText(symbols, key);
      MergedFlatten(MergeAll(symbols, key), ranks);
    }
  }

  lemma EncodingIsPart(t: Tables, pretoken: Text, ids: seq<nat>)
    requires Encoding(t, pretoken) == Ok(ids)
    ensures IsPart(t, pretoken, ids)
  {
    var symbols := Merged(Letters(pretoken), t.ranks);
    LettersFlatten(pretoken);
    MergedFlatten(Letters(pretoken), t.ranks);
    MergedIs(Letters(pretoken), t.ranks, symbols);
    assert AreIds(t.tokenIds, symbols, ids);
  }

  lemma {:induction false} PretokensAreParts(t: Tables, pretokens: seq<Text>, ids: seq<nat>)
    requires EncodedPretokens(t, pretokens) == Ok(ids)
    ensures AreParts(t, pretokens, ids)
    decreases |pretokens|
  {
    if pretokens != [] {
      var first, rest := Encoding(t, pretokens[0]).value, EncodedPretokens(t, pretokens[1..]).value;
      var n := |first|;
      EncodingIsPart(t, pretokens[0], first);
      PretokensAreParts(t, pretokens[1..], rest);
      assert ids == first + rest && ids[..n] == first && ids[n..] == rest;
    }
  }

  lemma {:induction false} PretokensAreMatches(matcher: (Text, nat) -> Match, text: Text, offset: nat,
                                               pretokens: seq<Text>)
    requires offset <= |text| && PretokensFrom(matcher, text, offset) == Ok(pretokens)
    ensures AreMatches(matcher, text, offset, pretokens)
    decreases |text| - offset
  {
    if offset < |text| {
      var end := matcher(text, offset).end;
      PretokensAreMatches(matcher, text, end, pretokens[1..]);
    }
  }

  lemma NormalIsSegment(t: Tables, segment: Text, ids: seq<nat>)
    requires EncodedNormal(t, segment) == Ok(ids)
    ensures IsSegment(t, segment, ids)
  {
    if segment != [] {
      var normalized := t.normalize(segment).value;
      var pretokens := PretokensFrom(t.matcher, normalized, 0).value;
      PretokensAreMatches(t.matcher, normalized, 0, pretokens);
      PretokensAreParts(t, pretokens, ids);
    }
  }

  /** No special starts behind the cursor exactly if the first cut is none. */
  lemma {:induction false} NoneFirst(text: Text, added: seq<Special>, cursor: nat, c: Cut)
    requires cursor <= |text| && c == CutOf(text, added, cursor, |added|)
    ensures FirstCut(text, added, cursor, |added|, c)
    ensures FirstCut(text, added, cursor, |added|, NoCut) <==> c.NoCut?
  {
    CutIsFirst(text, added, cursor, |added|);
    if c.Cut? {
      assert StandsAt(text, c.position, added[c.index].content);
      assert !NotBetween(text, added[c.index].content, cursor, |text| + 1);
    }
  }

  lemma {:induction false} CutEncodes(t: Tables, text: Text, cursor: nat, c: Cut, front: seq<nat>, rest: seq<nat>)
    requires cursor < |text| && c.Cut? && FirstCut(text, t.added, cursor, |t.added|, c)
    requires !FirstCut(text, t.added, cursor, |t.added|, NoCut)
    requires cursor <= c.position && cursor < Behind(t.added, c) <= |text|
    requires IsSegment(t, text[cursor..c.position], front) && Encodes(t, text, Behind(t.added, c), rest)
    ensures Encodes(t, text, cursor, front + [t.added[c.index].id] + rest)
  {
    var ids, n := front + [t.added[c.index].id] + rest, |front|;
    assert ids[..n] == front && ids[n + 1..] == rest;
    assert StartsWith(t, text, cursor, c, n, ids);
  }

  /** What the functions compute is an encoding. */
  lemma {:induction false} EncodedFromEncodes(t: Tables, text: Text, cursor: nat, ids: seq<nat>)
    requires cursor <= |text| && Ends(t, text, cursor) && EncodedFrom(t, text, cursor) == Ok(ids)
    ensures Encodes(t, text, cursor, ids)
    decreases |text| - cursor
  {
    if cursor < |text| {
      var c := CutOf(text, t.added, cursor, |t.added|);
      EncodedStep(t, text, cursor, c);
      NoneFirst(text, t.added, cursor, c);
      if c.NoCut? {
        NormalIsSegment(t, text[cursor..], ids);
      } else {
        var front, next := EncodedNormal(t, text[cursor..c.position]).value, Behind(t.added, c);
        var rest := EncodedFrom(t, text, next).value;
        NormalIsSegment(t, text[cursor..c.position], front);
        EncodedFromEncodes(t, text, next, rest);
        CutEncodes(t, text, cursor, c, front, rest);
      }
    }
  }

  /** Encodes a text, if encoding ends; ForeverOrEnds says exactly when it does. */
  method Encode(t: Tables, text: Text) returns (r: Result<seq<nat>>)
    requires Ends(t, text, 0)
    ensures r == EncodedFrom(t, text, 0)
    ensures r.Ok? ==> Encodes(t, text, 0, r.value)
  {
    var encoder := ByteEncoder();
    var output: seq<nat>, cursor := [], 0;
    ThenTwice([], [], EncodedFrom(t, text, 0));
    while cursor < |text|
      invariant cursor <= |text| && Ends(t, text, cursor)
      invariant Then(output, EncodedFrom(t, text, cursor)) == EncodedFrom(t, text, 0)
      decreases |text| - cursor
    {
      var ids, next := EncodeNext(t, encoder, text, cursor);
      if ids.Failed? { return ids; }
      ThenTwice(output, ids.value, EncodedFrom(t, text, next));
      output, cursor := output + ids.value, next;
    }
    assert output + [] == output;
    r := Ok(output);
    EncodedFromEncodes(t, text, 0, output);
  }

  // ---- when encoding ends

  /** Where one pass of the loop leaves it: at another cursor, or out of the loop. */
  datatype Pass = At(cursor: nat) | Left

  function PassFrom(t: Tables, text: Text, cursor: nat): (p: Pass)
    requires cursor <= |text|
    ensures p.At? ==> cursor <= p.cursor <= |text|
  {
    if cursor == |text| then Left
    else
      var c := CutOf(text, t.added, cursor, |t.added|);
      CutIsFirst(text, t.added, cursor, |t.added|);
      if c.NoCut? || EncodedNormal(t, text[cursor..c.position]).Failed? then Left else At(Behind(t.added, c))
  }

  /** Where n passes from a cursor on leave the loop. */
  function PassesFrom(t: Tables, text: Text, cursor: nat, n: nat): (p: Pass)
    requires cursor <= |text|
    ensures p.At? ==> cursor <= p.cursor <= |text|
    decreases n
  {
    if n == 0 then At(cursor)
    else
      match PassFrom(t, text, cursor)
      case Left => Left
      case At(next) => PassesFrom(t, text, next, n - 1)
  }

  lemma {:induction false} PassEnds(t: Tables, text: Text, cursor: nat)
    requires cursor < |text|
    ensures match PassFrom(t, text, cursor)
            case Left => Ends(t, text, cursor)
            case At(next) => Ends(t, text, cursor) <==> cursor < next && Ends(t, text, next)
  {
    CutIsFirst(text, t.added, cursor, |t.added|);
  }

  /** Encoding ends exactly when Ends says so: the loop is then left after as many passes as there are
      bytes, and otherwise after no number of passes. */
  lemma {:induction false} ForeverOrEnds(t: Tables, text: Text, cursor: nat, n: nat)
    requires cursor <= |text|
    ensures Ends(t, text, cursor) && n > |text| - cursor ==> PassesFrom(t, text, cursor, n).Left?
    ensures !Ends(t, text, cursor) ==> PassesFrom(t, text, cursor, n).At?
    decreases n
  {
    if n > 0 && cursor < |text| {
      PassEnds(t, text, cursor);
      var pass := PassFrom(t, text, cursor);
      if pass.At? {
        ForeverOrEnds(t, text, pass.cursor, n - 1);
      }
    }
  }

  /** The text from the cursor on is a run of special contents, none of them empty. */
  predicate SpecialsOnly(added: seq<Special>, text: Text, cursor: nat)
    requires cursor <= |text|
    decreases |text| - cursor
  {
    cursor == |text| ||
    var c := CutOf(text, added, cursor, |added|);
    CutIsFirst(text, added, cursor, |added|);
    c.Cut? && c.position == cursor && added[c.index].content != [] && SpecialsOnly(added, text, Behind(added, c))
  }

  lemma {:induction false} EmptyCutsHere(text: Text, added: seq<Special>, cursor: nat, i: nat)
    requires cursor <= |text| && i < |added| && added[i].content == []
    ensures var c := CutOf(text, added, cursor, |added|); c.Cut? && c.position == cursor
  {
    CutIsFirst(text, added, cursor, |added|);
    var c := CutOf(text, added, cursor, |added|);
    assert NotBetween(text, added[i].content, cursor, Position(c, text));
    assert StandsAt(text, cursor, added[i].content);
  }

  /** What a caller can check: encoding ends exactly when no special content is empty, or the text is a
      run of special contents that are not. */
  lemma {:induction false} EndsExactly(t: Tables, text: Text, cursor: nat)
    requires cursor <= |text|
    ensures Ends(t, text, cursor) <==> Usable(t.added) || SpecialsOnly(t.added, text, cursor)
    decreases |text| - cursor
  {
    if cursor < |text| && !Usable(t.added) {
      var i :| 0 <= i < |t.added| && t.added[i].content == [];
      EmptyCutsHere(text, t.added, cursor, i);
      CutIsFirst(text, t.added, cursor, |t.added|);
      var c := CutOf(text, t.added, cursor, |t.added|);
      assert text[cursor..c.position] == [];
      if t.added[c.index].content != [] {
        EndsExactly(t, text, Behind(t.added, c));
      }
    }
  }
}
