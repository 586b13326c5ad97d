/** Incremental emission: after every token the whole content is decoded again, and what its valid
    UTF-8 prefix gained is sent to the client. */
module Emission {
  import opened Utf8
  import opened Utf8Prefix
  import opened Tokenizer
  import opened TerminalTokens
  import Bpe
  import Seals

  /** Appending tokens appends text. */
  lemma {:induction false} DecodingAppend(pieces: seq<Text>, a: seq<nat>, b: seq<nat>)
    requires Decoding(pieces, a).Ok?
    ensures Decoding(pieces, a + b) == Joined(Decoding(pieces, a).value, Decoding(pieces, b))
    decreases |a|
  {
    if a == [] {
      assert a + b == b;
      JoinedTwice([], [], Decoding(pieces, b));
    } else {
      assert (a + b)[1..] == a[1..] + b;
      DecodingAppend(pieces, a[1..], b);
      JoinedTwice(PieceBytes(pieces[a[0]]).value, Decoding(pieces, a[1..]).value, Decoding(pieces, b));
    }
  }

  lemma {:induction false} FlattenAppend(deltas: seq<Text>, delta: Text)
    ensures Bpe.Flatten(deltas + [delta]) == Bpe.Flatten(deltas) + delta
    decreases |deltas|
  {
    var all := deltas + [delta];
    if deltas == [] {
      assert all == [delta] && all[1..] == [];
    } else {
      assert all[1..] == deltas[1..] + [delta];
      FlattenAppend(deltas[1..], delta);
    }
  }

  /** Every delta is some complete sequences. */
  ghost predicate OnBoundaries(deltas: seq<Text>) {
    forall i | 0 <= i < |deltas| :: deltas[i] != [] && WellFormed(deltas[i])
  }

  /** What was sent is a prefix of the decoded content; as long as the client listens it is the
      longest valid one. */
  ghost predicate Sent(t: Tables, content: seq<nat>, text: Text, sentBytes: nat, deltas: seq<Text>, listening: bool) {
    && Decoding(t.pieces, content) == Ok(text)
    && sentBytes <= PrefixFrom(text, 0) && Bpe.Flatten(deltas) == text[..sentBytes] && OnBoundaries(deltas)
    && (listening ==> sentBytes == PrefixFrom(text, 0))
    && WellFormed(text[..sentBytes])
  }

  /** Sent, behind a seal. */
  ghost predicate Delivered(t: Tables, content: seq<nat>, text: Text, sentBytes: nat, deltas: seq<Text>,
                            listening: bool) {
    forall seal {:trigger Seals.Opened(seal)} | Seals.Opened(seal) && seal == Seals.Delivery ::
      Sent(t, content, text, sentBytes, deltas, listening)
  }

  lemma DeliveredIsSent(t: Tables, content: seq<nat>, text: Text, sentBytes: nat, deltas: seq<Text>, listening: bool)
    ensures Delivered(t, content, text, sentBytes, deltas, listening) <==>
              Sent(t, content, text, sentBytes, deltas, listening)
  {
    assert Seals.Opened(Seals.Delivery);
  }

  /** One more token: the text grows, and the gain of its valid prefix can be sent. */
  lemma {:induction false} SentGrows(t: Tables, content: seq<nat>, token: nat, text: Text, sentBytes: nat,
                                     deltas: seq<Text>, text2: Text)
    requires Sent(t, content, text, sentBytes, deltas, true) && Decoding(t.pieces, content + [token]) == Ok(text2)
    ensures sentBytes <= PrefixFrom(text2, 0) && Sent(t, content + [token], text2, sentBytes, deltas, false)
    ensures var delta := text2[sentBytes..PrefixFrom(text2, 0)];
            Sent(t, content + [token], text2, PrefixFrom(text2, 0), if delta == [] then deltas
                 else deltas + [delta], true)
  {
    DecodingAppend(t.pieces, content, [token]);
    var more := Decoding(t.pieces, [token]).value;
    assert text2 == text + more;
    PrefixGrows(text, more);
    PrefixIsLongest(text2);
    var n := PrefixFrom(text2, 0);
    var delta := text2[sentBytes..n];
    FlattenAppend(deltas, delta);
    assert text2[..sentBytes] == text[..sentBytes];
    assert text2[..sentBytes] + delta == text2[..n];
    if delta == [] {
      assert n == sentBytes;
    }
  }

  /** Without a client nothing is sent, and the text grows all the same. */
  lemma {:induction false} SilentGrows(t: Tables, content: seq<nat>, token: nat, text: Text, sentBytes: nat,
                                       deltas: seq<Text>, text2: Text, streaming: bool)
    requires Sent(t, content, text, sentBytes, deltas, streaming) && Decoding(t.pieces, content + [token]) == Ok(text2)
    requires !streaming ==> deltas == [] && sentBytes == 0
    ensures sentBytes <= PrefixFrom(text2, 0) && Sent(t, content + [token], text2, sentBytes, deltas, false)
    ensures streaming ==>
              var delta := text2[sentBytes..PrefixFrom(text2, 0)];
              Sent(t, content + [token], text2, PrefixFrom(text2, 0), if delta == [] then deltas
                   else deltas + [delta], true)
  {
    if streaming {
      SentGrows(t, content, token, text, sentBytes, deltas, text2);
    }
  }

  /** The same behind the seal: delta is what the valid prefix gains. */
  lemma {:induction false} NextDelivered(t: Tables, content: seq<nat>, token: nat, text: Text, sentBytes: nat,
                                         deltas: seq<Text>, text2: Text, n: nat, all: seq<nat>, streaming: bool)
    requires Delivered(t, content, text, sentBytes, deltas, streaming) && Decoding(t.pieces, all) == Ok(text2)
    requires all == content + [token] && n == PrefixFrom(text2, 0) && (!streaming ==> deltas == [] && sentBytes == 0)
    ensures sentBytes <= n <= |text2| && Delivered(t, all, text2, sentBytes, deltas, false)
    ensures streaming ==>
              var delta := text2[sentBytes..n];
              Delivered(t, all, text2, n, if n == sentBytes then deltas else deltas + [delta], true)
  {
    DeliveredIsSent(t, content, text, sentBytes, deltas, streaming);
    SilentGrows(t, content, token, text, sentBytes, deltas, text2, streaming);
    DeliveredIsSent(t, all, text2, sentBytes, deltas, false);
    if streaming {
      var delta := text2[sentBytes..n];
      DeliveredIsSent(t, all, text2, n, if n == sentBytes then deltas else deltas + [delta], true);
    }
  }

  class Emitter {
    const t: Tables
    /** Whether there is a client to send to. */
    const streaming: bool
    var contentTokens: seq<nat>
    var text: Text
    var sentBytes: nat
    var next: nat
    var completionTokens: nat
    var stopped: bool
    var clientConnected: bool
    /** What the client received, and every token that was consumed. */
    ghost var deltas: seq<Text>
    ghost var consumed: seq<nat>

    ghost predicate Valid()
      reads this
    {
      && completionTokens == |consumed| && (consumed != [] ==> next == consumed[|consumed| - 1])
      && (stopped ==> consumed != [] && Terminal(next))
      && contentTokens == (if stopped then consumed[..|consumed| - 1] else consumed)
      && (forall i | 0 <= i < |contentTokens| :: !Terminal(contentTokens[i]))
      && Delivered(t, contentTokens, text, sentBytes, deltas, streaming && clientConnected)
      && (!streaming ==> deltas == [] && sentBytes == 0 && clientConnected)
    }

    constructor (t: Tables, streaming: bool)
      ensures Valid() && this.t == t && this.streaming == streaming
      ensures consumed == [] && clientConnected && !stopped
    {
      this.t, this.streaming := t, streaming;
      contentTokens, text, sentBytes, next, completionTokens := [], [], 0, 0, 0;
      stopped, clientConnected := false, true;
      deltas, consumed := [], [];
    }

    /** Decodes the content and sends the gain of its valid prefix; the client may be gone. */
    method EmitContent() returns (r: Result<()>)
      requires contentTokens != [] && clientConnected && (!streaming ==> deltas == [] && sentBytes == 0)
      requires Delivered(t, contentTokens[..|contentTokens| - 1], text, sentBytes, deltas, streaming)
      modifies this`text, this`sentBytes, this`clientConnected, this`deltas
      ensures r.Ok? <==> Decoding(t.pieces, contentTokens).Ok?
      ensures r.Failed? ==> Decoding(t.pieces, contentTokens) == Failed(r.error)
      ensures r.Ok? ==> Delivered(t, contentTokens, text, sentBytes, deltas, streaming && clientConnected)
      ensures !streaming ==> deltas == [] && sentBytes == 0 && clientConnected
      ensures old(deltas) <= deltas && |deltas| <= |old(deltas)| + 1 && (!clientConnected ==> deltas == old(deltas))
    {
      ghost var front, last := contentTokens[..|contentTokens| - 1], contentTokens[|contentTokens| - 1];
      assert front + [last] == contentTokens;
      var decoded := Decode(t, contentTokens);
      if decoded.Failed? { return Failed(decoded.error); }
      NextDelivered(t, front, last, text, sentBytes, deltas, decoded.value, PrefixFrom(decoded.value, 0), contentTokens,
                    streaming);
      text := decoded.value;
      var validBytes := ValidUtf8Prefix(text);
      if validBytes > sentBytes && streaming {
        var delivered: bool := *;
        if !delivered {
          clientConnected := false;
          return Ok(());
        }
        deltas := deltas + [text[sentBytes..validBytes]];
        sentBytes := validBytes;
      }
      r := Ok(());
    }

    method ConsumeToken(token: nat) returns (r: Result<()>)
      requires Valid() && clientConnected && !stopped
      modifies this
      ensures consumed == old(consumed) + [token] && completionTokens == old(completionTokens) + 1 && next == token
      ensures r.Failed? <==> !Terminal(token) && Decoding(t.pieces, consumed).Failed?
      ensures r.Ok? ==> Valid() && (stopped <==> Terminal(token))
      ensures old(deltas) <= deltas
              && (Terminal(token) ==> deltas == old(deltas) && text == old(text) && clientConnected)
    {
      next := token;
      completionTokens := completionTokens + 1;
      consumed := consumed + [token];
      if Terminal(token) {
        stopped := true;
        assert consumed[..|consumed| - 1] == contentTokens;
        return Ok(());
      }
      contentTokens := contentTokens + [token];
      assert contentTokens[..|contentTokens| - 1] == old(contentTokens);
      r := EmitContent();
    }
  }
}
