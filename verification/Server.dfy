/** The server's reply: the prompt is encoded, the session generates, and the tokens of every round
    are consumed one by one until the reply is complete or the client is gone. */
module Server {
  import opened Decoder
  import opened DeviceMemory
  import opened GreedyStream
  import opened Session
  import opened Driver
  import opened Emission
  import opened TerminalTokens
  import Tokenizer
  import TokenizerRoundTrip
  import Utf8
  import Seals

  datatype Reply<T> = Replied(value: T) | TokenizerFailed(error: Tokenizer.Error) | InvalidRequest | DeviceFailed

  /** A failure of the session passed on: a refused call is a refused request. */
  function Refusal<S, T>(r: Outcome<S>): (reply: Reply<T>)
    requires !r.Ok?
    ensures !reply.Replied? && !reply.TokenizerFailed? && (reply.InvalidRequest? <==> r.InvalidArgument?)
  {
    if r.InvalidArgument? then InvalidRequest else DeviceFailed
  }

  /** A cut stream starts with any of its prefixes that has no inner terminal token. */
  lemma {:induction false} CutPrefix(stream: seq<nat>, n: nat)
    requires n <= |stream| && forall i | 0 <= i < n - 1 :: !Terminal(stream[i])
    ensures stream[..n] <= Cut(stream)
  {
    if n > 0 {
      if !Terminal(stream[0]) || n > 1 {
        assert forall i | 0 <= i < n - 2 :: stream[1..][i] == stream[i + 1];
        CutPrefix(stream[1..], n - 1);
        assert stream[..n] == [stream[0]] + stream[1..][..n - 1];
      } else {
        assert stream[..n] == [stream[0]];
      }
    }
  }

  /** Whatever was consumed when a loop stops is the beginning of the expected reply. */
  lemma ConsumedIsPrefix(m: Model, prompt: seq<nat>, maximumTokens: nat, all: seq<nat>, n: nat)
    requires prompt != [] && all == Stream(m, prompt, |all|)
    requires 0 < n <= |all| && (|all| <= maximumTokens || (maximumTokens == 0 && |all| == 1))
    requires forall i | 0 <= i < n - 1 :: !Terminal(all[i])
    ensures all[..n] <= Expected(m, prompt, maximumTokens)
    ensures Terminal(all[n - 1]) || n == maximumTokens || maximumTokens == 0 ==>
              all[..n] == Expected(m, prompt, maximumTokens)
  {
    var total := if maximumTokens == 0 then 1 else maximumTokens;
    var stream := Stream(m, prompt, total);
    GreedyPrefix(Target(m), prompt[..|prompt| - 1], prompt[|prompt| - 1], |all|, total);
    assert stream[..|all|] == all;
    assert forall i | 0 <= i < n :: stream[i] == all[i];
    CutPrefix(stream, n);
    assert stream[..n] == all[..n];
    if Terminal(all[n - 1]) || n == maximumTokens || maximumTokens == 0 {
      StoppedIsExpected(m, prompt, maximumTokens, all, n);
    }
  }

  /** The first n tokens, the last perhaps terminal, belong to the expected reply. */
  ghost predicate BelongsAt(all: seq<nat>, expected: seq<nat>, maximumTokens: nat, n: nat)
    requires 0 < n <= |all|
  {
    (forall i | 0 <= i < n - 1 :: !Terminal(all[i])) ==>
      && all[..n] <= expected
      && (Terminal(all[n - 1]) || n == maximumTokens || maximumTokens == 0 ==> all[..n] == expected)
  }

  /** So does every beginning of the tokens; behind a seal. */
  ghost predicate Belongs(all: seq<nat>, expected: seq<nat>, maximumTokens: nat) {
    forall seal {:trigger Seals.Opened(seal)} | Seals.Opened(seal) && seal == Seals.Stream ::
      forall n | 0 < n <= |all| :: BelongsAt(all, expected, maximumTokens, n)
  }

  lemma StreamBelongs(m: Model, prompt: seq<nat>, maximumTokens: nat, all: seq<nat>)
    requires prompt != [] && all == Stream(m, prompt, |all|)
    requires |all| <= maximumTokens || (maximumTokens == 0 && |all| == 1)
    ensures Belongs(all, Expected(m, prompt, maximumTokens), maximumTokens)
  {
    forall n | 0 < n <= |all|
      ensures BelongsAt(all, Expected(m, prompt, maximumTokens), maximumTokens, n)
    {
      if forall i | 0 <= i < n - 1 :: !Terminal(all[i]) {
        ConsumedIsPrefix(m, prompt, maximumTokens, all, n);
      }
    }
  }

  /** The reply so far: a beginning of the expected one, and all of it once a terminal token or the
      limit was reached. */
  ghost predicate Replying(e: Emitter, expected: seq<nat>, maximumTokens: nat)
    reads e
  {
    && e.Valid() && e.consumed != [] && e.consumed <= expected
    && (e.stopped || |e.consumed| == maximumTokens || maximumTokens == 0 ==> e.consumed == expected)
  }

  /** One token of a round. */
  method ConsumeOne(e: Emitter, token: nat, maximumTokens: nat, ghost all: seq<nat>, ghost expected: seq<nat>)
    returns (r: Tokenizer.Result<()>)
    requires e.Valid() && e.clientConnected && !e.stopped
    requires |e.consumed| < |all| && e.consumed == all[..|e.consumed|] && token == all[|e.consumed|]
             && Belongs(all, expected, maximumTokens)
    modifies e
    ensures r.Ok? ==> Replying(e, expected, maximumTokens)
    ensures e.consumed == all[..|old(e.consumed)| + 1] && e.completionTokens == |e.consumed|
  {
    assert Seals.Opened(Seals.Stream);
    ghost var n := |e.consumed| + 1;
    assert all[..n - 1] + [token] == all[..n];
    assert BelongsAt(all, expected, maximumTokens, n);
    assert forall k | 0 <= k < n - 1 :: !Terminal(e.contentTokens[k]) && e.contentTokens[k] == all[k];
    r := e.ConsumeToken(token);
  }

  /** Where a round stands after the first n tokens of all, behind a seal: more are consumed only
      while the reply goes on. */
  ghost predicate Consuming(e: Emitter, all: seq<nat>, expected: seq<nat>, maximumTokens: nat, n: nat, ok: bool,
                            more: bool)
    reads e
  {
    forall seal {:trigger Seals.Opened(seal)} | Seals.Opened(seal) && seal == Seals.Stream ::
      && n <= |all| && (more ==> ok && e.Valid() && e.clientConnected && !e.stopped)
      && (ok ==> e.consumed == all[..n])
      && (ok && !more ==>
            Replying(e, expected, maximumTokens) && (e.clientConnected && !e.stopped ==> n == maximumTokens))
  }

  /** One token of a round; the loop stops when the reply is complete or the client is gone. */
  method ConsumeNext(e: Emitter, token: nat, maximumTokens: nat, ghost all: seq<nat>, ghost expected: seq<nat>,
                     ghost n: nat)
    returns (r: Tokenizer.Result<()>, more: bool)
    requires Consuming(e, all, expected, maximumTokens, n, true, true)
    requires n < |all| && token == all[n] && Belongs(all, expected, maximumTokens)
    modifies e
    ensures Consuming(e, all, expected, maximumTokens, n + 1, r.Ok?, more) && (more ==> r.Ok?)
  {
    assert Seals.Opened(Seals.Stream);
    r := ConsumeOne(e, token, maximumTokens, all, expected);
    more := r.Ok? && e.clientConnected && !e.stopped && e.completionTokens != maximumTokens;
  }

  lemma RoundStarts(e: Emitter, all: seq<nat>, expected: seq<nat>, maximumTokens: nat, n: nat)
    requires e.Valid() && e.clientConnected && !e.stopped && e.consumed <= all && n == |e.consumed|
    ensures Consuming(e, all, expected, maximumTokens, n, true, true)
  {
  }

  lemma RoundEnds(e: Emitter, all: seq<nat>, expected: seq<nat>, maximumTokens: nat, n: nat, more: bool)
    requires Consuming(e, all, expected, maximumTokens, n, true, more) && 0 < n && (more ==> n == |all|)
    requires Belongs(all, expected, maximumTokens) && (|all| <= maximumTokens || (maximumTokens == 0 && |all| == 1))
    ensures Replying(e, expected, maximumTokens) && |e.consumed| == n
    ensures e.clientConnected && !e.stopped ==> e.consumed == all
  {
    assert Seals.Opened(Seals.Stream);
    assert all[..|all|] == all;
    assert n == |all| ==> BelongsAt(all, expected, maximumTokens, n);
  }

  /** Consumes the tokens of a round until the reply is complete or the client is gone. */
  method ConsumeRound(e: Emitter, tokens: seq<nat>, maximumTokens: nat, ghost all: seq<nat>, ghost expected: seq<nat>)
    returns (r: Tokenizer.Result<()>)
    requires tokens != [] && e.Valid() && e.clientConnected && !e.stopped
    requires all == e.consumed + tokens && Belongs(all, expected, maximumTokens)
    requires |all| <= maximumTokens || (maximumTokens == 0 && |all| == 1)
    modifies e
    ensures r.Ok? ==> Replying(e, expected, maximumTokens) && e.completionTokens > old(e.completionTokens)
    ensures r.Ok? && e.clientConnected && !e.stopped ==> e.consumed == all
  {
    ghost var n := |e.consumed|;
    RoundStarts(e, all, expected, maximumTokens, n);
    r := Tokenizer.Ok(());
    var more := true;
    var i := 0;
    while i < |tokens| && more
      invariant i <= |tokens| && n == |old(e.consumed)| + i && (more ==> r.Ok?) && (!more ==> i > 0)
      invariant Consuming(e, all, expected, maximumTokens, n, r.Ok?, more)
    {
      r, more := ConsumeNext(e, tokens[i], maximumTokens, all, expected, n);
      i, n := i + 1, n + 1;
    }
    if r.Ok? { RoundEnds(e, all, expected, maximumTokens, n, more); }
  }

  /** Where the loop stands, behind a seal. */
  ghost predicate Serving(e: Emitter, session: QwenDecodeSession, prompt: seq<nat>, maximumTokens: nat, draftCount: nat)
    requires prompt != []
    reads e, session, session.hiddenA, session.hiddenB, session.targetHiddenSnapshot
    reads session.conv0, session.conv1, session.gdn0, session.gdn1
  {
    forall seal {:trigger Seals.Opened(seal)} | Seals.Opened(seal) && seal == Seals.Reply ::
        Underway(e, session, prompt, maximumTokens, draftCount)
  }

  /** The reply is a beginning of the expected one, and while it is not complete the session can go on. */
  ghost predicate Underway(e: Emitter, session: QwenDecodeSession, prompt: seq<nat>, maximumTokens: nat,
                           draftCount: nat)
    requires prompt != []
    reads e, session, session.hiddenA, session.hiddenB, session.targetHiddenSnapshot
    reads session.conv0, session.conv1, session.gdn0, session.gdn1
  {
    && Replying(e, Expected(session.m, prompt, maximumTokens), maximumTokens)
    && (e.clientConnected && !e.stopped ==> Advanced(session, prompt, e.consumed, maximumTokens, draftCount))
  }

  /** The session has emitted all of a stream, terminal tokens or not, and can go on. */
  ghost predicate Advanced(session: QwenDecodeSession, prompt: seq<nat>, all: seq<nat>, maximumTokens: nat,
                           draftCount: nat)
    requires prompt != []
    reads session, session.hiddenA, session.hiddenB, session.targetHiddenSnapshot
    reads session.conv0, session.conv1, session.gdn0, session.gdn1
  {
    && Generating(session, Target(session.m), prompt, all)
    && (|all| <= maximumTokens || (maximumTokens == 0 && |all| == 1))
    && (draftCount != 0 && |all| < maximumTokens ==> Aligned(session.mtpSlots, session.committed))
    && draftCount < MAXIMUM_BLOCK && |prompt| + maximumTokens <= session.capacity
    && session.m.tokenizerVocabulary <= session.m.vocabulary
  }

  /** The tokens of the next round: one greedy step when nothing is drafted or one token is left. */
  method NextRound(session: QwenDecodeSession, ghost prompt: seq<nat>, generated: seq<nat>, maximumTokens: nat,
                   draftCount: nat)
    returns (r: Outcome<seq<nat>>)
    requires prompt != [] && Advanced(session, prompt, generated, maximumTokens, draftCount)
             && |generated| < maximumTokens
    modifies session, session.hiddenA, session.hiddenB, session.targetHiddenSnapshot
    modifies session.conv0, session.conv1, session.gdn0, session.gdn1
    ensures !r.InvalidArgument?
    ensures r.Ok? ==> r.value != [] && Advanced(session, prompt, generated + r.value, maximumTokens, draftCount)
  {
    LastInVocabulary(session, prompt, generated);
    var remaining := maximumTokens - |generated|;
    if draftCount == 0 || remaining == 1 {
      r := GreedyRound(session, prompt, generated);
    } else {
      r := SpeculativeRound(session, prompt, generated, if draftCount < remaining - 1 then draftCount
                            else remaining - 1);
    }
  }

  /** Advanced, behind a seal. */
  ghost predicate Ahead(session: QwenDecodeSession, prompt: seq<nat>, all: seq<nat>, maximumTokens: nat,
                        draftCount: nat)
    requires prompt != []
    reads session, session.hiddenA, session.hiddenB, session.targetHiddenSnapshot
    reads session.conv0, session.conv1, session.gdn0, session.gdn1
  {
    forall seal {:trigger Seals.Opened(seal)} | Seals.Opened(seal) && seal == Seals.Reply ::
        Advanced(session, prompt, all, maximumTokens, draftCount)
  }

  lemma AheadBelongs(session: QwenDecodeSession, prompt: seq<nat>, all: seq<nat>, maximumTokens: nat, draftCount: nat,
                     expected: seq<nat>)
    requires prompt != [] && Ahead(session, prompt, all, maximumTokens, draftCount)
    requires expected == Expected(session.m, prompt, maximumTokens)
    ensures Belongs(all, expected, maximumTokens)
    ensures |all| <= maximumTokens || (maximumTokens == 0 && |all| == 1)
  {
    assert Seals.Opened(Seals.Reply);
    StreamBelongs(session.m, prompt, maximumTokens, all);
  }

  /** Consumes a round the session has just generated. */
  method ConsumeGenerated(e: Emitter, session: QwenDecodeSession, ghost prompt: seq<nat>, tokens: seq<nat>,
                          ghost all: seq<nat>, maximumTokens: nat, draftCount: nat)
    returns (r: Reply<()>)
    requires prompt != [] && tokens != [] && e.Valid() && e.clientConnected && !e.stopped && all == e.consumed + tokens
    requires Ahead(session, prompt, all, maximumTokens, draftCount)
    modifies e
    ensures !r.InvalidRequest?
    ensures r.Replied? ==>
              Serving(e, session, prompt, maximumTokens, draftCount) && e.completionTokens > old(e.completionTokens)
  {
    ghost var expected := Expected(session.m, prompt, maximumTokens);
    AheadBelongs(session, prompt, all, maximumTokens, draftCount, expected);
    var consumed := ConsumeRound(e, tokens, maximumTokens, all, expected);
    if consumed.Failed? { return TokenizerFailed(consumed.error); }
    ServingAhead(e, session, prompt, all, maximumTokens, draftCount, expected);
    r := Replied(());
  }

  lemma ServingAhead(e: Emitter, session: QwenDecodeSession, prompt: seq<nat>, all: seq<nat>, maximumTokens: nat,
                     draftCount: nat, expected: seq<nat>)
    requires prompt != [] && Ahead(session, prompt, all, maximumTokens, draftCount)
    requires expected == Expected(session.m, prompt, maximumTokens) && Replying(e, expected, maximumTokens)
    requires e.clientConnected && !e.stopped ==> e.consumed == all
    ensures Serving(e, session, prompt, maximumTokens, draftCount)
  {
    assert Seals.Opened(Seals.Reply);
  }

  /** One pass of the server's loop. */
  method ServeRound(e: Emitter, session: QwenDecodeSession, ghost prompt: seq<nat>, maximumTokens: nat, draftCount: nat)
    returns (r: Reply<()>)
    requires prompt != [] && Underway(e, session, prompt, maximumTokens, draftCount)
    requires e.clientConnected && !e.stopped && e.completionTokens < maximumTokens
    modifies e, session, session.hiddenA, session.hiddenB, session.targetHiddenSnapshot
    modifies session.conv0, session.conv1, session.gdn0, session.gdn1
    ensures !r.InvalidRequest?
    ensures r.Replied? ==>
              Serving(e, session, prompt, maximumTokens, draftCount) && e.completionTokens > old(e.completionTokens)
  {
    var round := NextRound(session, prompt, e.contentTokens, maximumTokens, draftCount);
    if !round.Ok? { return Refusal(round); }
    r := ConsumeGenerated(e, session, prompt, round.value, e.consumed + round.value, maximumTokens, draftCount);
  }

  /** The same, behind the seal. */
  method ServePass(e: Emitter, session: QwenDecodeSession, ghost prompt: seq<nat>, maximumTokens: nat, draftCount: nat)
    returns (r: Reply<()>)
    requires prompt != [] && Serving(e, session, prompt, maximumTokens, draftCount)
    requires e.clientConnected && !e.stopped && e.completionTokens < maximumTokens
    modifies e, session, session.hiddenA, session.hiddenB, session.targetHiddenSnapshot
    modifies session.conv0, session.conv1, session.gdn0, session.gdn1
    ensures !r.InvalidRequest?
    ensures r.Replied? ==>
              Serving(e, session, prompt, maximumTokens, draftCount) && e.completionTokens > old(e.completionTokens)
  {
    assert Seals.Opened(Seals.Reply);
    r := ServeRound(e, session, prompt, maximumTokens, draftCount);
  }

  /** Consumes the token that prefilling selected. */
  method ConsumeFirst(e: Emitter, session: QwenDecodeSession, ghost prompt: seq<nat>, first: nat, maximumTokens: nat,
                      draftCount: nat) returns (r: Reply<()>)
    requires prompt != [] && Ahead(session, prompt, [first], maximumTokens, draftCount)
    requires e.Valid() && e.consumed == [] && e.clientConnected && !e.stopped
    modifies e
    ensures !r.InvalidRequest?
    ensures r.Replied? ==> Serving(e, session, prompt, maximumTokens, draftCount)
  {
    AheadBelongs(session, prompt, [first], maximumTokens, draftCount, Expected(session.m, prompt, maximumTokens));
    assert [first][..1] == [first];
    var consumed := ConsumeOne(e, first, maximumTokens, [first], Expected(session.m, prompt, maximumTokens));
    if consumed.Failed? { return TokenizerFailed(consumed.error); }
    r := Replied(());
  }

  /** The loop stops with the whole reply, unless the client left. */
  lemma LoopStopped(e: Emitter, session: QwenDecodeSession, prompt: seq<nat>, maximumTokens: nat, draftCount: nat)
    requires prompt != [] && Serving(e, session, prompt, maximumTokens, draftCount)
    requires !e.clientConnected || e.stopped || e.completionTokens >= maximumTokens
    ensures e.Valid() && e.consumed <= Expected(session.m, prompt, maximumTokens)
    ensures e.clientConnected ==> e.consumed == Expected(session.m, prompt, maximumTokens)
  {
    assert Seals.Opened(Seals.Reply);
  }

  /** The loop, from the first token on. */
  method ServeLoop(e: Emitter, session: QwenDecodeSession, ghost prompt: seq<nat>, maximumTokens: nat, draftCount: nat)
    returns (r: Reply<()>)
    requires prompt != [] && Serving(e, session, prompt, maximumTokens, draftCount)
    modifies e, session, session.hiddenA, session.hiddenB, session.targetHiddenSnapshot
    modifies session.conv0, session.conv1, session.gdn0, session.gdn1
    ensures !r.InvalidRequest?
    ensures r.Replied? ==> e.Valid() && e.consumed <= Expected(session.m, prompt, maximumTokens)
    ensures r.Replied? && e.clientConnected ==> e.consumed == Expected(session.m, prompt, maximumTokens)
  {
    r := Replied(());
    while e.completionTokens < maximumTokens && e.clientConnected && !e.stopped
      invariant r.Replied? && Serving(e, session, prompt, maximumTokens, draftCount)
      decreases maximumTokens - e.completionTokens
    {
      r := ServePass(e, session, prompt, maximumTokens, draftCount);
      if !r.Replied? { return; }
    }
    LoopStopped(e, session, prompt, maximumTokens, draftCount);
  }

  /** The first token, then the loop. */
  method Serve(e: Emitter, session: QwenDecodeSession, ghost prompt: seq<nat>, first: nat, maximumTokens: nat,
               draftCount: nat) returns (r: Reply<()>)
    requires prompt != [] && Advanced(session, prompt, [first], maximumTokens, draftCount)
    requires e.Valid() && e.consumed == [] && e.clientConnected && !e.stopped
    modifies e, session, session.hiddenA, session.hiddenB, session.targetHiddenSnapshot
    modifies session.conv0, session.conv1, session.gdn0, session.gdn1
    ensures !r.InvalidRequest?
    ensures r.Replied? ==> e.Valid() && e.consumed <= Expected(session.m, prompt, maximumTokens)
    ensures r.Replied? && e.clientConnected ==> e.consumed == Expected(session.m, prompt, maximumTokens)
  {
    r := ConsumeFirst(e, session, prompt, first, maximumTokens, draftCount);
    if r.Replied? {
      r := ServeLoop(e, session, prompt, maximumTokens, draftCount);
    }
  }

  /** A session that has consumed the prompt, and the first token it generates. */
  method Start(m: Model, tiled: bool, prompt: seq<nat>, maximumTokens: nat, context: nat, draftCount: nat)
    returns (r: Reply<QwenDecodeSession>, first: nat)
    requires |m.layers| % 2 == 0 && m.tokenizerVocabulary <= m.vocabulary && prompt != []
             && |prompt| + maximumTokens <= context
    requires forall t | t in prompt :: t < m.tokenizerVocabulary
    ensures r.InvalidRequest? <==> context > MAXIMUM_CONTEXT || draftCount >= MAXIMUM_BLOCK
    ensures !r.TokenizerFailed?
    ensures r.Replied? ==>
              && fresh(r.value) && fresh(r.value.hiddenA) && fresh(r.value.hiddenB)
                 && fresh(r.value.targetHiddenSnapshot)
              && fresh(r.value.conv0) && fresh(r.value.conv1) && fresh(r.value.gdn0) && fresh(r.value.gdn1)
              && r.value.m == m && Advanced(r.value, prompt, [first], maximumTokens, draftCount)
  {
    first := 0;
    var created := QwenDecodeSession.Create(m, context, if draftCount == 0 then 0 else draftCount + 1, tiled);
    if !created.Ok? { return Refusal(created), first; }
    var session := created.value;
    assert forall i | 0 <= i < |prompt| :: prompt[i] in prompt;
    var token := Prefill(session, prompt, draftCount);
    if !token.Ok? { return Refusal(token), first; }
    first := token.value;
    assert prompt + [first][..0] == prompt == prompt[..|prompt|];
    r := Replied(session);
  }

  /** The tokens of the prompt are of the vocabulary. */
  method EncodePrompt(t: Tokenizer.Tables, rendered: Utf8.Text) returns (r: Tokenizer.Result<seq<nat>>)
    requires TokenizerRoundTrip.Consistent(t)
    ensures r == Tokenizer.EncodedFrom(t, rendered, 0)
    ensures r.Ok? ==> forall id | id in r.value :: id < |t.pieces|
  {
    r := Tokenizer.Encode(t, rendered);
    if r.Ok? {
      TokenizerRoundTrip.EncodedInVocabulary(t, rendered);
    }
  }

  /** Replies to a rendered prompt.  While the client stays, the tokens consumed are those of serial
      greedy decoding for every number of drafts; whatever happens, what was consumed is a
      beginning of them, and what was sent is as the emitter's invariant says. */
  method Generate(m: Model, tiled: bool, t: Tokenizer.Tables, rendered: Utf8.Text, streaming: bool, maximumTokens: nat,
                  context: nat, draftCount: nat)
    returns (r: Reply<Emitter>)
    requires |m.layers| % 2 == 0 && |t.pieces| <= m.tokenizerVocabulary <= m.vocabulary
    requires TokenizerRoundTrip.Consistent(t)
    ensures r.InvalidRequest? <==>
              var prompt := Tokenizer.EncodedFrom(t, rendered, 0);
              prompt.Ok? && (prompt.value == [] || |prompt.value| + maximumTokens > context || context > MAXIMUM_CONTEXT
                             || draftCount >= MAXIMUM_BLOCK)
    ensures r.Replied? ==>
              var prompt := Tokenizer.EncodedFrom(t, rendered, 0);
              && prompt.Ok? && prompt.value != [] && r.value.Valid() && r.value.t == t && r.value.streaming == streaming
              && r.value.consumed <= Expected(m, prompt.value, maximumTokens)
              && (r.value.clientConnected ==> r.value.consumed == Expected(m, prompt.value, maximumTokens))
  {
    var encoded := EncodePrompt(t, rendered);
    if encoded.Failed? { return TokenizerFailed(encoded.error); }
    var prompt := encoded.value;
    if prompt == [] || |prompt| + maximumTokens > context { return InvalidRequest; }
    var session, first := Start(m, tiled, prompt, maximumTokens, context, draftCount);
    if session.InvalidRequest? { return InvalidRequest; }
    if !session.Replied? { return DeviceFailed; }
    var e := new Emitter(t, streaming);
    var served := Serve(e, session.value, prompt, first, maximumTokens, draftCount);
    match served
    case Replied(_) => r := Replied(e);
    case TokenizerFailed(error) => r := TokenizerFailed(error);
    case InvalidRequest => r := InvalidRequest;
    case DeviceFailed => r := DeviceFailed;
  }
}
