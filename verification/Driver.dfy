/** The generate loop: prefill that keeps the proposer aligned, speculative rounds, and the cut at
    the first terminal token. */
module Driver {
  import opened Decoder
  import opened SessionState
  import opened DeviceMemory
  import opened GreedyStream
  import opened Session
  import opened TerminalTokens

  /** The stream up to and including its first terminal token. */
  function Cut(stream: seq<nat>): (r: seq<nat>) {
    if stream == [] then []
    else if Terminal(stream[0]) then [stream[0]]
    else [stream[0]] + Cut(stream[1..])
  }

  lemma {:induction false} CutAt(stream: seq<nat>, n: nat)
    requires 0 < n <= |stream| && forall i | 0 <= i < n - 1 :: !Terminal(stream[i])
    requires Terminal(stream[n - 1]) || n == |stream|
    ensures Cut(stream) == stream[..n]
  {
    if n > 1 {
      assert forall i | 0 <= i < n - 2 :: stream[1..][i] == stream[i + 1];
      CutAt(stream[1..], n - 1);
    }
  }

  /** Serial greedy decoding of the prompt: at least one token, at most the given number, cut at
      the first terminal token. */
  ghost function Expected(m: Model, prompt: seq<nat>, maximumTokens: nat): seq<nat>
    requires prompt != []
  {
    Cut(Stream(m, prompt, if maximumTokens == 0 then 1 else maximumTokens))
  }

  ghost function Stream(m: Model, prompt: seq<nat>, n: nat): (r: seq<nat>)
    requires prompt != []
    ensures |r| == n
  {
    Greedy(Target(m), prompt[..|prompt| - 1], prompt[|prompt| - 1], n)
  }

  /** Every proposer slot p was written for stream token p + 1, and one token separates the
      proposer from the target. */
  ghost predicate Aligned(slots: seq<ProposerSlot>, committed: seq<nat>) {
    |slots| + 1 == |committed| && forall p | 0 <= p < |slots| :: slots[p].token == committed[p + 1]
  }

  lemma AlignedGrows(slots: seq<ProposerSlot>, slots': seq<ProposerSlot>, committed: seq<nat>, tokens: seq<nat>)
    requires Aligned(slots, committed) && Extends(slots, slots', tokens)
    ensures Aligned(slots', committed + tokens)
  {
    forall p | 0 <= p < |slots'|
      ensures slots'[p].token == (committed + tokens)[p + 1]
    {
      if p < |slots| {
        assert slots'[p] == slots'[..|slots|][p];
      } else {
        assert slots'[|slots| + (p - |slots|)].token == tokens[p - |slots|];
      }
    }
  }

  /** The first i prompt tokens are consumed, and next follows them. */
  ghost predicate Prefilled(session: QwenDecodeSession, target: Predictor, prompt: seq<nat>, i: nat, next: nat,
                            draftCount: nat)
    requires 0 < i <= |prompt|
    reads session, session.hiddenA, session.hiddenB, session.targetHiddenSnapshot
    reads session.conv0, session.conv1, session.gdn0, session.gdn1
  {
    && session.Valid() && session.committed == prompt[..i]
    && [next] == Greedy(target, prompt[..i - 1], prompt[i - 1], 1)
    && (draftCount != 0 ==> Aligned(session.mtpSlots, session.committed))
  }

  /** The proposer drafts behind the next prompt token. */
  method SyncProposer(session: QwenDecodeSession, token: nat) returns (r: Outcome<nat>)
    requires session.Valid() && session.committed != [] && Aligned(session.mtpSlots, session.committed)
    requires token < session.m.tokenizerVocabulary
    modifies session, session.hiddenA, session.hiddenB, session.conv0, session.conv1, session.gdn0, session.gdn1
    ensures !r.InvalidArgument? && session.Valid() && session.committed == old(session.committed)
    ensures session.currentPosition == old(session.currentPosition)
    ensures r.Ok? ==> Aligned(session.mtpSlots, session.committed + [token])
  {
    r := session.MtpDraft(token);
    if r.Ok? {
      AlignedGrows(old(session.mtpSlots), session.mtpSlots, session.committed, [token]);
    }
  }

  /** Feeds prompt token i, after the proposer has drafted behind it. */
  method PrefillToken(session: QwenDecodeSession, prompt: seq<nat>, i: nat, ghost next: nat, draftCount: nat)
    returns (r: Outcome<nat>)
    requires 0 < i < |prompt| && Prefilled(session, Target(session.m), prompt, i, next, draftCount)
    requires i < session.capacity && prompt[i] < session.m.tokenizerVocabulary <= session.m.vocabulary
    modifies session, session.hiddenA, session.hiddenB, session.conv0, session.conv1, session.gdn0, session.gdn1
    ensures !r.InvalidArgument?
    ensures r.Ok? ==> Prefilled(session, Target(session.m), prompt, i + 1, r.value, draftCount)
  {
    assert prompt[..i] + [prompt[i]] == prompt[..i + 1];
    if draftCount != 0 {
      var sync := SyncProposer(session, prompt[i]);
      if !sync.Ok? { return sync.Passed(); }
    }
    r := session.GreedyStep(prompt[i]);
  }

  /** Feeds the prompt; the result is the first generated token. */
  method Prefill(session: QwenDecodeSession, prompt: seq<nat>, draftCount: nat) returns (r: Outcome<nat>)
    requires session.Valid() && session.committed == [] && session.mtpSlots == []
    requires prompt != [] && |prompt| <= session.capacity && session.m.tokenizerVocabulary <= session.m.vocabulary
    requires forall i | 0 <= i < |prompt| :: prompt[i] < session.m.tokenizerVocabulary
    modifies session, session.hiddenA, session.hiddenB, session.conv0, session.conv1, session.gdn0, session.gdn1
    ensures !r.InvalidArgument?
    ensures r.Ok? ==> Prefilled(session, Target(session.m), prompt, |prompt|, r.value, draftCount)
  {
    r := session.GreedyStep(prompt[0]);
    if !r.Ok? { return; }
    assert prompt[..1] == [prompt[0]];
    for i := 1 to |prompt|
      invariant r.Ok? && Prefilled(session, Target(session.m), prompt, i, r.value, draftCount)
    {
      r := PrefillToken(session, prompt, i, r.value, draftCount);
      if !r.Ok? { return; }
    }
  }

  /** Where the generate loop stands: it has emitted a stream without an inner terminal token, and
      the session has consumed all but the last of it. */
  ghost predicate Generating(session: QwenDecodeSession, next: Predictor, prompt: seq<nat>, generated: seq<nat>)
    requires prompt != []
    reads session, session.hiddenA, session.hiddenB, session.targetHiddenSnapshot
    reads session.conv0, session.conv1, session.gdn0, session.gdn1
  {
    && session.Valid() && generated != []
    && generated == Greedy(next, prompt[..|prompt| - 1], prompt[|prompt| - 1], |generated|)
    && session.committed == prompt + generated[..|generated| - 1]
  }

  /** One more greedy token. */
  method GreedyRound(session: QwenDecodeSession, ghost prompt: seq<nat>, generated: seq<nat>)
    returns (r: Outcome<seq<nat>>)
    requires prompt != [] && Generating(session, Target(session.m), prompt, generated)
    requires session.currentPosition < session.capacity && generated[|generated| - 1] < session.m.vocabulary
    modifies session, session.hiddenA, session.hiddenB, session.conv0, session.conv1, session.gdn0, session.gdn1
    ensures !r.InvalidArgument?
    ensures r.Ok? ==> |r.value| == 1 && Generating(session, Target(session.m), prompt, generated + r.value)
  {
    var target := session.GreedyStep(generated[|generated| - 1]);
    if !target.Ok? { return target.Passed(); }
    StreamGrows(Target(session.m), prompt, generated, |generated|, [target.value], 1);
    assert prompt + generated[..|generated| - 1] + [generated[|generated| - 1]] == prompt + generated;
    assert (generated + [target.value])[..|generated|] == generated;
    r := Ok([target.value]);
  }

  /** One speculative round, which emits at least one token and at most one more than it drafts. */
  method SpeculativeRound(session: QwenDecodeSession, ghost prompt: seq<nat>, generated: seq<nat>, depth: nat)
    returns (r: Outcome<seq<nat>>)
    requires prompt != [] && Generating(session, Target(session.m), prompt, generated)
    requires Aligned(session.mtpSlots, session.committed) && generated[|generated| - 1] < session.m.tokenizerVocabulary
    requires 0 < depth < MAXIMUM_BLOCK && depth + 1 <= session.capacity - session.currentPosition
    modifies session, session.hiddenA, session.hiddenB, session.targetHiddenSnapshot
    modifies session.conv0, session.conv1, session.gdn0, session.gdn1
    ensures !r.InvalidArgument?
    ensures r.Ok? ==>
              && 0 < |r.value| <= depth + 1
              && Generating(session, Target(session.m), prompt, generated + r.value)
              && Aligned(session.mtpSlots, session.committed)
  {
    var seed := generated[|generated| - 1];
    var round := session.SpeculativeStep(seed, depth);
    if !round.Ok? { return round.Passed(); }
    RoundGrows(Target(session.m), prompt, generated, old(session.RoundDrafts(seed, depth)), round.value,
               old(session.committed), session.committed, old(session.mtpSlots), session.mtpSlots);
    r := Ok(round.value.tokens);
  }

  /** What a committed round means for the loop. */
  lemma {:induction false} RoundGrows(next: Predictor, prompt: seq<nat>, generated: seq<nat>, drafts: seq<nat>,
                                      r: SpeculativeStepResult, committed: seq<nat>, committed': seq<nat>,
                                      slots: seq<ProposerSlot>, slots': seq<ProposerSlot>)
    requires prompt != [] && generated != [] && committed == prompt + generated[..|generated| - 1]
    requires generated == Greedy(next, prompt[..|prompt| - 1], prompt[|prompt| - 1], |generated|)
    requires RoundCommitted(next, committed, committed', generated[|generated| - 1], drafts, r)
    requires Aligned(slots, committed)
    requires Extends(slots, slots', [generated[|generated| - 1]] + r.tokens[..r.acceptedDrafts])
    ensures var all := generated + r.tokens;
            && all == Greedy(next, prompt[..|prompt| - 1], prompt[|prompt| - 1], |all|)
            && committed' == prompt + all[..|all| - 1]
    ensures Aligned(slots', committed')
  {
    var g, n := |generated|, |r.tokens|;
    StreamGrows(next, prompt, generated, g, r.tokens, n);
    AlignedGrows(slots, slots', committed, [generated[g - 1]] + r.tokens[..n - 1]);
    RoundConsumed(prompt, generated, r.tokens);
  }

  lemma RoundConsumed(prompt: seq<nat>, generated: seq<nat>, tokens: seq<nat>)
    requires generated != [] && tokens != []
    ensures prompt + generated[..|generated| - 1] + ([generated[|generated| - 1]] + tokens[..|tokens| - 1])
         == prompt + (generated + tokens)[..|generated + tokens| - 1]
    ensures prompt + generated[..|generated| - 1] + [generated[|generated| - 1]] + tokens[..|tokens| - 1]
         == prompt + (generated + tokens)[..|generated + tokens| - 1]
  {
  }

  /** Appends a round's tokens up to its first terminal token; j of them are taken. */
  method TakeTokens(generated: seq<nat>, tokens: seq<nat>, maximumTokens: nat)
    returns (r: seq<nat>, j: nat, terminal: bool)
    requires tokens != [] && |generated| + |tokens| <= maximumTokens
    ensures 0 < j <= |tokens| && r == generated + tokens[..j]
    ensures forall i | 0 <= i < j - 1 :: !Terminal(tokens[i])
    ensures if terminal then Terminal(tokens[j - 1]) else j == |tokens| && !Terminal(tokens[j - 1])
  {
    r, j, terminal := generated, 0, false;
    for i := 0 to |tokens|
      invariant r == generated + tokens[..i] && !terminal && j == i
      invariant forall k | 0 <= k < i :: !Terminal(tokens[k])
    {
      if |r| == maximumTokens { break; }
      r, j := r + [tokens[i]], i + 1;
      assert tokens[..i] + [tokens[i]] == tokens[..i + 1];
      if Terminal(tokens[i]) {
        terminal := true;
        break;
      }
    }
  }

  /** A stopped loop holds the expected output: it emitted a prefix of the stream that has no
      inner terminal token, and either is complete or ends in one. */
  lemma StoppedIsExpected(m: Model, prompt: seq<nat>, maximumTokens: nat, all: seq<nat>, n: nat)
    requires prompt != [] && all == Stream(m, prompt, |all|)
    requires 0 < n <= |all| && (|all| <= maximumTokens || (maximumTokens == 0 && |all| == 1))
    requires forall i | 0 <= i < n - 1 :: !Terminal(all[i])
    requires Terminal(all[n - 1]) || n == maximumTokens || maximumTokens == 0
    ensures all[..n] == Expected(m, prompt, maximumTokens)
  {
    var total := if maximumTokens == 0 then 1 else maximumTokens;
    var stream := Stream(m, prompt, total);
    GreedyPrefix(Target(m), prompt[..|prompt| - 1], prompt[|prompt| - 1], |all|, total);
    assert stream[..|all|] == all;
    assert forall i | 0 <= i < n :: stream[i] == all[i];
    CutAt(stream, n);
    assert stream[..n] == all[..n];
  }

  /** The last emitted token is one the target head selects from, so every guard accepts it. */
  lemma LastInVocabulary(session: QwenDecodeSession, prompt: seq<nat>, generated: seq<nat>)
    requires prompt != [] && Generating(session, Target(session.m), prompt, generated)
    ensures generated[|generated| - 1] < session.m.tokenizerVocabulary
    ensures session.currentPosition == |prompt| + |generated| - 1
  {
    GreedyInVocabulary(session.m, prompt[..|prompt| - 1], prompt[|prompt| - 1], |generated|);
  }

  /** The loop invariant: no terminal token but perhaps the last, no overshoot, and the proposer
      aligned as long as another round may draft. */
  ghost predicate Looping(session: QwenDecodeSession, prompt: seq<nat>, generated: seq<nat>, maximumTokens: nat,
                          draftCount: nat)
    requires prompt != []
    reads session, session.hiddenA, session.hiddenB, session.targetHiddenSnapshot
    reads session.conv0, session.conv1, session.gdn0, session.gdn1
  {
    && Generating(session, Target(session.m), prompt, generated)
    && (|generated| <= maximumTokens || (maximumTokens == 0 && |generated| == 1))
    && (forall i | 0 <= i < |generated| - 1 :: !Terminal(generated[i]))
    && (draftCount != 0 && |generated| < maximumTokens ==> Aligned(session.mtpSlots, session.committed))
    && draftCount < MAXIMUM_BLOCK && |prompt| + maximumTokens <= session.capacity
    && session.m.tokenizerVocabulary <= session.m.vocabulary
  }

  /** A round's tokens join the output: all of them, or up to a terminal one that completes it. */
  method JoinTokens(ghost m: Model, ghost prompt: seq<nat>, generated: seq<nat>, tokens: seq<nat>, maximumTokens: nat)
    returns (r: seq<nat>, terminal: bool)
    requires prompt != [] && generated != [] && tokens != [] && |generated| + |tokens| <= maximumTokens
    requires forall i | 0 <= i < |generated| :: !Terminal(generated[i])
    requires generated + tokens == Stream(m, prompt, |generated + tokens|)
    ensures if terminal then r == Expected(m, prompt, maximumTokens)
            else r == generated + tokens && forall i | 0 <= i < |r| :: !Terminal(r[i])
  {
    ghost var j;
    r, j, terminal := TakeTokens(generated, tokens, maximumTokens);
    ghost var all := generated + tokens;
    assert r == all[..|generated| + j];
    if terminal {
      StoppedIsExpected(m, prompt, maximumTokens, all, |generated| + j);
    }
  }

  /** One pass of the loop with a speculative round. */
  method SpeculativePass(session: QwenDecodeSession, ghost prompt: seq<nat>, generated: seq<nat>, maximumTokens: nat,
                         draftCount: nat)
    returns (r: Outcome<seq<nat>>, terminal: bool)
    requires prompt != [] && Looping(session, prompt, generated, maximumTokens, draftCount)
    requires |generated| + 1 < maximumTokens && !Terminal(generated[|generated| - 1]) && draftCount != 0
    modifies session, session.hiddenA, session.hiddenB, session.targetHiddenSnapshot
    modifies session.conv0, session.conv1, session.gdn0, session.gdn1
    ensures !r.InvalidArgument?
    ensures r.Ok? && !terminal ==>
              |r.value| > |generated| && Looping(session, prompt, r.value, maximumTokens, draftCount)
    ensures r.Ok? && terminal ==> r.value == Expected(session.m, prompt, maximumTokens)
  {
    LastInVocabulary(session, prompt, generated);
    var left := maximumTokens - |generated|;
    r := SpeculativeRound(session, prompt, generated, if draftCount < left - 1 then draftCount else left - 1);
    terminal := false;
    if !r.Ok? { return; }
    var joined;
    joined, terminal := JoinTokens(session.m, prompt, generated, r.value, maximumTokens);
    r := Ok(joined);
  }

  /** One pass of the loop: a greedy step when nothing is drafted or one token is left, a
      speculative round otherwise. */
  method LoopPass(session: QwenDecodeSession, ghost prompt: seq<nat>, generated: seq<nat>, maximumTokens: nat,
                  draftCount: nat)
    returns (r: Outcome<seq<nat>>, terminal: bool)
    requires prompt != [] && Looping(session, prompt, generated, maximumTokens, draftCount)
    requires |generated| < maximumTokens && !Terminal(generated[|generated| - 1])
    modifies session, session.hiddenA, session.hiddenB, session.targetHiddenSnapshot
    modifies session.conv0, session.conv1, session.gdn0, session.gdn1
    ensures !r.InvalidArgument?
    ensures r.Ok? && !terminal ==>
              |r.value| > |generated| && Looping(session, prompt, r.value, maximumTokens, draftCount)
    ensures r.Ok? && terminal ==> r.value == Expected(session.m, prompt, maximumTokens)
  {
    if draftCount == 0 || maximumTokens - |generated| == 1 {
      LastInVocabulary(session, prompt, generated);
      r := GreedyRound(session, prompt, generated);
      terminal := false;
      if r.Ok? {
        r := Ok(generated + r.value);
      }
    } else {
      r, terminal := SpeculativePass(session, prompt, generated, maximumTokens, draftCount);
    }
  }

  /** The decode loop. */
  method DecodeLoop(session: QwenDecodeSession, ghost prompt: seq<nat>, first: nat, maximumTokens: nat, draftCount: nat)
    returns (r: Outcome<seq<nat>>)
    requires prompt != [] && Looping(session, prompt, [first], maximumTokens, draftCount)
    modifies session, session.hiddenA, session.hiddenB, session.targetHiddenSnapshot
    modifies session.conv0, session.conv1, session.gdn0, session.gdn1
    ensures !r.InvalidArgument?
    ensures r.Ok? ==> r.value == Expected(session.m, prompt, maximumTokens)
  {
    r := Ok([first]);
    while |r.value| < maximumTokens && !Terminal(r.value[|r.value| - 1])
      invariant r.Ok? && Looping(session, prompt, r.value, maximumTokens, draftCount)
      decreases maximumTokens - |r.value|
    {
      var terminal;
      r, terminal := LoopPass(session, prompt, r.value, maximumTokens, draftCount);
      if !r.Ok? || terminal { return; }
    }
    assert r.value[..|r.value|] == r.value;
    StoppedIsExpected(session.m, prompt, maximumTokens, r.value, |r.value|);
  }

  /** Generates from a prompt of tokenizer IDs.  The output is that of serial greedy decoding for
      every number of drafts, and the only refusals are those of the arguments themselves. */
  method Generate(m: Model, tiled: bool, prompt: seq<nat>, maximumTokens: nat, context: nat, draftCount: nat)
    returns (r: Outcome<seq<nat>>)
    requires |m.layers| % 2 == 0 && m.tokenizerVocabulary <= m.vocabulary
    requires forall t | t in prompt :: t < m.tokenizerVocabulary
    ensures r.InvalidArgument? <==>
              prompt == [] || |prompt| + maximumTokens > context || context > MAXIMUM_CONTEXT
                || draftCount >= MAXIMUM_BLOCK
    ensures r.Ok? ==> prompt != [] && r.value == Expected(m, prompt, maximumTokens)
  {
    if prompt == [] || |prompt| + maximumTokens > context { return InvalidArgument; }
    var created := QwenDecodeSession.Create(m, context, if draftCount == 0 then 0 else draftCount + 1, tiled);
    if !created.Ok? { return created.Passed(); }
    var session := created.value;
    assert forall i | 0 <= i < |prompt| :: prompt[i] in prompt;
    var first := Prefill(session, prompt, draftCount);
    if !first.Ok? { return first.Passed(); }
    assert prompt + [first.value][..0] == prompt == prompt[..|prompt|];
    r := DecodeLoop(session, prompt, first.value, maximumTokens, draftCount);
  }
}
