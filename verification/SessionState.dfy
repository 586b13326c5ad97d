/** How the device buffers of a session represent the states of the decoder layers, and what a
    verified block says about the greedy stream. */
module SessionState {
  import opened Scalars
  import opened GdnModel
  import opened Decoder
  import opened GreedyStream
  import CausalStack

  type ConvCells = seq<seq<seq<Half>>>    // one state region per recurrent layer
  type GdnCells = seq<seq<seq<Float>>>
  type LogCells = seq<seq<LogRow>>        // one log region of 32 rows per recurrent layer
  type CacheCells = seq<seq<Entry>>       // one region of capacity slots per attention layer

  /** Layers of one kind own distinct regions. */
  ghost predicate Indexed(m: Model, index: seq<nat>) {
    && |index| == |m.layers|
    && forall k, l | 0 <= k < l < |index| && m.layers[k].Attention? == m.layers[l].Attention? :: index[k] != index[l]
  }

  /** The regions of layer l hold st; of a cache, only the slots below pos matter. */
  ghost predicate Holds(m: Model, index: seq<nat>, capacity: nat, l: nat, st: LayerState, pos: nat,
                        conv: ConvCells, gdn: GdnCells, caches: CacheCells)
    requires |index| == |m.layers| && l < |index|
  {
    && Fits(m.layers[l], st, pos)
    && match m.layers[l]
       case Attention(_, _) =>
         && index[l] < |caches| && |caches[index[l]]| == capacity && pos <= capacity
         && caches[index[l]][..pos] == st.entries
       case Recurrent(_, _, _) =>
         && index[l] < |conv| && index[l] < |gdn|
         && State(conv[index[l]], gdn[index[l]]) == st.state
  }

  ghost predicate Synced(m: Model, index: seq<nat>, capacity: nat, sts: seq<LayerState>, pos: nat,
                         conv: ConvCells, gdn: GdnCells, caches: CacheCells)
  {
    && Indexed(m, index) && |sts| == |m.layers|
    && forall l | 0 <= l < |m.layers| :: Holds(m, index, capacity, l, sts[l], pos, conv, gdn, caches)
  }

  ghost function Final(m: Model, sts: seq<LayerState>, pos: nat, xs: seq<Row>, l: nat): LayerState
    requires |sts| == |m.layers| && l < |sts|
  {
    CausalStack.BlockState(Stack(m), sts, pos, xs, l, |xs|)
  }

  ghost function RowsInto(m: Model, sts: seq<LayerState>, pos: nat, xs: seq<Row>, l: nat): (r: seq<Row>)
    requires |sts| == |m.layers| && l <= |sts|
    ensures |r| == |xs|
  {
    CausalStack.BlockRows(Stack(m), sts, pos, xs, l)
  }

  /** The first i layers processed the block into their final regions; the layers from i on
      still hold the states the block starts from. */
  ghost predicate Progress(m: Model, index: seq<nat>, capacity: nat, sts: seq<LayerState>, pos: nat, xs: seq<Row>,
                           i: nat, conv: ConvCells, gdn: GdnCells, finalConv: ConvCells, finalGdn: GdnCells,
                           caches: CacheCells)
  {
    && Indexed(m, index) && |sts| == |m.layers|
    && (forall l | 0 <= l < i && l < |m.layers| ::
          Holds(m, index, capacity, l, Final(m, sts, pos, xs, l), pos + |xs|, finalConv, finalGdn, caches))
    && (forall l | i <= l < |m.layers| :: Holds(m, index, capacity, l, sts[l], pos, conv, gdn, caches))
  }

  ghost predicate Logged(m: Model, index: seq<nat>, sts: seq<LayerState>, pos: nat, xs: seq<Row>, i: nat, log: LogCells)
    requires |index| == |m.layers| == |sts|
  {
    forall l | 0 <= l < i && l < |m.layers| :: LoggedAt(m, index, sts, pos, xs, l, log)
  }

  ghost predicate LoggedAt(m: Model, index: seq<nat>, sts: seq<LayerState>, pos: nat, xs: seq<Row>, l: nat,
                           log: LogCells)
    requires |index| == |m.layers| == |sts| && l < |m.layers|
  {
    m.layers[l].Recurrent? ==>
      && sts[l].Gdn? && Shaped(sts[l].state)
      && index[l] < |log| && |xs| <= |log[index[l]]|
      && log[index[l]][..|xs|]
           == Logs(m.arith, m.layers[l].weights, sts[l].state, Projections(m.layers[l], RowsInto(m, sts, pos, xs, l)))
  }

  /** Only the region of layer i may differ. */
  ghost predicate OnlyAt<T>(a: seq<T>, b: seq<T>, i: nat) {
    |a| == |b| && forall j | 0 <= j < |a| && j != i :: a[j] == b[j]
  }

  lemma ProgressStep(m: Model, index: seq<nat>, capacity: nat, sts: seq<LayerState>, pos: nat, xs: seq<Row>, i: nat,
                     conv: ConvCells, gdn: GdnCells, finalConv: ConvCells, finalGdn: GdnCells, caches: CacheCells,
                     conv': ConvCells, gdn': GdnCells, finalConv': ConvCells, finalGdn': GdnCells, caches': CacheCells)
    requires i < |m.layers|
    requires Progress(m, index, capacity, sts, pos, xs, i, conv, gdn, finalConv, finalGdn, caches)
    requires if m.layers[i].Attention?
             then conv' == conv && gdn' == gdn && finalConv' == finalConv && finalGdn' == finalGdn
               && OnlyAt(caches, caches', index[i])
             else caches' == caches && OnlyAt(conv, conv', index[i]) && OnlyAt(gdn, gdn', index[i])
                  && OnlyAt(finalConv, finalConv', index[i]) && OnlyAt(finalGdn, finalGdn', index[i])
    requires Holds(m, index, capacity, i, Final(m, sts, pos, xs, i), pos + |xs|, finalConv', finalGdn', caches')
    ensures Progress(m, index, capacity, sts, pos, xs, i + 1, conv', gdn', finalConv', finalGdn', caches')
  {
    forall l | 0 <= l < i + 1
      ensures Holds(m, index, capacity, l, Final(m, sts, pos, xs, l), pos + |xs|, finalConv', finalGdn', caches')
    {
    }
    forall l | i + 1 <= l < |m.layers|
      ensures Holds(m, index, capacity, l, sts[l], pos, conv', gdn', caches')
    {
      assert Holds(m, index, capacity, l, sts[l], pos, conv, gdn, caches);
    }
  }

  lemma LoggedStep(m: Model, index: seq<nat>, sts: seq<LayerState>, pos: nat, xs: seq<Row>, i: nat, log: LogCells,
                   log': LogCells)
    requires Indexed(m, index) && |sts| == |m.layers| && i < |m.layers|
    requires Logged(m, index, sts, pos, xs, i, log)
    requires if m.layers[i].Attention? then log' == log else OnlyAt(log, log', index[i])
    requires LoggedAt(m, index, sts, pos, xs, i, log')
    ensures Logged(m, index, sts, pos, xs, i + 1, log')
  {
    forall l | 0 <= l < i
      ensures LoggedAt(m, index, sts, pos, xs, l, log')
    {
      assert LoggedAt(m, index, sts, pos, xs, l, log);
    }
  }

  lemma LogStaysReady(m: Model, index: seq<nat>, i: nat, log: LogCells, log': LogCells)
    requires Indexed(m, index) && i < |m.layers| && m.layers[i].Recurrent?
    requires LogReady(m, index, log) && OnlyAt(log, log', index[i]) && |log'[index[i]]| == 32
    ensures LogReady(m, index, log')
  {
  }

  lemma CachesKeptAt(before: CacheCells, after: CacheCells, pos: nat, capacity: nat, r: nat)
    requires OnlyAt(before, after, r) && pos <= capacity && r < |before|
    requires forall q | 0 <= q < |before| :: |before[q]| == capacity
    requires |after[r]| == capacity && after[r][..pos] == before[r][..pos]
    ensures CachesKept(before, after, pos, capacity)
  {
  }

  lemma CachesKeptOn(before: CacheCells, between: CacheCells, after: CacheCells, pos: nat, capacity: nat)
    requires CachesKept(before, between, pos, capacity) && CachesKept(between, after, pos, capacity)
    ensures CachesKept(before, after, pos, capacity)
  {
    assert |before| == |after| == |between|;
    forall r | 0 <= r < |after|
      ensures KeptAt(before, after, pos, capacity, r)
    {
      assert KeptAt(before, between, pos, capacity, r) && KeptAt(between, after, pos, capacity, r);
    }
  }

  /** What layer i does to the rows that enter it is the next step of the block. */
  lemma {:induction false} LayerStep(m: Model, sts: seq<LayerState>, pos: nat, xs: seq<Row>, i: nat)
    requires |sts| == |m.layers| && i < |m.layers|
    ensures CausalStack.LayerAfter(Causal(m.arith, m.layers[i]), sts[i], pos, RowsInto(m, sts, pos, xs, i))
            == Final(m, sts, pos, xs, i)
    ensures CausalStack.LayerRows(Causal(m.arith, m.layers[i]), sts[i], pos, RowsInto(m, sts, pos, xs, i))
            == RowsInto(m, sts, pos, xs, i + 1)
  {
    var rows := RowsInto(m, sts, pos, xs, i);
    assert rows[..|xs|] == rows;
  }

  /** The slots below pos and the region sizes are as they were. */
  ghost predicate CachesKept(before: CacheCells, after: CacheCells, pos: nat, capacity: nat) {
    |before| == |after| && forall r | 0 <= r < |after| :: KeptAt(before, after, pos, capacity, r)
  }

  ghost predicate KeptAt(before: CacheCells, after: CacheCells, pos: nat, capacity: nat, r: nat)
    requires r < |before| == |after|
  {
    |before[r]| == capacity && |after[r]| == capacity && pos <= capacity && after[r][..pos] == before[r][..pos]
  }

  /** Every recurrent layer has a log region of 32 rows. */
  ghost predicate LogReady(m: Model, index: seq<nat>, log: LogCells)
    requires |index| == |m.layers|
  {
    forall l | 0 <= l < |m.layers| && m.layers[l].Recurrent? :: index[l] < |log| && |log[index[l]]| == 32
  }

  // ---- the proposer cache

  /** The token a proposer slot was written for, and the hidden row it was conditioned on. */
  datatype ProposerSlot = ProposerSlot(token: nat, condition: Row)

  ghost predicate WrittenFor(m: Model, cache: seq<Entry>, p: nat, slot: ProposerSlot) {
    p < |cache| && cache[p] == m.proposer.entry(m.embed(slot.token), slot.condition, p)
  }

  /** The first slots of the cache were written for the recorded tokens. */
  ghost predicate SlotsHold(m: Model, cache: seq<Entry>, slots: seq<ProposerSlot>) {
    |slots| <= |cache| && forall p | 0 <= p < |slots| :: WrittenFor(m, cache, p, slots[p])
  }

  /** More slots were written, for the given tokens. */
  ghost predicate Extends(before: seq<ProposerSlot>, after: seq<ProposerSlot>, tokens: seq<nat>) {
    && |after| == |before| + |tokens| && after[..|before|] == before
    && forall i | 0 <= i < |tokens| :: after[|before| + i].token == tokens[i]
  }

  /** The slots from base on were written for the given tokens. */
  ghost predicate SlotsWritten(m: Model, cache: seq<Entry>, base: nat, slots: seq<ProposerSlot>, tokens: seq<nat>) {
    && |slots| == |tokens|
    && forall i | 0 <= i < |slots| :: slots[i].token == tokens[i] && WrittenFor(m, cache, base + i, slots[i])
  }

  /** Where a proposal chain stands after i proposals from slot base on: the drafts are in the tokens from
      32 on, and the slots were written for the seed and the drafts. */
  ghost predicate ChainAt(m: Model, all: seq<nat>, seed: nat, row: Row, base: nat, i: nat, tokens: seq<nat>,
                          cache: seq<Entry>, hidden: Row, slots: seq<ProposerSlot>) {
    && i <= |all| < 32 && |tokens| == 64 && base + |all| <= |cache| && |slots| == i
    && Drafting(m, all, tokens[32..32 + i], cache[..base + i], ChainToken(seed, i, tokens), ChainRow(row, i, hidden))
    && forall j | 0 <= j < i ::
         slots[j].token == ChainToken(seed, j, tokens) && WrittenFor(m, cache, base + j, slots[j])
  }

  function ChainToken(seed: nat, i: nat, tokens: seq<nat>): nat
    requires i < 32 && |tokens| == 64
  {
    if i == 0 then seed else tokens[32 + i - 1]
  }

  function ChainRow(row: Row, i: nat, hidden: Row): Row {
    if i == 0 then row else hidden
  }

  /** One more proposal. */
  lemma ChainNext(m: Model, all: seq<nat>, seed: nat, row: Row, base: nat, i: nat, tokens: seq<nat>,
                  tokens': seq<nat>, cache: seq<Entry>, cache': seq<Entry>, hidden: Row, hidden': Row,
                  slots: seq<ProposerSlot>)
    requires ChainAt(m, all, seed, row, base, i, tokens, cache, hidden, slots) && i < |all|
    requires OnlyAt(tokens, tokens', 32 + i) && OnlyAt(cache, cache', base + i)
    requires var token, condition := ChainToken(seed, i, tokens), ChainRow(row, i, hidden);
             && WrittenFor(m, cache', base + i, ProposerSlot(token, condition))
             && hidden' == DraftRow(m, cache[..base + i], token, condition)
             && tokens'[32 + i] == Draft(m, cache[..base + i], token, condition)
    ensures ChainAt(m, all, seed, row, base, i + 1, tokens', cache', hidden',
                    slots + [ProposerSlot(ChainToken(seed, i, tokens), ChainRow(row, i, hidden))])
  {
    var token, condition := ChainToken(seed, i, tokens), ChainRow(row, i, hidden);
    var done, entries, slots' := tokens[32..32 + i], cache[..base + i], slots + [ProposerSlot(token, condition)];
    DraftingNext(m, all, done, entries, token, condition);
    assert tokens'[32..32 + (i + 1)] == done + [Draft(m, entries, token, condition)];
    assert cache'[..base + (i + 1)] == WithEntry(m, entries, token, condition);
    forall j | 0 <= j < i + 1
      ensures slots'[j].token == ChainToken(seed, j, tokens') && WrittenFor(m, cache', base + j, slots'[j])
    {
      if j < i {
        assert WrittenFor(m, cache, base + j, slots[j]) && cache'[base + j] == cache[base + j];
      }
    }
  }

  lemma {:induction false} ChainEnds(m: Model, all: seq<nat>, seed: nat, row: Row, base: nat, tokens: seq<nat>,
                                     cache: seq<Entry>, hidden: Row, slots: seq<ProposerSlot>)
    requires ChainAt(m, all, seed, row, base, |all|, tokens, cache, hidden, slots)
    ensures tokens[32..32 + |all|] == all
    ensures forall j | 0 <= j < |all| ::
              slots[j].token == ([seed] + tokens[32..])[j] && WrittenFor(m, cache, base + j, slots[j])
  {
    assert tokens[32..32 + |all|] + [] == tokens[32..32 + |all|];
  }

  /** The last slot is conditioned on the row behind the given tokens. */
  ghost predicate CaughtUp(m: Model, slots: seq<ProposerSlot>, tokens: seq<nat>) {
    tokens != [] && slots != [] && slots[|slots| - 1].condition == LastRow(m, tokens)
  }

  lemma ExtendsOn(a: seq<ProposerSlot>, b: seq<ProposerSlot>, c: seq<ProposerSlot>, block: seq<nat>)
    requires block != [] && Extends(a, b, block[..|block| - 1]) && Extends(b, c, [block[|block| - 1]])
    ensures Extends(a, c, block)
  {
    assert c[..|a|] == c[..|b|][..|a|];
    forall i | 0 <= i < |block|
      ensures c[|a| + i].token == block[i]
    {
      if i < |block| - 1 {
        assert c[|a| + i] == c[..|b|][|a| + i];
      } else {
        var last := [block[|block| - 1]];
        assert c[|b| + 0].token == last[0];
      }
    }
  }

  lemma SlotsExtend(m: Model, cache: seq<Entry>, cache': seq<Entry>, slots: seq<ProposerSlot>, more: seq<ProposerSlot>)
    requires SlotsHold(m, cache, slots) && |cache'| == |cache|
    requires cache'[..|slots|] == cache[..|slots|] && |slots| + |more| <= |cache|
    requires forall i | 0 <= i < |more| :: WrittenFor(m, cache', |slots| + i, more[i])
    ensures SlotsHold(m, cache', slots + more)
  {
    forall p | 0 <= p < |slots + more|
      ensures WrittenFor(m, cache', p, (slots + more)[p])
    {
      if p < |slots| {
        assert WrittenFor(m, cache, p, slots[p]);
        assert cache'[p] == cache'[..|slots|][p];
      } else {
        assert WrittenFor(m, cache', |slots| + (p - |slots|), more[p - |slots|]);
      }
    }
  }

  // ---- the committed stream

  lemma {:induction false} SerialFits(m: Model, sts: seq<LayerState>, pos: nat, xs: seq<Row>)
    requires StackFits(m, sts, pos)
    ensures StackFits(m, CausalStack.Serial(Stack(m), sts, pos, xs), pos + |xs|)
  {
    if xs != [] {
      var n := |xs| - 1;
      SerialFits(m, sts, pos, xs[..n]);
      var before := CausalStack.Serial(Stack(m), sts, pos, xs[..n]);
      var after := CausalStack.StackNext(Stack(m), before, pos + n, xs[n]);
      forall l | 0 <= l < |m.layers|
        ensures Fits(m.layers[l], after[l], pos + |xs|)
      {
        assert Fits(m.layers[l], before[l], pos + n);
        assert after[l] == Next(m.arith, m.layers[l], before[l], pos + n,
                                CausalStack.StackRow(Stack(m), before, pos + n, xs[n], l));
      }
    }
  }

  lemma AfterFits(m: Model, tokens: seq<nat>)
    ensures StackFits(m, After(m, tokens), |tokens|)
  {
    InitialFits(m);
    SerialFits(m, Initial(m), 0, Embedded(m, tokens));
  }

  lemma EmbeddedAppend(m: Model, a: seq<nat>, b: seq<nat>)
    ensures Embedded(m, a) + Embedded(m, b) == Embedded(m, a + b)
  {
  }

  /** Feeding a block after a context is feeding the concatenation. */
  lemma {:induction false} AfterAppend(m: Model, context: seq<nat>, block: seq<nat>, ys: seq<Row>)
    requires ys == Embedded(m, block)
    ensures CausalStack.Serial(Stack(m), After(m, context), |context|, ys) == After(m, context + block)
  {
    EmbeddedAppend(m, context, block);
    CausalStack.SerialAppend(Stack(m), Initial(m), 0, Embedded(m, context), ys, After(m, context),
                             Embedded(m, context + block));
  }

  /** Lane t of the block verifier computes the final row serial decoding has after the
      context and the block's first t + 1 tokens. */
  lemma LaneRow(m: Model, context: seq<nat>, block: seq<nat>, t: nat)
    requires t < |block|
    ensures RowsInto(m, After(m, context), |context|, Embedded(m, block), |m.layers|)[t]
         == LastRow(m, context + block[..t + 1])
  {
    var xs := Embedded(m, block);
    CausalStack.BlockRefinesSerial(Stack(m), After(m, context), |context|, xs);
    assert xs[..t] == Embedded(m, block[..t]);
    AfterAppend(m, context, block[..t], xs[..t]);
    var all := context + block[..t + 1];
    assert Embedded(m, all)[..|all| - 1] == Embedded(m, context + block[..t]);
  }

  /** Layer l's state after the first n tokens of the block is its serial state. */
  lemma LaneState(m: Model, context: seq<nat>, block: seq<nat>, l: nat, n: nat)
    requires l < |m.layers| && n <= |block|
    ensures CausalStack.BlockState(Stack(m), After(m, context), |context|, Embedded(m, block), l, n)
         == After(m, context + block[..n])[l]
  {
    var xs := Embedded(m, block);
    CausalStack.BlockRefinesSerial(Stack(m), After(m, context), |context|, xs);
    assert xs[..n] == Embedded(m, block[..n]);
    AfterAppend(m, context, block[..n], xs[..n]);
  }

  /** Zeroed regions of the right number hold the initial states. */
  lemma InitialSynced(m: Model, index: seq<nat>, capacity: nat, conv: ConvCells, gdn: GdnCells, caches: CacheCells,
                      zero: State)
    requires Indexed(m, index) && |conv| == |gdn| && zero == ZeroState(m)
    requires forall l | 0 <= l < |m.layers| :: index[l] < if m.layers[l].Attention? then |caches| else |conv|
    requires forall r | 0 <= r < |caches| :: |caches[r]| == capacity
    requires forall r | 0 <= r < |conv| :: conv[r] == zero.conv && gdn[r] == zero.heads
    ensures Synced(m, index, capacity, After(m, []), 0, conv, gdn, caches)
  {
    InitialFits(m);
    assert Embedded(m, []) == [];
    forall l | 0 <= l < |m.layers|
      ensures Holds(m, index, capacity, l, Initial(m)[l], 0, conv, gdn, caches)
    {
    }
  }

  /** state_index: layers of each kind are numbered in stack order. */
  method AssignStateIndices(m: Model) returns (index: seq<nat>, attention: nat, recurrent: nat)
    ensures Indexed(m, index)
    ensures forall l | 0 <= l < |m.layers| :: index[l] < if m.layers[l].Attention? then attention else recurrent
    ensures forall r | 0 <= r < recurrent :: Owned(m, index, r)
  {
    index, attention, recurrent := [], 0, 0;
    ghost var owner: seq<nat> := [];
    for l := 0 to |m.layers|
      invariant |index| == l && |owner| == recurrent
      invariant forall k | 0 <= k < l :: index[k] < if m.layers[k].Attention? then attention else recurrent
      invariant forall j, k | 0 <= j < k < l && m.layers[j].Attention? == m.layers[k].Attention? :: index[j] != index[k]
      invariant forall r | 0 <= r < recurrent :: owner[r] < l && m.layers[owner[r]].Recurrent? && index[owner[r]] == r
    {
      if m.layers[l].Attention? {
        index, attention := index + [attention], attention + 1;
      } else {
        index, recurrent, owner := index + [recurrent], recurrent + 1, owner + [l];
      }
    }
    forall r | 0 <= r < recurrent
      ensures Owned(m, index, r)
    {
      assert m.layers[owner[r]].Recurrent? && index[owner[r]] == r;
    }
  }

  /** Lane n - 1 of the block holds the final row of the context and the block's first n tokens. */
  lemma LastLane(m: Model, context: seq<nat>, block: seq<nat>, n: nat, cells: seq<Row>)
    requires 0 < n <= |block| <= |cells|
    requires cells[..|block|] == RowsInto(m, After(m, context), |context|, Embedded(m, block), |m.layers|)
    ensures cells[n - 1] == LastRow(m, context + block[..n])
  {
    LaneRow(m, context, block, n - 1);
    assert cells[n - 1] == cells[..|block|][n - 1];
  }

  /** Greedy decoding stays within the tokens the target head selects from. */
  lemma {:induction false} GreedyInVocabulary(m: Model, context: seq<nat>, seed: nat, n: nat)
    ensures forall i | 0 <= i < n :: Greedy(Target(m), context, seed, n)[i] < m.tokenizerVocabulary
  {
    if n > 0 {
      GreedyInVocabulary(m, context, seed, n - 1);
      var front := Greedy(Target(m), context, seed, n - 1);
      assert Target(m)(context + [seed] + front) < m.tokenizerVocabulary;
    }
  }

  // ---- committing

  lemma SyncedKept(m: Model, index: seq<nat>, capacity: nat, sts: seq<LayerState>, pos: nat,
                   conv: ConvCells, gdn: GdnCells, before: CacheCells, after: CacheCells)
    requires Synced(m, index, capacity, sts, pos, conv, gdn, before) && CachesKept(before, after, pos, capacity)
    ensures Synced(m, index, capacity, sts, pos, conv, gdn, after)
  {
    forall l | 0 <= l < |m.layers|
      ensures Holds(m, index, capacity, l, sts[l], pos, conv, gdn, after)
    {
      assert Holds(m, index, capacity, l, sts[l], pos, conv, gdn, before);
      if m.layers[l].Attention? {
        assert KeptAt(before, after, pos, capacity, index[l]);
      }
    }
  }

  /** A block that went through all layers leaves the states of the whole concatenation. */
  lemma BlockCommits(m: Model, index: seq<nat>, capacity: nat, context: seq<nat>, block: seq<nat>,
                     conv: ConvCells, gdn: GdnCells, finalConv: ConvCells, finalGdn: GdnCells, caches: CacheCells)
    requires Progress(m, index, capacity, After(m, context), |context|, Embedded(m, block), |m.layers|,
                      conv, gdn, finalConv, finalGdn, caches)
    ensures Synced(m, index, capacity, After(m, context + block), |context + block|, finalConv, finalGdn, caches)
  {
    forall l | 0 <= l < |m.layers|
      ensures Holds(m, index, capacity, l, After(m, context + block)[l], |context + block|, finalConv, finalGdn, caches)
    {
      var xs := Embedded(m, block);
      assert Holds(m, index, capacity, l, Final(m, After(m, context), |context|, xs, l), |context| + |xs|, finalConv,
                   finalGdn, caches);
      LaneState(m, context, block, l, |block|);
      assert block[..|block|] == block;
    }
  }

  ghost predicate AllShaped(conv: ConvCells, gdn: GdnCells, log: LogCells, n: nat) {
    && |conv| == |gdn| == |log|
    && forall r | 0 <= r < |conv| :: RegionShaped(conv, gdn, log, n, r)
  }

  ghost predicate RegionShaped(conv: ConvCells, gdn: GdnCells, log: LogCells, n: nat, r: nat)
    requires r < |conv| && r < |gdn| && r < |log|
  {
    && Shaped(State(conv[r], gdn[r])) && n <= |log[r]|
    && forall t | 0 <= t < n :: LogShaped(log[r][t])
  }

  /** The restore kernels: n logged tokens replayed in every region. */
  function RestoreAll(ar: Arithmetic, conv: ConvCells, gdn: GdnCells, log: LogCells, n: nat): (r: seq<State>)
    requires AllShaped(conv, gdn, log, n)
    ensures |r| == |conv|
  {
    seq(|conv|, r requires 0 <= r < |conv| =>
      assert RegionShaped(conv, gdn, log, n, r);
      Restore(ar, State(conv[r], gdn[r]), log[r][..n]))
  }

  /** What one region holds after n logged tokens were replayed in it. */
  lemma RegionRestored(m: Model, index: seq<nat>, context: seq<nat>, block: seq<nat>, n: nat, l: nat,
                       conv: ConvCells, gdn: GdnCells, log: LogCells)
    requires |index| == |m.layers| && l < |m.layers| && m.layers[l].Recurrent? && n <= |block|
    requires index[l] < |conv| && index[l] < |gdn| && index[l] < |log|
    requires After(m, context)[l] == Gdn(State(conv[index[l]], gdn[index[l]]))
    requires LoggedAt(m, index, After(m, context), |context|, Embedded(m, block), l, log)
    ensures RegionShaped(conv, gdn, log, n, index[l])
    ensures Gdn(Restore(m.arith, State(conv[index[l]], gdn[index[l]]), log[index[l]][..n]))
            == After(m, context + block[..n])[l]
  {
    AfterFits(m, context);
    var layer, st, r, xs := m.layers[l], After(m, context)[l], index[l], Embedded(m, block);
    var rows := RowsInto(m, After(m, context), |context|, xs, l);
    var ps := Projections(layer, rows);
    var logs := Logs(m.arith, layer.weights, st.state, ps);
    assert Fits(layer, st, |context|);
    assert log[r][..n] == logs[..n] by {
      assert log[r][..|xs|] == logs;
      assert log[r][..n] == log[r][..|xs|][..n];
    }
    forall t | 0 <= t < n
      ensures LogShaped(log[r][t])
    {
      assert log[r][t] == logs[t];
    }
    RollbackExact(m.arith, layer.weights, st.state, ps, n);
    assert ps[..n] == Projections(layer, rows[..n]);
    GdnAfter(m.arith, layer, st, |context|, rows[..n]);
    LaneState(m, context, block, l, n);
  }

  /** The slots of a rejected suffix do not matter: the cache prefix is that of the accepted
      tokens alone. */
  lemma CacheRestored(m: Model, index: seq<nat>, capacity: nat, context: seq<nat>, block: seq<nat>, n: nat, l: nat,
                      caches: CacheCells)
    requires |index| == |m.layers| && l < |m.layers| && m.layers[l].Attention? && n <= |block|
    requires Holds(m, index, capacity, l, Final(m, After(m, context), |context|, Embedded(m, block), l),
                   |context| + |block|, [], [], caches)
    ensures Holds(m, index, capacity, l, After(m, context + block[..n])[l], |context| + n, [], [], caches)
  {
    AfterFits(m, context);
    var layer, st, r, xs := m.layers[l], After(m, context)[l], index[l], Embedded(m, block);
    assert Fits(layer, st, |context|);
    var rows := RowsInto(m, After(m, context), |context|, xs, l);
    assert rows[..|xs|] == rows;
    CacheAfter(m.arith, layer, st, |context|, rows);
    CacheAfter(m.arith, layer, st, |context|, rows[..n]);
    LaneState(m, context, block, l, n);
    var all := st.entries + Entries(layer, |context|, rows);
    assert caches[r][..|context| + |block|] == all;
    assert caches[r][..|context| + n] == all[..|context| + n];
    assert all[..|context| + n] == st.entries + Entries(layer, |context|, rows[..n]);
  }

  /** Some recurrent layer owns region r. */
  ghost predicate Owned(m: Model, index: seq<nat>, r: nat)
    requires |index| == |m.layers|
  {
    exists l :: 0 <= l < |m.layers| && m.layers[l].Recurrent? && index[l] == r
  }

  /** Partial accept: replaying n tokens of the log everywhere, and forgetting the cache slots
      above them, leaves the states of the context and those n tokens. */
  lemma PrefixCommits(m: Model, index: seq<nat>, capacity: nat, context: seq<nat>, block: seq<nat>, n: nat,
                      conv: ConvCells, gdn: GdnCells, finalConv: ConvCells, finalGdn: GdnCells, caches: CacheCells,
                      log: LogCells)
    requires n <= |block| && |conv| == |gdn| == |log| && Indexed(m, index)
    requires forall r | 0 <= r < |conv| :: Owned(m, index, r)
    requires Synced(m, index, capacity, After(m, context), |context|, conv, gdn, caches)
    requires Progress(m, index, capacity, After(m, context), |context|, Embedded(m, block), |m.layers|,
                      conv, gdn, finalConv, finalGdn, caches)
    requires Logged(m, index, After(m, context), |context|, Embedded(m, block), |m.layers|, log)
    ensures AllShaped(conv, gdn, log, n)
    ensures var restored := RestoreAll(m.arith, conv, gdn, log, n);
            Synced(m, index, capacity, After(m, context + block[..n]), |context| + n,
                   seq(|conv|, r requires 0 <= r < |conv| => restored[r].conv),
                   seq(|conv|, r requires 0 <= r < |conv| => restored[r].heads), caches)
  {
    forall r | 0 <= r < |conv|
      ensures RegionShaped(conv, gdn, log, n, r)
    {
      assert Owned(m, index, r);
      var l :| 0 <= l < |m.layers| && m.layers[l].Recurrent? && index[l] == r;
      assert Holds(m, index, capacity, l, After(m, context)[l], |context|, conv, gdn, caches);
      assert LoggedAt(m, index, After(m, context), |context|, Embedded(m, block), l, log);
      RegionRestored(m, index, context, block, n, l, conv, gdn, log);
    }
    var restored := RestoreAll(m.arith, conv, gdn, log, n);
    var conv' := seq(|conv|, r requires 0 <= r < |conv| => restored[r].conv);
    var gdn' := seq(|conv|, r requires 0 <= r < |conv| => restored[r].heads);
    forall l | 0 <= l < |m.layers|
      ensures Holds(m, index, capacity, l, After(m, context + block[..n])[l], |context| + n, conv', gdn', caches)
    {
      PrefixCommitsAt(m, index, capacity, context, block, n, l, conv, gdn, finalConv, finalGdn, caches, log, conv',
                      gdn');
    }
  }

  lemma PrefixCommitsAt(m: Model, index: seq<nat>, capacity: nat, context: seq<nat>, block: seq<nat>, n: nat, l: nat,
                        conv: ConvCells, gdn: GdnCells, finalConv: ConvCells, finalGdn: GdnCells, caches: CacheCells,
                        log: LogCells,
                        conv': ConvCells, gdn': GdnCells)
    requires l < |m.layers| && n <= |block| && |conv| == |gdn| == |log| == |conv'| == |gdn'| && Indexed(m, index)
    requires Holds(m, index, capacity, l, After(m, context)[l], |context|, conv, gdn, caches)
    requires Holds(m, index, capacity, l, Final(m, After(m, context), |context|, Embedded(m, block), l),
                   |context| + |block|, finalConv, finalGdn, caches)
    requires LoggedAt(m, index, After(m, context), |context|, Embedded(m, block), l, log)
    requires AllShaped(conv, gdn, log, n)
    requires forall r | 0 <= r < |conv| :: State(conv'[r], gdn'[r]) == RestoreAll(m.arith, conv, gdn, log, n)[r]
    ensures Holds(m, index, capacity, l, After(m, context + block[..n])[l], |context| + n, conv', gdn', caches)
  {
    AfterFits(m, context + block[..n]);
    assert Fits(m.layers[l], After(m, context + block[..n])[l], |context| + n);
    if m.layers[l].Attention? {
      CacheRestored(m, index, capacity, context, block, n, l, caches);
    } else {
      RegionRestored(m, index, context, block, n, l, conv, gdn, log);
    }
  }
}
