/** The decoder: attention layers that keep a K/V cache and recurrent layers that keep a gated
    delta-network state, mixed in any order, over uninterpreted per-token arithmetic; and the
    greedy stream it defines, one token at a time. */
module Decoder {
  import opened Scalars
  import opened GdnModel
  import opened Argmax
  import CausalStack

  /** A hidden vector, and the K/V entry one token leaves in one attention layer. */
  type Row(==, 0, !new)
  type Entry(==, 0, !new)

  /** Projections, norms, rotary embedding and MLP depend on one token's row only; attention
      also reads the cache up to and including the token's own entry. */
  datatype Layer =
    | Attention(entry: (Row, nat) -> Entry, attend: (Row, nat, seq<Entry>) -> Row)
    | Recurrent(weights: Weights, project: Row -> Projected,
                finish: (Row, Projected, seq<Half>, seq<seq<Float>>) -> Row)

  datatype LayerState = Cache(entries: seq<Entry>) | Gdn(state: State)

  /** The multi-token proposal model: one attention layer fed with a token's embedding and the
      hidden row it is conditioned on. */
  datatype Proposer = Proposer(
    entry: (Row, Row, nat) -> Entry,
    hidden: (Row, Row, nat, seq<Entry>) -> Row,
    token: Row -> nat)

  datatype Model = Model(
    arith: Arithmetic,
    layers: seq<Layer>,
    embed: nat -> Row,
    logits: Row -> (nat -> real),
    zeroHalf: Half,
    vocabulary: nat,                   // rows of the embedding, 248320
    tokenizerVocabulary: Positive,     // the tokens the target head selects from, 248077
    proposer: Proposer)

  type Positive = n: nat | 0 < n witness 1

  ghost predicate Fits(layer: Layer, st: LayerState, pos: nat) {
    match layer
    case Attention(_, _) => st.Cache? && |st.entries| == pos
    case Recurrent(_, _, _) => st.Gdn? && Shaped(st.state)
  }

  ghost predicate StackFits(m: Model, sts: seq<LayerState>, pos: nat) {
    |sts| == |m.layers| && forall l | 0 <= l < |sts| :: Fits(m.layers[l], sts[l], pos)
  }

  /** The state of a layer after one more token; a state of another kind is left alone. */
  ghost function Next(ar: Arithmetic, layer: Layer, st: LayerState, pos: nat, x: Row): (r: LayerState)
    ensures Fits(layer, st, pos) ==> Fits(layer, r, pos + 1)
  {
    if !Fits(layer, st, pos) then st
    else match layer
      case Attention(entry, _) => Cache(st.entries + [entry(x, pos)])
      case Recurrent(w, project, _) => Gdn(Step(ar, w, st.state, project(x)))
  }

  ghost function Out(ar: Arithmetic, layer: Layer, st: LayerState, pos: nat, x: Row): Row
  {
    if !Fits(layer, st, pos) then x
    else
      var next := Next(ar, layer, st, pos, x);
      match layer
      case Attention(_, attend) => attend(x, pos, next.entries)
      case Recurrent(w, project, finish) =>
        finish(x, project(x), Convolved(w, next.state.conv), next.state.heads)
  }

  ghost function Causal(ar: Arithmetic, layer: Layer): CausalStack.Layer<LayerState, Row> {
    CausalStack.Layer((st, pos, x) => Next(ar, layer, st, pos, x), (st, pos, x) => Out(ar, layer, st, pos, x))
  }

  ghost function Stack(m: Model): (r: seq<CausalStack.Layer<LayerState, Row>>)
    ensures |r| == |m.layers|
  {
    seq(|m.layers|, l requires 0 <= l < |m.layers| => Causal(m.arith, m.layers[l]))
  }

  // ---- the greedy stream

  function ZeroState(m: Model): (r: State)
    ensures Shaped(r)
  {
    State(seq(10240, _ => seq(4, _ => m.zeroHalf)), seq(48, _ => seq(16384, _ => m.arith.zero)))
  }

  ghost function Initial(m: Model): (r: seq<LayerState>)
    ensures |r| == |m.layers|
  {
    seq(|m.layers|, l requires 0 <= l < |m.layers| =>
      if m.layers[l].Attention? then Cache([]) else Gdn(ZeroState(m)))
  }

  lemma InitialFits(m: Model)
    ensures StackFits(m, Initial(m), 0)
  {
  }

  function Embedded(m: Model, tokens: seq<nat>): (r: seq<Row>)
    ensures |r| == |tokens|
  {
    seq(|tokens|, t requires 0 <= t < |tokens| => m.embed(tokens[t]))
  }

  /** The state of every layer after the tokens were fed one at a time. */
  ghost function After(m: Model, tokens: seq<nat>): (r: seq<LayerState>)
    ensures |r| == |m.layers|
  {
    CausalStack.Serial(Stack(m), Initial(m), 0, Embedded(m, tokens))
  }

  /** The final row of the last token fed. */
  ghost function LastRow(m: Model, tokens: seq<nat>): Row
    requires tokens != []
  {
    CausalStack.SerialRow(Stack(m), Initial(m), 0, Embedded(m, tokens), |tokens| - 1)
  }

  function Select(m: Model, row: Row): (r: nat)
    ensures r < m.tokenizerVocabulary
  {
    Leftmost(m.logits(row), m.tokenizerVocabulary)
  }

  /** The token the target model selects after the given tokens. */
  ghost function NextToken(m: Model, tokens: seq<nat>): (r: nat)
    requires tokens != []
    ensures r < m.tokenizerVocabulary
  {
    Select(m, LastRow(m, tokens))
  }

  /** The target model as a next-token function. */
  ghost function Target(m: Model): seq<nat> -> nat {
    tokens => if tokens == [] then 0 else NextToken(m, tokens)
  }

  // ---- the proposer

  /** The proposer's row behind a token, once the token's own entry follows the given ones. */
  function DraftRow(m: Model, entries: seq<Entry>, token: nat, condition: Row): Row {
    m.proposer.hidden(m.embed(token), condition, |entries|, WithEntry(m, entries, token, condition))
  }

  function WithEntry(m: Model, entries: seq<Entry>, token: nat, condition: Row): seq<Entry> {
    entries + [m.proposer.entry(m.embed(token), condition, |entries|)]
  }

  /** The proposer's draft behind a token. */
  function Draft(m: Model, entries: seq<Entry>, token: nat, condition: Row): nat {
    m.proposer.token(DraftRow(m, entries, token, condition))
  }

  /** A chain of drafts: each one is fed back, conditioned on the proposer's own row. */
  function Drafts(m: Model, entries: seq<Entry>, token: nat, condition: Row, n: nat): (r: seq<nat>)
    ensures |r| == n
    decreases n
  {
    if n == 0 then []
    else
      var draft := Draft(m, entries, token, condition);
      [draft] + Drafts(m, WithEntry(m, entries, token, condition), draft, DraftRow(m, entries, token, condition), n - 1)
  }

  /** The drafts done so far, and those still to come from where the chain stands. */
  ghost predicate Drafting(m: Model, all: seq<nat>, done: seq<nat>, entries: seq<Entry>, token: nat, condition: Row) {
    |done| <= |all| && done + Drafts(m, entries, token, condition, |all| - |done|) == all
  }

  lemma {:induction false} DraftingNext(m: Model, all: seq<nat>, done: seq<nat>, entries: seq<Entry>, token: nat,
                                        condition: Row)
    requires Drafting(m, all, done, entries, token, condition) && |done| < |all|
    ensures var draft := Draft(m, entries, token, condition);
            Drafting(m, all, done + [draft], WithEntry(m, entries, token, condition), draft,
                     DraftRow(m, entries, token, condition))
  {
    var draft := Draft(m, entries, token, condition);
    var rest := Drafts(m, WithEntry(m, entries, token, condition), draft, DraftRow(m, entries, token, condition),
                       |all| - |done| - 1);
    assert done + ([draft] + rest) == done + [draft] + rest;
  }

  // ---- what one layer computes over a block

  function Entries(layer: Layer, pos: nat, xs: seq<Row>): (r: seq<Entry>)
    requires layer.Attention?
    ensures |r| == |xs|
  {
    seq(|xs|, t requires 0 <= t < |xs| => layer.entry(xs[t], pos + t))
  }

  function Projections(layer: Layer, xs: seq<Row>): (r: seq<Projected>)
    requires layer.Recurrent?
    ensures |r| == |xs|
  {
    seq(|xs|, t requires 0 <= t < |xs| => layer.project(xs[t]))
  }

  /** Lane t of the recurrent block kernels sees the state after its own token. */
  function RecurrentRows(ar: Arithmetic, layer: Layer, st: State, xs: seq<Row>): (r: seq<Row>)
    requires layer.Recurrent? && Shaped(st)
    ensures |r| == |xs|
  {
    var ps := Projections(layer, xs);
    seq(|xs|, t requires 0 <= t < |xs| =>
      var after := Run(ar, layer.weights, st, ps[..t + 1]);
      layer.finish(xs[t], ps[t], Convolved(layer.weights, after.conv), after.heads))
  }

  /** Lane t of the attention block kernel reads the cache up to its own slot. */
  function AttentionRows(layer: Layer, pos: nat, xs: seq<Row>, cache: seq<Entry>): (r: seq<Row>)
    requires layer.Attention? && pos + |xs| <= |cache|
    ensures |r| == |xs|
  {
    seq(|xs|, t requires 0 <= t < |xs| => layer.attend(xs[t], pos + t, cache[..pos + t + 1]))
  }

  lemma {:induction false} CacheAfter(ar: Arithmetic, layer: Layer, st: LayerState, pos: nat, xs: seq<Row>)
    requires layer.Attention? && Fits(layer, st, pos)
    ensures CausalStack.LayerAfter(Causal(ar, layer), st, pos, xs) == Cache(st.entries + Entries(layer, pos, xs))
  {
    if xs == [] {
      assert st.entries + Entries(layer, pos, xs) == st.entries;
    } else {
      var n := |xs| - 1;
      CacheAfter(ar, layer, st, pos, xs[..n]);
      assert Entries(layer, pos, xs) == Entries(layer, pos, xs[..n]) + [layer.entry(xs[n], pos + n)];
      assert st.entries + Entries(layer, pos, xs)
          == st.entries + Entries(layer, pos, xs[..n]) + [layer.entry(xs[n], pos + n)];
    }
  }

  /** If the slots below pos are the committed entries, whatever lies above them, appending the
      block's entries and reading per lane gives the rows of the causal layer. */
  lemma CacheRows(ar: Arithmetic, layer: Layer, st: LayerState, pos: nat, xs: seq<Row>, cache: seq<Entry>)
    requires layer.Attention? && Fits(layer, st, pos) && pos + |xs| <= |cache|
    requires cache[..pos + |xs|] == st.entries + Entries(layer, pos, xs)
    ensures CausalStack.LayerRows(Causal(ar, layer), st, pos, xs) == AttentionRows(layer, pos, xs, cache)
  {
    forall t | 0 <= t < |xs|
      ensures CausalStack.LayerRows(Causal(ar, layer), st, pos, xs)[t] == AttentionRows(layer, pos, xs, cache)[t]
    {
      CacheAfter(ar, layer, st, pos, xs[..t]);
      var before := Cache(st.entries + Entries(layer, pos, xs[..t]));
      assert Fits(layer, before, pos + t);
      assert cache[..pos + t + 1] == before.entries + [layer.entry(xs[t], pos + t)] by {
        assert cache[..pos + t + 1] == cache[..pos + |xs|][..pos + t + 1];
      }
    }
  }

  lemma {:induction false} GdnAfter(ar: Arithmetic, layer: Layer, st: LayerState, pos: nat, xs: seq<Row>)
    requires layer.Recurrent? && Fits(layer, st, pos)
    ensures CausalStack.LayerAfter(Causal(ar, layer), st, pos, xs)
         == Gdn(Run(ar, layer.weights, st.state, Projections(layer, xs)))
  {
    if xs != [] {
      var n := |xs| - 1;
      GdnAfter(ar, layer, st, pos, xs[..n]);
      assert Projections(layer, xs)[..n] == Projections(layer, xs[..n]);
    }
  }

  lemma GdnRow(ar: Arithmetic, layer: Layer, st: LayerState, pos: nat, xs: seq<Row>, t: nat)
    requires layer.Recurrent? && Fits(layer, st, pos) && t < |xs|
    ensures CausalStack.LayerRows(Causal(ar, layer), st, pos, xs)[t] == RecurrentRows(ar, layer, st.state, xs)[t]
  {
    var ps := Projections(layer, xs);
    GdnAfter(ar, layer, st, pos, xs[..t]);
    assert ps[..t] == Projections(layer, xs[..t]);
    assert ps[..t + 1][..t] == ps[..t];
  }

  lemma GdnRows(ar: Arithmetic, layer: Layer, st: LayerState, pos: nat, xs: seq<Row>)
    requires layer.Recurrent? && Fits(layer, st, pos)
    ensures CausalStack.LayerRows(Causal(ar, layer), st, pos, xs) == RecurrentRows(ar, layer, st.state, xs)
  {
    forall t | 0 <= t < |xs|
      ensures CausalStack.LayerRows(Causal(ar, layer), st, pos, xs)[t] == RecurrentRows(ar, layer, st.state, xs)[t]
    {
      GdnRow(ar, layer, st, pos, xs, t);
    }
  }
}
