/** Any stack of causal stateful layers, evaluated token by token through all layers or layer
    by layer over a whole block.  The two orders are defined on their own and proved to
    agree. */
module CausalStack {
  /** A layer turns its state and the row of the token at a position into its next state and
      the row it hands to the layer above. */
  datatype Layer<!S, !X> = Layer(next: (S, nat, X) -> S, out: (S, nat, X) -> X)

  // ---- token by token

  /** The row of one token after the first n layers. */
  ghost function StackRow<S, X>(layers: seq<Layer<S, X>>, sts: seq<S>, pos: nat, x: X, n: nat): X
    requires |sts| == |layers| && n <= |layers|
  {
    if n == 0 then x
    else layers[n - 1].out(sts[n - 1], pos, StackRow(layers, sts, pos, x, n - 1))
  }

  ghost function StackNext<S, X>(layers: seq<Layer<S, X>>, sts: seq<S>, pos: nat, x: X): (r: seq<S>)
    requires |sts| == |layers|
    ensures |r| == |layers|
  {
    seq(|layers|, l requires 0 <= l < |layers| => layers[l].next(sts[l], pos, StackRow(layers, sts, pos, x, l)))
  }

  /** The states after every token of xs went through all layers, one token at a time. */
  ghost function Serial<S, X>(layers: seq<Layer<S, X>>, sts: seq<S>, pos: nat, xs: seq<X>): (r: seq<S>)
    requires |sts| == |layers|
    ensures |r| == |layers|
  {
    if xs == [] then sts
    else
      var n := |xs| - 1;
      StackNext(layers, Serial(layers, sts, pos, xs[..n]), pos + n, xs[n])
  }

  /** The final row of token t of xs in the serial order. */
  ghost function SerialRow<S, X>(layers: seq<Layer<S, X>>, sts: seq<S>, pos: nat, xs: seq<X>, t: nat): X
    requires |sts| == |layers| && t < |xs|
  {
    StackRow(layers, Serial(layers, sts, pos, xs[..t]), pos + t, xs[t], |layers|)
  }

  // ---- layer by layer

  ghost function LayerAfter<S, X>(layer: Layer<S, X>, st: S, pos: nat, xs: seq<X>): S
  {
    if xs == [] then st
    else
      var n := |xs| - 1;
      layer.next(LayerAfter(layer, st, pos, xs[..n]), pos + n, xs[n])
  }

  ghost function LayerRows<S, X>(layer: Layer<S, X>, st: S, pos: nat, xs: seq<X>): (r: seq<X>)
    ensures |r| == |xs|
  {
    seq(|xs|, t requires 0 <= t < |xs| => layer.out(LayerAfter(layer, st, pos, xs[..t]), pos + t, xs[t]))
  }

  /** The rows of the whole block after the first n layers. */
  ghost function BlockRows<S, X>(layers: seq<Layer<S, X>>, sts: seq<S>, pos: nat, xs: seq<X>, n: nat): (r: seq<X>)
    requires |sts| == |layers| && n <= |layers|
    ensures |r| == |xs|
  {
    if n == 0 then xs
    else LayerRows(layers[n - 1], sts[n - 1], pos, BlockRows(layers, sts, pos, xs, n - 1))
  }

  /** Layer l's state after the first t tokens of the block. */
  ghost function BlockState<S, X>(layers: seq<Layer<S, X>>, sts: seq<S>, pos: nat, xs: seq<X>, l: nat, t: nat): S
    requires |sts| == |layers| && l < |layers| && t <= |xs|
  {
    LayerAfter(layers[l], sts[l], pos, BlockRows(layers, sts, pos, xs, l)[..t])
  }

  // ---- the two orders agree

  ghost predicate RowAgrees<S, X>(layers: seq<Layer<S, X>>, sts: seq<S>, pos: nat, xs: seq<X>, l: nat, t: nat)
    requires |sts| == |layers| && l <= |layers| && t < |xs|
  {
    BlockRows(layers, sts, pos, xs, l)[t] == StackRow(layers, Serial(layers, sts, pos, xs[..t]), pos + t, xs[t], l)
  }

  /** If the rows entering layer l agree, its state after t tokens of the block is its state
      after t tokens of the serial run. */
  lemma {:induction false} StatesAgree<S,
    X>(layers: seq<Layer<S, X>>, sts: seq<S>, pos: nat, xs: seq<X>, l: nat, t: nat)
    requires |sts| == |layers| && l < |layers| && t <= |xs|
    requires forall u | 0 <= u < t :: RowAgrees(layers, sts, pos, xs, l, u)
    ensures BlockState(layers, sts, pos, xs, l, t) == Serial(layers, sts, pos, xs[..t])[l]
  {
    if t > 0 {
      StatesAgree(layers, sts, pos, xs, l, t - 1);
      assert RowAgrees(layers, sts, pos, xs, l, t - 1);
      var rows := BlockRows(layers, sts, pos, xs, l);
      assert rows[..t][..t - 1] == rows[..t - 1];
      assert xs[..t][..t - 1] == xs[..t - 1];
    }
  }

  lemma {:induction false} RowsAgree<S, X>(layers: seq<Layer<S, X>>, sts: seq<S>, pos: nat, xs: seq<X>, l: nat, t: nat)
    requires |sts| == |layers| && l <= |layers| && t < |xs|
    ensures RowAgrees(layers, sts, pos, xs, l, t)
  {
    if l > 0 {
      var below := l - 1;
      forall u | 0 <= u <= t
        ensures RowAgrees(layers, sts, pos, xs, below, u)
      {
        RowsAgree(layers, sts, pos, xs, below, u);
      }
      StatesAgree(layers, sts, pos, xs, below, t);
      assert RowAgrees(layers, sts, pos, xs, below, t);
    }
  }

  /** Block refines serial: a causal block of any length through any stack gives each token
      the row, and after every prefix each layer the state, of the token-by-token run. */
  lemma {:induction false} BlockRefinesSerial<S, X>(layers: seq<Layer<S, X>>, sts: seq<S>, pos: nat, xs: seq<X>)
    requires |sts| == |layers|
    ensures forall t | 0 <= t < |xs| ::
              BlockRows(layers, sts, pos, xs, |layers|)[t] == SerialRow(layers, sts, pos, xs, t)
    ensures forall l, t | 0 <= l < |layers| && 0 <= t <= |xs| ::
              BlockState(layers, sts, pos, xs, l, t) == Serial(layers, sts, pos, xs[..t])[l]
  {
    forall t | 0 <= t < |xs|
      ensures BlockRows(layers, sts, pos, xs, |layers|)[t] == SerialRow(layers, sts, pos, xs, t)
    {
      RowsAgree(layers, sts, pos, xs, |layers|, t);
    }
    forall l, t | 0 <= l < |layers| && 0 <= t <= |xs|
      ensures BlockState(layers, sts, pos, xs, l, t) == Serial(layers, sts, pos, xs[..t])[l]
    {
      forall u | 0 <= u < t
        ensures RowAgrees(layers, sts, pos, xs, l, u)
      {
        RowsAgree(layers, sts, pos, xs, l, u);
      }
      StatesAgree(layers, sts, pos, xs, l, t);
    }
  }

  /** Serial runs compose. */
  lemma {:induction false} SerialAppend<S, X>(layers: seq<Layer<S, X>>, sts: seq<S>, pos: nat, xs: seq<X>, ys: seq<X>,
                                              middle: seq<S>, all: seq<X>)
    requires |sts| == |layers| && middle == Serial(layers, sts, pos, xs) && all == xs + ys
    ensures Serial(layers, middle, pos + |xs|, ys) == Serial(layers, sts, pos, all)
  {
    if ys == [] {
      assert all == xs;
    } else {
      var n := |ys| - 1;
      SerialAppend(layers, sts, pos, xs, ys[..n], middle, all[..|all| - 1]);
    }
  }
}
