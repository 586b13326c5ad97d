/** Device scalars and the arithmetic the kernels apply to them.  Both types and all
    operations are uninterpreted: a result proved here holds bit for bit whatever the
    rounding of the device is. */
module Scalars {
  type Half(==, 0, !new)
  type Float(==, 0, !new)

  datatype Arithmetic = Arithmetic(
    toHalf: Float -> Half,
    toFloat: Half -> Float,
    zero: Float,
    mul: (Float, Float) -> Float,
    sub: (Float, Float) -> Float,
    fma: (Float, Float, Float) -> Float)

  /** The operations on three scalars compute with the real numbers that value reads them as. */
  ghost predicate ExactAt(ar: Arithmetic, value: Float -> real, a: Float, b: Float, c: Float) {
    && value(ar.mul(a, b)) == value(a) * value(b)
    && value(ar.sub(a, b)) == value(a) - value(b)
    && value(ar.fma(a, b, c)) == value(a) * value(b) + value(c)
  }

  /** Arithmetic that does not round: a hypothesis for laws of the real numbers, under which the
      uninterpreted operations are those of a ring. */
  ghost predicate Exact(ar: Arithmetic, value: Float -> real) {
    value(ar.zero) == 0.0 && forall a, b, c :: ExactAt(ar, value, a, b, c)
  }
}

/** One gated delta-network layer as a function of its recurrent state and of the
    projected row of one token: what a token does to the state, what it leaves in the
    rollback log, and what replaying the log does. */
module GdnModel {
  import opened Scalars

  /** The projections of one token: qkv channels, and the a and b gates of each value head. */
  datatype Projected = Projected(qkv: nat -> Float, z: nat -> Float, a: nat -> Float, b: nat -> Float)

  /** The weights of a layer, as functions of what they are applied to. */
  datatype Weights = Weights(
    convolve: (nat, seq<Half>) -> Half,    // channel, its four taps
    normKey: (seq<Half>, nat) -> Float,    // key slice of a head, element
    decay: (nat, Float) -> Float,          // value head, its a projection
    beta: Float -> Float)

  /** 10240 channels of four taps, and 48 value heads of 128 x 128 elements. */
  datatype State = State(conv: seq<seq<Half>>, heads: seq<seq<Float>>)

  /** What the forward kernels log for one token; the 16 key heads are logged once,
      although each is used by three value heads. */
  datatype LogRow = LogRow(conv: seq<Half>, keys: seq<Float>, deltas: seq<Float>, decays: seq<Float>)

  datatype HeadToken = HeadToken(key: seq<Float>, value: seq<Half>, decay: Float, beta: Float)

  ghost predicate ConvShaped(conv: seq<seq<Half>>) {
    |conv| == 10240 && forall c | 0 <= c < 10240 :: |conv[c]| == 4
  }

  ghost predicate HeadsShaped(heads: seq<seq<Float>>) {
    |heads| == 48 && forall h | 0 <= h < 48 :: |heads[h]| == 16384
  }

  ghost predicate Shaped(st: State) {
    ConvShaped(st.conv) && HeadsShaped(st.heads)
  }

  ghost predicate LogShaped(row: LogRow) {
    |row.conv| == 10240 && |row.keys| == 2048 && |row.deltas| == 6144 && |row.decays| == 48
  }

  ghost predicate TokenShaped(tok: HeadToken) {
    |tok.key| == 128 && |tok.value| == 128
  }

  // ---- one channel, one head

  function Push(taps: seq<Half>, x: Half): (r: seq<Half>)
    requires |taps| == 4
    ensures |r| == 4
  {
    taps[1..] + [x]
  }

  function Decayed(ar: Arithmetic, s: seq<Float>, decay: Float): (r: seq<Float>)
    requires |s| == 16384
    ensures |r| == 16384
  {
    seq(16384, i requires 0 <= i < 16384 => ar.mul(s[i], decay))
  }

  /** What the decayed state recalls for the key in value column v, over the first n keys. */
  function Memory(ar: Arithmetic, decayed: seq<Float>, key: seq<Float>, v: nat, n: nat): Float
    requires |decayed| == 16384 && |key| == 128 && v < 128 && n <= 128
  {
    if n == 0 then ar.zero
    else ar.fma(decayed[(n - 1) * 128 + v], key[n - 1], Memory(ar, decayed, key, v, n - 1))
  }

  function Delta(ar: Arithmetic, s: seq<Float>, tok: HeadToken): (r: seq<Float>)
    requires |s| == 16384 && TokenShaped(tok)
    ensures |r| == 128
  {
    seq(128, v requires 0 <= v < 128 =>
      ar.mul(ar.sub(ar.toFloat(tok.value[v]), Memory(ar, Decayed(ar, s, tok.decay), tok.key, v, 128)), tok.beta))
  }

  function Rank1(ar: Arithmetic, decayed: seq<Float>, key: seq<Float>, delta: seq<Float>): (r: seq<Float>)
    requires |decayed| == 16384 && |key| == 128 && |delta| == 128
    ensures |r| == 16384
  {
    seq(16384, i requires 0 <= i < 16384 => ar.fma(key[i / 128], delta[i % 128], decayed[i]))
  }

  function HeadStep(ar: Arithmetic, s: seq<Float>, tok: HeadToken): (r: seq<Float>)
    requires |s| == 16384 && TokenShaped(tok)
    ensures |r| == 16384
  {
    Rank1(ar, Decayed(ar, s, tok.decay), tok.key, Delta(ar, s, tok))
  }

  function ReplayStep(ar: Arithmetic, s: seq<Float>, key: seq<Float>, delta: seq<Float>, decay: Float): (r: seq<Float>)
    requires |s| == 16384 && |key| == 128 && |delta| == 128
    ensures |r| == 16384
  {
    Rank1(ar, Decayed(ar, s, decay), key, delta)
  }

  // ---- one layer, one token

  function PushAll(conv: seq<seq<Half>>, xs: seq<Half>): (r: seq<seq<Half>>)
    requires ConvShaped(conv) && |xs| == 10240
    ensures ConvShaped(r)
  {
    var r := seq(10240, c requires 0 <= c < 10240 => Push(conv[c], xs[c]));
    assert forall c | 0 <= c < 10240 :: r[c] == Push(conv[c], xs[c]);
    r
  }

  /** The halves one token appends to the convolution windows. */
  function Appended(ar: Arithmetic, p: Projected): (r: seq<Half>)
    ensures |r| == 10240
  {
    seq(10240, c requires 0 <= c < 10240 => ar.toHalf(p.qkv(c)))
  }

  function Convolved(w: Weights, conv: seq<seq<Half>>): (r: seq<Half>)
    requires ConvShaped(conv)
    ensures |r| == 10240
  {
    seq(10240, c requires 0 <= c < 10240 => w.convolve(c, conv[c]))
  }

  function KeySlice(row: seq<Half>, keyHead: nat): (r: seq<Half>)
    requires |row| == 10240 && keyHead < 16
    ensures |r| == 128
  {
    row[2048 + keyHead * 128..2048 + keyHead * 128 + 128]
  }

  function ValueSlice(row: seq<Half>, head: nat): (r: seq<Half>)
    requires |row| == 10240 && head < 48
    ensures |r| == 128
  {
    row[4096 + head * 128..4096 + head * 128 + 128]
  }

  function NormalizedKey(w: Weights, slice: seq<Half>): (r: seq<Float>)
    ensures |r| == 128
  {
    seq(128, j requires 0 <= j < 128 => w.normKey(slice, j))
  }

  /** What value head h reads of a token: its key head is h / 3. */
  function TokenOf(w: Weights, row: seq<Half>, p: Projected, head: nat): (tok: HeadToken)
    requires |row| == 10240 && head < 48
    ensures TokenShaped(tok)
  {
    HeadToken(NormalizedKey(w, KeySlice(row, head / 3)), ValueSlice(row, head),
              w.decay(head, p.a(head)), w.beta(p.b(head)))
  }

  function Step(ar: Arithmetic, w: Weights, st: State, p: Projected): (r: State)
    requires Shaped(st)
    ensures Shaped(r)
  {
    var conv := PushAll(st.conv, Appended(ar, p));
    var row := Convolved(w, conv);
    State(conv, seq(48, h requires 0 <= h < 48 => HeadStep(ar, st.heads[h], TokenOf(w, row, p, h))))
  }

  function LogOf(ar: Arithmetic, w: Weights, st: State, p: Projected): (r: LogRow)
    requires Shaped(st)
    ensures LogShaped(r)
  {
    var row := Convolved(w, PushAll(st.conv, Appended(ar, p)));
    LogRow(
      Appended(ar, p),
      LoggedKeys(w, row),
      LoggedDeltas(ar, st.heads, seq(48, h requires 0 <= h < 48 => TokenOf(w, row, p, h))),
      seq(48, h requires 0 <= h < 48 => w.decay(h, p.a(h))))
  }

  function LoggedKeys(w: Weights, row: seq<Half>): (r: seq<Float>)
    requires |row| == 10240
    ensures |r| == 2048
  {
    seq(2048, j requires 0 <= j < 2048 => w.normKey(KeySlice(row, j / 128), j % 128))
  }

  function LoggedDeltas(ar: Arithmetic, heads: seq<seq<Float>>, toks: seq<HeadToken>): (r: seq<Float>)
    requires HeadsShaped(heads)
    requires |toks| == 48 && forall h | 0 <= h < 48 :: TokenShaped(toks[h])
    ensures |r| == 6144
  {
    seq(6144, j requires 0 <= j < 6144 => Delta(ar, heads[j / 128], toks[j / 128])[j % 128])
  }

  function ReplayHead(ar: Arithmetic, s: seq<Float>, log: LogRow, head: nat): (r: seq<Float>)
    requires |s| == 16384 && LogShaped(log) && head < 48
    ensures |r| == 16384
  {
    ReplayStep(ar, s, log.keys[head / 3 * 128..head / 3 * 128 + 128],
               log.deltas[head * 128..head * 128 + 128], log.decays[head])
  }

  /** Replaying one logged token on a state. */
  function RestoreStep(ar: Arithmetic, st: State, log: LogRow): (r: State)
    requires Shaped(st) && LogShaped(log)
    ensures Shaped(r)
  {
    State(
      PushAll(st.conv, log.conv),
      seq(48, h requires 0 <= h < 48 => ReplayHead(ar, st.heads[h], log, h)))
  }

  // ---- a run of tokens

  function Run(ar: Arithmetic, w: Weights, st: State, ps: seq<Projected>): (r: State)
    requires Shaped(st)
    ensures Shaped(r)
  {
    if ps == [] then st
    else Step(ar, w, Run(ar, w, st, ps[..|ps| - 1]), ps[|ps| - 1])
  }

  function Logs(ar: Arithmetic, w: Weights, st: State, ps: seq<Projected>): (r: seq<LogRow>)
    requires Shaped(st)
    ensures |r| == |ps| && forall t | 0 <= t < |r| :: LogShaped(r[t])
  {
    if ps == [] then []
    else
      var front := ps[..|ps| - 1];
      Logs(ar, w, st, front) + [LogOf(ar, w, Run(ar, w, st, front), ps[|ps| - 1])]
  }

  function Restore(ar: Arithmetic, st: State, logs: seq<LogRow>): (r: State)
    requires Shaped(st) && forall t | 0 <= t < |logs| :: LogShaped(logs[t])
    ensures Shaped(r)
  {
    if logs == [] then st
    else RestoreStep(ar, Restore(ar, st, logs[..|logs| - 1]), logs[|logs| - 1])
  }

  /** The key a value head replays is the one its key head logged. */
  lemma LoggedKeyOf(w: Weights, row: seq<Half>, p: Projected, head: nat)
    requires |row| == 10240 && head < 48
    ensures LoggedKeys(w, row)[head / 3 * 128..head / 3 * 128 + 128] == TokenOf(w, row, p, head).key
  {
  }

  lemma LoggedDeltaOf(ar: Arithmetic, heads: seq<seq<Float>>, toks: seq<HeadToken>, head: nat)
    requires HeadsShaped(heads) && head < 48
    requires |toks| == 48 && forall h | 0 <= h < 48 :: TokenShaped(toks[h])
    ensures LoggedDeltas(ar, heads, toks)[head * 128..head * 128 + 128] == Delta(ar, heads[head], toks[head])
  {
  }

  lemma ReplayHeadIsStep(ar: Arithmetic, w: Weights, st: State, p: Projected, head: nat)
    requires Shaped(st) && head < 48
    ensures ReplayHead(ar, st.heads[head], LogOf(ar, w, st, p), head)
         == HeadStep(ar, st.heads[head], TokenOf(w, Convolved(w, PushAll(st.conv, Appended(ar, p))), p, head))
  {
    var row := Convolved(w, PushAll(st.conv, Appended(ar, p)));
    LoggedKeyOf(w, row, p, head);
    LoggedDeltaOf(ar, st.heads, seq(48, h requires 0 <= h < 48 => TokenOf(w, row, p, h)), head);
  }

  lemma RestoreStepIsStep(ar: Arithmetic, w: Weights, st: State, p: Projected)
    requires Shaped(st)
    ensures RestoreStep(ar, st, LogOf(ar, w, st, p)) == Step(ar, w, st, p)
  {
    var a, b := RestoreStep(ar, st, LogOf(ar, w, st, p)), Step(ar, w, st, p);
    forall h | 0 <= h < 48
      ensures a.heads[h] == b.heads[h]
    {
      ReplayHeadIsStep(ar, w, st, p, h);
    }
    assert a.heads == b.heads;
  }

  lemma {:induction false} LogsPrefix(ar: Arithmetic, w: Weights, st: State, ps: seq<Projected>, n: nat)
    requires Shaped(st) && n <= |ps|
    ensures Logs(ar, w, st, ps)[..n] == Logs(ar, w, st, ps[..n])
  {
    if n == |ps| {
      assert ps[..n] == ps;
    } else {
      var front := ps[..|ps| - 1];
      LogsPrefix(ar, w, st, front, n);
      assert front[..n] == ps[..n];
    }
  }

  lemma {:induction false} RestoreIsRun(ar: Arithmetic, w: Weights, st: State, ps: seq<Projected>)
    requires Shaped(st)
    ensures Restore(ar, st, Logs(ar, w, st, ps)) == Run(ar, w, st, ps)
  {
    if ps != [] {
      var front := ps[..|ps| - 1];
      RestoreIsRun(ar, w, st, front);
      assert Logs(ar, w, st, ps)[..|ps| - 1] == Logs(ar, w, st, front);
      RestoreStepIsStep(ar, w, Run(ar, w, st, front), ps[|ps| - 1]);
    }
  }

  /** Exact rollback: replaying the first n logged tokens of a block on the state the block
      started from gives the state the forward pass had after n tokens. */
  lemma {:induction false} RollbackExact(ar: Arithmetic, w: Weights, st: State, ps: seq<Projected>, n: nat)
    requires Shaped(st) && n <= |ps|
    ensures Restore(ar, st, Logs(ar, w, st, ps)[..n]) == Run(ar, w, st, ps[..n])
  {
    LogsPrefix(ar, w, st, ps, n);
    RestoreIsRun(ar, w, st, ps[..n]);
  }
}
