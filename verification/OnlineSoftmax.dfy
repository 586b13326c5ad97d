/** Gated attention over a K/V cache: the kernel keeps a running maximum and rescales what it has
    accumulated whenever the maximum moves; the result is the exponentially weighted mean of the
    cached values.  Arithmetic is over the reals, with the exponential as a parameter. */
module OnlineSoftmax {
  import opened ExtendedReal

  type Exponential = real -> real

  /** Positive, and turns sums into products. */
  ghost predicate Lawful(exp: Exponential) {
    forall x, y :: Law(exp, x, y)
  }

  ghost predicate Law(exp: Exponential, x: real, y: real) {
    exp(x) > 0.0 && exp(x) * exp(y) == exp(x + y)
  }

  // ---- what the kernel is to compute

  /** The sum of exp(scores[i]) * values[i]. */
  ghost function WeightedSum(exp: Exponential, scores: seq<real>, values: seq<real>): real
    requires |scores| == |values|
  {
    if scores == [] then 0.0
    else
      var n := |scores| - 1;
      WeightedSum(exp, scores[..n], values[..n]) + exp(scores[n]) * values[n]
  }

  ghost function Total(exp: Exponential, scores: seq<real>): real {
    if scores == [] then 0.0
    else
      var n := |scores| - 1;
      Total(exp, scores[..n]) + exp(scores[n])
  }

  lemma {:induction false} TotalPositive(exp: Exponential, scores: seq<real>)
    requires Lawful(exp) && scores != []
    ensures Total(exp, scores) > 0.0
  {
    var n := |scores| - 1;
    assert Law(exp, scores[n], 0.0);
    if n > 0 {
      TotalPositive(exp, scores[..n]);
    }
  }

  /** Softmax attention over all cached tokens, without any rescaling. */
  ghost function WeightedMean(exp: Exponential, scores: seq<real>, values: seq<real>): real
    requires Lawful(exp) && scores != [] && |scores| == |values|
  {
    TotalPositive(exp, scores);
    WeightedSum(exp, scores, values) / Total(exp, scores)
  }

  lemma Weighted(e: real, a: real, b: real, total: real, sum: real, c: real)
    requires e > 0.0 && total * c <= sum && c <= a && b == e * a
    ensures (total + e) * c <= sum + b
  {
    Times(e, c, a);
  }

  lemma Times(e: real, a: real, b: real)
    requires e > 0.0 && a <= b
    ensures e * a <= e * b
  {
  }

  /** A lower bound of the values, weighted. */
  lemma {:induction false} SumAbove(exp: Exponential, scores: seq<real>, values: seq<real>, low: real)
    requires Lawful(exp) && |scores| == |values| && forall i | 0 <= i < |values| :: low <= values[i]
    ensures Total(exp, scores) * low <= WeightedSum(exp, scores, values)
  {
    if scores != [] {
      var n := |scores| - 1;
      assert Law(exp, scores[n], 0.0);
      SumAbove(exp, scores[..n], values[..n], low);
      Weighted(exp(scores[n]), values[n], exp(scores[n]) * values[n], Total(exp, scores[..n]),
               WeightedSum(exp, scores[..n], values[..n]), low);
    }
  }

  lemma {:induction false} SumBelow(exp: Exponential, scores: seq<real>, values: seq<real>, high: real)
    requires Lawful(exp) && |scores| == |values| && forall i | 0 <= i < |values| :: values[i] <= high
    ensures WeightedSum(exp, scores, values) <= Total(exp, scores) * high
  {
    if scores != [] {
      var n := |scores| - 1;
      assert Law(exp, scores[n], 0.0);
      SumBelow(exp, scores[..n], values[..n], high);
      Weighted(exp(scores[n]), -values[n], -(exp(scores[n]) * values[n]), Total(exp, scores[..n]),
               -WeightedSum(exp, scores[..n], values[..n]), -high);
    }
  }

  lemma QuotientBetween(sum: real, total: real, low: real, high: real)
    requires total > 0.0 && total * low <= sum <= total * high
    ensures low <= sum / total <= high
  {
    var q := sum / total;
    assert q * total == sum;
    if q < low { Times(total, q, low); }
    if q > high { Times(total, high, q); }
  }

  /** A mean lies between bounds of its values; of equal values it is their value. */
  lemma MeanBetween(exp: Exponential, scores: seq<real>, values: seq<real>, low: real, high: real)
    requires Lawful(exp) && scores != [] && |scores| == |values|
    requires forall i | 0 <= i < |values| :: low <= values[i] <= high
    ensures low <= WeightedMean(exp, scores, values) <= high
  {
    TotalPositive(exp, scores);
    SumAbove(exp, scores, values, low);
    SumBelow(exp, scores, values, high);
    QuotientBetween(WeightedSum(exp, scores, values), Total(exp, scores), low, high);
  }

  // ---- one running step

  /** The exponential of a difference from the running maximum, which starts at minus infinity. */
  function Rescale(exp: Exponential, from: Extended, to: real): real {
    if from.MinusInfinity? then 0.0 else exp(from.value - to)
  }

  function NextMaximum(maximum: Extended, score: real): real {
    if Greater(maximum, Finite(score)) then maximum.value else score
  }

  /** x, kept relative to the running maximum, stands for the unscaled sum. */
  ghost predicate Stands(exp: Exponential, maximum: Extended, x: real, sum: real) {
    if maximum.MinusInfinity? then x == 0.0 && sum == 0.0 else x * exp(maximum.value) == sum
  }

  /** One token: what was accumulated is rescaled to the new maximum and the token's share added. */
  lemma StepStands(exp: Exponential, maximum: Extended, x: real, sum: real, score: real, value: real)
    requires Lawful(exp) && Stands(exp, maximum, x, sum)
    ensures var next := NextMaximum(maximum, score);
            Stands(exp, Finite(next), x * Rescale(exp, maximum, next) + value * exp(score - next),
                   sum + exp(score) * value)
  {
    var next := NextMaximum(maximum, score);
    assert Law(exp, score - next, next);
    Distribute(x, Rescale(exp, maximum, next), value, exp(score - next), exp(next));
    if maximum.Finite? {
      assert Law(exp, maximum.value - next, next);
      assert x * Rescale(exp, maximum, next) * exp(next) == x * (Rescale(exp, maximum, next) * exp(next));
    }
    assert value * exp(score - next) * exp(next) == value * (exp(score - next) * exp(next));
  }

  lemma Distribute(x: real, a: real, y: real, b: real, e: real)
    ensures (x * a + y * b) * e == x * a * e + y * b * e
  {
  }

  /** Dividing by the rescaled denominator removes the maximum. */
  lemma ScaleCancels(a: real, d: real, e: real, sum: real, total: real)
    requires e > 0.0 && total > 0.0 && a * e == sum && d * e == total
    ensures d != 0.0 && a / d == sum / total
  {
    var q := a / d;
    assert q * d == a;
    assert q * (d * e) == sum;
  }

  // ---- the kernels

  /** kv_append over its grid: the rows of a block go to consecutive slots, values rounded. */
  method KvAppend(key: seq<real>, value: seq<real>, keyCache: array<real>, valueCache: array<real>, round: real -> real,
                  position: nat, batch: nat)
    requires |key| == |value| == batch * 1024 && keyCache != valueCache
    requires (position + batch) * 1024 <= keyCache.Length && (position + batch) * 1024 <= valueCache.Length
    modifies keyCache, valueCache
    ensures keyCache[position * 1024..(position + batch) * 1024] == key
    ensures valueCache[position * 1024..(position + batch) * 1024]
            == Rounded(value, round)
    ensures HeadsHold(keyCache[..], position, batch, key)
    ensures HeadsHold(valueCache[..], position, batch, Rounded(value, round))
    ensures forall i | 0 <= i < keyCache.Length && !(position * 1024 <= i < (position + batch) * 1024) ::
              keyCache[i] == old(keyCache[i])
    ensures forall i | 0 <= i < valueCache.Length && !(position * 1024 <= i < (position + batch) * 1024) ::
              valueCache[i] == old(valueCache[i])
  {
    for index := 0 to batch * 1024
      invariant keyCache[position * 1024..position * 1024 + index] == key[..index]
      invariant forall i | 0 <= i < index :: valueCache[position * 1024..position * 1024 + index][i] == round(value[i])
      invariant forall i | 0 <= i < keyCache.Length && !(position * 1024 <= i < position * 1024 + index) ::
                  keyCache[i] == old(keyCache[i])
      invariant forall i | 0 <= i < valueCache.Length && !(position * 1024 <= i < position * 1024 + index) ::
                  valueCache[i] == old(valueCache[i])
    {
      var token, item := index / 1024, index % 1024;
      keyCache[(position + token) * 1024 + item] := key[index];
      valueCache[(position + token) * 1024 + item] := round(value[index]);
    }
    HeadsAppended(keyCache[..], position, batch, key);
    assert valueCache[position * 1024..(position + batch) * 1024] == Rounded(value, round);
    HeadsAppended(valueCache[..], position, batch, Rounded(value, round));
  }

  /** Token t of a cache in key/value head h. */
  function CacheSlice(cache: seq<real>, t: nat, h: nat): (r: seq<real>)
    requires h < 4 && (t + 1) * 1024 <= |cache|
    ensures |r| == 256
  {
    cache[(t * 4 + h) * 256..(t * 4 + h) * 256 + 256]
  }

  function Rounded(value: seq<real>, round: real -> real): (r: seq<real>)
    ensures |r| == |value|
  {
    seq(|value|, i requires 0 <= i < |value| => round(value[i]))
  }

  /** Behind the position, slot t of the cache holds in head h that head's elements of row t of a block:
      256 elements for each of four heads, 1024 for each row. */
  ghost predicate IsHead(cache: seq<real>, position: nat, block: seq<real>, t: nat, h: nat) {
    && h < 4 && (position + t + 1) * 1024 <= |cache| && (t + 1) * 1024 <= |block|
    && CacheSlice(cache, position + t, h) == block[t * 1024 + h * 256..t * 1024 + h * 256 + 256]
  }

  ghost predicate HeadsHold(cache: seq<real>, position: nat, batch: nat, block: seq<real>) {
    forall t: nat, h: nat | t < batch && h < 4 :: IsHead(cache, position, block, t, h)
  }

  lemma SliceOfSlice(s: seq<real>, low: nat, high: nat, from: nat, end: nat)
    requires low <= high <= |s| && from <= end <= high - low
    ensures s[low..high][from..end] == s[low + from..low + end]
  {
    forall i | 0 <= i < end - from
      ensures s[low..high][from..end][i] == s[low + from..low + end][i]
    {
      assert s[low..high][from + i] == s[low + from + i];
    }
  }

  lemma HeadsAppended(cache: seq<real>, position: nat, batch: nat, block: seq<real>)
    requires |block| == batch * 1024 && (position + batch) * 1024 <= |cache|
    requires cache[position * 1024..(position + batch) * 1024] == block
    ensures HeadsHold(cache, position, batch, block)
  {
    forall t: nat, h: nat | t < batch && h < 4
      ensures IsHead(cache, position, block, t, h)
    {
      var at: nat := t * 1024 + h * 256;
      SliceOfSlice(cache, position * 1024, (position + batch) * 1024, at, at + 256);
    }
  }

  function Dot(a: seq<real>, b: seq<real>): real
    requires |a| == |b|
  {
    if a == [] then 0.0 else Dot(a[..|a| - 1], b[..|b| - 1]) + a[|a| - 1] * b[|b| - 1]
  }

  /** The scaled scores of the first n cached tokens. */
  function Scores(q: seq<real>, keys: seq<real>, h: nat, n: nat): (r: seq<real>)
    requires |q| == 256 && h < 4 && n * 1024 <= |keys|
    ensures |r| == n
  {
    seq(n, t requires 0 <= t < n => Dot(q, CacheSlice(keys, t, h)) * 0.0625)
  }

  /** Element d of the first n cached values. */
  function Column(values: seq<real>, h: nat, d: nat, n: nat): (r: seq<real>)
    requires h < 4 && d < 256 && n * 1024 <= |values|
    ensures |r| == n
  {
    seq(n, t requires 0 <= t < n => CacheSlice(values, t, h)[d])
  }

  ghost predicate Accumulated(exp: Exponential, maximum: Extended, accumulators: seq<real>, denominator: real,
                              scores: seq<real>, values: seq<real>, h: nat, n: nat)
    requires h < 4 && n <= |scores| && n * 1024 <= |values|
  {
    && |accumulators| == 256 && (maximum.MinusInfinity? <==> n == 0)
    && Stands(exp, maximum, denominator, Total(exp, scores[..n]))
    && forall d | 0 <= d < 256 ::
         Stands(exp, maximum, accumulators[d], WeightedSum(exp, scores[..n], Column(values, h, d, n)))
  }

  lemma AccumulatedStep(exp: Exponential, maximum: Extended, accumulators: seq<real>, denominator: real,
                        scores: seq<real>, values: seq<real>, h: nat, n: nat, next: real, accumulators': seq<real>,
                        denominator': real)
    requires Lawful(exp) && h < 4 && n < |scores| && (n + 1) * 1024 <= |values|
    requires Accumulated(exp, maximum, accumulators, denominator, scores, values, h, n)
    requires next == NextMaximum(maximum, scores[n])
    requires denominator' == denominator * Rescale(exp, maximum, next) + exp(scores[n] - next)
    requires |accumulators'| == 256 && forall d | 0 <= d < 256 ::
               accumulators'[d] == accumulators[d] * Rescale(exp, maximum, next)
                 + CacheSlice(values, n, h)[d] * exp(scores[n] - next)
    ensures Accumulated(exp, Finite(next), accumulators', denominator', scores, values, h, n + 1)
  {
    assert scores[..n + 1][..n] == scores[..n];
    StepStands(exp, maximum, denominator, Total(exp, scores[..n]), scores[n], 1.0);
    forall d | 0 <= d < 256
      ensures Stands(exp, Finite(next), accumulators'[d],
                     WeightedSum(exp, scores[..n + 1], Column(values, h, d, n + 1)))
    {
      ColumnStep(exp, maximum, accumulators[d], accumulators'[d], scores, values, h, n, next, d);
    }
  }

  lemma ColumnStep(exp: Exponential, maximum: Extended, x: real, x': real, scores: seq<real>, values: seq<real>, h: nat,
                   n: nat, next: real, d: nat)
    requires Lawful(exp) && h < 4 && n < |scores| && (n + 1) * 1024 <= |values| && d < 256
    requires Stands(exp, maximum, x, WeightedSum(exp, scores[..n], Column(values, h, d, n)))
    requires next == NextMaximum(maximum, scores[n])
    requires x' == x * Rescale(exp, maximum, next) + CacheSlice(values, n, h)[d] * exp(scores[n] - next)
    ensures Stands(exp, Finite(next), x', WeightedSum(exp, scores[..n + 1], Column(values, h, d, n + 1)))
  {
    var column := Column(values, h, d, n + 1);
    assert column[..n] == Column(values, h, d, n);
    assert scores[..n + 1][..n] == scores[..n];
    StepStands(exp, maximum, x, WeightedSum(exp, scores[..n], column[..n]), scores[n], column[n]);
  }

  function Sigmoid(exp: Exponential, x: real): real
    requires Lawful(exp)
  {
    assert Law(exp, -x, 0.0);
    1.0 / (1.0 + exp(-x))
  }

  lemma LawAt(exp: Exponential, x: real, y: real, sum: real)
    requires Lawful(exp) && sum == x + y
    ensures exp(x) > 0.0 && exp(y) > 0.0 && exp(x) * exp(y) == exp(sum)
  {
    assert Law(exp, x, y) && Law(exp, y, x);
  }

  lemma ExponentialOfZero(exp: Exponential, x: real, zero: real)
    requires Lawful(exp) && zero == 0.0
    ensures exp(zero) == 1.0
  {
    LawAt(exp, zero, x, x);
    Cancel(exp(zero), exp(x));
  }

  lemma Halves(e: real, f: real)
    requires e > 0.0 && f > 0.0 && e * f == 1.0
    ensures 1.0 / (1.0 + f) + 1.0 / (1.0 + e) == 1.0
  {
    var p, q := 1.0 / (1.0 + f), 1.0 / (1.0 + e);
    assert p * (1.0 + f) == 1.0 && q * (1.0 + e) == 1.0;
    assert (1.0 + f) * (1.0 + e) == (1.0 + f) + (1.0 + e);
    Common(p, q, 1.0 + f, 1.0 + e);
  }

  lemma Common(p: real, q: real, a: real, b: real)
    requires a > 0.0 && b > 0.0 && p * a == 1.0 && q * b == 1.0 && a * b == a + b
    ensures p + q == 1.0
  {
    assert p * (a * b) == (p * a) * b == b;
    assert q * (a * b) == (q * b) * a == a;
    assert (p + q) * (a * b) == p * (a * b) + q * (a * b) == a * b;
    Cancel(p + q, a * b);
  }

  lemma Cancel(x: real, y: real)
    requires y > 0.0 && x * y == y
    ensures x == 1.0
  {
    assert (x - 1.0) * y == 0.0;
  }

  lemma AboveHalf(f: real)
    requires 0.0 < f <= 1.0
    ensures 0.5 <= 1.0 / (1.0 + f) < 1.0
  {
    var p := 1.0 / (1.0 + f);
    assert p * (1.0 + f) == 1.0;
    assert p > 0.0;
    if p < 0.5 { Times(1.0 + f, p, 0.5); }
    if p >= 1.0 { Times(1.0 + f, 1.0, p); }
  }

  /** The gate: symmetric about one half, and, if the exponential grows, at least that from zero on. */
  lemma SigmoidSymmetric(exp: Exponential, x: real)
    requires Lawful(exp)
    ensures Sigmoid(exp, x) + Sigmoid(exp, -x) == 1.0
    ensures x >= 0.0 && (forall y, z | y <= z :: exp(y) <= exp(z)) ==> 0.5 <= Sigmoid(exp, x) < 1.0
  {
    ExponentialOfZero(exp, x, 0.0);
    LawAt(exp, x, -x, 0.0);
    assert -(-x) == x;
    Halves(exp(x), exp(-x));
    if x >= 0.0 && forall y, z | y <= z :: exp(y) <= exp(z) {
      assert exp(-x) <= exp(0.0);
      AboveHalf(exp(-x));
    }
  }

  /** One cached token. */
  method AttendToken(exp: Exponential, score: real, value: seq<real>, maximum: Extended, accumulators: seq<real>,
                     denominator: real, ghost scores: seq<real>, ghost values: seq<real>, ghost h: nat, ghost t: nat)
    returns (maximum': Extended, accumulators': seq<real>, denominator': real)
    requires Lawful(exp) && h < 4 && t < |scores| && (t + 1) * 1024 <= |values|
    requires score == scores[t] && value == CacheSlice(values, t, h)
    requires Accumulated(exp, maximum, accumulators, denominator, scores, values, h, t)
    ensures Accumulated(exp, maximum', accumulators', denominator', scores, values, h, t + 1)
  {
    var next := NextMaximum(maximum, score);
    var alpha, beta := Rescale(exp, maximum, next), exp(score - next);
    denominator' := denominator * alpha + beta;
    accumulators' := seq(256, d requires 0 <= d < 256 => accumulators[d] * alpha + value[d] * beta);
    maximum' := Finite(next);
    AccumulatedStep(exp, maximum, accumulators, denominator, scores, values, h, t, next, accumulators', denominator');
  }

  /** Every element of the output is the weighted mean of its column over the n tokens, times the
      sigmoid of its gate. */
  ghost predicate Attended(exp: Exponential, output: seq<real>, q: seq<real>, gates: seq<real>, keys: seq<real>,
                           values: seq<real>, h: nat, n: nat)
    requires Lawful(exp) && |q| == |gates| == 256 && h < 4 && 0 < n
    requires n * 1024 <= |keys| && n * 1024 <= |values|
  {
    && |output| == 256
    && forall d | 0 <= d < 256 ::
         output[d] == WeightedMean(exp, Scores(q, keys, h, n), Column(values, h, d, n)) * Sigmoid(exp, gates[d])
  }

  /** One thread block of gated_attention_decode: one query head of one lane of a block.  The lane
      attends to the tokens before the block and to the block's tokens up to its own; what lies
      above them in the cache does not matter. */
  method GatedAttentionBlock(exp: Exponential, query: seq<real>, gate: seq<real>, keys: seq<real>, values: seq<real>,
                             basePosition: nat, lane: nat, queryHead: nat) returns (output: seq<real>)
    requires Lawful(exp) && queryHead < 24
    requires (lane + 1) * 6144 <= |query| && (lane + 1) * 12288 <= |gate|
    requires (basePosition + lane + 1) * 1024 <= |keys| && (basePosition + lane + 1) * 1024 <= |values|
    ensures var from, n, at := lane * 6144 + queryHead * 256, basePosition + lane + 1,
                               lane * 12288 + queryHead * 512 + 256;
            Attended(exp, output, query[from..from + 256], gate[at..at + 256], keys[..n * 1024], values[..n * 1024],
                     queryHead / 6, n)
  {
    var from, n, at := lane * 6144 + queryHead * 256, basePosition + lane + 1, lane * 12288 + queryHead * 512 + 256;
    output := AttendGated(exp, query[from..from + 256], gate[at..at + 256], keys, values, queryHead / 6, n);
  }

  method AttendGated(exp: Exponential, q: seq<real>, gates: seq<real>, keys: seq<real>, values: seq<real>, h: nat,
                     n: nat) returns (output: seq<real>)
    requires Lawful(exp) && |q| == |gates| == 256 && h < 4 && 0 < n
    requires n * 1024 <= |keys| && n * 1024 <= |values|
    ensures Attended(exp, output, q, gates, keys[..n * 1024], values[..n * 1024], h, n)
  {
    ghost var scores, seen := Scores(q, keys[..n * 1024], h, n), values[..n * 1024];
    var maximum, accumulators, denominator := AttendAll(exp, q, keys, values, h, n);
    output := Finish(exp, maximum, accumulators, denominator, gates, scores, seen, h);
  }

  /** The loop over the first n cached tokens. */
  method AttendAll(exp: Exponential, q: seq<real>, keys: seq<real>, values: seq<real>, h: nat, n: nat)
    returns (maximum: Extended, accumulators: seq<real>, denominator: real)
    requires Lawful(exp) && h < 4 && |q| == 256 && n * 1024 <= |keys| && n * 1024 <= |values|
    ensures Accumulated(exp, maximum, accumulators, denominator, Scores(q, keys[..n * 1024], h, n), values[..n * 1024],
                        h, n)
  {
    ghost var scores, seen := Scores(q, keys[..n * 1024], h, n), values[..n * 1024];
    accumulators, denominator, maximum := seq(256, _ => 0.0), 0.0, MinusInfinity;
    for token := 0 to n
      invariant Accumulated(exp, maximum, accumulators, denominator, scores, seen, h, token)
    {
      SlicePrefix(keys, token, h, n);
      SlicePrefix(values, token, h, n);
      var score, value := Dot(q, CacheSlice(keys, token, h)) * 0.0625, CacheSlice(values, token, h);
      maximum, accumulators, denominator :=
        AttendToken(exp, score, value, maximum, accumulators, denominator, scores, seen, h, token);
    }
  }

  lemma SlicePrefix(cache: seq<real>, t: nat, h: nat, n: nat)
    requires t < n && h < 4 && n * 1024 <= |cache|
    ensures CacheSlice(cache, t, h) == CacheSlice(cache[..n * 1024], t, h)
  {
  }

  /** The gated quotient of accumulator and denominator. */
  method Finish(exp: Exponential, ghost maximum: Extended, accumulators: seq<real>, denominator: real, gates: seq<real>,
                ghost scores: seq<real>, ghost values: seq<real>, ghost h: nat) returns (output: seq<real>)
    requires Lawful(exp) && h < 4 && scores != [] && |scores| * 1024 <= |values| && |gates| == 256
    requires Accumulated(exp, maximum, accumulators, denominator, scores, values, h, |scores|)
    ensures |output| == 256
    ensures forall d | 0 <= d < 256 ::
              output[d] == WeightedMean(exp, scores, Column(values, h, d, |scores|)) * Sigmoid(exp, gates[d])
  {
    assert scores[..|scores|] == scores;
    TotalPositive(exp, scores);
    assert Law(exp, maximum.value, 0.0);
    ScaleCancels(denominator, denominator, exp(maximum.value), Total(exp, scores), Total(exp, scores));
    output := [];
    for d := 0 to 256
      invariant |output| == d
      invariant forall c | 0 <= c < d ::
                  output[c] == WeightedMean(exp, scores, Column(values, h, c, |scores|)) * Sigmoid(exp, gates[c])
    {
      assert Stands(exp, maximum, accumulators[d],
                    WeightedSum(exp, scores[..|scores|], Column(values, h, d, |scores|)));
      ScaleCancels(accumulators[d], denominator, exp(maximum.value),
                   WeightedSum(exp, scores, Column(values, h, d, |scores|)), Total(exp, scores));
      output := output + [accumulators[d] / denominator * Sigmoid(exp, gates[d])];
    }
  }
}
