/** What one token does to a head, read over the real numbers: the state decays, and is corrected along
    the token's key by what the decayed state gets wrong about the token's value.  The definitions of
    the step are not used to say so. */
module GatedDelta {
  import opened Scalars
  import opened GdnModel
  import opened GdnKernels
  import Seals

  /** Column v of a head along a direction of the key space. */
  ghost function Along(value: Float -> real, head: seq<Float>, direction: nat -> real, v: nat, n: nat): real
    requires |head| == 16384 && v < 128 && n <= 128
  {
    if n == 0 then 0.0
    else Along(value, head, direction, v, n - 1) + value(head[(n - 1) * 128 + v]) * direction(n - 1)
  }

  /** The inner product of two directions. */
  ghost function Overlap(a: nat -> real, b: nat -> real, n: nat): real {
    if n == 0 then 0.0 else Overlap(a, b, n - 1) + a(n - 1) * b(n - 1)
  }

  /** A key as a direction. */
  ghost function Direction(value: Float -> real, key: seq<Float>): nat -> real {
    (k: nat) => if k < |key| then value(key[k]) else 0.0
  }

  lemma {:induction false} MemoryIsAlong(ar: Arithmetic, value: Float -> real, head: seq<Float>, key: seq<Float>,
                                         v: nat, n: nat)
    requires Exact(ar, value) && |head| == 16384 && |key| == 128 && v < 128 && n <= 128
    ensures value(Memory(ar, head, key, v, n)) == Along(value, head, Direction(value, key), v, n)
  {
    if n > 0 {
      MemoryIsAlong(ar, value, head, key, v, n - 1);
      assert ExactAt(ar, value, head[(n - 1) * 128 + v], key[n - 1], Memory(ar, head, key, v, n - 1));
    }
  }

  lemma Scaled(a: real, x: real, d: real, sum: real)
    ensures a * sum + x * a * d == a * (sum + x * d)
  {
  }

  /** A decayed state is the state times its decay, in every direction. */
  lemma {:induction false} DecayedAlong(ar: Arithmetic, value: Float -> real, s: seq<Float>, decay: Float,
                                        direction: nat -> real, v: nat, n: nat)
    requires Exact(ar, value) && |s| == 16384 && v < 128 && n <= 128
    ensures Along(value, Decayed(ar, s, decay), direction, v, n) == value(decay) * Along(value, s, direction, v, n)
  {
    if n > 0 {
      var x := s[(n - 1) * 128 + v];
      DecayedAlong(ar, value, s, decay, direction, v, n - 1);
      assert ExactAt(ar, value, x, decay, ar.zero);
      assert Decayed(ar, s, decay)[(n - 1) * 128 + v] == ar.mul(x, decay);
      Scaled(value(decay), value(x), direction(n - 1), Along(value, s, direction, v, n - 1));
    }
  }

  /** A sum and a gated error, behind a seal. */
  ghost predicate IsMoved(after: real, from: real, gain: real, overlap: real) {
    forall seal {:trigger Seals.Opened(seal)} | Seals.Opened(seal) && seal == Seals.Law ::
      after == from + gain * overlap
  }

  ghost predicate IsGain(gain: real, x: real, decay: real, recalled: real, gate: real) {
    forall seal {:trigger Seals.Opened(seal)} | Seals.Opened(seal) && seal == Seals.Law ::
      gain == (x - decay * recalled) * gate
  }

  lemma MovedNext(after: real, from: real, gain: real, overlap: real, k: real, x: real, d: real, element: real)
    requires IsMoved(after, from, gain, overlap) && element == k * gain + x
    ensures IsMoved(after + element * d, from + x * d, gain, overlap + k * d)
  {
    assert Seals.Opened(Seals.Law);
    assert (from + gain * overlap) + (k * gain + x) * d == (from + x * d) + gain * (overlap + k * d);
  }

  lemma RankElement(ar: Arithmetic, decayed: seq<Float>, key: seq<Float>, delta: seq<Float>, k: nat, v: nat)
    requires |decayed| == 16384 && |key| == 128 && |delta| == 128 && k < 128 && v < 128
    ensures Rank1(ar, decayed, key, delta)[k * 128 + v] == ar.fma(key[k], delta[v], decayed[k * 128 + v])
  {
  }

  lemma RankElementValue(ar: Arithmetic, value: Float -> real, decayed: seq<Float>, key: seq<Float>,
                         delta: seq<Float>, k: nat, v: nat)
    requires Exact(ar, value) && |decayed| == 16384 && |key| == 128 && |delta| == 128 && k < 128 && v < 128
    ensures value(Rank1(ar, decayed, key, delta)[k * 128 + v])
            == Direction(value, key)(k) * value(delta[v]) + value(decayed[k * 128 + v])
  {
    RankElement(ar, decayed, key, delta, k, v);
    assert ExactAt(ar, value, key[k], delta[v], decayed[k * 128 + v]);
  }

  /** The rank-1 update adds to a column along the key. */
  lemma {:induction false} RankAlong(ar: Arithmetic, value: Float -> real, decayed: seq<Float>, key: seq<Float>,
                                     delta: seq<Float>, direction: nat -> real, v: nat, n: nat)
    requires Exact(ar, value) && |decayed| == 16384 && |key| == 128 && |delta| == 128 && v < 128 && n <= 128
    ensures IsMoved(Along(value, Rank1(ar, decayed, key, delta), direction, v, n),
                    Along(value, decayed, direction, v, n), value(delta[v]),
                    Overlap(Direction(value, key), direction, n))
  {
    if n > 0 {
      var last := n - 1;
      RankAlong(ar, value, decayed, key, delta, direction, v, last);
      RankElementValue(ar, value, decayed, key, delta, last, v);
      MovedNext(Along(value, Rank1(ar, decayed, key, delta), direction, v, last),
                Along(value, decayed, direction, v, last), value(delta[v]),
                Overlap(Direction(value, key), direction, last), Direction(value, key)(last),
                value(decayed[last * 128 + v]), direction(last), value(Rank1(ar, decayed, key, delta)[last * 128 + v]));
    }
  }

  lemma {:induction false} DeltaValue(ar: Arithmetic, value: Float -> real, s: seq<Float>, tok: HeadToken, v: nat,
                                      n: nat)
    requires Exact(ar, value) && |s| == 16384 && TokenShaped(tok) && v < 128 && n == 128
    ensures value(Delta(ar, s, tok)[v])
            == (value(ar.toFloat(tok.value[v])) - value(tok.decay) * Along(value, s, Direction(value, tok.key), v, n))
               * value(tok.beta)
  {
    var decayed, x := Decayed(ar, s, tok.decay), ar.toFloat(tok.value[v]);
    var memory := Memory(ar, decayed, tok.key, v, n);
    MemoryIsAlong(ar, value, decayed, tok.key, v, n);
    DecayedAlong(ar, value, s, tok.decay, Direction(value, tok.key), v, n);
    assert ExactAt(ar, value, x, memory, ar.zero);
    assert ExactAt(ar, value, ar.sub(x, memory), tok.beta, ar.zero);
  }

  /** The law for the numbers of one column: what is recalled for the key is corrected by the gated error,
      in proportion to the overlap. */
  ghost predicate Corrected(decay: real, gate: real, x: real, recalled: real, before: real, overlap: real,
                            after: real) {
    after == decay * before + (x - decay * recalled) * gate * overlap
  }

  /** The gated delta law between two states of a head: in every direction and column, the new state is
      the decayed one plus the direction's overlap with the key times the gated error of what the
      decayed state recalls for the key. */
  ghost predicate Obeys(ar: Arithmetic, value: Float -> real, before: seq<Float>, after: seq<Float>, tok: HeadToken,
                        direction: nat -> real, v: nat)
    requires |before| == |after| == 16384 && TokenShaped(tok) && v < 128
  {
    var key, n := Direction(value, tok.key), |tok.key|;
    Corrected(value(tok.decay), value(tok.beta), value(ar.toFloat(tok.value[v])), Along(value, before, key, v, n),
              Along(value, before, direction, v, n), Overlap(key, direction, n), Along(value, after, direction, v, n))
  }

  lemma CorrectedBy(decay: real, gate: real, x: real, recalled: real, before: real, overlap: real, after: real,
                    gain: real, decayed: real)
    requires IsGain(gain, x, decay, recalled, gate) && Seals.IsProduct(decayed, decay, before)
    requires IsMoved(after, decayed, gain, overlap)
    ensures Corrected(decay, gate, x, recalled, before, overlap, after)
  {
    assert Seals.Opened(Seals.Law);
  }

  lemma {:induction false} DecayedBy(ar: Arithmetic, value: Float -> real, s: seq<Float>, tok: HeadToken,
                                     direction: nat -> real, v: nat, n: nat)
    requires Exact(ar, value) && |s| == 16384 && TokenShaped(tok) && v < 128 && n == |tok.key|
    ensures Seals.IsProduct(Along(value, Decayed(ar, s, tok.decay), direction, v, n), value(tok.decay),
                            Along(value, s, direction, v, n))
  {
    DecayedAlong(ar, value, s, tok.decay, direction, v, n);
  }

  lemma {:induction false} GainedBy(ar: Arithmetic, value: Float -> real, s: seq<Float>, tok: HeadToken, v: nat, n: nat)
    requires Exact(ar, value) && |s| == 16384 && TokenShaped(tok) && v < 128 && n == |tok.key|
    ensures IsGain(value(Delta(ar, s, tok)[v]), value(ar.toFloat(tok.value[v])), value(tok.decay),
                   Along(value, s, Direction(value, tok.key), v, n), value(tok.beta))
  {
    DeltaValue(ar, value, s, tok, v, n);
  }

  lemma StepObeys(ar: Arithmetic, value: Float -> real, s: seq<Float>, tok: HeadToken, direction: nat -> real, v: nat)
    requires Exact(ar, value) && |s| == 16384 && TokenShaped(tok) && v < 128
    ensures Obeys(ar, value, s, HeadStep(ar, s, tok), tok, direction, v)
  {
    var n := |tok.key|;
    RankAlong(ar, value, Decayed(ar, s, tok.decay), tok.key, Delta(ar, s, tok), direction, v, n);
    DecayedBy(ar, value, s, tok, direction, v, n);
    GainedBy(ar, value, s, tok, v, n);
    CorrectedBy(value(tok.decay), value(tok.beta), value(ar.toFloat(tok.value[v])),
                Along(value, s, Direction(value, tok.key), v, n), Along(value, s, direction, v, n),
                Overlap(Direction(value, tok.key), direction, n), Along(value, HeadStep(ar, s, tok), direction, v, n),
                value(Delta(ar, s, tok)[v]), Along(value, Decayed(ar, s, tok.decay), direction, v, n));
  }

  /** It holds between the heads that the recurrent kernel leaves after t and after t + 1 tokens. */
  lemma {:induction false} GatedDeltaLaw(ar: Arithmetic, value: Float -> real, w: Weights, st: State,
                                         ps: seq<Projected>, h: nat, t: nat, direction: nat -> real, v: nat)
    requires Exact(ar, value) && Shaped(st) && h < 48 && t < |ps| && v < 128
    ensures |ConvolvedRows(ar, w, st, ps)[t]| == 10240
    ensures Obeys(ar, value, Run(ar, w, st, ps[..t]).heads[h], Run(ar, w, st, ps[..t + 1]).heads[h],
                  TokenOf(w, ConvolvedRows(ar, w, st, ps)[t], ps[t], h), direction, v)
  {
    TokenAt(ar, w, st, ps, h, t);
    StepObeys(ar, value, Run(ar, w, st, ps[..t]).heads[h], TokenOf(w, ConvolvedRows(ar, w, st, ps)[t], ps[t], h),
              direction, v);
  }

  lemma FullGate(decay: real, x: real, recalled: real, after: real)
    requires Corrected(decay, 1.0, x, recalled, recalled, 1.0, after)
    ensures after == x
  {
  }

  lemma NoOverlap(decay: real, gate: real, x: real, recalled: real, before: real, after: real)
    requires Corrected(decay, gate, x, recalled, before, 0.0, after)
    ensures after == decay * before
  {
  }

  /** A head that obeys the law recalls the value exactly for a unit key at full gate. */
  lemma {:induction false} UnitKeyRecalls(ar: Arithmetic, value: Float -> real, before: seq<Float>, after: seq<Float>,
                                          tok: HeadToken, v: nat, key: nat -> real)
    requires |before| == |after| == 16384 && TokenShaped(tok) && v < 128 && key == Direction(value, tok.key)
    requires Obeys(ar, value, before, after, tok, key, v)
    requires Overlap(key, key, |tok.key|) == 1.0 && value(tok.beta) == 1.0
    ensures Along(value, after, key, v, |tok.key|) == value(ar.toFloat(tok.value[v]))
  {
    FullGate(value(tok.decay), value(ar.toFloat(tok.value[v])), Along(value, before, key, v, |tok.key|),
             Along(value, after, key, v, |tok.key|));
  }

  /** In a direction without overlap with the key it only decays. */
  lemma {:induction false} OrthogonalDecays(ar: Arithmetic, value: Float -> real, before: seq<Float>, after: seq<Float>,
                                            tok: HeadToken, v: nat, direction: nat -> real)
    requires |before| == |after| == 16384 && TokenShaped(tok) && v < 128
    requires Obeys(ar, value, before, after, tok, direction, v)
    requires Overlap(Direction(value, tok.key), direction, |tok.key|) == 0.0
    ensures Along(value, after, direction, v, |tok.key|)
            == value(tok.decay) * Along(value, before, direction, v, |tok.key|)
  {
    NoOverlap(value(tok.decay), value(tok.beta), value(ar.toFloat(tok.value[v])),
              Along(value, before, Direction(value, tok.key), v, |tok.key|),
              Along(value, before, direction, v, |tok.key|), Along(value, after, direction, v, |tok.key|));
  }

  // ---- the convolution windows

  /** The window of a channel holds the last four of its taps and of what the tokens append. */
  lemma {:induction false} WindowIsLast(ar: Arithmetic, w: Weights, st: State, ps: seq<Projected>, c: nat)
    requires Shaped(st) && c < 10240
    ensures var appended := seq(|ps|, t requires 0 <= t < |ps| => ar.toHalf(ps[t].qkv(c)));
            Run(ar, w, st, ps).conv[c] == (st.conv[c] + appended)[|ps|..]
  {
    var appended := seq(|ps|, t requires 0 <= t < |ps| => ar.toHalf(ps[t].qkv(c)));
    if ps == [] {
      assert st.conv[c] + appended == st.conv[c];
    } else {
      var n := |ps| - 1;
      WindowIsLast(ar, w, st, ps[..n], c);
      var less := seq(n, t requires 0 <= t < n => ar.toHalf(ps[..n][t].qkv(c)));
      assert appended == less + [ar.toHalf(ps[n].qkv(c))];
      WindowMoves(st.conv[c], less, ar.toHalf(ps[n].qkv(c)));
    }
  }

  lemma WindowMoves(taps: seq<Half>, less: seq<Half>, x: Half)
    requires |taps| == 4
    ensures Push((taps + less)[|less|..], x) == (taps + (less + [x]))[|less| + 1..]
  {
  }

  /** Three consecutive value heads share the key of a key head, and each has a value of its own. */
  lemma HeadsShareKeys(w: Weights, row: seq<Half>, p: Projected, k: nat, h: nat)
    requires |row| == 10240 && k < 16 && 3 * k <= h < 3 * k + 3
    ensures TokenOf(w, row, p, h).key == NormalizedKey(w, row[2048 + 128 * k..2048 + 128 * k + 128])
    ensures TokenOf(w, row, p, h).value == row[4096 + 128 * h..4096 + 128 * h + 128]
  {
    assert h / 3 == k;
  }
}
