/** The recurrent-layer kernels over flat device memory: one loop per thread or thread block, the
    layer's offsets already added to the pointers, proved against the layer as a function of its
    state. */
module GdnKernels {
  import opened Scalars
  import opened GdnModel
  import opened DeviceMemory

  /** A device pointer: an allocation and an offset into it. */
  datatype Pointer<!T> = Pointer(buffer: Buffer<T>, base: nat) {
    ghost predicate Holds(xs: seq<T>)
      reads buffer
    {
      base + |xs| <= |buffer.cells| && buffer.cells[base..base + |xs|] == xs
    }
  }

  // ---- convolution state: 10240 channels of four taps

  function FlatConv(conv: seq<seq<Half>>): (r: seq<Half>)
    requires ConvShaped(conv)
    ensures |r| == 40960
  {
    seq(40960, i requires 0 <= i < 40960 => conv[i / 4][i % 4])
  }

  /** The taps of channel c after n tokens. */
  function ChannelAfter(ar: Arithmetic, taps: seq<Half>, ps: seq<Projected>, c: nat, n: nat): (r: seq<Half>)
    requires |taps| == 4 && n <= |ps|
    ensures |r| == 4
  {
    if n == 0 then taps else Push(ChannelAfter(ar, taps, ps, c, n - 1), ar.toHalf(ps[n - 1].qkv(c)))
  }

  lemma {:induction false} ChannelOfRun(ar: Arithmetic, w: Weights, st: State, ps: seq<Projected>, c: nat, n: nat)
    requires Shaped(st) && c < 10240 && n <= |ps|
    ensures Run(ar, w, st, ps[..n]).conv[c] == ChannelAfter(ar, st.conv[c], ps, c, n)
  {
    if n > 0 {
      ChannelOfRun(ar, w, st, ps, c, n - 1);
      assert ps[..n][..n - 1] == ps[..n - 1];
    }
  }

  /** What a thread leaves in cell i of a row-major buffer of 10240 channels: channel c has the
      first n rows of a column written. */
  ghost predicate ColumnWritten(before: seq<Half>, after: seq<Half>, base: nat, c: nat, column: seq<Half>) {
    && |after| == |before|
    && forall i | 0 <= i < |after| ::
         after[i] == if base <= i < base + |column| * 10240
           && (i - base) % 10240 == c then column[(i - base) / 10240] else before[i]
  }

  lemma ColumnGrows(before: seq<Half>, now: seq<Half>, base: nat, c: nat, column: seq<Half>, t: nat)
    requires c < 10240 && t < |column| && ColumnWritten(before, now, base, c, column[..t])
             && base + (t + 1) * 10240 <= |now|
    ensures ColumnWritten(before, now[base + t * 10240 + c := column[t]], base, c, column[..t + 1])
  {
  }

  /** The token column of channel c: what it appends, and what it hands on. */
  function AppendedColumn(ar: Arithmetic, ps: seq<Projected>, c: nat): (r: seq<Half>)
    ensures |r| == |ps|
  {
    seq(|ps|, t requires 0 <= t < |ps| => ar.toHalf(ps[t].qkv(c)))
  }

  function ConvolvedColumn(ar: Arithmetic, w: Weights, taps: seq<Half>, ps: seq<Projected>, c: nat): (r: seq<Half>)
    requires |taps| == 4
    ensures |r| == |ps|
  {
    seq(|ps|, t requires 0 <= t < |ps| => w.convolve(c, ChannelAfter(ar, taps, ps, c, t + 1)))
  }

  lemma ChannelNext(ar: Arithmetic, w: Weights, before: seq<Half>, ps: seq<Projected>, c: nat, t: nat, taps: seq<Half>)
    requires |before| == 4 && t < |ps| && taps == Push(ChannelAfter(ar, before, ps, c, t), ar.toHalf(ps[t].qkv(c)))
    ensures taps == ChannelAfter(ar, before, ps, c, t + 1) && |taps| == 4
    ensures taps[3] == AppendedColumn(ar, ps, c)[t] && w.convolve(c, taps) == ConvolvedColumn(ar, w, before, ps, c)[t]
  {
  }

  /** One thread of gdn_conv_update: the tokens of a block through channel c, whose taps are kept
      in registers from the first token to the last. */
  method ConvUpdateChannel(ar: Arithmetic, w: Weights, projected: seq<Float>, initial: Pointer<Half>,
                           final: Pointer<Half>, output: Buffer<Half>, log: Pointer<Half>, logged: bool, c: nat,
                           batch: nat, ghost ps: seq<Projected>, ghost before: seq<Half>)
    requires c < 10240 && Pointer(initial.buffer, initial.base + c * 4).Holds(before) && |before| == 4
    requires final.base + 40960 <= |final.buffer.cells|
    requires output !in {initial.buffer, final.buffer, log.buffer} && log.buffer !in {initial.buffer, final.buffer}
    requires |projected| == |output.cells| == batch * 10240
             && (logged ==> log.base + batch * 10240 <= |log.buffer.cells|)
    requires |ps| == batch && forall t | 0 <= t < batch :: projected[t * 10240 + c] == ps[t].qkv(c)
    modifies final.buffer, output, log.buffer
    ensures final.buffer.cells == Overwrite(old(final.buffer.cells), final.base + c * 4,
                                            ChannelAfter(ar, before, ps, c, batch))
    ensures ColumnWritten(old(output.cells), output.cells, 0, c, ConvolvedColumn(ar, w, before, ps, c))
    ensures if logged then ColumnWritten(old(log.buffer.cells), log.buffer.cells, log.base, c,
                                         AppendedColumn(ar, ps, c))
            else log.buffer.cells == old(log.buffer.cells)
  {
    var taps := initial.buffer.cells[initial.base + c * 4..initial.base + c * 4 + 4];
    ghost var convolved, appended := ConvolvedColumn(ar, w, before, ps, c), AppendedColumn(ar, ps, c);
    ghost var out, logs := output.cells, log.buffer.cells;
    for t := 0 to batch
      modifies output, log.buffer
      invariant taps == ChannelAfter(ar, before, ps, c, t)
      invariant ColumnWritten(out, output.cells, 0, c, convolved[..t])
      invariant if logged then ColumnWritten(logs, log.buffer.cells, log.base, c, appended[..t])
                else log.buffer.cells == logs
    {
      assert projected[t * 10240 + c] == ps[t].qkv(c);
      taps := Push(taps, ar.toHalf(projected[t * 10240 + c]));
      ChannelNext(ar, w, before, ps, c, t, taps);
      if logged {
        ColumnGrows(logs, log.buffer.cells, log.base, c, appended, t);
        log.buffer.cells := log.buffer.cells[log.base + t * 10240 + c := taps[3]];
      }
      ColumnGrows(out, output.cells, 0, c, convolved, t);
      output.cells := output.cells[t * 10240 + c := w.convolve(c, taps)];
    }
    assert convolved[..batch] == convolved && appended[..batch] == appended;
    final.buffer.cells := Overwrite(final.buffer.cells, final.base + c * 4, taps);
  }

  /** The first n channels of every row are written. */
  ghost predicate ColumnsWritten(before: seq<Half>, after: seq<Half>, base: nat, n: nat, rows: seq<seq<Half>>)
    requires n <= 10240 && forall t | 0 <= t < |rows| :: |rows[t]| == 10240
  {
    && |after| == |before|
    && forall i | 0 <= i < |after| ::
         after[i] == if base <= i < base + |rows| * 10240
           && (i - base) % 10240 < n then rows[(i - base) / 10240][(i - base) % 10240]
                     else before[i]
  }

  lemma ColumnsGrow(before: seq<Half>, now: seq<Half>, next: seq<Half>, base: nat, c: nat, rows: seq<seq<Half>>,
                    column: seq<Half>)
    requires c < 10240 && |column| == |rows|
             && forall t | 0 <= t < |rows| :: |rows[t]| == 10240 && rows[t][c] == column[t]
    requires ColumnsWritten(before, now, base, c, rows) && ColumnWritten(now, next, base, c, column)
    ensures ColumnsWritten(before, next, base, c + 1, rows)
  {
  }

  /** Row t of a row-major buffer. */
  ghost predicate RowHeld<T>(cells: seq<T>, base: nat, width: nat, t: nat, row: seq<T>) {
    base + t * width + width <= |cells| && cells[base + t * width..base + t * width + width] == row
  }

  /** All rows are held, and the rest of the buffer is as it was. */
  ghost predicate RowsHeld(before: seq<Half>, after: seq<Half>, base: nat, rows: seq<seq<Half>>) {
    && |after| == |before| && base + |rows| * 10240 <= |after|
    && (forall t | 0 <= t < |rows| :: RowHeld(after, base, 10240, t, rows[t]))
    && after[..base] == before[..base] && after[base + |rows| * 10240..] == before[base + |rows| * 10240..]
  }

  lemma ColumnsAreRows(before: seq<Half>, after: seq<Half>, base: nat, rows: seq<seq<Half>>)
    requires forall t | 0 <= t < |rows| :: |rows[t]| == 10240
    requires ColumnsWritten(before, after, base, 10240, rows) && base + |rows| * 10240 <= |after|
    ensures RowsHeld(before, after, base, rows)
  {
  }

  function AppendedRows(ar: Arithmetic, ps: seq<Projected>): (r: seq<seq<Half>>)
    ensures |r| == |ps|
  {
    seq(|ps|, t requires 0 <= t < |ps| => Appended(ar, ps[t]))
  }

  function ConvolvedRows(ar: Arithmetic, w: Weights, st: State, ps: seq<Projected>): (r: seq<seq<Half>>)
    requires Shaped(st)
    ensures |r| == |ps|
  {
    seq(|ps|, t requires 0 <= t < |ps| => Convolved(w, Run(ar, w, st, ps[..t + 1]).conv))
  }

  lemma ConvolvedColumnOf(ar: Arithmetic, w: Weights, st: State, ps: seq<Projected>, c: nat)
    requires Shaped(st) && c < 10240
    ensures forall t | 0 <= t < |ps| ::
              |ConvolvedRows(ar, w, st, ps)[t]| == 10240
                && ConvolvedRows(ar, w, st, ps)[t][c] == ConvolvedColumn(ar, w, st.conv[c], ps, c)[t]
  {
    forall t | 0 <= t < |ps|
      ensures ConvolvedRows(ar, w, st, ps)[t][c] == ConvolvedColumn(ar, w, st.conv[c], ps, c)[t]
    {
      ChannelOfRun(ar, w, st, ps, c, t + 1);
    }
  }

  lemma ChannelStored(before: seq<Half>, now: seq<Half>, base: nat, flat: seq<Half>, c: nat)
    requires |flat| == 40960 && base + 40960 <= |before| && c < 10240
    requires now == Overwrite(before, base, flat[..c * 4])
    ensures Overwrite(now, base + c * 4, flat[c * 4..c * 4 + 4]) == Overwrite(before, base, flat[..(c + 1) * 4])
  {
    assert flat[..(c + 1) * 4] == flat[..c * 4] + flat[c * 4..c * 4 + 4];
  }

  /** Channels above the written ones are still those of the initial state. */
  lemma ChannelKept(before: seq<Half>, now: seq<Half>, base: nat, conv: seq<seq<Half>>, written: seq<Half>, c: nat)
    requires ConvShaped(conv) && c < 10240 && base + 40960 <= |before| && before[base..base + 40960] == FlatConv(conv)
    requires |written| == 0 || |written| == c * 4
    requires now == Overwrite(before, base, written)
    ensures now[base + c * 4..base + c * 4 + 4] == conv[c]
  {
    forall tap | 0 <= tap < 4
      ensures now[base + c * 4 + tap] == conv[c][tap]
    {
      assert now[base + c * 4 + tap] == now[base + |written|..][c * 4 + tap - |written|];
      assert before[base..base + 40960][c * 4 + tap] == FlatConv(conv)[c * 4 + tap];
    }
  }

  /** gdn_conv_update over its grid: the layer's convolution state after the block, a log of what
      each token appended, and the convolved row of each token.  The final state may replace the
      initial one. */
  method GdnConvUpdate(ar: Arithmetic, w: Weights, projected: seq<Float>, initial: Pointer<Half>, final: Pointer<Half>,
                       output: Buffer<Half>, log: Pointer<Half>, logged: bool, batch: nat, ghost st: State,
                       ghost ps: seq<Projected>)
    requires Shaped(st) && initial.Holds(FlatConv(st.conv)) && final.base + 40960 <= |final.buffer.cells|
    requires initial == final || initial.buffer != final.buffer
    requires output !in {initial.buffer, final.buffer, log.buffer} && log.buffer !in {initial.buffer, final.buffer}
    requires |projected| == |output.cells| == batch * 10240
             && (logged ==> log.base + batch * 10240 <= |log.buffer.cells|)
    requires |ps| == batch && forall t, c | 0 <= t < batch && 0 <= c < 10240 :: projected[t * 10240 + c] == ps[t].qkv(c)
    modifies final.buffer, output, log.buffer
    ensures final.buffer.cells == Overwrite(old(final.buffer.cells), final.base, FlatConv(Run(ar, w, st, ps).conv))
    ensures RowsHeld(old(output.cells), output.cells, 0, ConvolvedRows(ar, w, st, ps))
    ensures if logged then RowsHeld(old(log.buffer.cells), log.buffer.cells, log.base, AppendedRows(ar, ps))
            else log.buffer.cells == old(log.buffer.cells)
  {
    ghost var flat := FlatConv(Run(ar, w, st, ps).conv);
    ghost var before, source, out, logs := final.buffer.cells, initial.buffer.cells, output.cells, log.buffer.cells;
    assert flat[..0] == [];
    for c := 0 to 10240
      invariant final.buffer.cells == Overwrite(before, final.base, flat[..c * 4])
      invariant initial != final ==> initial.buffer.cells == source
      invariant ColumnsWritten(out, output.cells, 0, c, ConvolvedRows(ar, w, st, ps))
      invariant if logged then ColumnsWritten(logs, log.buffer.cells, log.base, c, AppendedRows(ar, ps))
                else log.buffer.cells == logs
    {
      ConvUpdateThread(ar, w, projected, initial, final, output, log, logged, c, batch, st, ps, before, source, out,
                       logs);
    }
    assert flat[..40960] == flat;
    ColumnsAreRows(out, output.cells, 0, ConvolvedRows(ar, w, st, ps));
    if logged {
      ColumnsAreRows(logs, log.buffer.cells, log.base, AppendedRows(ar, ps));
    }
  }

  method ConvUpdateThread(ar: Arithmetic, w: Weights, projected: seq<Float>, initial: Pointer<Half>,
                          final: Pointer<Half>, output: Buffer<Half>, log: Pointer<Half>, logged: bool, c: nat,
                          batch: nat, ghost st: State, ghost ps: seq<Projected>, ghost before: seq<Half>,
                          ghost source: seq<Half>, ghost out: seq<Half>, ghost logs: seq<Half>)
    requires c < 10240 && Shaped(st) && final.base + 40960 <= |before| && initial.base + 40960 <= |source|
    requires if initial == final then source == before
             else initial.buffer != final.buffer && initial.buffer.cells == source
    requires source[initial.base..initial.base + 40960] == FlatConv(st.conv)
    requires final.buffer.cells == Overwrite(before, final.base, FlatConv(Run(ar, w, st, ps).conv)[..c * 4])
    requires output !in {initial.buffer, final.buffer, log.buffer} && log.buffer !in {initial.buffer, final.buffer}
    requires |projected| == |output.cells| == batch * 10240
             && (logged ==> log.base + batch * 10240 <= |log.buffer.cells|)
    requires |ps| == batch && forall t | 0 <= t < batch :: projected[t * 10240 + c] == ps[t].qkv(c)
    requires ColumnsWritten(out, output.cells, 0, c, ConvolvedRows(ar, w, st, ps))
    requires logged ==> ColumnsWritten(logs, log.buffer.cells, log.base, c, AppendedRows(ar, ps))
    modifies final.buffer, output, log.buffer
    ensures final.buffer.cells == Overwrite(before, final.base, FlatConv(Run(ar, w, st, ps).conv)[..(c + 1) * 4])
    ensures ColumnsWritten(out, output.cells, 0, c + 1, ConvolvedRows(ar, w, st, ps))
    ensures if logged then ColumnsWritten(logs, log.buffer.cells, log.base, c + 1, AppendedRows(ar, ps))
            else log.buffer.cells == old(log.buffer.cells)
  {
    ghost var flat := FlatConv(Run(ar, w, st, ps).conv);
    ghost var out0, log0 := output.cells, log.buffer.cells;
    ChannelStored(before, final.buffer.cells, final.base, flat, c);
    ChannelKept(source, initial.buffer.cells, initial.base, st.conv, if initial == final then flat[..c * 4] else [], c);
    ConvUpdateChannel(ar, w, projected, initial, final, output, log, logged, c, batch, ps, st.conv[c]);
    ChannelFlat(ar, w, st, ps, c);
    ConvolvedColumnOf(ar, w, st, ps, c);
    ColumnsGrow(out, out0, output.cells, 0, c, ConvolvedRows(ar, w, st, ps), ConvolvedColumn(ar, w, st.conv[c], ps, c));
    if logged {
      ColumnsGrow(logs, log0, log.buffer.cells, log.base, c, AppendedRows(ar, ps), AppendedColumn(ar, ps, c));
    }
  }

  lemma {:induction false} ChannelFlat(ar: Arithmetic, w: Weights, st: State, ps: seq<Projected>, c: nat)
    requires Shaped(st) && c < 10240
    ensures FlatConv(Run(ar, w, st, ps).conv)[c * 4..c * 4 + 4] == ChannelAfter(ar, st.conv[c], ps, c, |ps|)
  {
    ChannelOfRun(ar, w, st, ps, c, |ps|);
    assert ps[..|ps|] == ps;
  }

  // ---- recurrent state: 48 value heads of 128 x 128 elements

  function FlatHeads(heads: seq<seq<Float>>): (r: seq<Float>)
    requires HeadsShaped(heads)
    ensures |r| == 786432
  {
    seq(786432, i requires 0 <= i < 786432 => heads[i / 16384][i % 16384])
  }

  /** The log regions of a layer: 2048 keys, 6144 deltas and 48 decays per token. */
  datatype LogPointers = LogPointers(key: Pointer<Float>, delta: Pointer<Float>, decay: Pointer<Float>)

  lemma OverwriteNext<T>(before: seq<T>, base: nat, xs: seq<T>, i: nat)
    requires i < |xs| && base + |xs| <= |before|
    ensures Overwrite(before, base, xs[..i])[base + i := xs[i]] == Overwrite(before, base, xs[..i + 1])
  {
  }

  /** The state decays; it may be read from one region and written to another. */
  method DecayPass(ar: Arithmetic, source: Pointer<Float>, state: Pointer<Float>, decay: Float, ghost s: seq<Float>)
    requires |s| == 16384 && source.Holds(s) && state.base + 16384 <= |state.buffer.cells|
    requires source == state || source.buffer != state.buffer
    modifies state.buffer
    ensures state.buffer.cells == Overwrite(old(state.buffer.cells), state.base, Decayed(ar, s, decay))
  {
    ghost var before, decayed := state.buffer.cells, Decayed(ar, s, decay);
    for i := 0 to 16384
      invariant state.buffer.cells == Overwrite(before, state.base, decayed[..i])
      invariant forall j | i <= j < 16384 :: source.buffer.cells[source.base + j] == s[j]
    {
      OverwriteNext(before, state.base, decayed, i);
      assert source.buffer.cells[source.base + i] == s[i] && decayed[i] == ar.mul(s[i], decay);
      state.buffer.cells := state.buffer.cells[state.base + i := ar.mul(source.buffer.cells[source.base + i], decay)];
    }
    assert decayed[..16384] == decayed;
  }

  /** What the key recalls is taken from the value, column by column. */
  method DeltaPass(ar: Arithmetic, state: Pointer<Float>, key: seq<Float>, value: seq<Half>, beta: Float,
                   ghost decayed: seq<Float>)
    returns (delta: seq<Float>)
    requires |decayed| == 16384 && state.Holds(decayed) && |key| == 128 && |value| == 128
    ensures |delta| == 128
    ensures forall v | 0 <= v < 128 ::
              delta[v] == ar.mul(ar.sub(ar.toFloat(value[v]), Memory(ar, decayed, key, v, 128)), beta)
  {
    delta := [];
    for thread := 0 to 128
      invariant |delta| == thread
      invariant forall v | 0 <= v < thread ::
                  delta[v] == ar.mul(ar.sub(ar.toFloat(value[v]), Memory(ar, decayed, key, v, 128)), beta)
    {
      var memory := ar.zero;
      for k := 0 to 128
        invariant memory == Memory(ar, decayed, key, thread, k)
      {
        assert state.buffer.cells[state.base + (k * 128 + thread)] == decayed[k * 128 + thread];
        memory := ar.fma(state.buffer.cells[state.base + (k * 128 + thread)], key[k], memory);
      }
      delta := delta + [ar.mul(ar.sub(ar.toFloat(value[thread]), memory), beta)];
    }
  }

  /** The rank-1 update, in place. */
  method RankPass(ar: Arithmetic, state: Pointer<Float>, key: seq<Float>, delta: seq<Float>, ghost decayed: seq<Float>)
    requires |decayed| == 16384 && state.Holds(decayed) && |key| == 128 && |delta| == 128
    modifies state.buffer
    ensures state.buffer.cells == Overwrite(old(state.buffer.cells), state.base, Rank1(ar, decayed, key, delta))
  {
    for i := 0 to 16384
      invariant state.buffer.cells == Overwrite(old(state.buffer.cells), state.base,
                                                Rank1(ar, decayed, key, delta)[..i])
    {
      OverwriteNext(old(state.buffer.cells), state.base, Rank1(ar, decayed, key, delta), i);
      assert state.buffer.cells[state.base + i] == decayed[i];
      state.buffer.cells :=
        state.buffer.cells[state.base + i := ar.fma(key[i / 128], delta[i % 128], state.buffer.cells[state.base + i])];
    }
  }

  // ---- log rows: the heads fill each row from the left

  /** The first n elements of row t of a log region are written. */
  ghost predicate RowPrefix<T>(cells: seq<T>, base: nat, width: nat, t: nat, row: seq<T>, n: nat) {
    n <= width == |row| && base + t * width + n <= |cells| && cells[base + t * width..base + t * width + n] == row[..n]
  }

  /** Only a region of n cells may differ. */
  ghost predicate OnlyRegion<T>(before: seq<T>, after: seq<T>, base: nat, n: nat) {
    |before| == |after| && base + n <= |before| && after[..base] == before[..base]
      && after[base + n..] == before[base + n..]
  }

  lemma PrefixExtends<T>(cells: seq<T>, base: nat, width: nat, t: nat, row: seq<T>, n: nat, k: nat)
    requires RowPrefix(cells, base, width, t, row, n) && n + k <= width && base + t * width + width <= |cells|
    ensures RowPrefix(Overwrite(cells, base + t * width + n, row[n..n + k]), base, width, t, row, n + k)
  {
    var after := Overwrite(cells, base + t * width + n, row[n..n + k]);
    assert row[..n] + row[n..n + k] == row[..n + k];
    assert after[base + t * width..base + t * width + (n + k)]
           == cells[base + t * width..base + t * width + n] + row[n..n + k];
  }

  lemma RowsApart(width: nat, t: nat, u: nat)
    requires t < u
    ensures (t + 1) * width == t * width + width <= u * width
  {
  }

  lemma PrefixKept<T>(cells: seq<T>, base: nat, width: nat, t: nat, u: nat, row: seq<T>, n: nat, at: nat, xs: seq<T>)
    requires RowPrefix(cells, base, width, u, row, n) && t != u && at + |xs| <= width
             && base + t * width + width <= |cells|
    ensures RowPrefix(Overwrite(cells, base + t * width + at, xs), base, width, u, row, n)
  {
    if t < u {
      RowsApart(width, t, u);
    } else {
      RowsApart(width, u, t);
    }
    var after := Overwrite(cells, base + t * width + at, xs);
    var s := base + u * width;
    forall i | s <= i < s + n
      ensures after[i] == cells[i]
    {
      if i < base + t * width + at {
        assert after[..base + t * width + at][i] == cells[i];
      } else {
        assert after[base + t * width + at + |xs|..][i - (base + t * width + at + |xs|)] == cells[i];
      }
    }
    assert after[s..s + n] == cells[s..s + n];
  }

  lemma RegionKept<T>(before: seq<T>, now: seq<T>, base: nat, n: nat, at: nat, xs: seq<T>)
    requires OnlyRegion(before, now, base, n) && at + |xs| <= n
    ensures OnlyRegion(before, Overwrite(now, base + at, xs), base, n)
  {
    var after := Overwrite(now, base + at, xs);
    assert after[..base] == now[..base];
    assert after[base + n..] == now[base + n..];
  }

  /** What the log allocations hold. */
  datatype LogMemory = LogMemory(key: seq<Float>, delta: seq<Float>, decay: seq<Float>)

  ghost function MemoryOf(p: LogPointers): LogMemory
    reads p.key.buffer, p.delta.buffer, p.decay.buffer
  {
    LogMemory(p.key.buffer.cells, p.delta.buffer.cells, p.decay.buffer.cells)
  }

  ghost predicate LogFits(p: LogPointers, mem: LogMemory, n: nat) {
    p.key.base + n * 2048 <= |mem.key| && p.delta.base + n * 6144 <= |mem.delta| && p.decay.base + n * 48 <= |mem.decay|
  }

  /** The keys that the first h value heads write. */
  ghost function KeysBefore(h: nat): nat {
    if h == 0 then 0 else KeysBefore(h - 1) + if (h - 1) % 3 == 0 then 128 else 0
  }

  lemma {:induction false} KeysBeforeAt(h: nat)
    ensures KeysBefore(h) == (h + 2) / 3 * 128
  {
    if h > 0 {
      KeysBeforeAt(h - 1);
    }
  }

  ghost function KeyWritten(base: nat, cells: seq<Float>, row: LogRow, t: nat, h: nat): seq<Float>
    requires LogShaped(row) && h < 48 && base + (t + 1) * 2048 <= |cells|
  {
    KeysBeforeAt(h);
    if h % 3 == 0 then Overwrite(cells, base + t * 2048 + KeysBefore(h), row.keys[KeysBefore(h)..KeysBefore(h) + 128])
      else cells
  }

  ghost function DeltaWritten(base: nat, cells: seq<Float>, row: LogRow, t: nat, h: nat): seq<Float>
    requires LogShaped(row) && h < 48 && base + (t + 1) * 6144 <= |cells|
  {
    Overwrite(cells, base + t * 6144 + h * 128, row.deltas[h * 128..h * 128 + 128])
  }

  ghost function DecayWritten(base: nat, cells: seq<Float>, row: LogRow, t: nat, h: nat): seq<Float>
    requires LogShaped(row) && h < 48 && base + (t + 1) * 48 <= |cells|
  {
    cells[base + t * 48 + h := row.decays[h]]
  }

  /** What value head h writes for token t: its deltas and decay, and the key when it is the first
      of the three heads that share one. */
  ghost function TokenWritten(p: LogPointers, mem: LogMemory, row: LogRow, t: nat, h: nat): LogMemory
    requires LogShaped(row) && h < 48 && LogFits(p, mem, t + 1)
  {
    LogMemory(KeyWritten(p.key.base, mem.key, row, t, h), DeltaWritten(p.delta.base, mem.delta, row, t, h),
              DecayWritten(p.decay.base, mem.decay, row, t, h))
  }

  /** The first h value heads have written their parts of row t. */
  ghost predicate KeysLogged(base: nat, cells: seq<Float>, row: LogRow, t: nat, h: nat) {
    RowPrefix(cells, base, 2048, t, row.keys, KeysBefore(h))
  }

  ghost predicate DeltasLogged(base: nat, cells: seq<Float>, row: LogRow, t: nat, h: nat) {
    RowPrefix(cells, base, 6144, t, row.deltas, h * 128)
  }

  ghost predicate DecaysLogged(base: nat, cells: seq<Float>, row: LogRow, t: nat, h: nat) {
    RowPrefix(cells, base, 48, t, row.decays, h)
  }

  ghost predicate HeadsLogged(p: LogPointers, mem: LogMemory, row: LogRow, t: nat, h: nat) {
    && KeysLogged(p.key.base, mem.key, row, t, h)
    && DeltasLogged(p.delta.base, mem.delta, row, t, h)
    && DecaysLogged(p.decay.base, mem.decay, row, t, h)
  }

  /** Head h has written its parts of the first t rows, the heads before it of all rows. */
  ghost predicate LogProgress(p: LogPointers, before: LogMemory, mem: LogMemory, rows: seq<LogRow>, h: nat, t: nat) {
    && LogFits(p, mem, |rows|)
    && OnlyRegion(before.key, mem.key, p.key.base, |rows| * 2048)
    && OnlyRegion(before.delta, mem.delta, p.delta.base, |rows| * 6144)
    && OnlyRegion(before.decay, mem.decay, p.decay.base, |rows| * 48)
    && forall u | 0 <= u < |rows| :: HeadsLogged(p, mem, rows[u], u, HeadsDone(h, t, u))
  }

  ghost function HeadsDone(h: nat, t: nat, u: nat): nat {
    if u < t then h + 1 else h
  }

  lemma RowGrows<T>(base: nat, width: nat, cells: seq<T>, row: seq<T>, t: nat, at: nat, k: nat, other: seq<T>, u: nat,
                    n: nat)
    requires RowPrefix(cells, base, width, u, other, n) && base + t * width + width <= |cells|
             && at + k <= width == |row|
    requires u == t ==> other == row && n == at
    ensures RowPrefix(Overwrite(cells, base + t * width + at, row[at..at + k]), base, width, u, other, if u == t
                      then at + k else n)
  {
    if u == t {
      PrefixExtends(cells, base, width, t, row, at, k);
    } else {
      PrefixKept(cells, base, width, t, u, other, n, at, row[at..at + k]);
    }
  }

  lemma {:induction false} KeyStepAt(base: nat, cells: seq<Float>, row: LogRow, t: nat, h: nat, other: LogRow, u: nat,
                                     n: nat)
    requires LogShaped(row) && h < 48 && h % 3 == 0 && base + (t + 1) * 2048 <= |cells| && KeysBefore(h) + 128 <= 2048
    requires RowPrefix(cells, base, 2048, u, other.keys, n) && (u == t ==> other == row && n == KeysBefore(h))
    ensures RowPrefix(KeyWritten(base, cells, row, t, h), base, 2048, u, other.keys, if u == t then KeysBefore(h) + 128
                      else n)
  {
    RowGrows(base, 2048, cells, row.keys, t, KeysBefore(h), 128, other.keys, u, n);
  }

  lemma KeyStep(base: nat, cells: seq<Float>, row: LogRow, t: nat, h: nat, other: LogRow, u: nat, k: nat)
    requires LogShaped(row) && h < 48 && base + (t + 1) * 2048 <= |cells| && KeysLogged(base, cells, other, u, k)
    requires u == t ==> other == row && k == h
    ensures KeysLogged(base, KeyWritten(base, cells, row, t, h), other, u, if u == t then h + 1 else k)
  {
    KeysBeforeAt(h);
    if h % 3 == 0 {
      KeyStepAt(base, cells, row, t, h, other, u, KeysBefore(k));
    }
  }

  lemma DeltaStep(base: nat, cells: seq<Float>, row: LogRow, t: nat, h: nat, other: LogRow, u: nat, k: nat)
    requires LogShaped(row) && h < 48 && base + (t + 1) * 6144 <= |cells| && DeltasLogged(base, cells, other, u, k)
    requires u == t ==> other == row && k == h
    ensures DeltasLogged(base, DeltaWritten(base, cells, row, t, h), other, u, if u == t then h + 1 else k)
  {
    RowGrows(base, 6144, cells, row.deltas, t, h * 128, 128, other.deltas, u, k * 128);
  }

  lemma DecayStep(base: nat, cells: seq<Float>, row: LogRow, t: nat, h: nat, other: LogRow, u: nat, k: nat)
    requires LogShaped(row) && h < 48 && base + (t + 1) * 48 <= |cells| && DecaysLogged(base, cells, other, u, k)
    requires u == t ==> other == row && k == h
    ensures DecaysLogged(base, DecayWritten(base, cells, row, t, h), other, u, if u == t then h + 1 else k)
  {
    assert row.decays[h..h + 1] == [row.decays[h]];
    assert DecayWritten(base, cells, row, t, h) == Overwrite(cells, base + t * 48 + h, row.decays[h..h + 1]);
    RowGrows(base, 48, cells, row.decays, t, h, 1, other.decays, u, k);
  }

  lemma RowStep(p: LogPointers, mem: LogMemory, row: LogRow, t: nat, h: nat, other: LogRow, u: nat, k: nat)
    requires LogShaped(row) && h < 48 && LogFits(p, mem, t + 1) && HeadsLogged(p, mem, other, u, k)
    requires u == t ==> other == row && k == h
    ensures HeadsLogged(p, TokenWritten(p, mem, row, t, h), other, u, if u == t then h + 1 else k)
  {
    KeyStep(p.key.base, mem.key, row, t, h, other, u, k);
    DeltaStep(p.delta.base, mem.delta, row, t, h, other, u, k);
    DecayStep(p.decay.base, mem.decay, row, t, h, other, u, k);
  }

  lemma KeyRegionKept(before: seq<Float>, cells: seq<Float>, base: nat, row: LogRow, h: nat, t: nat, n: nat)
    requires h < 48 && t < n && LogShaped(row) && OnlyRegion(before, cells, base, n * 2048)
    ensures base + (t + 1) * 2048 <= |cells| && OnlyRegion(before, KeyWritten(base, cells, row, t, h), base, n * 2048)
  {
    KeysBeforeAt(h);
    if h % 3 == 0 {
      RegionKept(before, cells, base, n * 2048, t * 2048 + KeysBefore(h), row.keys[KeysBefore(h)..KeysBefore(h) + 128]);
    }
  }

  lemma DeltaRegionKept(before: seq<Float>, cells: seq<Float>, base: nat, row: LogRow, h: nat, t: nat, n: nat)
    requires h < 48 && t < n && LogShaped(row) && OnlyRegion(before, cells, base, n * 6144)
    ensures base + (t + 1) * 6144 <= |cells| && OnlyRegion(before, DeltaWritten(base, cells, row, t, h), base, n * 6144)
  {
    RegionKept(before, cells, base, n * 6144, t * 6144 + h * 128, row.deltas[h * 128..h * 128 + 128]);
  }

  lemma DecayRegionKept(before: seq<Float>, cells: seq<Float>, base: nat, row: LogRow, h: nat, t: nat, n: nat)
    requires h < 48 && t < n && LogShaped(row) && OnlyRegion(before, cells, base, n * 48)
    ensures base + (t + 1) * 48 <= |cells| && OnlyRegion(before, DecayWritten(base, cells, row, t, h), base, n * 48)
  {
    RegionKept(before, cells, base, n * 48, t * 48 + h, [row.decays[h]]);
    assert Overwrite(cells, base + (t * 48 + h), [row.decays[h]]) == DecayWritten(base, cells, row, t, h);
  }

  lemma RegionsKept(p: LogPointers, before: LogMemory, mem: LogMemory, rows: seq<LogRow>, h: nat, t: nat)
    requires h < 48 && t < |rows| && LogShaped(rows[t]) && LogProgress(p, before, mem, rows, h, t)
    ensures OnlyRegion(before.key, KeyWritten(p.key.base, mem.key, rows[t], t, h), p.key.base, |rows| * 2048)
    ensures OnlyRegion(before.delta, DeltaWritten(p.delta.base, mem.delta, rows[t], t, h), p.delta.base, |rows| * 6144)
    ensures OnlyRegion(before.decay, DecayWritten(p.decay.base, mem.decay, rows[t], t, h), p.decay.base, |rows| * 48)
  {
    KeyRegionKept(before.key, mem.key, p.key.base, rows[t], h, t, |rows|);
    DeltaRegionKept(before.delta, mem.delta, p.delta.base, rows[t], h, t, |rows|);
    DecayRegionKept(before.decay, mem.decay, p.decay.base, rows[t], h, t, |rows|);
  }

  lemma LogProgressStep(p: LogPointers, before: LogMemory, mem: LogMemory, rows: seq<LogRow>, h: nat, t: nat)
    requires h < 48 && t < |rows| && LogShaped(rows[t]) && LogProgress(p, before, mem, rows, h, t)
    ensures LogProgress(p, before, TokenWritten(p, mem, rows[t], t, h), rows, h, t + 1)
  {
    RegionsKept(p, before, mem, rows, h, t);
    forall u | 0 <= u < |rows|
      ensures HeadsLogged(p, TokenWritten(p, mem, rows[t], t, h), rows[u], u, HeadsDone(h, t + 1, u))
    {
      RowStep(p, mem, rows[t], t, h, rows[u], u, HeadsDone(h, t, u));
    }
  }

  lemma LogProgressNext(p: LogPointers, before: LogMemory, mem: LogMemory, rows: seq<LogRow>, h: nat)
    requires LogProgress(p, before, mem, rows, h, |rows|)
    ensures LogProgress(p, before, mem, rows, h + 1, 0)
  {
    forall u | 0 <= u < |rows|
      ensures HeadsLogged(p, mem, rows[u], u, HeadsDone(h + 1, 0, u))
    {
      assert HeadsLogged(p, mem, rows[u], u, HeadsDone(h, |rows|, u));
    }
  }

  /** Row t of the log regions holds the logged keys, deltas and decays of one token. */
  ghost predicate LogRowHeld(p: LogPointers, mem: LogMemory, row: LogRow, t: nat) {
    && RowHeld(mem.key, p.key.base, 2048, t, row.keys)
    && RowHeld(mem.delta, p.delta.base, 6144, t, row.deltas)
    && RowHeld(mem.decay, p.decay.base, 48, t, row.decays)
  }

  lemma AllHeadsLogged(p: LogPointers, mem: LogMemory, row: LogRow, t: nat)
    requires HeadsLogged(p, mem, row, t, 48)
    ensures LogRowHeld(p, mem, row, t)
  {
    KeysBeforeAt(48);
    assert row.keys[..2048] == row.keys && row.deltas[..6144] == row.deltas && row.decays[..48] == row.decays;
  }

  lemma {:induction false} LogAt(ar: Arithmetic, w: Weights, st: State, ps: seq<Projected>, t: nat)
    requires Shaped(st) && t < |ps|
    ensures Logs(ar, w, st, ps)[t] == LogOf(ar, w, Run(ar, w, st, ps[..t]), ps[t])
  {
    if t < |ps| - 1 {
      LogAt(ar, w, st, ps[..|ps| - 1], t);
      assert ps[..|ps| - 1][..t] == ps[..t];
    }
  }

  /** The block's rows that the recurrent kernel reads, and what they are of the tokens. */
  ghost predicate Inputs(ar: Arithmetic, w: Weights, st: State, ps: seq<Projected>, qkv: seq<Half>, a: seq<Float>,
                         b: seq<Float>)
    requires Shaped(st)
  {
    && |a| == |b| == |ps| * 48
    && (forall t | 0 <= t < |ps| :: RowHeld(qkv, 0, 10240, t, ConvolvedRows(ar, w, st, ps)[t]))
    && (forall t, h | 0 <= t < |ps| && 0 <= h < 48 :: a[t * 48 + h] == ps[t].a(h))
    && (forall t, h | 0 <= t < |ps| && 0 <= h < 48 :: b[t * 48 + h] == ps[t].b(h))
  }

  lemma RowSlice<T>(cells: seq<T>, at: nat, row: seq<T>, i: nat)
    requires at + |row| <= |cells| && cells[at..at + |row|] == row && i + 128 <= |row|
    ensures row[i..i + 128] == cells[at + i..at + i + 128]
  {
    forall j | i <= j < i + 128
      ensures row[j] == cells[at + j]
    {
      assert cells[at..at + |row|][j] == cells[at + j];
    }
  }

  /** What head h reads of token t. */
  lemma TokenRead(w: Weights, row: seq<Half>, p: Projected, qkv: seq<Half>, at: nat, h: nat)
    requires |row| == 10240 && h < 48 && at + 10240 <= |qkv| && qkv[at..at + 10240] == row
    ensures TokenOf(w, row, p, h).key
            == NormalizedKey(w, qkv[at + (2048 + h / 3 * 128)..at + (2048 + h / 3 * 128) + 128])
    ensures TokenOf(w, row, p, h).value == qkv[at + (4096 + h * 128)..at + (4096 + h * 128) + 128]
  {
    RowSlice(qkv, at, row, 2048 + h / 3 * 128);
    RowSlice(qkv, at, row, 4096 + h * 128);
  }

  /** What token t does to head h and to the log. */
  lemma {:induction false} TokenAt(ar: Arithmetic, w: Weights, st: State, ps: seq<Projected>, h: nat, t: nat)
    requires Shaped(st) && h < 48 && t < |ps|
    ensures |ConvolvedRows(ar, w, st, ps)[t]| == 10240
    ensures var tok := TokenOf(w, ConvolvedRows(ar, w, st, ps)[t], ps[t], h);
            && HeadStep(ar, Run(ar, w, st, ps[..t]).heads[h], tok) == Run(ar, w, st, ps[..t + 1]).heads[h]
            && Logs(ar, w, st, ps)[t].keys[h / 3 * 128..h / 3 * 128 + 128] == tok.key
            && Logs(ar, w, st, ps)[t].deltas[h * 128..h * 128 + 128] == Delta(ar, Run(ar, w, st, ps[..t]).heads[h], tok)
            && Logs(ar, w, st, ps)[t].decays[h] == tok.decay
  {
    var now, row := Run(ar, w, st, ps[..t]), ConvolvedRows(ar, w, st, ps)[t];
    assert ps[..t + 1][..t] == ps[..t];
    assert row == Convolved(w, PushAll(now.conv, Appended(ar, ps[t])));
    LogAt(ar, w, st, ps, t);
    LoggedKeyOf(w, row, ps[t], h);
    LoggedDeltaOf(ar, now.heads, seq(48, k requires 0 <= k < 48 => TokenOf(w, row, ps[t], k)), h);
  }

  /** The state, the logs and the inputs lie in different allocations. */
  ghost predicate NoOverlap(source: Pointer<Float>, state: Pointer<Float>, logs: LogPointers) {
    && (source == state || source.buffer != state.buffer)
    && {source.buffer, state.buffer} !! {logs.key.buffer, logs.delta.buffer, logs.decay.buffer}
    && logs.key.buffer != logs.delta.buffer && logs.key.buffer != logs.decay.buffer
       && logs.delta.buffer != logs.decay.buffer
  }

  lemma {:induction false} KeyPlace(h: nat)
    requires h % 3 == 0
    ensures KeysBefore(h) == h / 3 * 128
  {
    KeysBeforeAt(h);
  }

  method LogKey(p: Pointer<Float>, h: nat, t: nat, key: seq<Float>, ghost row: LogRow)
    requires h < 48 && LogShaped(row) && p.base + (t + 1) * 2048 <= |p.buffer.cells|
    requires key == row.keys[h / 3 * 128..h / 3 * 128 + 128]
    modifies p.buffer
    ensures p.buffer.cells == KeyWritten(p.base, old(p.buffer.cells), row, t, h)
  {
    if h % 3 == 0 {
      KeyPlace(h);
      p.buffer.cells := Overwrite(p.buffer.cells, p.base + t * 2048 + h / 3 * 128, key);
    }
  }

  method LogDelta(p: Pointer<Float>, h: nat, t: nat, delta: seq<Float>, ghost row: LogRow)
    requires h < 48 && LogShaped(row) && p.base + (t + 1) * 6144 <= |p.buffer.cells|
    requires delta == row.deltas[h * 128..h * 128 + 128]
    modifies p.buffer
    ensures p.buffer.cells == DeltaWritten(p.base, old(p.buffer.cells), row, t, h)
  {
    p.buffer.cells := Overwrite(p.buffer.cells, p.base + t * 6144 + h * 128, delta);
  }

  method LogDecay(p: Pointer<Float>, h: nat, t: nat, decay: Float, ghost row: LogRow)
    requires h < 48 && LogShaped(row) && p.base + (t + 1) * 48 <= |p.buffer.cells|
    requires decay == row.decays[h]
    modifies p.buffer
    ensures p.buffer.cells == DecayWritten(p.base, old(p.buffer.cells), row, t, h)
  {
    p.buffer.cells := p.buffer.cells[p.base + t * 48 + h := decay];
  }

  /** Writes one token's part of the log. */
  method LogToken(logs: LogPointers, h: nat, t: nat, tok: HeadToken, delta: seq<Float>, ghost row: LogRow)
    requires h < 48 && LogShaped(row) && LogFits(logs, MemoryOf(logs), t + 1)
    requires logs.key.buffer != logs.delta.buffer && logs.key.buffer != logs.decay.buffer
             && logs.delta.buffer != logs.decay.buffer
    requires tok.key == row.keys[h / 3 * 128..h / 3 * 128 + 128] && delta == row.deltas[h * 128..h * 128 + 128]
             && tok.decay == row.decays[h]
    modifies logs.key.buffer, logs.delta.buffer, logs.decay.buffer
    ensures MemoryOf(logs) == TokenWritten(logs, old(MemoryOf(logs)), row, t, h)
  {
    LogDecay(logs.decay, h, t, tok.decay, row);
    LogKey(logs.key, h, t, tok.key, row);
    LogDelta(logs.delta, h, t, delta, row);
  }

  /** Decay, delta and rank-1 update of one head by one token. */
  method UpdateHead(ar: Arithmetic, source: Pointer<Float>, state: Pointer<Float>, tok: HeadToken, ghost s: seq<Float>)
    returns (delta: seq<Float>)
    requires |s| == 16384 && source.Holds(s) && state.base + 16384 <= |state.buffer.cells| && TokenShaped(tok)
    requires source == state || source.buffer != state.buffer
    modifies state.buffer
    ensures state.buffer.cells == Overwrite(old(state.buffer.cells), state.base, HeadStep(ar, s, tok))
    ensures delta == Delta(ar, s, tok)
  {
    ghost var before := state.buffer.cells;
    DecayPass(ar, source, state, tok.decay, s);
    ghost var decayed := Decayed(ar, s, tok.decay);
    delta := DeltaPass(ar, state, tok.key, tok.value, tok.beta, decayed);
    assert delta == Delta(ar, s, tok);
    RankPass(ar, state, tok.key, delta, decayed);
    OverwriteTwice(before, state.base, decayed, Rank1(ar, decayed, tok.key, delta));
  }

  lemma OverwriteTwice<T>(before: seq<T>, base: nat, xs: seq<T>, ys: seq<T>)
    requires |xs| == |ys| && base + |xs| <= |before|
    ensures Overwrite(Overwrite(before, base, xs), base, ys) == Overwrite(before, base, ys)
  {
  }

  /** The token as head h reads it: keys of its key head h / 3, its own values and gates. */
  method ReadToken(ar: Arithmetic, w: Weights, qkv: seq<Half>, a: seq<Float>, b: seq<Float>, h: nat, t: nat,
                   ghost st: State, ghost ps: seq<Projected>) returns (tok: HeadToken)
    requires Shaped(st) && h < 48 && t < |ps| && Inputs(ar, w, st, ps, qkv, a, b)
    ensures TokenShaped(tok) && |ConvolvedRows(ar, w, st, ps)[t]| == 10240
    ensures tok == TokenOf(w, ConvolvedRows(ar, w, st, ps)[t], ps[t], h)
  {
    assert RowHeld(qkv, 0, 10240, t, ConvolvedRows(ar, w, st, ps)[t]);
    var at := t * 10240;
    TokenRead(w, ConvolvedRows(ar, w, st, ps)[t], ps[t], qkv, at, h);
    tok := HeadToken(NormalizedKey(w, qkv[at + (2048 + h / 3 * 128)..at + (2048 + h / 3 * 128) + 128]),
                     qkv[at + (4096 + h * 128)..at + (4096 + h * 128) + 128],
                     w.decay(h, a[t * 48 + h]), w.beta(b[t * 48 + h]));
  }

  /** One token of gdn_recurrent_decode in one thread block. */
  method DecodeHeadToken(ar: Arithmetic, w: Weights, qkv: seq<Half>, a: seq<Float>, b: seq<Float>,
                         source: Pointer<Float>, state: Pointer<Float>, logs: LogPointers, logged: bool, h: nat, t: nat,
                         ghost st: State, ghost ps: seq<Projected>)
    requires Shaped(st) && h < 48 && t < |ps| && Inputs(ar, w, st, ps, qkv, a, b) && NoOverlap(source, state, logs)
    requires source.Holds(Run(ar, w, st, ps[..t]).heads[h]) && state.base + 16384 <= |state.buffer.cells|
    requires logged ==> LogFits(logs, MemoryOf(logs), t + 1)
    modifies state.buffer, logs.key.buffer, logs.delta.buffer, logs.decay.buffer
    ensures state.buffer.cells == Overwrite(old(state.buffer.cells), state.base, Run(ar, w, st, ps[..t + 1]).heads[h])
    ensures MemoryOf(logs) == if logged then TokenWritten(logs, old(MemoryOf(logs)), Logs(ar, w, st, ps)[t], t, h)
            else old(MemoryOf(logs))
  {
    var tok := ReadToken(ar, w, qkv, a, b, h, t, st, ps);
    TokenAt(ar, w, st, ps, h, t);
    var delta := UpdateHead(ar, source, state, tok, Run(ar, w, st, ps[..t]).heads[h]);
    if logged {
      LogToken(logs, h, t, tok, delta, Logs(ar, w, st, ps)[t]);
    }
  }

  /** One thread block of gdn_recurrent_decode: value head h through the tokens of a block. */
  method DecodeHead(ar: Arithmetic, w: Weights, qkv: seq<Half>, a: seq<Float>, b: seq<Float>,
                    initial: Pointer<Float>, final: Pointer<Float>, logs: LogPointers, logged: bool, h: nat, batch: nat,
                    ghost st: State, ghost ps: seq<Projected>, ghost mem: LogMemory)
    requires Shaped(st) && h < 48 && 0 < batch == |ps| && Inputs(ar, w, st, ps, qkv, a, b)
             && NoOverlap(initial, final, logs)
    requires initial.Holds(st.heads[h]) && final.base + 16384 <= |final.buffer.cells|
    requires logged ==> LogProgress(logs, mem, MemoryOf(logs), Logs(ar, w, st, ps), h, 0)
    modifies final.buffer, logs.key.buffer, logs.delta.buffer, logs.decay.buffer
    ensures final.buffer.cells == Overwrite(old(final.buffer.cells), final.base, Run(ar, w, st, ps).heads[h])
    ensures if logged then LogProgress(logs, mem, MemoryOf(logs), Logs(ar, w, st, ps), h + 1, 0)
            else MemoryOf(logs) == old(MemoryOf(logs))
  {
    ghost var before, unlogged := final.buffer.cells, MemoryOf(logs);
    for t := 0 to batch
      invariant if t == 0 then final.buffer.cells == before && initial.Holds(st.heads[h])
                else final.buffer.cells == Overwrite(before, final.base, Run(ar, w, st, ps[..t]).heads[h])
      invariant if logged then LogProgress(logs, mem, MemoryOf(logs), Logs(ar, w, st, ps), h, t)
                else MemoryOf(logs) == unlogged
    {
      ghost var now := MemoryOf(logs);
      DecodeHeadToken(ar, w, qkv, a, b, if t == 0 then initial else final, final, logs, logged, h, t, st, ps);
      if t > 0 {
        OverwriteTwice(before, final.base, Run(ar, w, st, ps[..t]).heads[h], Run(ar, w, st, ps[..t + 1]).heads[h]);
      }
      if logged {
        LogProgressStep(logs, mem, now, Logs(ar, w, st, ps), h, t);
      }
    }
    assert ps[..batch] == ps;
    if logged {
      LogProgressNext(logs, mem, MemoryOf(logs), Logs(ar, w, st, ps), h);
    }
  }

  lemma HeadStored(before: seq<Float>, now: seq<Float>, base: nat, heads: seq<seq<Float>>, h: nat)
    requires HeadsShaped(heads) && base + 786432 <= |before| && h < 48
    requires now == Overwrite(before, base, FlatHeads(heads)[..h * 16384])
    ensures Overwrite(now, base + h * 16384, heads[h]) == Overwrite(before, base, FlatHeads(heads)[..(h + 1) * 16384])
  {
    var flat := FlatHeads(heads);
    assert flat[h * 16384..h * 16384 + 16384] == heads[h];
    assert flat[..(h + 1) * 16384] == flat[..h * 16384] + flat[h * 16384..h * 16384 + 16384];
  }

  /** Heads above the written ones are still those of the initial state. */
  lemma HeadKept(before: seq<Float>, now: seq<Float>, base: nat, heads: seq<seq<Float>>, written: seq<Float>, h: nat)
    requires HeadsShaped(heads) && h < 48 && base + 786432 <= |before|
             && before[base..base + 786432] == FlatHeads(heads)
    requires |written| == 0 || |written| == h * 16384
    requires now == Overwrite(before, base, written)
    ensures now[base + h * 16384..base + h * 16384 + 16384] == heads[h]
  {
    forall j | 0 <= j < 16384
      ensures now[base + h * 16384 + j] == heads[h][j]
    {
      assert now[base + h * 16384 + j] == now[base + |written|..][h * 16384 + j - |written|];
      assert before[base..base + 786432][h * 16384 + j] == FlatHeads(heads)[h * 16384 + j];
    }
  }

  method DecodeBlock(ar: Arithmetic, w: Weights, qkv: seq<Half>, a: seq<Float>, b: seq<Float>,
                     initial: Pointer<Float>, final: Pointer<Float>, logs: LogPointers, logged: bool, h: nat,
                     batch: nat,
                     ghost st: State, ghost ps: seq<Projected>, ghost mem: LogMemory, ghost before: seq<Float>,
                     ghost source: seq<Float>)
    requires Shaped(st) && h < 48 && 0 < batch == |ps| && Inputs(ar, w, st, ps, qkv, a, b)
             && NoOverlap(initial, final, logs)
    requires final.base + 786432 <= |before| && initial.base + 786432 <= |source|
    requires if initial == final then source == before else initial.buffer.cells == source
    requires source[initial.base..initial.base + 786432] == FlatHeads(st.heads)
    requires final.buffer.cells == Overwrite(before, final.base, FlatHeads(Run(ar, w, st, ps).heads)[..h * 16384])
    requires logged ==> LogProgress(logs, mem, MemoryOf(logs), Logs(ar, w, st, ps), h, 0)
    modifies final.buffer, logs.key.buffer, logs.delta.buffer, logs.decay.buffer
    ensures final.buffer.cells == Overwrite(before, final.base, FlatHeads(Run(ar, w, st, ps).heads)[..(h + 1) * 16384])
    ensures if logged then LogProgress(logs, mem, MemoryOf(logs), Logs(ar, w, st, ps), h + 1, 0)
            else MemoryOf(logs) == old(MemoryOf(logs))
  {
    ghost var heads := Run(ar, w, st, ps).heads;
    HeadStored(before, final.buffer.cells, final.base, heads, h);
    HeadKept(source, initial.buffer.cells, initial.base, st.heads, if initial == final
             then FlatHeads(heads)[..h * 16384] else [], h);
    var at := h * 16384;
    DecodeHead(ar, w, qkv, a, b, Pointer(initial.buffer, initial.base + at), Pointer(final.buffer, final.base + at),
               logs, logged, h, batch, st, ps, mem);
  }

  /** gdn_recurrent_decode over its grid: the layer's recurrent state after the block, and the log
      rows of its tokens, each key written by one of the three heads that share it. */
  method GdnRecurrentDecode(ar: Arithmetic, w: Weights, qkv: seq<Half>, a: seq<Float>, b: seq<Float>,
                            initial: Pointer<Float>, final: Pointer<Float>, logs: LogPointers, logged: bool, batch: nat,
                            ghost st: State, ghost ps: seq<Projected>)
    requires Shaped(st) && 0 < batch == |ps| && Inputs(ar, w, st, ps, qkv, a, b) && NoOverlap(initial, final, logs)
    requires initial.Holds(FlatHeads(st.heads)) && final.base + 786432 <= |final.buffer.cells|
    requires logged ==> LogFits(logs, MemoryOf(logs), batch)
    modifies final.buffer, logs.key.buffer, logs.delta.buffer, logs.decay.buffer
    ensures final.buffer.cells == Overwrite(old(final.buffer.cells), final.base, FlatHeads(Run(ar, w, st, ps).heads))
    ensures if logged then RowsLogged(logs, old(MemoryOf(logs)), MemoryOf(logs), Logs(ar, w, st, ps))
            else MemoryOf(logs) == old(MemoryOf(logs))
  {
    ghost var heads, rows := Run(ar, w, st, ps).heads, Logs(ar, w, st, ps);
    ghost var before, source, mem := final.buffer.cells, initial.buffer.cells, MemoryOf(logs);
    assert FlatHeads(heads)[..0] == [];
    for h := 0 to 48
      invariant final.buffer.cells == Overwrite(before, final.base, FlatHeads(heads)[..h * 16384])
      invariant initial != final ==> initial.buffer.cells == source
      invariant if logged then LogProgress(logs, mem, MemoryOf(logs), rows, h, 0) else MemoryOf(logs) == mem
    {
      DecodeBlock(ar, w, qkv, a, b, initial, final, logs, logged, h, batch, st, ps, mem, before, source);
    }
    assert FlatHeads(heads)[..786432] == FlatHeads(heads);
    if logged {
      RowsComplete(logs, mem, MemoryOf(logs), rows);
    }
  }

  /** The log regions hold the rows, and nothing else in the log changed. */
  ghost predicate RowsLogged(p: LogPointers, before: LogMemory, mem: LogMemory, rows: seq<LogRow>) {
    && OnlyRegion(before.key, mem.key, p.key.base, |rows| * 2048)
    && OnlyRegion(before.delta, mem.delta, p.delta.base, |rows| * 6144)
    && OnlyRegion(before.decay, mem.decay, p.decay.base, |rows| * 48)
    && forall t | 0 <= t < |rows| :: LogRowHeld(p, mem, rows[t], t)
  }

  lemma RowsComplete(p: LogPointers, before: LogMemory, mem: LogMemory, rows: seq<LogRow>)
    requires LogProgress(p, before, mem, rows, 48, 0)
    ensures RowsLogged(p, before, mem, rows)
  {
    forall t | 0 <= t < |rows|
      ensures LogRowHeld(p, mem, rows[t], t)
    {
      assert HeadsLogged(p, mem, rows[t], t, HeadsDone(48, 0, t));
      AllHeadsLogged(p, mem, rows[t], t);
    }
  }
}
