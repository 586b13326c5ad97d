/** The regions of a session as an image in flat memory: what the kernels do to the memory is what
    the session does to its regions. */
module GdnMemory {
  import opened Scalars
  import opened GdnModel
  import opened DeviceMemory
  import opened GdnKernels
  import opened GdnRestore
  import opened SessionState
  import opened Division

  /** Log rows of one region. */
  const MAXIMUM_LOGGED := 32

  ghost predicate RegionsShaped(conv: ConvCells, gdn: GdnCells) {
    |conv| == |gdn| && forall r | 0 <= r < |conv| :: ConvShaped(conv[r]) && HeadsShaped(gdn[r])
  }

  function States(conv: ConvCells, gdn: GdnCells): (sts: seq<State>)
    requires RegionsShaped(conv, gdn)
    ensures |sts| == |conv| && forall r | 0 <= r < |sts| :: Shaped(sts[r])
  {
    seq(|conv|, r requires 0 <= r < |conv| => State(conv[r], gdn[r]))
  }

  /** The memory of the states. */
  ghost predicate Image(flatConv: seq<Half>, flatHeads: seq<Float>, conv: ConvCells, gdn: GdnCells) {
    RegionsShaped(conv, gdn) && flatConv == AllConv(States(conv, gdn)) && flatHeads == AllHeads(States(conv, gdn))
  }

  ghost predicate LogsShaped(log: LogCells) {
    forall r | 0 <= r < |log| :: |log[r]| == MAXIMUM_LOGGED
      && forall t | 0 <= t < MAXIMUM_LOGGED :: LogShaped(log[r][t])
  }

  /** The memory of the rollback log. */
  ghost predicate LogImage(convLog: seq<Half>, p: LogPointers, mem: LogMemory, log: LogCells) {
    LogsShaped(log) && ConvLogsHeld(convLog, MAXIMUM_LOGGED, log, MAXIMUM_LOGGED)
      && HeadLogsHeld(p, mem, MAXIMUM_LOGGED, log, MAXIMUM_LOGGED)
  }

  // ---- one region

  lemma ConvRegion(sts: seq<State>, r: nat)
    requires r < |sts| && forall l | 0 <= l < |sts| :: Shaped(sts[l])
    ensures r * 40960 + 40960 <= |AllConv(sts)| && AllConv(sts)[r * 40960..r * 40960 + 40960] == FlatConv(sts[r].conv)
  {
    assert Shaped(sts[r]);
    forall i | 0 <= i < 40960
      ensures AllConv(sts)[r * 40960 + i] == FlatConv(sts[r].conv)[i]
    {
      assert (r * 40960 + i) / 40960 == r && (r * 40960 + i) % 40960 == i;
    }
  }

  lemma ConvRegionUpdate(sts: seq<State>, r: nat, st: State)
    requires r < |sts| && Shaped(st) && forall l | 0 <= l < |sts| :: Shaped(sts[l])
    ensures Overwrite(AllConv(sts), r * 40960, FlatConv(st.conv)) == AllConv(sts[r := st])
  {
    var a, b := Overwrite(AllConv(sts), r * 40960, FlatConv(st.conv)), AllConv(sts[r := st]);
    forall i | 0 <= i < |a|
      ensures a[i] == b[i]
    {
      assert Shaped(sts[i / 40960]);
      if i / 40960 == r {
        assert a[r * 40960..r * 40960 + 40960][i % 40960] == a[i];
      } else {
        Outside(AllConv(sts), a, r * 40960, 40960, i);
      }
    }
  }

  lemma HeadsRegion(sts: seq<State>, r: nat)
    requires r < |sts| && forall l | 0 <= l < |sts| :: Shaped(sts[l])
    ensures r * 786432 + 786432 <= |AllHeads(sts)|
            && AllHeads(sts)[r * 786432..r * 786432 + 786432] == FlatHeads(sts[r].heads)
  {
    assert Shaped(sts[r]);
    forall i | 0 <= i < 786432
      ensures AllHeads(sts)[r * 786432 + i] == FlatHeads(sts[r].heads)[i]
    {
      assert (r * 786432 + i) / 786432 == r && (r * 786432 + i) % 786432 == i;
    }
  }

  lemma HeadsRegionUpdate(sts: seq<State>, r: nat, st: State)
    requires r < |sts| && Shaped(st) && forall l | 0 <= l < |sts| :: Shaped(sts[l])
    ensures Overwrite(AllHeads(sts), r * 786432, FlatHeads(st.heads)) == AllHeads(sts[r := st])
  {
    var a, b := Overwrite(AllHeads(sts), r * 786432, FlatHeads(st.heads)), AllHeads(sts[r := st]);
    forall i | 0 <= i < |a|
      ensures a[i] == b[i]
    {
      assert Shaped(sts[i / 786432]);
      if i / 786432 == r {
        assert a[r * 786432..r * 786432 + 786432][i % 786432] == a[i];
      } else {
        Outside(AllHeads(sts), a, r * 786432, 786432, i);
      }
    }
  }

  lemma Outside<T>(before: seq<T>, after: seq<T>, base: nat, n: nat, i: nat)
    requires OnlyRegion(before, after, base, n) && i < |before| && (i < base || base + n <= i)
    ensures after[i] == before[i]
  {
    if i < base {
      assert after[..base][i] == before[..base][i];
    } else {
      assert after[base + n..][i - base - n] == before[base + n..][i - base - n];
    }
  }

  // ---- the log of one region

  lemma RowOutside<T>(before: seq<T>, after: seq<T>, base: nat, n: nat, at: nat, width: nat)
    requires OnlyRegion(before, after, base, n) && at + width <= |before| && (at + width <= base || base + n <= at)
    ensures after[at..at + width] == before[at..at + width]
  {
    forall i | at <= i < at + width
      ensures after[i] == before[i]
    {
      Outside(before, after, base, n, i);
    }
  }

  /** Row t of region l lies outside the rows of region r that a block of n tokens writes. */
  ghost predicate Elsewhere(r: nat, n: nat, l: nat, t: nat) {
    n <= MAXIMUM_LOGGED && t < MAXIMUM_LOGGED && (l != r || t >= n)
  }

  /** Row t of region l does not overlap n rows of region r, whatever the width of a row. */
  lemma RowsApart(base: nat, width: nat, r: nat, n: nat, l: nat, t: nat, home: nat, from: nat)
    requires Elsewhere(r, n, l, t)
    requires home == base + l * MAXIMUM_LOGGED * width && from == base + r * MAXIMUM_LOGGED * width
    ensures home + t * width + width <= from || from + n * width <= home + t * width
  {
    var row: nat, first: nat := l * MAXIMUM_LOGGED + t, r * MAXIMUM_LOGGED;
    assert home + t * width == base + row * width && from == base + first * width;
    if row < first {
      PieceFits(row, first, width);
    } else {
      assert first + n <= row;
      Scale(width, row - (first + n));
      assert width * (row - (first + n)) == row * width - first * width - n * width;
    }
  }

  lemma HeldOutside<T>(before: seq<T>, after: seq<T>, at: nat, width: nat, row: seq<T>, from: nat, size: nat)
    requires OnlyRegion(before, after, from, size) && (at + width <= from || from + size <= at)
    requires at + width <= |before| && before[at..at + width] == row
    ensures at + width <= |after| && after[at..at + width] == row
  {
    RowOutside(before, after, from, size, at, width);
  }

  lemma RowKept<T>(before: seq<T>, after: seq<T>, base: nat, width: nat, r: nat, n: nat, l: nat, t: nat, row: seq<T>,
                   home: nat, from: nat, at: nat, size: nat)
    requires home == base + l * MAXIMUM_LOGGED * width && from == base + r * MAXIMUM_LOGGED * width
             && at == home + t * width && size == n * width
    requires Elsewhere(r, n, l, t) && OnlyRegion(before, after, from, size) && RowHeld(before, home, width, t, row)
    ensures RowHeld(after, home, width, t, row)
  {
    RowsApart(base, width, r, n, l, t, home, from);
    HeldOutside(before, after, at, width, row, from, size);
  }

  lemma FloatRowsKept(p: LogPointers, before: LogMemory, after: LogMemory, r: nat, rows: seq<LogRow>, l: nat, t: nat,
                      row: LogRow)
    requires Elsewhere(r, |rows|, l, t) && RowsLogged(LayerLogs(p, MAXIMUM_LOGGED, r), before, after, rows)
    requires LogRowHeld(LayerLogs(p, MAXIMUM_LOGGED, l), before, row, t)
    ensures LogRowHeld(LayerLogs(p, MAXIMUM_LOGGED, l), after, row, t)
  {
    RowKept(before.key, after.key, p.key.base, 2048, r, |rows|, l, t, row.keys,
            p.key.base + l * MAXIMUM_LOGGED * 2048, p.key.base + r * MAXIMUM_LOGGED * 2048,
            p.key.base + l * MAXIMUM_LOGGED * 2048 + t * 2048, |rows| * 2048);
    RowKept(before.delta, after.delta, p.delta.base, 6144, r, |rows|, l, t, row.deltas,
            p.delta.base + l * MAXIMUM_LOGGED * 6144, p.delta.base + r * MAXIMUM_LOGGED * 6144,
            p.delta.base + l * MAXIMUM_LOGGED * 6144 + t * 6144, |rows| * 6144);
    RowKept(before.decay, after.decay, p.decay.base, 48, r, |rows|, l, t, row.decays,
            p.decay.base + l * MAXIMUM_LOGGED * 48, p.decay.base + r * MAXIMUM_LOGGED * 48,
            p.decay.base + l * MAXIMUM_LOGGED * 48 + t * 48, |rows| * 48);
  }

  /** A block's rows written from the first row of a region on. */
  function Recorded(log: LogCells, r: nat, rows: seq<LogRow>): (log': LogCells)
    requires r < |log| && |rows| <= |log[r]|
    ensures |log'| == |log| && forall l | 0 <= l < |log| :: |log'[l]| == |log[l]|
  {
    log[r := Overwrite(log[r], 0, rows)]
  }

  lemma RecordedRow(log: LogCells, r: nat, rows: seq<LogRow>, l: nat, t: nat)
    requires r < |log| && |rows| <= |log[r]| && l < |log| && t < |log[l]|
    ensures Recorded(log, r, rows)[l][t] == if l == r && t < |rows| then rows[t] else log[l][t]
  {
  }

  lemma RecordedShaped(log: LogCells, r: nat, rows: seq<LogRow>)
    requires LogsShaped(log) && r < |log| && |rows| <= MAXIMUM_LOGGED
             && forall t | 0 <= t < |rows| :: LogShaped(rows[t])
    ensures LogsShaped(Recorded(log, r, rows))
  {
    var after := Recorded(log, r, rows);
    forall l: nat, t: nat | 0 <= l < |after| && 0 <= t < MAXIMUM_LOGGED
      ensures LogShaped(after[l][t])
    {
      RecordedRow(log, r, rows, l, t);
    }
  }

  lemma ConvLogUpdate(before: seq<Half>, after: seq<Half>, log: LogCells, r: nat, rows: seq<LogRow>,
                      appended: seq<seq<Half>>)
    requires LogsShaped(log) && ConvLogsHeld(before, MAXIMUM_LOGGED, log, MAXIMUM_LOGGED) && r < |log|
             && |rows| <= MAXIMUM_LOGGED
    requires |appended| == |rows| && forall t | 0 <= t < |rows| :: appended[t] == rows[t].conv
    requires RowsHeld(before, after, r * MAXIMUM_LOGGED * 10240, appended)
    ensures ConvLogsHeld(after, MAXIMUM_LOGGED, Recorded(log, r, rows), MAXIMUM_LOGGED)
  {
    var log': LogCells := Recorded(log, r, rows);
    forall l: nat, t: nat | 0 <= l < |log'| && 0 <= t < MAXIMUM_LOGGED
      ensures RowHeld(after, l * MAXIMUM_LOGGED * 10240, 10240, t, log'[l][t].conv)
    {
      RecordedRow(log, r, rows, l, t);
      if l != r || t >= |rows| {
        RowKept(before, after, 0, 10240, r, |rows|, l, t, log[l][t].conv,
            l * MAXIMUM_LOGGED * 10240, r * MAXIMUM_LOGGED * 10240, l * MAXIMUM_LOGGED * 10240 + t * 10240,
            |rows| * 10240);
      }
    }
  }

  lemma HeadLogUpdate(p: LogPointers, before: LogMemory, after: LogMemory, log: LogCells, r: nat, rows: seq<LogRow>)
    requires LogsShaped(log) && HeadLogsHeld(p, before, MAXIMUM_LOGGED, log, MAXIMUM_LOGGED) && r < |log|
             && |rows| <= MAXIMUM_LOGGED
    requires RowsLogged(LayerLogs(p, MAXIMUM_LOGGED, r), before, after, rows)
    ensures HeadLogsHeld(p, after, MAXIMUM_LOGGED, Recorded(log, r, rows), MAXIMUM_LOGGED)
  {
    var log': LogCells := Recorded(log, r, rows);
    forall l: nat, t: nat | 0 <= l < |log'| && 0 <= t < MAXIMUM_LOGGED
      ensures LogRowHeld(LayerLogs(p, MAXIMUM_LOGGED, l), after, log'[l][t], t)
    {
      RecordedRow(log, r, rows, l, t);
      if l != r || t >= |rows| {
        FloatRowsKept(p, before, after, r, rows, l, t, log[l][t]);
      }
    }
  }

  lemma {:induction false} AppendedIsLogged(ar: Arithmetic, w: Weights, st: State, ps: seq<Projected>)
    requires Shaped(st)
    ensures |AppendedRows(ar, ps)| == |Logs(ar, w, st, ps)|
    ensures forall t | 0 <= t < |ps| :: AppendedRows(ar, ps)[t] == Logs(ar, w, st, ps)[t].conv
  {
    forall t | 0 <= t < |ps|
      ensures AppendedRows(ar, ps)[t] == Logs(ar, w, st, ps)[t].conv
    {
      LogAt(ar, w, st, ps, t);
    }
  }

  // ---- the kernels of a layer

  /** The allocations a layer's kernels work on. */
  datatype LayerMemory = LayerMemory(conv: Buffer<Half>, heads: Buffer<Float>, finalConv: Buffer<Half>,
                                     finalHeads: Buffer<Float>, qkv: Buffer<Half>, convLog: Buffer<Half>,
                                     logs: LogPointers)

  /** The final regions are the live ones or lie elsewhere; everything else lies elsewhere. */
  ghost predicate Apart(d: LayerMemory) {
    && (d.conv == d.finalConv <==> d.heads == d.finalHeads)
    && d.qkv !in {d.conv, d.finalConv, d.convLog} && d.convLog !in {d.conv, d.finalConv}
    && {d.heads, d.finalHeads} !! {d.logs.key.buffer, d.logs.delta.buffer, d.logs.decay.buffer}
    && d.logs.key.buffer != d.logs.delta.buffer && d.logs.key.buffer != d.logs.decay.buffer
    && d.logs.delta.buffer != d.logs.decay.buffer
    && var halves: set<object> := {d.conv, d.finalConv, d.qkv, d.convLog};
       var floats: set<object> := {d.heads, d.finalHeads, d.logs.key.buffer, d.logs.delta.buffer, d.logs.decay.buffer};
       halves !! floats
  }

  /** The projections of a block, row by row. */
  ghost predicate Projects(projected: seq<Float>, a: seq<Float>, b: seq<Float>, ps: seq<Projected>) {
    && |projected| == |ps| * 10240 && |a| == |b| == |ps| * 48
    && (forall t, c | 0 <= t < |ps| && 0 <= c < 10240 :: projected[t * 10240 + c] == ps[t].qkv(c))
    && (forall t, h | 0 <= t < |ps| && 0 <= h < 48 :: a[t * 48 + h] == ps[t].a(h))
    && (forall t, h | 0 <= t < |ps| && 0 <= h < 48 :: b[t * 48 + h] == ps[t].b(h))
  }

  /** gdn_conv_update on a region: the region of the final states gets the taps after the block. */
  method UpdateConv(ar: Arithmetic, w: Weights, projected: seq<Float>, d: LayerMemory, logged: bool, r: nat, batch: nat,
                    ghost sts: seq<State>, ghost finals: seq<State>, ghost log: LogCells, ghost ps: seq<Projected>)
    requires Apart(d) && r < |sts| == |finals| && forall l | 0 <= l < |sts| :: Shaped(sts[l]) && Shaped(finals[l])
    requires d.conv.cells == AllConv(sts) && d.finalConv.cells == AllConv(finals)
    requires |ps| == batch <= MAXIMUM_LOGGED && |projected| == |d.qkv.cells| == batch * 10240
    requires forall t, c | 0 <= t < batch && 0 <= c < 10240 :: projected[t * 10240 + c] == ps[t].qkv(c)
    requires LogsShaped(log) && r < |log| && ConvLogsHeld(d.convLog.cells, MAXIMUM_LOGGED, log, MAXIMUM_LOGGED)
    modifies d.finalConv, d.qkv, d.convLog
    ensures d.finalConv.cells == AllConv(finals[r := Run(ar, w, sts[r], ps)])
    ensures RowsHeld(old(d.qkv.cells), d.qkv.cells, 0, ConvolvedRows(ar, w, sts[r], ps))
    ensures ConvLogsHeld(d.convLog.cells, MAXIMUM_LOGGED, if logged then Recorded(log, r, Logs(ar, w, sts[r], ps))
                         else log, MAXIMUM_LOGGED)
  {
    ghost var before := d.convLog.cells;
    ConvRegion(sts, r);
    ConvRegionUpdate(finals, r, Run(ar, w, sts[r], ps));
    RegionInLog(d.convLog.cells, log, r, batch);
    GdnConvUpdate(ar, w, projected, Pointer(d.conv, r * 40960), Pointer(d.finalConv, r * 40960), d.qkv,
                  Pointer(d.convLog, r * MAXIMUM_LOGGED * 10240), logged, batch, sts[r], ps);
    if logged {
      AppendedIsLogged(ar, w, sts[r], ps);
      ConvLogUpdate(before, d.convLog.cells, log, r, Logs(ar, w, sts[r], ps), AppendedRows(ar, ps));
    }
  }

  lemma RegionInLog(cells: seq<Half>, log: LogCells, r: nat, n: nat)
    requires LogsShaped(log) && r < |log| && n <= MAXIMUM_LOGGED
             && ConvLogsHeld(cells, MAXIMUM_LOGGED, log, MAXIMUM_LOGGED)
    ensures r * MAXIMUM_LOGGED * 10240 + n * 10240 <= |cells|
  {
    assert RowHeld(cells, r * MAXIMUM_LOGGED * 10240, 10240, MAXIMUM_LOGGED - 1, log[r][MAXIMUM_LOGGED - 1].conv);
  }

  lemma RegionInLogs(p: LogPointers, mem: LogMemory, log: LogCells, r: nat, n: nat)
    requires LogsShaped(log) && r < |log| && n <= MAXIMUM_LOGGED
             && HeadLogsHeld(p, mem, MAXIMUM_LOGGED, log, MAXIMUM_LOGGED)
    ensures LogFits(LayerLogs(p, MAXIMUM_LOGGED, r), mem, n)
  {
    assert LogRowHeld(LayerLogs(p, MAXIMUM_LOGGED, r), mem, log[r][MAXIMUM_LOGGED - 1], MAXIMUM_LOGGED - 1);
  }

  /** gdn_recurrent_decode on a region. */
  method UpdateHeads(ar: Arithmetic, w: Weights, qkv: seq<Half>, a: seq<Float>, b: seq<Float>, d: LayerMemory,
                     logged: bool, r: nat, batch: nat, ghost sts: seq<State>, ghost finals: seq<State>,
                     ghost log: LogCells, ghost ps: seq<Projected>)
    requires Apart(d) && r < |sts| == |finals| && forall l | 0 <= l < |sts| :: Shaped(sts[l]) && Shaped(finals[l])
    requires d.heads.cells == AllHeads(sts) && d.finalHeads.cells == AllHeads(finals)
    requires 0 < |ps| == batch <= MAXIMUM_LOGGED && Inputs(ar, w, sts[r], ps, qkv, a, b)
    requires LogsShaped(log) && r < |log| && HeadLogsHeld(d.logs, MemoryOf(d.logs), MAXIMUM_LOGGED, log, MAXIMUM_LOGGED)
    modifies d.finalHeads, d.logs.key.buffer, d.logs.delta.buffer, d.logs.decay.buffer
    ensures d.finalHeads.cells == AllHeads(finals[r := Run(ar, w, sts[r], ps)])
    ensures HeadLogsHeld(d.logs, MemoryOf(d.logs), MAXIMUM_LOGGED, if logged
                         then Recorded(log, r, Logs(ar, w, sts[r], ps)) else log, MAXIMUM_LOGGED)
  {
    ghost var before := MemoryOf(d.logs);
    HeadsRegion(sts, r);
    HeadsRegionUpdate(finals, r, Run(ar, w, sts[r], ps));
    RegionInLogs(d.logs, before, log, r, batch);
    GdnRecurrentDecode(ar, w, qkv, a, b, Pointer(d.heads, r * 786432), Pointer(d.finalHeads, r * 786432),
                       LayerLogs(d.logs, MAXIMUM_LOGGED, r), logged, batch, sts[r], ps);
    if logged {
      HeadLogUpdate(d.logs, before, MemoryOf(d.logs), log, r, Logs(ar, w, sts[r], ps));
    }
  }

  lemma StatesUpdate(conv: ConvCells, gdn: GdnCells, r: nat, st: State)
    requires RegionsShaped(conv, gdn) && r < |conv| && Shaped(st)
    ensures RegionsShaped(conv[r := st.conv], gdn[r := st.heads])
    ensures States(conv[r := st.conv], gdn[r := st.heads]) == States(conv, gdn)[r := st]
  {
  }

  lemma RowsAreInputs(ar: Arithmetic, w: Weights, st: State, ps: seq<Projected>, before: seq<Half>, qkv: seq<Half>,
                      projected: seq<Float>, a: seq<Float>, b: seq<Float>)
    requires Shaped(st) && Projects(projected, a, b, ps) && RowsHeld(before, qkv, 0, ConvolvedRows(ar, w, st, ps))
    ensures Inputs(ar, w, st, ps, qkv, a, b)
  {
  }

  /** The recurrent kernels of a layer on the flat memory.  If the memory is an image of the regions
      before, it is one of the regions that the session's launch leaves: the final region of the layer
      gets the states after the block, the other regions stay, and the log gets the block's rows. */
  method LaunchRecurrentLayer(ar: Arithmetic, w: Weights, projected: seq<Float>, a: seq<Float>, b: seq<Float>,
                              d: LayerMemory, logged: bool, r: nat, batch: nat, ghost conv: ConvCells,
                              ghost gdn: GdnCells, ghost finalConv: ConvCells, ghost finalGdn: GdnCells,
                              ghost log: LogCells, ghost ps: seq<Projected>) returns (ok: bool)
    requires Apart(d) && r < |conv| == |finalConv| == |log|
    requires Image(d.conv.cells, d.heads.cells, conv, gdn)
             && Image(d.finalConv.cells, d.finalHeads.cells, finalConv, finalGdn)
    requires LogImage(d.convLog.cells, d.logs, MemoryOf(d.logs), log)
    requires 0 < |ps| == batch <= MAXIMUM_LOGGED && |d.qkv.cells| == batch * 10240 && Projects(projected, a, b, ps)
    modifies d.finalConv, d.finalHeads, d.qkv, d.convLog, d.logs.key.buffer, d.logs.delta.buffer, d.logs.decay.buffer
    ensures ok ==>
              var st := State(conv[r], gdn[r]);
              var after := Run(ar, w, st, ps);
              && Image(d.finalConv.cells, d.finalHeads.cells, finalConv[r := after.conv], finalGdn[r := after.heads])
              && LogImage(d.convLog.cells, d.logs, MemoryOf(d.logs), if logged
                          then Recorded(log, r, Logs(ar, w, st, ps)) else log)
  {
    ghost var sts, finals := States(conv, gdn), States(finalConv, finalGdn);
    ghost var st := sts[r];
    StatesUpdate(finalConv, finalGdn, r, Run(ar, w, st, ps));
    if logged {
      RecordedShaped(log, r, Logs(ar, w, st, ps));
    }
    ok := Enqueue();
    if !ok { return; }
    ghost var before := d.qkv.cells;
    UpdateConv(ar, w, projected, d, logged, r, batch, sts, finals, log, ps);
    RowsAreInputs(ar, w, st, ps, before, d.qkv.cells, projected, a, b);
    ok := Enqueue();
    if !ok { return; }
    UpdateHeads(ar, w, d.qkv.cells, a, b, d, logged, r, batch, sts, finals, log, ps);
  }

  lemma NothingRestored(ar: Arithmetic, sts: seq<State>, log: LogCells)
    requires |log| == |sts| && forall l | 0 <= l < |sts| :: Shaped(sts[l]) && GdnRestore.Ready(log[l], 0)
    ensures Restored(ar, sts, log, 0) == sts
  {
    forall l | 0 <= l < |sts|
      ensures Restored(ar, sts, log, 0)[l] == sts[l]
    {
      assert GdnRestore.Ready(log[l], 0);
      assert log[l][..0] == [];
    }
  }

  /** restore_logged_prefix on the flat memory leaves an image of the regions that the session's restore
      leaves; for no tokens it touches nothing. */
  method RestoreRegions(ar: Arithmetic, conv: Buffer<Half>, heads: Buffer<Float>, convLog: seq<Half>, p: LogPointers,
                        mem: LogMemory, layers: nat, n: nat, ghost convCells: ConvCells, ghost gdn: GdnCells,
                        ghost log: LogCells) returns (r: Outcome<()>)
    requires Image(conv.cells, heads.cells, convCells, gdn) && LogImage(convLog, p, mem, log)
    requires |convCells| == |log| == layers
    modifies conv, heads
    ensures r.InvalidArgument? <==> n != 0 && (layers == 0 || n > MAXIMUM_LOGGED)
    ensures n == 0 ==> r.Ok? && conv.cells == old(conv.cells) && heads.cells == old(heads.cells)
    ensures r.Ok? ==>
              && AllShaped(convCells, gdn, log, n)
              && var restored := RestoreAll(ar, convCells, gdn, log, n);
                 Image(conv.cells, heads.cells, seq(|restored|, i requires 0 <= i < |restored| => restored[i].conv),
                       seq(|restored|, i requires 0 <= i < |restored| => restored[i].heads))
  {
    ghost var sts := States(convCells, gdn);
    if n != 0 && (layers == 0 || n > MAXIMUM_LOGGED) { return InvalidArgument; }
    LogsReady(convCells, gdn, log, n);
    if n == 0 {
      NothingRestored(ar, sts, log);
      RestoredRegions(ar, convCells, gdn, log, n);
      return Ok(());
    }
    r := RestorePrefixAll(ar, conv, heads, convLog, p, mem, layers, MAXIMUM_LOGGED, n, sts, log);
    RestoredRegions(ar, convCells, gdn, log, n);
  }

  lemma LogsReady(conv: ConvCells, gdn: GdnCells, log: LogCells, n: nat)
    requires RegionsShaped(conv, gdn) && LogsShaped(log) && |log| == |conv| && n <= MAXIMUM_LOGGED
    ensures AllShaped(conv, gdn, log, n) && forall l | 0 <= l < |log| :: GdnRestore.Ready(log[l], n)
  {
    forall l | 0 <= l < |log|
      ensures RegionShaped(conv, gdn, log, n, l) && GdnRestore.Ready(log[l], n)
    {
    }
  }

  lemma RestoredRegions(ar: Arithmetic, conv: ConvCells, gdn: GdnCells, log: LogCells, n: nat)
    requires RegionsShaped(conv, gdn) && AllShaped(conv, gdn, log, n)
             && forall l | 0 <= l < |log| :: GdnRestore.Ready(log[l], n)
    ensures var restored := RestoreAll(ar, conv, gdn, log, n);
            var conv' := seq(|restored|, i requires 0 <= i < |restored| => restored[i].conv);
            var gdn' := seq(|restored|, i requires 0 <= i < |restored| => restored[i].heads);
            RegionsShaped(conv', gdn') && States(conv', gdn') == Restored(ar, States(conv, gdn), log, n)
  {
    var restored := RestoreAll(ar, conv, gdn, log, n);
    forall l | 0 <= l < |conv|
      ensures restored[l] == Restore(ar, State(conv[l], gdn[l]), log[l][..n])
    {
      assert RegionShaped(conv, gdn, log, n, l);
    }
  }
}
