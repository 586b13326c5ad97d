/** The restore kernels: every recurrent layer replays the first logged tokens of a block on the
    state the block started from, over the flat memory the forward kernels filled. */
module GdnRestore {
  import opened Scalars
  import opened GdnModel
  import opened DeviceMemory
  import opened GdnKernels

  /** The regions of all layers, one after the other. */
  function AllConv(sts: seq<State>): (r: seq<Half>)
    requires forall l | 0 <= l < |sts| :: Shaped(sts[l])
    ensures |r| == |sts| * 40960
  {
    seq(|sts| * 40960, i requires 0 <= i < |sts| * 40960 =>
      assert Shaped(sts[i / 40960]);
      FlatConv(sts[i / 40960].conv)[i % 40960])
  }

  function AllHeads(sts: seq<State>): (r: seq<Float>)
    requires forall l | 0 <= l < |sts| :: Shaped(sts[l])
    ensures |r| == |sts| * 786432
  {
    seq(|sts| * 786432, i requires 0 <= i < |sts| * 786432 =>
      assert Shaped(sts[i / 786432]);
      FlatHeads(sts[i / 786432].heads)[i % 786432])
  }

  /** One thread of gdn_restore_conv_prefix_all: the logged values of one channel pushed into its
      taps. */
  method RestoreChannel(ar: Arithmetic, states: Buffer<Half>, at: nat, log: seq<Half>, logBase: nat, c: nat, n: nat,
                        ghost st: State, ghost rows: seq<LogRow>)
    requires Shaped(st) && c < 10240 && Pointer(states, at).Holds(st.conv[c])
    requires n <= |rows| && forall t | 0 <= t < |rows| :: LogShaped(rows[t])
    requires forall t | 0 <= t < n :: RowHeld(log, logBase, 10240, t, rows[t].conv)
    modifies states
    ensures states.cells == Overwrite(old(states.cells), at, Restore(ar, st, rows[..n]).conv[c])
  {
    ghost var before := states.cells;
    assert Overwrite(before, at, st.conv[c]) == before;
    for t := 0 to n
      invariant states.cells == Overwrite(before, at, Restore(ar, st, rows[..t]).conv[c])
    {
      assert RowHeld(log, logBase, 10240, t, rows[t].conv);
      assert log[logBase + t * 10240..logBase + t * 10240 + 10240][c] == log[logBase + t * 10240 + c];
      ghost var taps := Restore(ar, st, rows[..t]).conv[c];
      assert rows[..t + 1][..t] == rows[..t];
      OverwriteTwice(before, at, taps, Push(taps, rows[t].conv[c]));
      states.cells := Overwrite(states.cells, at, Push(states.cells[at..at + 4], log[logBase + t * 10240 + c]));
    }
  }

  /** One thread block of gdn_restore_recurrent_prefix_all: the logged tokens replayed on one value
      head, with the key of its key head. */
  method RestoreHead(ar: Arithmetic, state: Pointer<Float>, p: LogPointers, mem: LogMemory, h: nat, n: nat,
                     ghost st: State, ghost rows: seq<LogRow>)
    requires Shaped(st) && h < 48 && state.Holds(st.heads[h])
    requires n <= |rows| && forall t | 0 <= t < |rows| :: LogShaped(rows[t])
    requires forall t | 0 <= t < n :: LogRowHeld(p, mem, rows[t], t)
    modifies state.buffer
    ensures state.buffer.cells == Overwrite(old(state.buffer.cells), state.base, Restore(ar, st, rows[..n]).heads[h])
  {
    ghost var before := state.buffer.cells;
    assert Overwrite(before, state.base, st.heads[h]) == before;
    for t := 0 to n
      invariant state.buffer.cells == Overwrite(before, state.base, Restore(ar, st, rows[..t]).heads[h])
    {
      ghost var s := Restore(ar, st, rows[..t]).heads[h];
      assert LogRowHeld(p, mem, rows[t], t);
      RestoreToken(ar, state, p, mem, h, t, s, rows[t]);
      assert rows[..t + 1][..t] == rows[..t];
      OverwriteTwice(before, state.base, s, ReplayHead(ar, s, rows[t], h));
    }
  }

  method RestoreToken(ar: Arithmetic, state: Pointer<Float>, p: LogPointers, mem: LogMemory, h: nat, t: nat,
                      ghost s: seq<Float>, ghost row: LogRow)
    requires |s| == 16384 && h < 48 && state.Holds(s) && LogShaped(row) && LogRowHeld(p, mem, row, t)
    modifies state.buffer
    ensures state.buffer.cells == Overwrite(old(state.buffer.cells), state.base, ReplayHead(ar, s, row, h))
  {
    ghost var before := state.buffer.cells;
    var key, delta, decay := ReadLog(p, mem, h, t, row);
    DecayPass(ar, state, state, decay, s);
    RankPass(ar, state, key, delta, Decayed(ar, s, decay));
    OverwriteTwice(before, state.base, Decayed(ar, s, decay), ReplayHead(ar, s, row, h));
  }

  method ReadLog(p: LogPointers, mem: LogMemory, h: nat, t: nat, ghost row: LogRow)
    returns (key: seq<Float>, delta: seq<Float>, decay: Float)
    requires h < 48 && LogShaped(row) && LogRowHeld(p, mem, row, t)
    ensures key == row.keys[h / 3 * 128..h / 3 * 128 + 128] && delta == row.deltas[h * 128..h * 128 + 128]
            && decay == row.decays[h]
  {
    var keyAt, deltaAt, decayAt := p.key.base + t * 2048, p.delta.base + t * 6144, p.decay.base + t * 48;
    RowSlice(mem.key, keyAt, row.keys, h / 3 * 128);
    RowSlice(mem.delta, deltaAt, row.deltas, h * 128);
    assert mem.decay[decayAt..decayAt + 48][h] == mem.decay[decayAt + h];
    key := mem.key[keyAt + h / 3 * 128..keyAt + h / 3 * 128 + 128];
    delta := mem.delta[deltaAt + h * 128..deltaAt + h * 128 + 128];
    decay := mem.decay[decayAt + h];
  }

  // ---- all layers

  /** The states after the first n logged tokens. */
  function Restored(ar: Arithmetic, sts: seq<State>, rows: seq<seq<LogRow>>, n: nat): (r: seq<State>)
    requires |rows| == |sts| && forall l | 0 <= l < |sts| :: Shaped(sts[l]) && Ready(rows[l], n)
    ensures |r| == |sts| && forall l | 0 <= l < |r| :: Shaped(r[l])
  {
    seq(|sts|, l requires 0 <= l < |sts| => assert Ready(rows[l], n); Restore(ar, sts[l], rows[l][..n]))
  }

  ghost predicate Ready(rows: seq<LogRow>, n: nat) {
    n <= |rows| && forall t | 0 <= t < |rows| :: LogShaped(rows[t])
  }

  lemma ChannelOfAll(sts: seq<State>, i: nat)
    requires (forall l | 0 <= l < |sts| :: Shaped(sts[l])) && i < |sts| * 10240
    ensures AllConv(sts)[i * 4..i * 4 + 4] == sts[i / 10240].conv[i % 10240]
  {
    assert Shaped(sts[i / 10240]);
    forall tap | 0 <= tap < 4
      ensures AllConv(sts)[i * 4 + tap] == sts[i / 10240].conv[i % 10240][tap]
    {
      assert (i * 4 + tap) / 40960 == i / 10240 && (i * 4 + tap) % 40960 == i % 10240 * 4 + tap;
    }
  }

  lemma HeadOfAll(sts: seq<State>, i: nat)
    requires (forall l | 0 <= l < |sts| :: Shaped(sts[l])) && i < |sts| * 48
    ensures AllHeads(sts)[i * 16384..i * 16384 + 16384] == sts[i / 48].heads[i % 48]
  {
    assert Shaped(sts[i / 48]);
    forall j | 0 <= j < 16384
      ensures AllHeads(sts)[i * 16384 + j] == sts[i / 48].heads[i % 48][j]
    {
      assert (i * 16384 + j) / 786432 == i / 48 && (i * 16384 + j) % 786432 == i % 48 * 16384 + j;
    }
  }

  /** Piece i of k cells written, after the i pieces before it. */
  lemma PieceStored<T>(before: seq<T>, now: seq<T>, after: seq<T>, i: nat, k: nat)
    requires |before| == |after| && (i + 1) * k == i * k + k <= |after|
    requires now == Overwrite(before, 0, after[..i * k])
    ensures Overwrite(now, i * k, after[i * k..i * k + k]) == Overwrite(before, 0, after[..(i + 1) * k])
    ensures now[i * k..i * k + k] == before[i * k..i * k + k]
  {
    assert after[..(i + 1) * k] == after[..i * k] + after[i * k..i * k + k];
  }

  lemma ConvPiece(sts: seq<State>, restored: seq<State>, now: seq<Half>, i: nat)
    requires |sts| == |restored| && i < |sts| * 10240
             && forall l | 0 <= l < |sts| :: Shaped(sts[l]) && Shaped(restored[l])
    requires now == Overwrite(AllConv(sts), 0, AllConv(restored)[..i * 4])
    ensures now[i * 4..i * 4 + 4] == sts[i / 10240].conv[i % 10240]
    ensures Overwrite(now, i * 4, restored[i / 10240].conv[i % 10240])
            == Overwrite(AllConv(sts), 0, AllConv(restored)[..(i + 1) * 4])
  {
    PieceStored(AllConv(sts), now, AllConv(restored), i, 4);
    ChannelOfAll(sts, i);
    ChannelOfAll(restored, i);
  }

  /** The appended values of the first n tokens, layer by layer. */
  ghost predicate ConvLogsHeld(log: seq<Half>, maximumLogged: nat, rows: seq<seq<LogRow>>, n: nat) {
    forall l, t | 0 <= l < |rows| && 0 <= t < n && t < |rows[l]| ::
      RowHeld(log, l * maximumLogged * 10240, 10240, t, rows[l][t].conv)
  }

  /** gdn_restore_conv_prefix_all over its grid: thread i serves channel i % 10240 of layer
      i / 10240. */
  method GdnRestoreConvPrefixAll(ar: Arithmetic, states: Buffer<Half>, log: seq<Half>, maximumLogged: nat, layers: nat,
                                 n: nat, ghost sts: seq<State>, ghost rows: seq<seq<LogRow>>)
    requires |sts| == |rows| == layers && forall l | 0 <= l < layers :: Shaped(sts[l]) && Ready(rows[l], n)
    requires states.cells == AllConv(sts)
    requires ConvLogsHeld(log, maximumLogged, rows, n)
    modifies states
    ensures states.cells == AllConv(Restored(ar, sts, rows, n))
  {
    ghost var before, after := AllConv(sts), AllConv(Restored(ar, sts, rows, n));
    assert after[..0] == [];
    for i := 0 to layers * 10240
      invariant states.cells == Overwrite(before, 0, after[..i * 4])
    {
      RestoreConvThread(ar, states, log, maximumLogged, layers, n, i, sts, rows);
    }
    assert after[..layers * 40960] == after;
  }

  method RestoreConvThread(ar: Arithmetic, states: Buffer<Half>, log: seq<Half>, maximumLogged: nat, layers: nat,
                           n: nat, i: nat, ghost sts: seq<State>, ghost rows: seq<seq<LogRow>>)
    requires |sts| == |rows| == layers && forall l | 0 <= l < layers :: Shaped(sts[l]) && Ready(rows[l], n)
    requires i < layers * 10240
    requires states.cells == Overwrite(AllConv(sts), 0, AllConv(Restored(ar, sts, rows, n))[..i * 4])
    requires ConvLogsHeld(log, maximumLogged, rows, n)
    modifies states
    ensures states.cells == Overwrite(AllConv(sts), 0, AllConv(Restored(ar, sts, rows, n))[..(i + 1) * 4])
  {
    var layer := i / 10240;
    var channel := i - layer * 10240;
    ghost var restored := Restored(ar, sts, rows, n);
    ConvPiece(sts, restored, states.cells, i);
    assert Ready(rows[layer], n) && Shaped(sts[layer]);
    RestoreChannel(ar, states, layer * 40960 + channel * 4, log, layer * maximumLogged * 10240, channel, n, sts[layer],
                   rows[layer]);
  }

  /** The log regions of one layer, a fixed number of rows after those of the layer before. */
  function LayerLogs(p: LogPointers, maximumLogged: nat, l: nat): LogPointers {
    LogPointers(Pointer(p.key.buffer, p.key.base + l * maximumLogged * 2048),
                Pointer(p.delta.buffer, p.delta.base + l * maximumLogged * 6144),
                Pointer(p.decay.buffer, p.decay.base + l * maximumLogged * 48))
  }

  /** The keys, deltas and decays of the first n tokens, layer by layer. */
  ghost predicate HeadLogsHeld(p: LogPointers, mem: LogMemory, maximumLogged: nat, rows: seq<seq<LogRow>>, n: nat) {
    forall l, t | 0 <= l < |rows| && 0 <= t < n && t < |rows[l]| ::
      LogRowHeld(LayerLogs(p, maximumLogged, l), mem, rows[l][t], t)
  }

  /** gdn_restore_recurrent_prefix_all over its grid: block i serves value head i % 48 of layer
      i / 48. */
  method GdnRestoreRecurrentPrefixAll(ar: Arithmetic, states: Buffer<Float>, p: LogPointers, mem: LogMemory,
                                      maximumLogged: nat, layers: nat, n: nat, ghost sts: seq<State>,
                                      ghost rows: seq<seq<LogRow>>)
    requires |sts| == |rows| == layers && forall l | 0 <= l < layers :: Shaped(sts[l]) && Ready(rows[l], n)
    requires states.cells == AllHeads(sts)
    requires HeadLogsHeld(p, mem, maximumLogged, rows, n)
    modifies states
    ensures states.cells == AllHeads(Restored(ar, sts, rows, n))
  {
    ghost var before, after := AllHeads(sts), AllHeads(Restored(ar, sts, rows, n));
    assert after[..0] == [];
    for i := 0 to layers * 48
      invariant states.cells == Overwrite(before, 0, after[..i * 16384])
    {
      RestoreHeadBlock(ar, states, p, mem, maximumLogged, layers, n, i, sts, rows);
    }
    assert after[..layers * 786432] == after;
  }

  lemma LayerHeld(p: LogPointers, mem: LogMemory, maximumLogged: nat, rows: seq<seq<LogRow>>, n: nat, l: nat)
    requires l < |rows| && n <= |rows[l]| && HeadLogsHeld(p, mem, maximumLogged, rows, n)
    ensures forall t | 0 <= t < n :: LogRowHeld(LayerLogs(p, maximumLogged, l), mem, rows[l][t], t)
  {
  }

  lemma HeadOffset(i: nat, layer: nat, head: nat)
    requires layer == i / 48 && head == i % 48
    ensures layer * 786432 + head * 16384 == i * 16384
  {
  }

  lemma HeadPiece(sts: seq<State>, restored: seq<State>, now: seq<Float>, i: nat, layer: nat, head: nat, at: nat)
    requires |sts| == |restored| && i < |sts| * 48 && forall l | 0 <= l < |sts| :: Shaped(sts[l]) && Shaped(restored[l])
    requires now == Overwrite(AllHeads(sts), 0, AllHeads(restored)[..i * 16384])
    requires layer == i / 48 && head == i % 48 && at == layer * 786432 + head * 16384
    ensures at + 16384 <= |now| && Shaped(sts[layer]) && now[at..at + 16384] == sts[layer].heads[head]
    ensures Overwrite(now, at, restored[layer].heads[head])
         == Overwrite(AllHeads(sts), 0, AllHeads(restored)[..(i + 1) * 16384])
  {
    HeadOffset(i, layer, head);
    PieceStored(AllHeads(sts), now, AllHeads(restored), i, 16384);
    HeadOfAll(sts, i);
    HeadOfAll(restored, i);
  }

  method RestoreHeadBlock(ar: Arithmetic, states: Buffer<Float>, p: LogPointers, mem: LogMemory, maximumLogged: nat,
                          layers: nat, n: nat, i: nat, ghost sts: seq<State>, ghost rows: seq<seq<LogRow>>)
    requires |sts| == |rows| == layers && forall l | 0 <= l < layers :: Shaped(sts[l]) && Ready(rows[l], n)
    requires i < layers * 48
    requires states.cells == Overwrite(AllHeads(sts), 0, AllHeads(Restored(ar, sts, rows, n))[..i * 16384])
    requires HeadLogsHeld(p, mem, maximumLogged, rows, n)
    modifies states
    ensures states.cells == Overwrite(AllHeads(sts), 0, AllHeads(Restored(ar, sts, rows, n))[..(i + 1) * 16384])
  {
    var layer, head := i / 48, i % 48;
    var at := layer * 786432 + head * 16384;
    ghost var restored := Restored(ar, sts, rows, n);
    HeadPiece(sts, restored, states.cells, i, layer, head, at);
    LayerHeld(p, mem, maximumLogged, rows, n, layer);
    RestoreHead(ar, Pointer(states, at), LayerLogs(p, maximumLogged, layer), mem, head, n, sts[layer], rows[layer]);
  }

  /** The state of every layer after the first n tokens of its block. */
  function StatesAfter(ar: Arithmetic, ws: seq<Weights>, sts: seq<State>, pss: seq<seq<Projected>>,
                       n: nat): (r: seq<State>)
    requires |ws| == |sts| == |pss| && forall l | 0 <= l < |sts| :: Shaped(sts[l]) && n <= |pss[l]|
    ensures |r| == |sts| && forall l | 0 <= l < |r| :: Shaped(r[l])
  {
    seq(|sts|, l requires 0 <= l < |sts| => Run(ar, ws[l], sts[l], pss[l][..n]))
  }

  /** Exact rollback in memory: whatever the forward kernels ran over in each layer, replaying the
      first n logged tokens in all layers leaves the states of the first n tokens. */
  lemma {:induction false} RestoredIsRun(ar: Arithmetic, ws: seq<Weights>, sts: seq<State>, pss: seq<seq<Projected>>,
                                         rows: seq<seq<LogRow>>, n: nat)
    requires |ws| == |sts| == |pss| == |rows|
    requires forall l | 0 <= l < |sts| :: Shaped(sts[l]) && n <= |pss[l]| && rows[l] == Logs(ar, ws[l], sts[l], pss[l])
    ensures forall l | 0 <= l < |sts| :: Ready(rows[l], n)
    ensures Restored(ar, sts, rows, n) == StatesAfter(ar, ws, sts, pss, n)
  {
    forall l | 0 <= l < |sts|
      ensures Ready(rows[l], n) && Restore(ar, sts[l], rows[l][..n]) == Run(ar, ws[l], sts[l], pss[l][..n])
    {
      RollbackExact(ar, ws[l], sts[l], pss[l], n);
    }
  }

  /** launch_gdn_restore_prefix_all: the logged rows replayed in all layers. */
  method RestorePrefixAll(ar: Arithmetic, conv: Buffer<Half>, heads: Buffer<Float>, log: seq<Half>, p: LogPointers,
                          mem: LogMemory, layers: nat, maximumLogged: nat, n: nat, ghost sts: seq<State>,
                          ghost rows: seq<seq<LogRow>>)
    returns (r: Outcome<()>)
    requires |sts| == |rows| == layers && forall l | 0 <= l < layers :: Shaped(sts[l]) && Ready(rows[l], n)
    requires conv.cells == AllConv(sts) && heads.cells == AllHeads(sts)
    requires ConvLogsHeld(log, maximumLogged, rows, n) && HeadLogsHeld(p, mem, maximumLogged, rows, n)
    modifies conv, heads
    ensures r.InvalidArgument? <==> layers == 0 || maximumLogged == 0 || n == 0 || n > maximumLogged
    ensures r.InvalidArgument? ==> conv.cells == old(conv.cells) && heads.cells == old(heads.cells)
    ensures r.Ok? ==>
              conv.cells == AllConv(Restored(ar, sts, rows, n)) && heads.cells == AllHeads(Restored(ar, sts, rows, n))
  {
    if layers == 0 || maximumLogged == 0 || n == 0 || n > maximumLogged { return InvalidArgument; }
    var ok := Enqueue();
    if !ok { return DeviceError; }
    GdnRestoreConvPrefixAll(ar, conv, log, maximumLogged, layers, n, sts, rows);
    ok := Enqueue();
    if !ok { return DeviceError; }
    GdnRestoreRecurrentPrefixAll(ar, heads, p, mem, maximumLogged, layers, n, sts, rows);
    return Ok(());
  }

  /** The same, where the logs are those of blocks the forward kernels ran over, one block per layer:
      the states of all layers are those after the first n tokens. */
  method LaunchRestorePrefixAll(ar: Arithmetic, conv: Buffer<Half>, heads: Buffer<Float>, log: seq<Half>,
                                p: LogPointers, mem: LogMemory, layers: nat, maximumLogged: nat, n: nat,
                                ghost ws: seq<Weights>, ghost sts: seq<State>, ghost pss: seq<seq<Projected>>,
                                ghost rows: seq<seq<LogRow>>)
    returns (r: Outcome<()>)
    requires |ws| == |sts| == |pss| == |rows| == layers
    requires forall l | 0 <= l < layers :: Shaped(sts[l]) && n <= |pss[l]| && rows[l] == Logs(ar, ws[l], sts[l], pss[l])
    requires conv.cells == AllConv(sts) && heads.cells == AllHeads(sts)
    requires ConvLogsHeld(log, maximumLogged, rows, n) && HeadLogsHeld(p, mem, maximumLogged, rows, n)
    modifies conv, heads
    ensures r.InvalidArgument? <==> layers == 0 || maximumLogged == 0 || n == 0 || n > maximumLogged
    ensures r.InvalidArgument? ==> conv.cells == old(conv.cells) && heads.cells == old(heads.cells)
    ensures r.Ok? ==>
              conv.cells == AllConv(StatesAfter(ar, ws, sts, pss, n))
                && heads.cells == AllHeads(StatesAfter(ar, ws, sts, pss, n))
  {
    RestoredIsRun(ar, ws, sts, pss, rows, n);
    r := RestorePrefixAll(ar, conv, heads, log, p, mem, layers, maximumLogged, n, sts, rows);
  }
}
