/** The INT4 matrix kernels: integer dots per group of 128 columns, scaled and accumulated in
    floating point, over the grid of one matrix and over the fused grid. */
module Gemm {
  import opened Scalars
  import opened LowBitCodes
  import opened GemmGrid
  import opened DeviceMemory
  import opened Options

  /** A tiled matrix as the kernels see it: the signed level of each weight, and a scale per group
      and row. */
  datatype Matrix = Matrix(tiles: nat, level: (nat, nat) -> int, scale: (nat, nat) -> Float)

  /** Quantized activations: a code per candidate and column, and a scale per candidate and group. */
  datatype Activations = Activations(code: (nat, nat) -> int, scale: (nat, nat) -> Float)

  /** The integer dot over the first n columns of a group. */
  function Dot(m: Matrix, x: Activations, row: nat, candidate: nat, group: nat, n: nat): int {
    if n == 0 then 0
    else
      Dot(m, x, row, candidate, group, n - 1)
      + m.level(row, group * 128 + n - 1) * x.code(candidate, group * 128 + n - 1)
  }

  function Output(ar: Arithmetic, exact: int -> Float, m: Matrix, x: Activations, row: nat, candidate: nat,
                  groups: nat): Float {
    if groups == 0 then ar.zero
    else
      ar.fma(exact(Dot(m, x, row, candidate, groups - 1, 128)),
             ar.mul(m.scale(row, groups - 1), x.scale(candidate, groups - 1)),
             Output(ar, exact, m, x, row, candidate, groups - 1))
  }

  lemma LevelBound(code: bv8, f: Format)
    requires IsCode(code, f)
    ensures -8 <= DecodeValue(code, f) <= 7
  {
  }

  lemma ProductBound(a: int, b: int)
    requires -8 <= a <= 7 && -7 <= b <= 7
    ensures -56 <= a * b <= 56
  {
    if a >= 0 {
      assert -7 * a <= a * b <= 7 * a;
    } else {
      assert 7 * a <= a * b <= -7 * a;
    }
  }

  /** Levels of any format and activations clamped to [-7, 7] keep every group's dot within 7168,
      which converts to floating point exactly. */
  lemma {:induction false} DotBound(m: Matrix, x: Activations, row: nat, candidate: nat, group: nat, n: nat)
    requires forall r, c :: -8 <= m.level(r, c) <= 7
    requires forall r, c :: -7 <= x.code(r, c) <= 7
    ensures -56 * n <= Dot(m, x, row, candidate, group, n) <= 56 * n
  {
    if n > 0 {
      DotBound(m, x, row, candidate, group, n - 1);
      ProductBound(m.level(row, group * 128 + n - 1), x.code(candidate, group * 128 + n - 1));
    }
  }

  lemma {:induction false} GroupDotBound(m: Matrix, x: Activations, row: nat, candidate: nat, group: nat)
    requires forall r, c :: -8 <= m.level(r, c) <= 7
    requires forall r, c :: -7 <= x.code(r, c) <= 7
    ensures -7168 <= Dot(m, x, row, candidate, group, 128) <= 7168
  {
    DotBound(m, x, row, candidate, group, 128);
  }

  // ---- one thread

  /** One more group added to an accumulator. */
  function AddGroup(ar: Arithmetic, exact: int -> Float, m: Matrix, x: Activations, row: nat, candidate: nat,
                    group: nat, sum: Float): (r: Float)
    ensures sum == Output(ar, exact, m, x, row, candidate, group) ==>
              r == Output(ar, exact, m, x, row, candidate, group + 1)
  {
    ar.fma(exact(Dot(m, x, row, candidate, group, 128)), ar.mul(m.scale(row, group), x.scale(candidate, group)), sum)
  }

  /** The eight accumulators of a thread: eight rows, half a tile, and one candidate. */
  method Accumulate(ar: Arithmetic, exact: int -> Float, m: Matrix, x: Activations, first: nat, candidate: nat,
                    groups: nat) returns (accumulators: seq<Float>)
    ensures |accumulators| == 8
    ensures forall i | 0 <= i < 8 :: accumulators[i] == Output(ar, exact, m, x, first + i, candidate, groups)
  {
    accumulators := seq(8, _ => ar.zero);
    for group := 0 to groups
      invariant |accumulators| == 8
      invariant forall i | 0 <= i < 8 :: accumulators[i] == Output(ar, exact, m, x, first + i, candidate, group)
    {
      accumulators := seq(8, i requires 0 <= i < 8 && |accumulators| == 8 =>
        AddGroup(ar, exact, m, x, first + i, candidate, group, accumulators[i]));
    }
  }

  /** The duty that covers an output. */
  function DutyFor(row: nat, candidate: nat): Duty {
    Duty(row / 16, candidate, row % 16 / 8)
  }

  lemma DutyRows(d: Duty, row: nat, candidate: nat)
    requires d.half < 2
    ensures DutyFor(row, candidate) == d
            <==> candidate == d.candidate && d.tile * 16 + d.half * 8 <= row < d.tile * 16 + d.half * 8 + 8
  {
  }

  /** A thread's outputs, candidate by row. */
  method RunThread(ar: Arithmetic, exact: int -> Float, m: Matrix, x: Activations, d: Duty, groups: nat,
                   output: array2<Float>)
    requires d.half < 2 && d.tile < m.tiles && d.candidate < output.Length0 && output.Length1 == m.tiles * 16
    modifies output
    ensures forall c, r | 0 <= c < output.Length0 && 0 <= r < output.Length1 ::
              output[c, r] == if DutyFor(r, c) == d then Output(ar, exact, m, x, r, c, groups) else old(output[c, r])
  {
    var first := d.tile * 16 + d.half * 8;
    var accumulators := Accumulate(ar, exact, m, x, first, d.candidate, groups);
    for item := 0 to 8
      invariant forall c, r | 0 <= c < output.Length0 && 0 <= r < output.Length1 ::
                  output[c, r] == if c == d.candidate
                    && first <= r < first + item then Output(ar, exact, m, x, r, c, groups)
                                  else old(output[c, r])
    {
      output[d.candidate, first + item] := accumulators[item];
    }
    forall c, r | 0 <= c < output.Length0 && 0 <= r < output.Length1
      ensures DutyFor(r, c) == d <==> c == d.candidate && first <= r < first + 8
    {
      DutyRows(d, r, c);
    }
  }

  // ---- one matrix

  /** The thread of a duty comes before a thread of the grid. */
  ghost predicate Before(batch: nat, d: Duty, block: nat, thread: nat) {
    BlockFor(batch, d) < block || (BlockFor(batch, d) == block && ThreadFor(batch, d) < thread)
  }

  /** One more thread adds its duty. */
  lemma BeforeNext(batch: nat, tiles: nat, d: Duty, block: nat, thread: nat)
    requires 1 <= batch <= 32 && d.tile < tiles && d.candidate < batch && d.half < 2 && thread < Threads(batch)
    ensures Before(batch, d, block, thread + 1)
            <==> Before(batch, d, block, thread) || DutyOf(batch, block, thread) == d
  {
    DutyHasThread(batch, tiles, d);
    if DutyOf(batch, block, thread) == d {
      ThreadIsUnique(batch, block, thread);
    }
  }

  lemma BeforeBlock(batch: nat, tiles: nat, d: Duty, block: nat)
    requires 1 <= batch <= 32 && d.tile < tiles && d.candidate < batch && d.half < 2
    ensures Before(batch, d, block, Threads(batch)) <==> Before(batch, d, block + 1, 0)
    ensures !Before(batch, d, 0, 0) && Before(batch, d, Blocks(tiles, batch), 0)
  {
    DutyHasThread(batch, tiles, d);
  }

  /** The outputs of the threads before a thread are there. */
  ghost predicate Written(ar: Arithmetic, exact: int -> Float, m: Matrix, x: Activations, groups: nat, batch: nat,
                          output: array2<Float>, block: nat, thread: nat)
    requires 1 <= batch <= 32 && output.Length0 == batch && output.Length1 == m.tiles * 16
    reads output
  {
    forall c, r | 0 <= c < batch && 0 <= r < m.tiles * 16 :: Before(batch, DutyFor(r, c), block, thread) ==>
      output[c, r] == Output(ar, exact, m, x, r, c, groups)
  }

  /** One thread of the grid. */
  method NextThread(ar: Arithmetic, exact: int -> Float, m: Matrix, x: Activations, groups: nat, batch: nat,
                    output: array2<Float>, block: nat, thread: nat)
    requires 1 <= batch <= 32 && output.Length0 == batch && output.Length1 == m.tiles * 16 && thread < Threads(batch)
    requires Written(ar, exact, m, x, groups, batch, output, block, thread)
    modifies output
    ensures Written(ar, exact, m, x, groups, batch, output, block, thread + 1)
  {
    var d := DutyOf(batch, block, thread);
    if d.tile < m.tiles && d.candidate < batch {
      ThreadIsUnique(batch, block, thread);
      RunThread(ar, exact, m, x, d, groups, output);
    }
    forall c, r | 0 <= c < batch && 0 <= r < m.tiles * 16
      ensures Before(batch, DutyFor(r, c), block, thread + 1) ==>
                output[c, r] == Output(ar, exact, m, x, r, c, groups)
    {
      BeforeNext(batch, m.tiles, DutyFor(r, c), block, thread);
    }
  }

  /** gfx12_i4_gemm over its grid. */
  method RunGrid(ar: Arithmetic, exact: int -> Float, m: Matrix, x: Activations, groups: nat, batch: nat,
                 output: array2<Float>)
    requires 1 <= batch <= 32 && output.Length0 == batch && output.Length1 == m.tiles * 16
    modifies output
    ensures forall c, r | 0 <= c < batch && 0 <= r < m.tiles * 16 ::
              output[c, r] == Output(ar, exact, m, x, r, c, groups)
  {
    forall c, r, block: nat | 0 <= c < batch && 0 <= r < m.tiles * 16
      ensures Before(batch, DutyFor(r, c), block, Threads(batch)) <==> Before(batch, DutyFor(r, c), block + 1, 0)
      ensures !Before(batch, DutyFor(r, c), 0, 0) && Before(batch, DutyFor(r, c), Blocks(m.tiles, batch), 0)
    {
      BeforeBlock(batch, m.tiles, DutyFor(r, c), block);
    }
    for block := 0 to Blocks(m.tiles, batch)
      invariant Written(ar, exact, m, x, groups, batch, output, block, 0)
    {
      for thread := 0 to Threads(batch)
        invariant Written(ar, exact, m, x, groups, batch, output, block, thread)
      {
        NextThread(ar, exact, m, x, groups, batch, output, block, thread);
      }
    }
  }

  // ---- two to four matrices

  function TilesOf(ms: seq<Matrix>, i: nat): nat {
    if i < |ms| then ms[i].tiles else 0
  }

  function TotalTiles(ms: seq<Matrix>): nat {
    TilesOf(ms, 0) + TilesOf(ms, 1) + TilesOf(ms, 2) + TilesOf(ms, 3)
  }

  /** The duty of the fused grid that covers an output of matrix i. */
  function FusedDuty(ms: seq<Matrix>, i: nat, row: nat, candidate: nat): Duty
    requires i < 4
  {
    Duty(Unroute(TilesOf(ms, 0), TilesOf(ms, 1), TilesOf(ms, 2), i, row / 16), candidate, row % 16 / 8)
  }

  /** One output buffer per matrix, candidate by row. */
  ghost predicate Bound(ms: seq<Matrix>, outputs: seq<array2<Float>>, batch: nat) {
    && |outputs| == |ms| <= 4
    && (forall i | 0 <= i < |ms| :: outputs[i].Length0 == batch && outputs[i].Length1 == ms[i].tiles * 16)
    && forall i, j | 0 <= i < j < |ms| :: outputs[i] != outputs[j]
  }

  /** The outputs of all threads before the given one hold what the grid of their own matrix
      computes. */
  ghost predicate Done(ar: Arithmetic, exact: int -> Float, ms: seq<Matrix>, x: Activations, groups: nat, batch: nat,
                       outputs: seq<array2<Float>>, block: nat, thread: nat)
    requires Bound(ms, outputs, batch)
    reads outputs
  {
    forall i, c, r | 0 <= i < |ms| && 0 <= c < batch && 0 <= r < ms[i].tiles * 16 ::
      WrittenBefore(ms, i, r, c, batch, block, thread) ==> outputs[i][c, r] == Output(ar, exact, ms[i], x, r, c, groups)
  }

  ghost predicate WrittenBefore(ms: seq<Matrix>, i: nat, r: nat, c: nat, batch: nat, block: nat, thread: nat)
    requires i < 4
  {
    Before(batch, FusedDuty(ms, i, r, c), block, thread)
  }

  /** What a thread of the fused grid is routed to, if anything. */
  ghost predicate RoutedTo(ms: seq<Matrix>, batch: nat, d: Duty, i: nat, r: nat, c: nat) {
    && d.tile < TotalTiles(ms) && d.candidate < batch
    && var (matrix, tile) := Route(TilesOf(ms, 0), TilesOf(ms, 1), TilesOf(ms, 2), TilesOf(ms, 3), d.tile);
       i == matrix && DutyFor(r, c) == Duty(tile, d.candidate, d.half)
  }

  /** An output has a thread in the fused grid, and it is the one that is routed to it. */
  lemma WriterIsRouted(ms: seq<Matrix>, batch: nat, i: nat, r: nat, c: nat, block: nat, thread: nat)
    requires |ms| <= 4 && i < |ms| && r < ms[i].tiles * 16 && c < batch && 1 <= batch <= 32 && thread < Threads(batch)
    ensures BlockFor(batch, FusedDuty(ms, i, r, c)) < Blocks(TotalTiles(ms), batch)
    ensures ThreadFor(batch, FusedDuty(ms, i, r, c)) < Threads(batch)
    ensures (BlockFor(batch, FusedDuty(ms, i, r, c)) == block && ThreadFor(batch, FusedDuty(ms, i, r, c)) == thread)
         <==> RoutedTo(ms, batch, DutyOf(batch, block, thread), i, r, c)
  {
    var d, mine := DutyOf(batch, block, thread), FusedDuty(ms, i, r, c);
    RouteOfUnroute(TilesOf(ms, 0), TilesOf(ms, 1), TilesOf(ms, 2), TilesOf(ms, 3), i, r / 16);
    DutyHasThread(batch, TotalTiles(ms), mine);
    if RoutedTo(ms, batch, d, i, r, c) {
      ThreadIsUnique(batch, block, thread);
      UnrouteOfRoute(TilesOf(ms, 0), TilesOf(ms, 1), TilesOf(ms, 2), TilesOf(ms, 3), d.tile);
    }
  }

  lemma DutyHalf(batch: nat, block: nat, thread: nat)
    ensures DutyOf(batch, block, thread).half < 2
  {
  }

  /** One thread of the fused grid. */
  method RunFusedThread(ar: Arithmetic, exact: int -> Float, ms: seq<Matrix>, x: Activations, groups: nat, batch: nat,
                        outputs: seq<array2<Float>>, block: nat, thread: nat)
    requires 1 <= batch <= 32 && Bound(ms, outputs, batch)
    modifies outputs
    ensures forall i, c, r | 0 <= i < |ms| && 0 <= c < batch && 0 <= r < ms[i].tiles * 16 ::
              outputs[i][c, r] == if RoutedTo(ms, batch, DutyOf(batch, block, thread), i, r, c)
                                  then Output(ar, exact, ms[i], x, r, c, groups) else old(outputs[i][c, r])
  {
    var d := DutyOf(batch, block, thread);
    DutyHalf(batch, block, thread);
    if d.tile < TotalTiles(ms) && d.candidate < batch {
      var (i, tile) := Route(TilesOf(ms, 0), TilesOf(ms, 1), TilesOf(ms, 2), TilesOf(ms, 3), d.tile);
      RunThread(ar, exact, ms[i], x, Duty(tile, d.candidate, d.half), groups, outputs[i]);
    }
  }

  lemma DoneNext(ms: seq<Matrix>, batch: nat, block: nat, thread: nat)
    requires |ms| <= 4 && 1 <= batch <= 32 && thread < Threads(batch)
    ensures forall i, c, r | 0 <= i < |ms| && 0 <= c < batch && 0 <= r < ms[i].tiles * 16 ::
              WrittenBefore(ms, i, r, c, batch, block, thread + 1)
              <==>
              || WrittenBefore(ms, i, r, c, batch, block, thread)
              || RoutedTo(ms, batch, DutyOf(batch, block, thread), i, r, c)
  {
    forall i, c, r | 0 <= i < |ms| && 0 <= c < batch && 0 <= r < ms[i].tiles * 16
      ensures WrittenBefore(ms, i, r, c, batch, block, thread + 1)
              <==>
              || WrittenBefore(ms, i, r, c, batch, block, thread)
              || RoutedTo(ms, batch, DutyOf(batch, block, thread), i, r, c)
    {
      WriterIsRouted(ms, batch, i, r, c, block, thread);
    }
  }

  lemma DoneBlock(ms: seq<Matrix>, batch: nat, block: nat)
    requires |ms| <= 4 && 1 <= batch <= 32
    ensures forall i, c, r | 0 <= i < |ms| && 0 <= c < batch && 0 <= r < ms[i].tiles * 16 ::
              (WrittenBefore(ms, i, r, c, batch, block, Threads(batch))
               <==> WrittenBefore(ms, i, r, c, batch, block + 1, 0))
              && WrittenBefore(ms, i, r, c, batch, Blocks(TotalTiles(ms), batch), 0)
  {
    forall i, c, r | 0 <= i < |ms| && 0 <= c < batch && 0 <= r < ms[i].tiles * 16
      ensures WrittenBefore(ms, i, r, c, batch, block, Threads(batch))
              <==> WrittenBefore(ms, i, r, c, batch, block + 1, 0)
      ensures WrittenBefore(ms, i, r, c, batch, Blocks(TotalTiles(ms), batch), 0)
    {
      WriterIsRouted(ms, batch, i, r, c, block, 0);
    }
  }

  /** gfx12_i4_gemm_fused over its grid: every matrix gets the outputs of its own grid. */
  method RunFusedGrid(ar: Arithmetic, exact: int -> Float, ms: seq<Matrix>, x: Activations, groups: nat, batch: nat,
                      outputs: seq<array2<Float>>)
    requires 1 <= batch <= 32 && Bound(ms, outputs, batch)
    modifies outputs
    ensures forall i, c, r | 0 <= i < |ms| && 0 <= c < batch && 0 <= r < ms[i].tiles * 16 ::
              outputs[i][c, r] == Output(ar, exact, ms[i], x, r, c, groups)
  {
    for block := 0 to Blocks(TotalTiles(ms), batch)
      invariant Done(ar, exact, ms, x, groups, batch, outputs, block, 0)
    {
      for thread := 0 to Threads(batch)
        invariant Done(ar, exact, ms, x, groups, batch, outputs, block, thread)
      {
        DoneNext(ms, batch, block, thread);
        RunFusedThread(ar, exact, ms, x, groups, batch, outputs, block, thread);
      }
      DoneBlock(ms, batch, block);
    }
    DoneBlock(ms, batch, 0);
  }

  const MAXIMUM_GRID: nat := 0xffff_ffff

  /** A matrix as a launch is given it: a null pointer to its weights or scales is None. */
  datatype Binding = Binding(matrix: Option<Matrix>, rows: nat, output: array2?<Float>)

  predicate ValidBinding(b: Binding) {
    b.matrix.Some? && b.output != null && b.rows != 0 && b.rows % 16 == 0
  }

  /** What the memory behind a valid binding holds: so many tiles, and room for the outputs. */
  ghost predicate Backed(b: Binding, batch: nat) {
    ValidBinding(b) ==>
      b.matrix.value.tiles == b.rows / 16 && b.output.Length0 == batch && b.output.Length1 == b.rows
  }

  datatype LaunchStatus = Launched | Refused | UnsupportedFormat | LaunchFailed

  function RowTiles(bindings: seq<Binding>): nat {
    if bindings == [] then 0 else RowTiles(bindings[..|bindings| - 1]) + bindings[|bindings| - 1].rows / 16
  }

  function MatrixOf(b: Binding): Matrix
    requires ValidBinding(b)
  {
    b.matrix.value
  }

  function OutputOf(b: Binding): (output: array2<Float>)
    requires ValidBinding(b)
    ensures output == b.output
  {
    b.output
  }

  function Matrices(bindings: seq<Binding>): (ms: seq<Matrix>)
    requires forall i | 0 <= i < |bindings| :: ValidBinding(bindings[i])
    ensures |ms| == |bindings| && forall i | 0 <= i < |ms| :: ms[i] == MatrixOf(bindings[i])
  {
    seq(|bindings|, i requires 0 <= i < |bindings| && ValidBinding(bindings[i]) => MatrixOf(bindings[i]))
  }

  function Outputs(bindings: seq<Binding>): (outputs: seq<array2<Float>>)
    requires forall i | 0 <= i < |bindings| :: ValidBinding(bindings[i])
    ensures |outputs| == |bindings| && forall i | 0 <= i < |outputs| :: outputs[i] == OutputOf(bindings[i])
  {
    seq(|bindings|, i requires 0 <= i < |bindings| && ValidBinding(bindings[i]) => OutputOf(bindings[i]))
  }

  lemma RowTilesNext(bindings: seq<Binding>, n: nat)
    requires n < |bindings|
    ensures RowTiles(bindings[..n + 1]) == RowTiles(bindings[..n]) + bindings[n].rows / 16
  {
    assert bindings[..n + 1][..n] == bindings[..n];
  }

  lemma {:induction false} TilesBelow(bindings: seq<Binding>, ms: seq<Matrix>, batch: nat, n: nat)
    requires forall i | 0 <= i < |bindings| :: ValidBinding(bindings[i]) && Backed(bindings[i], batch)
    requires ms == Matrices(bindings) && n <= |bindings| <= 4
    ensures RowTiles(bindings[..n]) == (if n > 0 then TilesOf(ms, 0) else 0) + (if n > 1 then TilesOf(ms, 1) else 0)
                                       + (if n > 2 then TilesOf(ms, 2) else 0) + (if n > 3 then TilesOf(ms, 3) else 0)
  {
    if n > 0 {
      TilesBelow(bindings, ms, batch, n - 1);
      RowTilesNext(bindings, n - 1);
      assert ValidBinding(bindings[n - 1]) && Backed(bindings[n - 1], batch);
    }
  }

  lemma {:induction false} TilesOfRows(bindings: seq<Binding>, batch: nat)
    requires forall i | 0 <= i < |bindings| :: ValidBinding(bindings[i]) && Backed(bindings[i], batch)
    requires |bindings| <= 4
    ensures TotalTiles(Matrices(bindings)) == RowTiles(bindings)
  {
    TilesBelow(bindings, Matrices(bindings), batch, |bindings|);
    assert bindings[..|bindings|] == bindings;
  }

  /** When the launch is refused. */
  ghost predicate RefusedLaunch(bindings: seq<Binding>, activations: Option<Activations>, columns: nat, batch: nat) {
    || |bindings| < 2 || |bindings| > 4 || activations.None?
    || columns == 0 || columns % 128 != 0 || batch == 0 || batch > 32
    || (exists i | 0 <= i < |bindings| :: !ValidBinding(bindings[i]))
    || RowTiles(bindings) > MAXIMUM_GRID * RowTilesPerBlock(batch)
  }

  /** The outputs behind a binding are those of the binding's own grid. */
  ghost predicate Computed(ar: Arithmetic, exact: int -> Float, b: Binding, x: Activations, groups: nat, batch: nat)
    reads if b.output == null then {} else {b.output}
  {
    && ValidBinding(b) && OutputOf(b).Length0 == batch && OutputOf(b).Length1 == b.rows
    && forall c, row | 0 <= c < batch && 0 <= row < b.rows ::
         OutputOf(b)[c, row] == Output(ar, exact, MatrixOf(b), x, row, c, groups)
  }

  /** launch_gfx12_i4_gemm_fused: a format that no kernel serves is None. */
  method LaunchFused(ar: Arithmetic, exact: int -> Float, format: Option<Format>, bindings: seq<Binding>,
                     activations: Option<Activations>, columns: nat, batch: nat) returns (r: LaunchStatus)
    requires forall i | 0 <= i < |bindings| :: Backed(bindings[i], batch)
    requires forall i, j | 0 <= i < j < |bindings| ::
               bindings[i].output == null || bindings[i].output != bindings[j].output
    modifies set i | 0 <= i < |bindings| && bindings[i].output != null :: bindings[i].output
    ensures r.Refused? <==> RefusedLaunch(bindings, activations, columns, batch)
    ensures r.UnsupportedFormat? <==> format.None? && !RefusedLaunch(bindings, activations, columns, batch)
    ensures r.Launched? ==>
              && activations.Some?
              && forall i | 0 <= i < |bindings| ::
                   Computed(ar, exact, bindings[i], activations.value, columns / 128, batch)
  {
    if || |bindings| < 2 || |bindings| > 4 || activations.None?
       || columns == 0 || columns % 128 != 0 || batch == 0 || batch > 32 {
      return Refused;
    }
    var tiles := 0;
    for i := 0 to |bindings|
      invariant forall j | 0 <= j < i :: ValidBinding(bindings[j])
      invariant tiles == RowTiles(bindings[..i])
    {
      if !ValidBinding(bindings[i]) { return Refused; }
      RowTilesNext(bindings, i);
      tiles := tiles + bindings[i].rows / 16;
    }
    assert bindings[..|bindings|] == bindings;
    if tiles > MAXIMUM_GRID * RowTilesPerBlock(batch) { return Refused; }
    if format.None? { return UnsupportedFormat; }
    var ok := Enqueue();
    if !ok { return LaunchFailed; }
    TilesOfRows(bindings, batch);
    RunFusedGrid(ar, exact, Matrices(bindings), activations.value, columns / 128, batch, Outputs(bindings));
    return Launched;
  }
}
