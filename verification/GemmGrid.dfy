/** Which thread of the INT4 matrix kernels writes which output: the grid of one matrix, and the
    grid that serves two to four matrices at once. */
module GemmGrid {
  /** The launch geometry for a number of candidates. */
  function RowTilesPerBlock(batch: nat): nat {
    if batch <= 4 then 8 else 4
  }

  function Threads(batch: nat): nat {
    if batch <= 4 || batch > 16 then 256 else 128
  }

  function WavesPerTile(batch: nat): nat {
    if batch > 16 then 2 else 1
  }

  /** Blocks for a number of 16-row tiles, rounded up. */
  function Blocks(tiles: nat, batch: nat): nat {
    (tiles + RowTilesPerBlock(batch) - 1) / RowTilesPerBlock(batch)
  }

  /** What a thread is responsible for: a tile, a candidate, and half of the tile's rows. */
  datatype Duty = Duty(tile: nat, candidate: nat, half: nat)

  function DutyOf(batch: nat, block: nat, thread: nat): Duty {
    var lane, wave := thread % 32, thread / 32;
    var tileInBlock := wave / WavesPerTile(batch);
    var candidateWave := wave - tileInBlock * WavesPerTile(batch);
    Duty(block * RowTilesPerBlock(batch) + tileInBlock, candidateWave * 16 + lane % 16, lane / 16)
  }

  function BlockFor(batch: nat, d: Duty): nat {
    d.tile / RowTilesPerBlock(batch)
  }

  function ThreadFor(batch: nat, d: Duty): nat {
    (d.tile % RowTilesPerBlock(batch) * WavesPerTile(batch) + d.candidate / 16) * 32 + d.half * 16 + d.candidate % 16
  }

  lemma LaneOfThread(wave: nat, lane: nat)
    requires lane < 32
    ensures (wave * 32 + lane) / 32 == wave && (wave * 32 + lane) % 32 == lane
  {
  }

  lemma HalfOfLane(half: nat, low: nat)
    requires low < 16
    ensures (half * 16 + low) / 16 == half && (half * 16 + low) % 16 == low
  {
  }

  lemma InLastBlock(batch: nat, tiles: nat, tile: nat)
    requires tile < tiles
    ensures tile / RowTilesPerBlock(batch) < Blocks(tiles, batch)
  {
  }

  /** A wave of a block, and what a wave number says. */
  lemma WaveOfTile(batch: nat, tile: nat, candidate: nat)
    requires 1 <= batch <= 32 && candidate < batch
    ensures var waves, per := WavesPerTile(batch), RowTilesPerBlock(batch);
            var wave := tile % per * waves + candidate / 16;
            wave < Threads(batch) / 32 && wave / waves == tile % per && wave - tile % per * waves == candidate / 16
  {
  }

  /** Every duty has a thread in the grid. */
  lemma DutyHasThread(batch: nat, tiles: nat, d: Duty)
    requires 1 <= batch <= 32 && d.tile < tiles && d.candidate < batch && d.half < 2
    ensures BlockFor(batch, d) < Blocks(tiles, batch) && ThreadFor(batch, d) < Threads(batch)
    ensures DutyOf(batch, BlockFor(batch, d), ThreadFor(batch, d)) == d
  {
    InLastBlock(batch, tiles, d.tile);
    WaveOfTile(batch, d.tile, d.candidate);
    LaneOfThread(d.tile % RowTilesPerBlock(batch) * WavesPerTile(batch) + d.candidate / 16,
                 d.half * 16 + d.candidate % 16);
    HalfOfLane(d.half, d.candidate % 16);
  }

  /** And only that one. */
  lemma ThreadIsUnique(batch: nat, block: nat, thread: nat)
    requires 1 <= batch <= 32 && thread < Threads(batch) && DutyOf(batch, block, thread).candidate < batch
    ensures block == BlockFor(batch, DutyOf(batch, block, thread))
            && thread == ThreadFor(batch, DutyOf(batch, block, thread))
    ensures DutyOf(batch, block, thread).half < 2
  {
    if batch <= 4 {
    } else if batch <= 16 {
    } else {
    }
  }

  // ---- several matrices in one grid

  /** The matrix a tile of the fused grid belongs to, and the tile's number in it; an absent matrix
      has no tiles. */
  function Route(t0: nat, t1: nat, t2: nat, t3: nat, tile: nat): (r: (nat, nat))
    requires tile < t0 + t1 + t2 + t3
    ensures r.0 < 4 && r.1 < [t0, t1, t2, t3][r.0]
  {
    if tile < t0 then (0, tile)
    else if tile - t0 < t1 then (1, tile - t0)
    else if tile - t0 - t1 < t2 then (2, tile - t0 - t1)
    else (3, tile - t0 - t1 - t2)
  }

  function Unroute(t0: nat, t1: nat, t2: nat, matrix: nat, tile: nat): nat
    requires matrix < 4
  {
    (if matrix == 0 then 0 else if matrix == 1 then t0 else if matrix == 2 then t0 + t1 else t0 + t1 + t2) + tile
  }

  /** Every tile of every matrix is served, by one tile of the grid. */
  lemma RouteOfUnroute(t0: nat, t1: nat, t2: nat, t3: nat, matrix: nat, tile: nat)
    requires matrix < 4 && tile < [t0, t1, t2, t3][matrix]
    ensures Unroute(t0, t1, t2, matrix, tile) < t0 + t1 + t2 + t3
    ensures Route(t0, t1, t2, t3, Unroute(t0, t1, t2, matrix, tile)) == (matrix, tile)
  {
    if matrix == 0 {
    } else if matrix == 1 {
    } else if matrix == 2 {
    } else {
    }
  }

  lemma UnrouteOfRoute(t0: nat, t1: nat, t2: nat, t3: nat, tile: nat)
    requires tile < t0 + t1 + t2 + t3
    ensures var r := Route(t0, t1, t2, t3, tile);
            Unroute(t0, t1, t2, r.0, r.1) == tile
  {
  }
}
