/** What the tiled layout means: a lane of the matrix instruction, a row gather, and a matrix tiled
    chunk by chunk all see the weights of the packed matrix. */
module TiledWeights {
  import opened LowBitCodes
  import opened Dilation
  import opened Tiling
  import opened Tiler
  import opened Division
  import opened Concatenation

  /** The fragment the kernels read for a weight: its tile of sixteen rows, its group, its 32-column
      block and its row of the tile. */
  function FragmentFor(groups: nat, row: nat, column: nat): nat {
    ((row / 16 * groups + column / 128) * 4 + column % 128 / 32) * 16 + row % 16
  }

  /** The bytes a lane reads, half of a piece of the tiled codes. */
  function LaneRead(codes: seq<bv8>, f: Format, n: nat, total: nat, half: nat): (r: seq<bv8>)
    requires n < total && |codes| == total * FragmentBytes(f) && half < 2
    ensures |r| == LaneBytes(f)
    ensures r == HalfOf(PieceOf(codes, FragmentBytes(f), total, n), half, f)
  {
    var width, lane := FragmentBytes(f), LaneBytes(f);
    PieceFits(n, total, width);
    SliceOfSlice(codes, n * width, width, half * lane, lane);
    codes[n * width + half * lane..n * width + half * lane + lane]
  }

  lemma FragmentPlace(m: PackedMatrix, row: nat, column: nat)
    requires m.Valid() && row < m.rows && column < m.columns
    ensures var n := FragmentFor(m.Groups(), row, column);
            n < Fragments(m) && FragmentRow(m.Groups(), n) == row
              && FragmentBlock(m.Groups(), n) == column / 32 < m.Groups() * 4
  {
    assert column / 128 * 4 + column % 128 / 32 == column / 32 && row / 16 * 16 + row % 16 == row;
    FragmentNumber(m, row / 16, column / 128, row / 16 * m.Groups() + column / 128, column % 128 / 32, row % 16);
  }

  /** It is the fragment of that row and block. */
  lemma FragmentFound(m: PackedMatrix, row: nat, column: nat)
    requires m.Valid() && row < m.rows && column < m.columns
    ensures FragmentFor(m.Groups(), row, column) < Fragments(m) && column / 32 < m.Groups() * 4
    ensures |TiledCodes(m)| == Fragments(m) * FragmentBytes(m.format)
    ensures PieceOf(TiledCodes(m), FragmentBytes(m.format), Fragments(m), FragmentFor(m.Groups(), row, column))
         == Fragment(m, row, column / 32)
  {
    FragmentPlace(m, row, column);
    SourceUniform(m);
    PieceOfFlat(FragmentSource(m), Fragments(m), FragmentBytes(m.format), FragmentFor(m.Groups(), row, column));
  }

  /** The bytes the lane of a weight reads. */
  ghost function BytesFor(m: PackedMatrix, row: nat, column: nat): (r: seq<bv8>)
    requires m.Valid() && row < m.rows && column < m.columns
    ensures |r| == LaneBytes(m.format)
  {
    FragmentFound(m, row, column);
    LaneRead(TiledCodes(m), m.format, FragmentFor(m.Groups(), row, column), Fragments(m), column % 32 / 16)
  }

  lemma BytesFound(m: PackedMatrix, row: nat, column: nat)
    requires m.Valid() && row < m.rows && column < m.columns
    ensures column / 32 < m.Groups() * 4
            && BytesFor(m, row, column) == HalfOf(Fragment(m, row, column / 32), column % 32 / 16, m.format)
  {
    FragmentFound(m, row, column);
  }

  lemma Positions(column: nat)
    ensures column == column / 32 * 32 + column % 32 / 16 * 16 + column % 16 && column % 32 / 16 < 2
  {
    var low: nat, half: nat, rest: nat := column % 32, column % 32 / 16, column % 16;
    assert low == half * 16 + low % 16 && low % 16 == rest;
  }

  /** The layout preserves meaning: for every weight of the matrix, packing, tiling, reading the
      bytes of its lane and dilating them gives the signed level of its code. */
  lemma LayoutPreservesMeaning(m: PackedMatrix, row: nat, column: nat, bytes: seq<bv8>)
    requires m.Valid() && row < m.rows && column < m.columns && bytes == BytesFor(m, row, column)
    ensures ValueOf(ElementAt(LaneWords(bytes, m.format), Index(column % 16)))
            == DecodeValue(m.Code(row, column), m.format)
  {
    BytesFound(m, row, column);
    Positions(column);
    var block, half, j := column / 32, column % 32 / 16, column % 16;
    FragmentMeans(m, row, block, half, j, bytes, column);
  }

  lemma FragmentMeans(m: PackedMatrix, row: nat, block: nat, half: nat, j: nat, bytes: seq<bv8>, column: nat)
    requires m.Valid() && row < m.rows && block < m.Groups() * 4 && half < 2 && j < 16
    requires bytes == HalfOf(Fragment(m, row, block), half, m.format) && column == block * 32 + half * 16 + j
    ensures ValueOf(ElementAt(LaneWords(bytes, m.format), Index(j))) == DecodeValue(m.Code(row, column), m.format)
  {
    FragmentHolds(m, row, block, half, j);
    LaneLevels(bytes, m.format, j);
  }

  /** The scale a lane applies is that of its row and group. */
  lemma ScalePreserved(m: PackedMatrix, rowTile: nat, group: nat, localRow: nat)
    requires m.Valid() && rowTile < m.rows / 16 && group < m.Groups() && localRow < 16
    ensures ScaleAt(m.Groups(), rowTile, group, localRow) < |AllScales(m)|
            && ScaleOf(m.Groups(), rowTile * 16 + localRow, group) < |m.scales|
    ensures AllScales(m)[ScaleAt(m.Groups(), rowTile, group, localRow)]
            == m.scales[ScaleOf(m.Groups(), rowTile * 16 + localRow, group)]
  {
    ScaleMoves(m, rowTile, group, localRow);
  }

  // ---- row gathers

  function Weight(m: PackedMatrix, row: nat, column: nat): real
    requires m.Valid() && row < m.rows && column < m.columns
  {
    PieceFits(row, m.rows, m.Groups());
    Dequantized(m.Code(row, column), m.format, m.scales[ScaleOf(m.Groups(), row, column / 128)])
  }

  function Dequantized(code: bv8, f: Format, scale: real): real {
    DecodeValue(code, f) as real * scale
  }

  /** One thread of lowbit_row_gather. */
  method GatherColumn(m: PackedMatrix, row: nat, column: nat) returns (output: real)
    requires m.Valid() && m.format != W3 && column < m.columns
    ensures output == if row < m.rows then Weight(m, row, column) else 0.0
  {
    if row >= m.rows { return 0.0; }
    PieceFits(row, m.rows, m.Groups());
    var bytes := m.Row(row);
    var code := if m.format == W2 then (bytes[column / 4] >> Shift2(column)) & 3
      else (bytes[column / 2] >> Shift4(column)) & 15;
    output := Dequantized(code, m.format, m.scales[row * m.Groups() + column / 128]);
  }

  /** One thread of lowbit_tiled_row_gather, which reads the tiled matrix instead. */
  method GatherTiledColumn(t: TiledMatrix, row: nat, column: nat, ghost m: PackedMatrix) returns (output: real)
    requires m.Valid() && m.format != W3 && t == TiledOf(m) && column < t.columns
    ensures output == if row < m.rows then Weight(m, row, column) else 0.0
  {
    if row >= t.rows { return 0.0; }
    var code := ReadCode(t, row, column, m);
    var scale := ReadScale(t, row, column, m);
    output := Dequantized(code, t.format, scale);
  }

  method ReadScale(t: TiledMatrix, row: nat, column: nat, ghost m: PackedMatrix) returns (scale: real)
    requires m.Valid() && t.columns == m.columns && t.scales == AllScales(m) && row < m.rows && column < m.columns
    ensures ScaleOf(m.Groups(), row, column / 128) < |m.scales|
            && scale == m.scales[ScaleOf(m.Groups(), row, column / 128)]
  {
    var groups, rowTile, localRow, group := t.columns / 128, row / 16, row % 16, column / 128;
    assert rowTile * 16 + localRow == row;
    ScalePreserved(m, rowTile, group, localRow);
    scale := t.scales[(rowTile * groups + group) * 16 + localRow];
  }

  method ReadCode(t: TiledMatrix, row: nat, column: nat, ghost m: PackedMatrix) returns (code: bv8)
    requires m.Valid() && t.format == m.format != W3 && t.columns == m.columns && t.codes == TiledCodes(m)
    requires row < m.rows && column < m.columns
    ensures code == m.Code(row, column)
  {
    var fragment, localColumn := FragmentFor(t.columns / 128, row, column), column % 32;
    FragmentFound(m, row, column);
    if t.format == W2 {
      CodeRead2(m, row, column, t.codes, fragment);
      code := (t.codes[fragment * 8 + localColumn / 4] >> Shift2(localColumn)) & 3;
    } else {
      CodeRead4(m, row, column, t.codes, fragment);
      code := (t.codes[fragment * 16 + localColumn / 2] >> Shift4(localColumn)) & 15;
    }
  }

  lemma InRow(m: PackedMatrix, row: nat, column: nat)
    requires m.Valid() && row < m.rows && column < m.columns
    ensures HasColumn(|m.Row(row)|, column, m.format) && HasBlock(|m.Row(row)|, m.format, column / 32)
  {
    assert column / 32 / 4 == column / 128 && column / 128 + 1 <= m.Groups();
  }

  lemma CodeRead2(m: PackedMatrix, row: nat, column: nat, codes: seq<bv8>, n: nat)
    requires m.Valid() && m.format == W2 && row < m.rows && column < m.columns
    requires n < Fragments(m) && |codes| == Fragments(m) * 8
             && PieceOf(codes, 8, Fragments(m), n) == Fragment(m, row, column / 32)
    ensures n * 8 + 8 <= |codes| && (codes[n * 8 + column % 32 / 4] >> Shift2(column % 32)) & 3 == m.Code(row, column)
  {
    InRow(m, row, column);
    CodeInPiece2(m.Row(row), column, codes, Fragments(m), n);
  }

  lemma CodeRead4(m: PackedMatrix, row: nat, column: nat, codes: seq<bv8>, n: nat)
    requires m.Valid() && m.format == W4 && row < m.rows && column < m.columns
    requires n < Fragments(m) && |codes| == Fragments(m) * 16
             && PieceOf(codes, 16, Fragments(m), n) == Fragment(m, row, column / 32)
    ensures n * 16 + 16 <= |codes|
            && (codes[n * 16 + column % 32 / 2] >> Shift4(column % 32)) & 15 == m.Code(row, column)
  {
    InRow(m, row, column);
    CodeInPiece4(m.Row(row), column, codes, Fragments(m), n);
  }

  lemma CodeInPiece2(bytes: seq<bv8>, column: nat, codes: seq<bv8>, total: nat, n: nat)
    requires HasColumn(|bytes|, column, W2) && HasBlock(|bytes|, W2, column / 32) && n < total && |codes| == total * 8
    requires PieceOf(codes, 8, total, n) == bytes[column / 32 * 8..column / 32 * 8 + 8]
    ensures n * 8 + 8 <= |codes| && (codes[n * 8 + column % 32 / 4] >> Shift2(column % 32)) & 3
            == LoadCode(bytes, column, W2)
  {
    PieceFits(n, total, 8);
    var i := column % 32 / 4;
    assert column / 4 == column / 32 * 8 + i && column % 32 % 4 == column % 4;
    assert codes[n * 8 + i] == PieceOf(codes, 8, total, n)[i];
    assert bytes[column / 32 * 8 + i] == bytes[column / 32 * 8..column / 32 * 8 + 8][i];
  }

  lemma CodeInPiece4(bytes: seq<bv8>, column: nat, codes: seq<bv8>, total: nat, n: nat)
    requires HasColumn(|bytes|, column, W4) && HasBlock(|bytes|, W4, column / 32) && n < total && |codes| == total * 16
    requires PieceOf(codes, 16, total, n) == bytes[column / 32 * 16..column / 32 * 16 + 16]
    ensures n * 16 + 16 <= |codes|
            && (codes[n * 16 + column % 32 / 2] >> Shift4(column % 32)) & 15 == LoadCode(bytes, column, W4)
  {
    PieceFits(n, total, 16);
    var i := column % 32 / 2;
    assert column / 2 == column / 32 * 16 + i && column % 32 % 2 == column % 2;
    assert codes[n * 16 + i] == PieceOf(codes, 16, total, n)[i];
    assert bytes[column / 32 * 16 + i] == bytes[column / 32 * 16..column / 32 * 16 + 16][i];
  }
}
