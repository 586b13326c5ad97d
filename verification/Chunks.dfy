/** Conversion in chunks of rows: each chunk is tiled on its own and appended to the output. */
module Chunks {
  import opened LowBitCodes
  import opened Quantizer
  import opened Tiling
  import opened Tiler
  import opened DeviceMemory
  import opened Division
  import opened Concatenation
  import Seals

  function Piece<T>(s: seq<T>, at: nat, n: nat): (r: seq<T>)
    requires at + n <= |s|
    ensures |r| == n
  {
    s[at..at + n]
  }

  lemma ChunkFits(first: nat, count: nat, rows: nat, width: nat)
    requires first + count <= rows
    ensures first * width + count * width == (first + count) * width <= rows * width
  {
    assert (rows - first - count) * width == rows * width - (first + count) * width;
  }

  /** Some pieces of equal width. */
  function Pieces<T>(s: seq<T>, rows: nat, width: nat, first: nat, count: nat): (r: seq<T>)
    requires first + count <= rows && |s| == rows * width
    ensures |r| == count * width
  {
    ChunkFits(first, count, rows, width);
    Piece(s, first * width, count * width)
  }

  /** Some rows of a packed matrix. */
  function RowChunk(m: PackedMatrix, first: nat, count: nat): (r: PackedMatrix)
    requires m.Valid() && first + count <= m.rows
    ensures |r.codes| == count * m.RowBytes() && |r.scales| == count * m.Groups()
    ensures r.columns == m.columns && r.format == m.format && r.rows == count
  {
    PackedMatrix(count, m.columns, m.format, Pieces(m.codes, m.rows, m.RowBytes(), first, count),
                 Pieces(m.scales, m.rows, m.Groups(), first, count))
  }

  /** The chunk holds the rows of the matrix from first on; behind a seal. */
  ghost predicate IsChunk(m: PackedMatrix, first: nat, chunk: PackedMatrix) {
    && m.Valid() && first + chunk.rows <= m.rows && chunk.columns == m.columns && chunk.format == m.format
    && forall seal {:trigger Seals.Opened(seal)} | Seals.Opened(seal) && seal == Seals.Chunk ::
         chunk == RowChunk(m, first, chunk.rows)
  }

  /** A slice of pieces holds the pieces. */
  lemma PieceOfSlice<T>(s: seq<T>, width: nat, first: nat, count: nat, i: nat)
    requires i < count && (first + count) * width <= |s| && first * width + count * width == (first + count) * width
    ensures (first + i) * width + width <= |s| && i * width + width <= count * width
    ensures s[first * width..first * width + count * width][i * width..i * width + width]
            == s[(first + i) * width..(first + i) * width + width]
  {
    PieceFits(first + i, first + count, width);
    PieceFits(i, count, width);
    assert (first + i) * width == first * width + i * width;
    SliceOfSlice(s, first * width, count * width, i * width, width);
  }

  lemma ChunkRow(m: PackedMatrix, first: nat, count: nat, row: nat)
    requires m.Valid() && first + count <= m.rows && row < count && RowChunk(m, first, count).Valid()
    ensures RowChunk(m, first, count).Row(row) == m.Row(first + row)
  {
    ChunkFits(first, count, m.rows, m.RowBytes());
    PieceOfSlice(m.codes, m.RowBytes(), first, count, row);
  }

  lemma ChunkFragment(m: PackedMatrix, first: nat, count: nat, row: nat, k: nat)
    requires m.Valid() && first + count <= m.rows && row < count && RowChunk(m, first, count).Valid()
             && k < m.Groups() * 4
    ensures Fragment(RowChunk(m, first, count), row, k) == Fragment(m, first + row, k)
  {
    ChunkRow(m, first, count, row);
  }

  /** Fragments of a chunk that starts at a tile are those of the matrix, further on. */
  lemma ShiftedFragment(groups: nat, tiles: nat, f: nat, before: nat)
    requires groups > 0 && before == tiles * groups * 64
    ensures FragmentRow(groups, before + f) == tiles * 16 + FragmentRow(groups, f)
    ensures FragmentBlock(groups, before + f) == FragmentBlock(groups, f)
  {
    ShiftedParts(tiles * groups, f);
    ShiftedGroup(groups, tiles, f / 64);
  }

  lemma ShiftedParts(g: nat, f: nat)
    ensures (g * 64 + f) / 64 == g + f / 64 && (g * 64 + f) % 16 == f % 16 && (g * 64 + f) / 16 % 4 == f / 16 % 4
  {
    QuotientIs(g * 64 + f, 64, g + f / 64, f % 64);
    QuotientIs(g * 64 + f, 16, g * 4 + f / 16, f % 16);
    QuotientIs(g * 4 + f / 16, 4, g + f / 16 / 4, f / 16 % 4);
  }

  lemma ShiftedGroup(groups: nat, tiles: nat, g: nat)
    requires groups > 0
    ensures (tiles * groups + g) / groups == tiles + g / groups && (tiles * groups + g) % groups == g % groups
  {
    assert groups * (tiles + g / groups) + g % groups == tiles * groups + g;
    QuotientIs(tiles * groups + g, groups, tiles + g / groups, g % groups);
  }

  /** Groups of a chunk that starts at a tile. */
  lemma AppendedFits(groups: nat, rows: nat, tiles: nat, count: nat, g: nat, more: nat)
    requires tiles * 16 + count <= rows && g == tiles * groups && more == count / 16 * groups
    ensures g + more == (tiles + count / 16) * groups && g + more <= rows / 16 * groups
  {
    ChunkFits(tiles, count / 16, rows / 16, groups);
  }

  /** Where fragment n of the chunk is in the matrix. */
  lemma ChunkPlace(groups: nat, rows: nat, tiles: nat, count: nat, n: nat, g: nat)
    requires groups > 0 && count % 16 == 0 && tiles * 16 + count <= rows && g == tiles * groups
    requires n < count / 16 * groups * 64
    ensures g * 64 + n < rows / 16 * groups * 64
    ensures FragmentRow(groups, g * 64 + n) == tiles * 16 + FragmentRow(groups, n)
    ensures FragmentBlock(groups, g * 64 + n) == FragmentBlock(groups, n)
    ensures FragmentRow(groups, n) < count && FragmentBlock(groups, n) < groups * 4
  {
    AppendedFits(groups, rows, tiles, count, g, count / 16 * groups);
    ShiftedFragment(groups, tiles, n, g * 64);
    FragmentInRange(count, groups, n);
  }

  /** Fragment n of a chunk that starts at a tile. */
  lemma ChunkSource(m: PackedMatrix, tiles: nat, chunk: PackedMatrix, whole: nat -> seq<bv8>, part: nat -> seq<bv8>,
                    n: nat, g: nat)
    requires IsSource(m, whole) && IsSource(chunk, part) && IsChunk(m, tiles * 16, chunk)
    requires n < Fragments(chunk) && g == tiles * m.Groups()
    ensures part(n) == whole(g * 64 + n)
  {
    assert Seals.Opened(Seals.Chunk);
    var row, k := FragmentRow(m.Groups(), n), FragmentBlock(m.Groups(), n);
    ChunkPlace(m.Groups(), m.rows, tiles, chunk.rows, n, g);
    SourceAt(m, whole, g * 64 + n, tiles * 16 + row, k);
    SourceAt(chunk, part, n, row, k);
    ChunkFragment(m, tiles * 16, chunk.rows, row, k);
  }

  lemma SourceAt(m: PackedMatrix, source: nat -> seq<bv8>, n: nat, row: nat, k: nat)
    requires IsSource(m, source) && n < Fragments(m)
    requires row == FragmentRow(m.Groups(), n) < m.rows && k == FragmentBlock(m.Groups(), n) < m.Groups() * 4
    ensures source(n) == Fragment(m, row, k)
  {
    assert Seals.Opened(Seals.Tiles);
  }

  /** The tiled matrix up to a tile, followed by the tiled chunk that starts there. */
  lemma {:induction false} ChunkTiles(m: PackedMatrix, tiles: nat, chunk: PackedMatrix, whole: nat -> seq<bv8>,
                                      part: nat -> seq<bv8>, g: nat)
    requires IsSource(m, whole) && IsSource(chunk, part) && IsChunk(m, tiles * 16, chunk)
    requires g == tiles * m.Groups()
    ensures Flat(whole, g * 64 + Fragments(chunk)) == Flat(whole, g * 64) + Flat(part, Fragments(chunk))
  {
    forall n | 0 <= n < Fragments(chunk)
      ensures part(n) == whole(g * 64 + n)
    {
      ChunkSource(m, tiles, chunk, whole, part, n, g);
    }
    FlatAppend(whole, g * 64, part, Fragments(chunk));
  }

  /** The scales of the chunk follow those of the tiles before it. */
  lemma ChunkScales(m: PackedMatrix, tiles: nat, chunk: PackedMatrix, g: nat, more: nat)
    requires IsChunk(m, tiles * 16, chunk) && chunk.Valid()
    requires g == tiles * m.Groups() && more == chunk.rows / 16 * m.Groups() && g + more <= m.rows / 16 * m.Groups()
    ensures TiledScales(m, (g + more) * 16) == TiledScales(m, g * 16) + AllScales(chunk)
  {
    var a, b := TiledScales(m, (g + more) * 16), TiledScales(m, g * 16) + AllScales(chunk);
    forall i | 0 <= i < |a|
      ensures a[i] == b[i]
    {
      if i >= g * 16 {
        ChunkScale(m, tiles, chunk, g * 16, i - g * 16);
      }
    }
  }

  lemma ScaleParts(g: nat, i: nat)
    ensures (g * 16 + i) / 16 == g + i / 16 && (g * 16 + i) % 16 == i % 16
  {
    QuotientIs(g * 16 + i, 16, g + i / 16, i % 16);
  }

  lemma ChunkScale(m: PackedMatrix, tiles: nat, chunk: PackedMatrix, before: nat, i: nat)
    requires IsChunk(m, tiles * 16, chunk) && chunk.Valid()
    requires before == tiles * m.Groups() * 16 && i < chunk.rows / 16 * m.Groups() * 16
    requires before + i < m.rows / 16 * m.Groups() * 16
    ensures ScaleSource(m.Groups(), before + i) < |m.scales| && ScaleSource(m.Groups(), i) < |chunk.scales|
    ensures m.scales[ScaleSource(m.Groups(), before + i)] == chunk.scales[ScaleSource(m.Groups(), i)]
  {
    assert Seals.Opened(Seals.Chunk);
    ScaleInRange(m, before + i);
    ScaleInRange(chunk, i);
    ShiftedScale(m.Groups(), tiles, i, before);
    SliceAt(m, tiles * 16, chunk.rows, ScaleSource(m.Groups(), i));
  }

  lemma ShiftedScale(groups: nat, tiles: nat, i: nat, before: nat)
    requires groups > 0 && before == tiles * groups * 16
    ensures ScaleSource(groups, before + i) == tiles * 16 * groups + ScaleSource(groups, i)
  {
    ShiftedGroup(groups, tiles, i / 16);
    ScaleParts(tiles * groups, i);
    var row := i / 16 / groups * 16 + i % 16;
    assert (tiles * 16 + row) * groups == tiles * 16 * groups + row * groups;
  }

  lemma SliceAt(m: PackedMatrix, first: nat, count: nat, i: nat)
    requires m.Valid() && first + count <= m.rows && i < |RowChunk(m, first, count).scales|
    ensures first * m.Groups() + i < |m.scales|
            && RowChunk(m, first, count).scales[i] == m.scales[first * m.Groups() + i]
  {
    ChunkFits(first, count, m.rows, m.Groups());
  }

  /** What has been appended after the first tiles, which have g groups. */
  ghost predicate Appended(m: PackedMatrix, whole: nat -> seq<bv8>, tiles: nat, g: nat, codes: seq<bv8>,
                           scales: seq<real>) {
    && IsSource(m, whole)
    && forall seal {:trigger Seals.Opened(seal)} | Seals.Opened(seal) && seal == Seals.Tiles ::
         Contents(m, whole, tiles, g, codes, scales)
  }

  ghost predicate Contents(m: PackedMatrix, whole: nat -> seq<bv8>, tiles: nat, g: nat, codes: seq<bv8>,
                           scales: seq<real>)
    requires m.Valid()
  {
    && g == tiles * m.Groups() && g <= m.rows / 16 * m.Groups()
    && codes == Flat(whole, g * 64) && scales == TiledScales(m, g * 16)
  }

  lemma NothingAppended(m: PackedMatrix, whole: nat -> seq<bv8>)
    requires IsSource(m, whole)
    ensures Appended(m, whole, 0, 0, [], [])
  {
  }

  lemma AppendedNext(m: PackedMatrix, whole: nat -> seq<bv8>, tiles: nat, g: nat, codes: seq<bv8>, scales: seq<real>,
                     chunk: PackedMatrix, more: nat)
    requires Appended(m, whole, tiles, g, codes, scales) && chunk.Valid()
    requires IsChunk(m, tiles * 16, chunk) && more == chunk.rows / 16 * m.Groups()
    ensures Appended(m, whole, tiles + chunk.rows / 16, g + more, codes + TiledCodes(chunk), scales + AllScales(chunk))
  {
    AppendedContents(m, whole, tiles, g, codes, scales);
    AppendedFits(m.Groups(), m.rows, tiles, chunk.rows, g, more);
    AppendedCodes(m, whole, tiles, codes, chunk, g, more);
    ChunkScales(m, tiles, chunk, g, more);
    AppendedContents(m, whole, tiles + chunk.rows / 16, g + more, codes + TiledCodes(chunk),
                     scales + AllScales(chunk));
  }

  lemma AppendedContents(m: PackedMatrix, whole: nat -> seq<bv8>, tiles: nat, g: nat, codes: seq<bv8>,
                         scales: seq<real>)
    requires IsSource(m, whole)
    ensures Appended(m, whole, tiles, g, codes, scales) <==> Contents(m, whole, tiles, g, codes, scales)
  {
    assert Seals.Opened(Seals.Tiles);
  }

  lemma AppendedCodes(m: PackedMatrix, whole: nat -> seq<bv8>, tiles: nat, codes: seq<bv8>, chunk: PackedMatrix, g: nat,
                      more: nat)
    requires IsSource(m, whole) && chunk.Valid() && IsChunk(m, tiles * 16, chunk)
    requires g == tiles * m.Groups() && more == chunk.rows / 16 * m.Groups() && codes == Flat(whole, g * 64)
    ensures codes + TiledCodes(chunk) == Flat(whole, (g + more) * 64)
  {
    var part := WholeSource(chunk);
    ChunkTiles(m, tiles, chunk, whole, part, g);
    PartIsTiled(chunk, part);
    ChunkFragments(m, tiles * 16, chunk, more);
    AppendedAt(whole, part, codes, TiledCodes(chunk), g * 64, Fragments(chunk), (g + more) * 64);
  }

  lemma {:induction false} AppendedAt(whole: nat -> seq<bv8>, part: nat -> seq<bv8>, codes: seq<bv8>, more: seq<bv8>,
                                      at: nat, count: nat, end: nat)
    requires codes == Flat(whole, at) && more == Flat(part, count) && at + count == end
    requires Flat(whole, at + count) == Flat(whole, at) + Flat(part, count)
    ensures codes + more == Flat(whole, end)
  {
  }

  lemma ChunkFragments(m: PackedMatrix, first: nat, chunk: PackedMatrix, more: nat)
    requires IsChunk(m, first, chunk) && more == chunk.rows / 16 * m.Groups()
    ensures Fragments(chunk) == more * 64
  {
  }

  lemma PartIsTiled(chunk: PackedMatrix, part: nat -> seq<bv8>)
    requires IsSource(chunk, part)
    ensures TiledCodes(chunk) == Flat(part, Fragments(chunk))
  {
    assert Seals.Opened(Seals.Tiles);
  }

  // ---- chunks quantized on their own

  lemma ChunkWeights(weights: seq<real>, rows: nat, columns: nat, first: nat, count: nat, values: seq<real>, row: nat)
    requires first + count <= rows && rows * columns <= |weights| && row < count
    requires first * columns + count * columns <= |weights|
             && values == Piece(weights, first * columns, count * columns)
    ensures PieceOf(values, columns, count, row) == PieceOf(weights, columns, rows, first + row)
  {
    ChunkFits(first, count, rows, columns);
    PieceOfSlice(weights, columns, first, count, row);
  }

  /** Row i of a quantized chunk is the row of the quantized matrix. */
  lemma ChunkRowAgrees(codes: nat -> seq<bv8>, scales: nat -> seq<real>, weights: seq<real>, rows: nat, columns: nat,
                       f: Format, encode: (real, real) -> bv8, first: nat, count: nat, values: seq<real>,
                       chunkCodes: nat -> seq<bv8>, chunkScales: nat -> seq<real>, i: nat)
    requires IsRows(codes, scales, weights, rows, columns, f, encode)
             && IsRows(chunkCodes, chunkScales, values, count, columns, f, encode)
    requires first + count <= rows && first * columns + count * columns <= |weights|
    requires values == Piece(weights, first * columns, count * columns) && i < count
    ensures chunkCodes(i) == codes(first + i) && chunkScales(i) == scales(first + i)
  {
    ChunkWeights(weights, rows, columns, first, count, values, i);
    RowOpens(codes, scales, weights, rows, columns, f, encode, first + i);
    RowOpens(chunkCodes, chunkScales, values, count, columns, f, encode, i);
  }

  lemma RowOpens(codes: nat -> seq<bv8>, scales: nat -> seq<real>, weights: seq<real>, rows: nat, columns: nat,
                 f: Format, encode: (real, real) -> bv8, row: nat)
    requires IsRows(codes, scales, weights, rows, columns, f, encode) && row < rows
    ensures codes(row) == CodeRow(PieceOf(weights, columns, rows, row), f, encode)
    ensures scales(row) == RowScales(PieceOf(weights, columns, rows, row), f)
  {
    assert Seals.Opened(Seals.Row);
    RowsAt(weights, rows, columns, f, encode, row);
  }

  lemma SizesOfRows(codes: nat -> seq<bv8>, scales: nat -> seq<real>, weights: seq<real>, rows: nat, columns: nat,
                    f: Format, encode: (real, real) -> bv8, width: nat)
    requires IsRows(codes, scales, weights, rows, columns, f, encode) && width == PackedRowBytes(f, columns)
    ensures Uniform(codes, rows, width) && Uniform(scales, rows, columns / 128)
  {
    assert Seals.Opened(Seals.Row);
    QuantizedSizes(weights, rows, columns, f, encode, width);
  }

  /** Quantizing some rows gives those rows of the quantized matrix. */
  lemma ChunkOfQuantized(codes: nat -> seq<bv8>, scales: nat -> seq<real>, weights: seq<real>, m: PackedMatrix,
                         encode: (real, real) -> bv8, first: nat, values: seq<real>,
                         chunkCodes: nat -> seq<bv8>, chunkScales: nat -> seq<real>, chunk: PackedMatrix)
    requires IsRows(codes, scales, weights, m.rows, m.columns, m.format, encode) && m.Valid()
    requires m == PackedMatrix(m.rows, m.columns, m.format, Flat(codes, m.rows), Flat(scales, m.rows))
    requires IsRows(chunkCodes, chunkScales, values, chunk.rows, m.columns, m.format, encode)
    requires chunk == PackedMatrix(chunk.rows, m.columns, m.format, Flat(chunkCodes, chunk.rows),
                                   Flat(chunkScales, chunk.rows))
    requires first + chunk.rows <= m.rows && first * m.columns + chunk.rows * m.columns <= |weights|
    requires values == Piece(weights, first * m.columns, chunk.rows * m.columns)
    ensures chunk == RowChunk(m, first, chunk.rows)
  {
    forall i | 0 <= i < chunk.rows
      ensures chunkCodes(i) == codes(first + i) && chunkScales(i) == scales(first + i)
    {
      ChunkRowAgrees(codes, scales, weights, m.rows, m.columns, m.format, encode, first, chunk.rows, values, chunkCodes,
                     chunkScales, i);
    }
    SizesOfRows(codes, scales, weights, m.rows, m.columns, m.format, encode, m.RowBytes());
    SliceOfFlat(codes, m.rows, m.RowBytes(), first, chunk.rows, chunkCodes);
    SliceOfFlat(scales, m.rows, m.Groups(), first, chunk.rows, chunkScales);
  }

  ghost predicate IsMatrix(m: PackedMatrix, codes: nat -> seq<bv8>, scales: nat -> seq<real>) {
    m == PackedMatrix(m.rows, m.columns, m.format, Flat(codes, m.rows), Flat(scales, m.rows))
  }

  lemma MatrixValid(m: PackedMatrix, codes: nat -> seq<bv8>, scales: nat -> seq<real>, weights: seq<real>,
                    encode: (real, real) -> bv8)
    requires IsRows(codes, scales, weights, m.rows, m.columns, m.format, encode) && IsMatrix(m, codes, scales)
    requires m.rows != 0 && m.columns != 0
    ensures m.Valid() <==> m.rows % 16 == 0
  {
    SizesOfRows(codes, scales, weights, m.rows, m.columns, m.format, encode, m.RowBytes());
    FlatLength(codes, m.rows, m.RowBytes());
    FlatLength(scales, m.rows, m.Groups());
  }

  // ---- the conversion loop

  /** The matrix that quantizing some weights gives, behind a seal. */
  ghost predicate Setting(weights: seq<real>, rows: nat, columns: nat, f: Format, encode: (real, real) -> bv8,
                          codes: nat -> seq<bv8>, scales: nat -> seq<real>, m: PackedMatrix) {
    && m.rows == rows && m.columns == columns && m.format == f
    && forall seal {:trigger Seals.Opened(seal)} | Seals.Opened(seal) && seal == Seals.Conversion ::
         && IsEncoder(encode, f) && columns != 0 && |weights| == rows * columns
         && IsRows(codes, scales, weights, rows, columns, f, encode) && IsMatrix(m, codes, scales)
  }

  /** Quantizes and tiles the values of one chunk. */
  method ConvertChunk(weights: seq<Single>, count: nat, columns: nat, f: Format, ghost values: seq<real>,
                      ghost encode: (real, real) -> bv8)
    returns (ok: bool, codes: seq<bv8>, scales: seq<real>, ghost chunk: PackedMatrix,
             ghost chunkCodes: nat -> seq<bv8>, ghost chunkScales: nat -> seq<real>)
    requires IsEncoder(encode, f) && encode == Encoder(f) && values == Numbers(weights)
    requires count != 0 && columns != 0 && columns % 128 == 0 && |weights| == count * columns
    ensures ok <==> count % 16 == 0 && AllFinite(weights)
    ensures ok ==> Setting(values, count, columns, f, encode, chunkCodes, chunkScales, chunk)
    ensures ok ==> chunk.Valid() && codes == TiledCodes(chunk) && scales == AllScales(chunk)
  {
    codes, scales := [], [];
    chunkCodes, chunkScales := RowsFor(values, count, columns, f, encode);
    chunk := PackedMatrix(0, 0, f, [], []);
    var packed := QuantizeGroup128(weights, count, columns, f);
    ok := packed.Ok?;
    if !ok { return; }
    chunk := packed.value;
    RowsMake(chunkCodes, chunkScales, values, count, columns, f, encode);
    MatrixValid(chunk, chunkCodes, chunkScales, values, encode);
    var tiled := TileGroup128(packed.value);
    ok := tiled.Ok?;
    if ok {
      codes, scales := tiled.value.codes, tiled.value.scales;
    }
  }

  /** The output so far is the tiled form of the rows converted, if the matrix can be tiled; behind a
      seal. */
  ghost predicate Converted(m: PackedMatrix, whole: nat -> seq<bv8>, row: nat, tile: nat, g: nat, data: seq<bv8>,
                            auxiliary: seq<real>) {
    forall seal {:trigger Seals.Opened(seal)} | Seals.Opened(seal) && seal == Seals.Matrix ::
      m.rows % 16 == 0 ==> row == tile * 16 && Appended(m, whole, tile, g, data, auxiliary)
  }

  /** A chunk quantized on its own is those rows of the matrix. */
  lemma ChunkInSetting(codes: nat -> seq<bv8>, scales: nat -> seq<real>, weights: seq<real>, rows: nat, columns: nat,
                       f: Format, m: PackedMatrix, encode: (real, real) -> bv8, row: nat, count: nat, values: seq<real>,
                       chunkCodes: nat -> seq<bv8>, chunkScales: nat -> seq<real>, chunk: PackedMatrix)
    requires Setting(weights, rows, columns, f, encode, codes, scales, m) && row + count <= rows && count != 0
    requires Setting(values, count, columns, f, encode, chunkCodes, chunkScales, chunk)
    requires row * columns + count * columns <= |weights| && values == Piece(weights, row * columns, count * columns)
    ensures m.rows % 16 == 0 ==> IsChunk(m, row, chunk)
  {
    assert Seals.Opened(Seals.Conversion);
    MatrixValid(m, codes, scales, weights, encode);
    if m.rows % 16 == 0 {
      ChunkOfQuantized(codes, scales, weights, m, encode, row, values, chunkCodes, chunkScales, chunk);
    }
  }

  /** One more chunk converted. */
  lemma ConvertedNext(m: PackedMatrix, whole: nat -> seq<bv8>, row: nat, tile: nat, g: nat, data: seq<bv8>,
                      auxiliary: seq<real>, count: nat, chunk: PackedMatrix, data': seq<bv8>, auxiliary': seq<real>)
    returns (tile': nat, g': nat)
    requires Converted(m, whole, row, tile, g, data, auxiliary) && row + count <= m.rows && chunk.rows == count
             && chunk.Valid()
    requires m.rows % 16 == 0 ==> IsChunk(m, row, chunk)
    requires data' == data + TiledCodes(chunk) && auxiliary' == auxiliary + AllScales(chunk)
    ensures Converted(m, whole, row + count, tile', g', data', auxiliary')
  {
    tile', g' := 0, 0;
    if m.rows % 16 == 0 {
      OpenConverted(m, whole, row, tile, g, data, auxiliary);
      tile', g' := TilesNext(m, whole, row, tile, g, data, auxiliary, count, chunk, data', auxiliary');
    }
  }

  lemma OpenConverted(m: PackedMatrix, whole: nat -> seq<bv8>, row: nat, tile: nat, g: nat, data: seq<bv8>,
                      auxiliary: seq<real>)
    requires Converted(m, whole, row, tile, g, data, auxiliary) && m.rows % 16 == 0
    ensures row == tile * 16 && Appended(m, whole, tile, g, data, auxiliary)
  {
    assert Seals.Opened(Seals.Matrix);
  }

  lemma TilesNext(m: PackedMatrix, whole: nat -> seq<bv8>, row: nat, tile: nat, g: nat, data: seq<bv8>,
                  auxiliary: seq<real>, count: nat, chunk: PackedMatrix, data': seq<bv8>, auxiliary': seq<real>)
    returns (tile': nat, g': nat)
    requires Appended(m, whole, tile, g, data, auxiliary) && row == tile * 16
    requires chunk.rows == count && chunk.Valid() && IsChunk(m, row, chunk)
    requires data' == data + TiledCodes(chunk) && auxiliary' == auxiliary + AllScales(chunk)
    ensures row + count == tile' * 16 && Appended(m, whole, tile', g', data', auxiliary')
  {
    var tiles: nat, groups: nat := count / 16, count / 16 * m.Groups();
    assert count == tiles * 16;
    AppendedNext(m, whole, tile, g, data, auxiliary, chunk, groups);
    tile', g' := tile + tiles, g + groups;
  }

  lemma AllConverted(m: PackedMatrix, whole: nat -> seq<bv8>, tile: nat, g: nat, data: seq<bv8>, auxiliary: seq<real>)
    requires Converted(m, whole, m.rows, tile, g, data, auxiliary) && m.rows % 16 == 0
    ensures m.Valid() && data == TiledCodes(m) && auxiliary == AllScales(m)
  {
    assert Appended(m, whole, m.rows / 16, g, data, auxiliary) by {
      assert Seals.Opened(Seals.Matrix);
      assert tile == m.rows / 16;
    }
    AllAppended(m, whole, g, data, auxiliary);
  }

  lemma AllAppended(m: PackedMatrix, whole: nat -> seq<bv8>, g: nat, data: seq<bv8>, auxiliary: seq<real>)
    requires Appended(m, whole, m.rows / 16, g, data, auxiliary)
    ensures m.Valid() && data == TiledCodes(m) && auxiliary == AllScales(m)
  {
    assert Seals.Opened(Seals.Tiles);
    PartIsTiled(m, whole);
  }

  lemma NothingConverted(m: PackedMatrix, codes: nat -> seq<bv8>, scales: nat -> seq<real>, weights: seq<real>,
                         encode: (real, real) -> bv8) returns (whole: nat -> seq<bv8>)
    requires IsRows(codes, scales, weights, m.rows, m.columns, m.format, encode) && IsMatrix(m, codes, scales)
    requires m.rows != 0 && m.columns != 0
    ensures Converted(m, whole, 0, 0, 0, [], [])
  {
    assert Seals.Opened(Seals.Matrix);
    MatrixValid(m, codes, scales, weights, encode);
    whole := (n: nat) => [];
    if m.rows % 16 == 0 {
      whole := WholeSource(m);
      NothingAppended(m, whole);
    }
  }

  lemma SettingGives(weights: seq<real>, rows: nat, columns: nat, f: Format, encode: (real, real) -> bv8,
                     codes: nat -> seq<bv8>, scales: nat -> seq<real>, m: PackedMatrix, row: nat, count: nat)
    requires Setting(weights, rows, columns, f, encode, codes, scales, m) && row + count <= rows
    ensures IsEncoder(encode, f) && columns != 0 && columns % 128 == 0 && row * columns + count * columns <= |weights|
  {
    assert Seals.Opened(Seals.Conversion);
    ChunkFits(row, count, rows, columns);
  }

  lemma NumbersOfPiece(weights: seq<Single>, at: nat, n: nat)
    requires at + n <= |weights|
    ensures Numbers(Piece(weights, at, n)) == Piece(Numbers(weights), at, n)
  {
  }

  lemma FiniteNext(weights: seq<Single>, at: nat, n: nat)
    requires at + n <= |weights| && AllFinite(weights[..at])
    ensures AllFinite(Piece(weights, at, n)) <==> AllFinite(weights[..at + n])
    ensures AllFinite(weights) ==> AllFinite(Piece(weights, at, n))
  {
    assert weights[..at + n] == weights[..at] + Piece(weights, at, n);
    forall i | 0 <= i < n
      ensures Piece(weights, at, n)[i] == weights[..at + n][at + i] == weights[at + i]
    {
    }
  }

  /** The chunk from a row on, converted and appended. */
  method AppendChunk(singles: seq<Single>, ghost weights: seq<real>, rows: nat, row: nat, count: nat, data: seq<bv8>,
                     auxiliary: seq<real>, columns: nat, f: Format, ghost encode: (real, real) -> bv8,
                     ghost codes: nat -> seq<bv8>, ghost scales: nat -> seq<real>, ghost m: PackedMatrix,
                     ghost whole: nat -> seq<bv8>, ghost tile: nat, ghost g: nat)
    returns (ok: bool, data': seq<bv8>, auxiliary': seq<real>, ghost tile': nat, ghost g': nat)
    requires Setting(weights, rows, columns, f, encode, codes, scales, m) && encode == Encoder(f)
    requires 0 < count && row + count <= rows && Converted(m, whole, row, tile, g, data, auxiliary)
    requires weights == Numbers(singles) && row * columns + count * columns <= |singles|
    ensures ok <==> count % 16 == 0 && AllFinite(Piece(singles, row * columns, count * columns))
    ensures ok ==> Converted(m, whole, row + count, tile', g', data', auxiliary')
  {
    SettingGives(weights, rows, columns, f, encode, codes, scales, m, row, count);
    var chunkWeights := Piece(singles, row * columns, count * columns);
    ghost var values := Piece(weights, row * columns, count * columns);
    NumbersOfPiece(singles, row * columns, count * columns);
    var chunkData, chunkScales;
    ghost var chunk, rowCodes, rowScales;
    ok, chunkData, chunkScales, chunk, rowCodes,
      rowScales := ConvertChunk(chunkWeights, count, columns, f, values, encode);
    data', auxiliary' := data + chunkData, auxiliary + chunkScales;
    tile', g' := tile, g;
    if ok {
      ChunkInSetting(codes, scales, weights, rows, columns, f, m, encode, row, count, values, rowCodes, rowScales,
                     chunk);
      tile', g' := ConvertedNext(m, whole, row, tile, g, data, auxiliary, count, chunk, data', auxiliary');
    }
  }

  /** Whether every chunk ends at a tile. */
  predicate EndsAtTiles(rows: nat, chunkRows: nat) {
    rows % 16 == 0 && (chunkRows % 16 == 0 || chunkRows >= rows)
  }

  /** When the conversion is refused: the columns do not make groups, a chunk does not end at a tile, or
      a weight is not finite. */
  predicate Refused(weights: seq<Single>, rows: nat, columns: nat, chunkRows: nat) {
    rows != 0
    && (columns == 0 || columns % 128 != 0 || !EndsAtTiles(rows, chunkRows) || !AllFinite(weights))
  }

  /** write_quantized: chunks of rows are quantized, tiled and appended one after the other.  The
      output is that of quantizing and tiling the whole matrix. */
  method WriteQuantized(weights: seq<Single>, rows: nat, columns: nat, f: Format, chunkRows: nat)
    returns (r: Outcome<(seq<bv8>, seq<real>)>)
    requires |weights| == rows * columns && chunkRows > 0
    ensures !r.DeviceError? && (r.InvalidArgument? <==> Refused(weights, rows, columns, chunkRows))
    ensures r.Ok? && rows == 0 ==> r.value == ([], [])
    ensures r.Ok? && rows != 0 ==>
              var m := QuantizedMatrix(Numbers(weights), rows, columns, f, Encoder(f));
              m.Valid() && r.value == (TiledCodes(m), AllScales(m))
  {
    if rows == 0 { return Ok(([], [])); }
    if columns == 0 || columns % 128 != 0 { return InvalidArgument; }
    ghost var numbers, encode := Numbers(weights), Encoder(f);
    EncoderEncodes(f, encode);
    ghost var codes, scales := RowsFor(numbers, rows, columns, f, encode);
    ghost var m := PackedMatrix(rows, columns, f, Flat(codes, rows), Flat(scales, rows));
    ghost var whole := NothingConverted(m, codes, scales, numbers, encode);
    var ok, data, auxiliary := ConvertRows(weights, numbers, rows, columns, f, chunkRows, encode, codes, scales, m,
                                           whole);
    RowsMake(codes, scales, numbers, rows, columns, f, encode);
    r := if ok then Ok((data, auxiliary)) else InvalidArgument;
  }

  /** The chunk from a row on ends at a tile exactly when all of them may still do. */
  lemma ChunkEnds(rows: nat, chunkRows: nat, row: nat, count: nat)
    requires row % 16 == 0 && row < rows && count == (if chunkRows < rows - row then chunkRows else rows - row)
    requires row > 0 ==> chunkRows % 16 == 0 || chunkRows >= rows
    ensures count % 16 != 0 ==> !EndsAtTiles(rows, chunkRows)
    ensures count % 16 == 0 ==> (row + count) % 16 == 0 && (chunkRows % 16 == 0 || chunkRows >= rows)
  {
  }

  method ConvertRows(singles: seq<Single>, ghost weights: seq<real>, rows: nat, columns: nat, f: Format,
                     chunkRows: nat, ghost encode: (real, real) -> bv8, ghost codes: nat -> seq<bv8>,
                     ghost scales: nat -> seq<real>, ghost m: PackedMatrix, ghost whole: nat -> seq<bv8>)
    returns (ok: bool, data: seq<bv8>, auxiliary: seq<real>)
    requires Setting(weights, rows, columns, f, encode, codes, scales, m) && rows != 0 && chunkRows > 0
    requires encode == Encoder(f) && weights == Numbers(singles) && |singles| == rows * columns
    requires Converted(m, whole, 0, 0, 0, [], [])
    ensures ok <==> EndsAtTiles(rows, chunkRows) && AllFinite(singles)
    ensures ok ==> m.Valid() && data == TiledCodes(m) && auxiliary == AllScales(m)
  {
    ok, data, auxiliary := true, [], [];
    var row := 0;
    ghost var tile, g, done := 0, 0, 0;
    while row < rows
      invariant row % 16 == 0 && row <= rows && Converted(m, whole, row, tile, g, data, auxiliary)
      invariant row > 0 ==> chunkRows % 16 == 0 || chunkRows >= rows
      invariant done == row * columns <= |singles| && AllFinite(singles[..done])
      decreases rows - row
    {
      var count := if chunkRows < rows - row then chunkRows else rows - row;
      ChunkEnds(rows, chunkRows, row, count);
      ChunkFits(row, count, rows, columns);
      FiniteNext(singles, done, count * columns);
      ok, data, auxiliary, tile, g := AppendChunk(singles, weights, rows, row, count, data, auxiliary, columns, f,
                                                  encode, codes, scales, m, whole, tile, g);
      if !ok { return; }
      row, done := row + count, done + count * columns;
    }
    ok := true;
    assert singles[..done] == singles;
    AllConverted(m, whole, tile, g, data, auxiliary);
  }
}
