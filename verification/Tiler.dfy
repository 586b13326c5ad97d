/** The tiler, and what kernels read from its output. */
module Tiler {
  import opened LowBitCodes
  import opened SequentialCodes
  import opened Tiling
  import opened DeviceMemory
  import opened Division
  import opened Concatenation
  import Seals

  datatype TiledMatrix = TiledMatrix(rows: nat, columns: nat, format: Format, codes: seq<bv8>, scales: seq<real>)

  lemma TotalBytes(m: PackedMatrix)
    requires m.Valid()
    ensures |m.codes| == Fragments(m) * FragmentBytes(m.format)
    ensures |m.scales| == m.rows / 16 * m.Groups() * 16
  {
    m.RowFits(0);
    var t, g := m.rows / 16, m.Groups();
    assert m.rows == 16 * t;
    Sixteenths(t, g, 1);
    match m.format
    case W2 => Sixteenths(t, g, 32);
    case W3 => Sixteenths(t, g, 48);
    case W4 => Sixteenths(t, g, 64);
  }

  lemma Sixteenths(t: nat, g: nat, k: nat)
    ensures 16 * t * (g * k) == t * g * (16 * k)
  {
    assert t * (g * k) == t * g * k;
  }

  /** Which scale is scale i of the tiled matrix: those of a tile's sixteen rows follow each other. */
  function ScaleSource(groups: nat, i: nat): nat
    requires groups > 0
  {
    var tile: nat, group: nat := i / 16 / groups, i / 16 % groups;
    var row: nat := tile * 16 + i % 16;
    row * groups + group
  }

  lemma ScaleInRange(m: PackedMatrix, i: nat)
    requires m.Valid() && i < m.rows / 16 * m.Groups() * 16
    ensures ScaleSource(m.Groups(), i) < |m.scales|
  {
    ScalePlace(m.rows / 16, m.Groups(), i / 16, i % 16);
  }

  /** Group n of the tiled matrix, and one of its sixteen rows. */
  lemma ScalePlace(tiles: nat, groups: nat, n: nat, localRow: nat)
    requires groups > 0 && n < tiles * groups && localRow < 16
    ensures 0 <= n / groups < tiles && 0 <= n % groups < groups
    ensures (n / groups * 16 + localRow) * groups + n % groups < tiles * 16 * groups
  {
    QuotientBelow(n, groups, tiles);
    ScaleBelow(tiles * 16, groups, n / groups * 16 + localRow, n % groups);
  }

  lemma ScaleBelow(rows: nat, groups: nat, row: nat, group: nat)
    requires row < rows && group < groups
    ensures row * groups + group < rows * groups
  {
    PieceFits(row, rows, groups);
  }

  /** The scale of a row and a group, before and after tiling. */
  function ScaleOf(groups: nat, row: nat, group: nat): nat {
    row * groups + group
  }

  function ScaleAt(groups: nat, tile: nat, group: nat, localRow: nat): nat {
    (tile * groups + group) * 16 + localRow
  }

  lemma SourceOf(groups: nat, tile: nat, group: nat, localRow: nat, g: nat, at: nat)
    requires group < groups && localRow < 16 && g == tile * groups + group && at == g * 16 + localRow
    ensures ScaleSource(groups, at) == ScaleOf(groups, tile * 16 + localRow, group)
  {
    QuotientIs(g, groups, tile, group);
    QuotientIs(at, 16, g, localRow);
  }

  lemma GroupBelow(tiles: nat, groups: nat, tile: nat, group: nat, g: nat, localRow: nat)
    requires tile < tiles && group < groups && localRow < 16 && g == tile * groups + group
    ensures g * 16 + localRow < tiles * groups * 16
  {
    PieceFits(tile, tiles, groups);
  }

  lemma ScaleMoves(m: PackedMatrix, tile: nat, group: nat, localRow: nat)
    requires m.Valid() && tile < m.rows / 16 && group < m.Groups() && localRow < 16
    ensures ScaleAt(m.Groups(), tile, group, localRow) < m.rows / 16 * m.Groups() * 16
    ensures ScaleSource(m.Groups(), ScaleAt(m.Groups(), tile, group, localRow))
            == ScaleOf(m.Groups(), tile * 16 + localRow, group) < |m.scales|
  {
    var tiles: nat, groups: nat := m.rows / 16, m.Groups();
    var at := ScaleAt(groups, tile, group, localRow);
    GroupBelow(tiles, groups, tile, group, tile * groups + group, localRow);
    SourceOf(groups, tile, group, localRow, tile * groups + group, at);
    ScaleInRange(m, at);
  }

  function TiledScales(m: PackedMatrix, n: nat): (r: seq<real>)
    requires m.Valid() && n <= m.rows / 16 * m.Groups() * 16
    ensures |r| == n
  {
    seq(n, i requires 0 <= i < n => ScaleInRange(m, i); m.scales[ScaleSource(m.Groups(), i)])
  }

  function AllScales(m: PackedMatrix): (r: seq<real>)
    requires m.Valid()
  {
    TiledScales(m, m.rows / 16 * m.Groups() * 16)
  }

  ghost function TiledOf(m: PackedMatrix): (r: TiledMatrix)
    requires m.Valid()
  {
    TiledMatrix(m.rows, m.columns, m.format, TiledCodes(m), AllScales(m))
  }

  ghost predicate IsSource(m: PackedMatrix, source: nat -> seq<bv8>) {
    m.Valid() && forall seal {:trigger Seals.Opened(seal)} | Seals.Opened(seal) && seal == Seals.Tiles ::
        source == FragmentSource(m)
  }

  /** The first n pieces are in place. */
  ghost predicate Written(codes: seq<bv8>, size: nat, source: nat -> seq<bv8>, n: nat) {
    Begins(codes, size, Flat(source, n))
  }

  ghost predicate Begins<T>(s: seq<T>, size: nat, prefix: seq<T>) {
    |s| == size && |prefix| <= size && s[..|prefix|] == prefix
  }

  lemma {:induction false} WrittenNext(codes: seq<bv8>, size: nat, source: nat -> seq<bv8>, n: nat, total: nat,
                                       width: nat)
    requires n < total && Uniform(source, total, width) && size == total * width && Written(codes, size, source, n)
    ensures |Flat(source, n)| + width <= size
            && Written(Overwrite(codes, |Flat(source, n)|, source(n)), size, source, n + 1)
  {
    FlatLength(source, n, width);
    PieceFits(n, total, width);
  }

  /** The 32 codes of a three-bit fragment, taken from the planes and packed one after the other. */
  lemma ItemInRow(columns: nat, block: nat, item: nat)
    requires columns % 128 == 0 && block < columns / 128 * 4 && item < 32
    ensures block * 32 + item < columns
  {
  }

  lemma PackedStep(all: seq<bv8>, bytes: seq<bv8>, item: nat, code: bv8)
    requires |all| == 32 && item < 32 && bytes == Packed(all, item) && code == all[item]
    ensures StoreSequential(bytes, item, code) == Packed(all, item + 1)
  {
  }

  method PackFragment(m: PackedMatrix, row: nat, block: nat) returns (bytes: seq<bv8>)
    requires m.Valid() && m.format == W3 && row < m.rows && block < m.Groups() * 4
    ensures bytes == Fragment(m, row, block)
  {
    ghost var all := Codes(m.Row(row), block);
    bytes := ZEROS;
    for item := 0 to 32
      invariant bytes == Packed(all, item)
    {
      ItemInRow(m.columns, block, item);
      var code := m.Code(row, block * 32 + item);
      assert code == all[item];
      PackedStep(all, bytes, item, code);
      bytes := StoreSequential(bytes, item, code);
    }
  }

  method ReadFragment(m: PackedMatrix, row: nat, block: nat) returns (bytes: seq<bv8>)
    requires m.Valid() && row < m.rows && block < m.Groups() * 4
    ensures bytes == Fragment(m, row, block)
  {
    if m.format == W3 {
      bytes := PackFragment(m, row, block);
    } else {
      var width := FragmentBytes(m.format);
      bytes := m.Row(row)[block * width..block * width + width];
    }
  }

  method WriteFragment(m: PackedMatrix, row: nat, block: nat, codes: seq<bv8>, at: nat, ghost source: nat -> seq<bv8>,
                       ghost n: nat)
    returns (r: seq<bv8>, next: nat)
    requires m.Valid() && IsSource(m, source) && n < Fragments(m)
    requires row == FragmentRow(m.Groups(), n) && block == FragmentBlock(m.Groups(), n)
    requires Written(codes, |m.codes|, source, n) && at == |Flat(source, n)|
    ensures Written(r, |m.codes|, source, n + 1) && next == |Flat(source, n + 1)|
  {
    assert Seals.Opened(Seals.Tiles);
    FragmentInRange(m.rows, m.Groups(), n);
    SourceUniform(m);
    TotalBytes(m);
    WrittenNext(codes, |m.codes|, source, n, Fragments(m), FragmentBytes(m.format));
    var bytes := ReadFragment(m, row, block);
    assert bytes == source(n);
    r := Overwrite(codes, at, bytes);
    next := at + FragmentBytes(m.format);
  }

  lemma FragmentNumber(m: PackedMatrix, tile: nat, group: nat, g: nat, kTile: nat, localRow: nat)
    requires m.Valid() && tile < m.rows / 16 && group < m.Groups() && g == tile * m.Groups() + group && kTile < 4
             && localRow < 16
    ensures var n := g * 64 + kTile * 16 + localRow;
            n < Fragments(m) && FragmentRow(m.Groups(), n) == tile * 16 + localRow
              && FragmentBlock(m.Groups(), n) == group * 4 + kTile
  {
    PieceFits(tile, m.rows / 16, m.Groups());
    FragmentIndex(m.Groups(), tile, group, kTile, localRow);
  }

  /** The sixteen fragments of one 16 x 32 tile. */
  method WriteTile(m: PackedMatrix, tile: nat, group: nat, kTile: nat, codes: seq<bv8>, at: nat,
                   ghost source: nat -> seq<bv8>, ghost g: nat)
    returns (r: seq<bv8>, next: nat)
    requires m.Valid() && tile < m.rows / 16 && group < m.Groups() && g == tile * m.Groups() + group && kTile < 4
    requires IsSource(m, source)
    requires Written(codes, |m.codes|, source, g * 64 + kTile * 16) && at == |Flat(source, g * 64 + kTile * 16)|
    ensures Written(r, |m.codes|, source, g * 64 + kTile * 16 + 16) && next == |Flat(source, g * 64 + kTile * 16 + 16)|
  {
    r, next := codes, at;
    for localRow := 0 to 16
      invariant Written(r, |m.codes|, source, g * 64 + kTile * 16 + localRow)
                && next == |Flat(source, g * 64 + kTile * 16 + localRow)|
    {
      FragmentNumber(m, tile, group, g, kTile, localRow);
      r, next := WriteFragment(m, tile * 16 + localRow, group * 4 + kTile, r, next, source,
                               g * 64 + kTile * 16 + localRow);
    }
  }

  /** The 64 fragments of one group of a tile. */
  method WriteGroup(m: PackedMatrix, tile: nat, group: nat, codes: seq<bv8>, at: nat, ghost source: nat -> seq<bv8>,
                    ghost g: nat)
    returns (r: seq<bv8>, next: nat)
    requires m.Valid() && tile < m.rows / 16 && group < m.Groups() && g == tile * m.Groups() + group
             && IsSource(m, source)
    requires Written(codes, |m.codes|, source, g * 64) && at == |Flat(source, g * 64)|
    ensures Written(r, |m.codes|, source, g * 64 + 64) && next == |Flat(source, g * 64 + 64)|
  {
    r, next := codes, at;
    for kTile := 0 to 4
      invariant Written(r, |m.codes|, source, g * 64 + kTile * 16) && next == |Flat(source, g * 64 + kTile * 16)|
    {
      r, next := WriteTile(m, tile, group, kTile, r, next, source, g);
    }
  }

  /** The scales of the sixteen rows of one tile and group. */
  method WriteScales(m: PackedMatrix, tile: nat, group: nat, scales: seq<real>) returns (r: seq<real>)
    requires m.Valid() && tile < m.rows / 16 && group < m.Groups()
    requires tile * m.Groups() + group + 1 <= m.rows / 16 * m.Groups()
             && scales == TiledScales(m, (tile * m.Groups() + group) * 16)
    ensures r == TiledScales(m, (tile * m.Groups() + group + 1) * 16)
  {
    r := scales;
    ghost var g: nat := tile * m.Groups() + group;
    for localRow := 0 to 16
      invariant r == TiledScales(m, g * 16 + localRow)
    {
      ScaleMoves(m, tile, group, localRow);
      r := r + [m.scales[ScaleOf(m.Groups(), tile * 16 + localRow, group)]];
    }
  }

  /** tile_group128_for_gfx12. */
  method TileGroup128(m: PackedMatrix) returns (r: Outcome<TiledMatrix>)
    ensures !r.DeviceError? && (r.InvalidArgument? <==> !m.Valid())
    ensures r.Ok? ==> r.value == TiledOf(m)
  {
    if !m.Valid() { return InvalidArgument; }
    var codes, scales := TileAll(m);
    r := Ok(TiledMatrix(m.rows, m.columns, m.format, codes, scales));
  }

  /** All groups of one tile of sixteen rows. */
  method WriteTileRow(m: PackedMatrix, tile: nat, codes: seq<bv8>, at: nat, scales: seq<real>,
                      ghost source: nat -> seq<bv8>, ghost first: nat)
    returns (r: seq<bv8>, next: nat, rs: seq<real>)
    requires m.Valid() && tile < m.rows / 16 && first == tile * m.Groups()
             && first + m.Groups() <= m.rows / 16 * m.Groups()
    requires IsSource(m, source)
    requires Written(codes, |m.codes|, source, first * 64) && at == |Flat(source, first * 64)|
             && scales == TiledScales(m, first * 16)
    ensures var last := first + m.Groups();
            Written(r, |m.codes|, source, last * 64) && next == |Flat(source, last * 64)|
              && rs == TiledScales(m, last * 16)
  {
    r, next, rs := codes, at, scales;
    for group := 0 to m.Groups()
      invariant Written(r, |m.codes|, source, (first + group) * 64) && next == |Flat(source, (first + group) * 64)|
      invariant rs == TiledScales(m, (first + group) * 16)
    {
      r, next := WriteGroup(m, tile, group, r, next, source, first + group);
      rs := WriteScales(m, tile, group, rs);
    }
  }

  ghost function WholeSource(m: PackedMatrix): (source: nat -> seq<bv8>)
    requires m.Valid()
    ensures IsSource(m, source)
  {
    FragmentSource(m)
  }

  lemma Complete(m: PackedMatrix, codes: seq<bv8>, source: nat -> seq<bv8>)
    requires IsSource(m, source) && Written(codes, |m.codes|, source, Fragments(m))
    ensures codes == TiledCodes(m)
  {
    assert Seals.Opened(Seals.Tiles);
    TotalBytes(m);
    SourceUniform(m);
    FlatLength(source, Fragments(m), FragmentBytes(m.format));
  }

  /** The state of the loop over tiles, whose `first` groups are written; behind a seal. */
  ghost predicate TilesAt(m: PackedMatrix, source: nat -> seq<bv8>, tile: nat, first: nat, codes: seq<bv8>, at: nat,
                          scales: seq<real>) {
    forall seal {:trigger Seals.Opened(seal)} | Seals.Opened(seal) && seal == Seals.Matrix ::
      && IsSource(m, source) && tile <= m.rows / 16 && first == tile * m.Groups() <= m.rows / 16 * m.Groups()
      && Written(codes, |m.codes|, source, first * 64) && at == |Flat(source, first * 64)|
         && scales == TiledScales(m, first * 16)
  }

  lemma NextTile(m: PackedMatrix, tile: nat, first: nat)
    requires tile < m.rows / 16 && first == tile * m.Groups()
    ensures first + m.Groups() == (tile + 1) * m.Groups() <= m.rows / 16 * m.Groups()
  {
    PieceFits(tile, m.rows / 16, m.Groups());
  }

  /** What the seal of a tile says, and what closes it behind the next tile. */
  lemma {:induction false} TileOpened(m: PackedMatrix, source: nat -> seq<bv8>, tile: nat, first: nat, codes: seq<bv8>,
                                      at: nat, scales: seq<real>)
    requires tile < m.rows / 16 && TilesAt(m, source, tile, first, codes, at, scales)
    ensures IsSource(m, source) && first == tile * m.Groups() && first + m.Groups() <= m.rows / 16 * m.Groups()
    ensures Written(codes, |m.codes|, source, first * 64) && at == |Flat(source, first * 64)|
            && scales == TiledScales(m, first * 16)
  {
    assert Seals.Opened(Seals.Matrix);
    NextTile(m, tile, first);
  }

  lemma {:induction false} TileClosed(m: PackedMatrix, source: nat -> seq<bv8>, tile: nat, first: nat, last: nat,
                                      codes: seq<bv8>, at: nat, scales: seq<real>)
    requires IsSource(m, source) && tile < m.rows / 16 && first == tile * m.Groups() && last == first + m.Groups()
             && last <= m.rows / 16 * m.Groups()
    requires Written(codes, |m.codes|, source, last * 64) && at == |Flat(source, last * 64)|
             && scales == TiledScales(m, last * 16)
    ensures TilesAt(m, source, tile + 1, last, codes, at, scales)
  {
    NextTile(m, tile, first);
  }

  method WriteNextTile(m: PackedMatrix, tile: nat, codes: seq<bv8>, at: nat, scales: seq<real>,
                       ghost source: nat -> seq<bv8>, ghost first: nat)
    returns (r: seq<bv8>, next: nat, rs: seq<real>, ghost last: nat)
    requires tile < m.rows / 16 && TilesAt(m, source, tile, first, codes, at, scales)
    ensures TilesAt(m, source, tile + 1, last, r, next, rs)
  {
    TileOpened(m, source, tile, first, codes, at, scales);
    r, next, rs := WriteTileRow(m, tile, codes, at, scales, source, first);
    last := first + m.Groups();
    TileClosed(m, source, tile, first, last, r, next, rs);
  }

  lemma TilesStart(m: PackedMatrix, source: nat -> seq<bv8>, codes: seq<bv8>)
    requires IsSource(m, source) && |codes| == |m.codes|
    ensures TilesAt(m, source, 0, 0, codes, 0, [])
  {
  }

  lemma AllWritten(m: PackedMatrix, source: nat -> seq<bv8>, first: nat, codes: seq<bv8>, at: nat, scales: seq<real>)
    requires TilesAt(m, source, m.rows / 16, first, codes, at, scales)
    ensures m.Valid() && codes == TiledCodes(m) && scales == AllScales(m)
  {
    assert Seals.Opened(Seals.Matrix);
    Complete(m, codes, source);
  }

  method TileAll(m: PackedMatrix) returns (codes: seq<bv8>, scales: seq<real>)
    requires m.Valid()
    ensures codes == TiledCodes(m) && scales == AllScales(m)
  {
    var clear: seq<bv8> := seq(|m.codes|, _ => 0);
    ghost var source := WholeSource(m);
    TilesStart(m, source, clear);
    codes, scales := WriteTiles(m, clear, source);
  }

  method WriteTiles(m: PackedMatrix, clear: seq<bv8>, ghost source: nat -> seq<bv8>)
    returns (codes: seq<bv8>, scales: seq<real>)
    requires TilesAt(m, source, 0, 0, clear, 0, [])
    ensures m.Valid() && codes == TiledCodes(m) && scales == AllScales(m)
  {
    var at := 0;
    codes, scales := clear, [];
    ghost var first := 0;
    for tile := 0 to m.rows / 16
      invariant TilesAt(m, source, tile, first, codes, at, scales)
    {
      codes, at, scales, first := WriteNextTile(m, tile, codes, at, scales, source, first);
    }
    AllWritten(m, source, first, codes, at, scales);
  }
}
