/** The tiled weight layout: 16 x 32 tiles whose rows are contiguous fragments, so that each lane of
    the matrix instruction reads its sixteen codes from consecutive bytes. */
module Tiling {
  import opened LowBitCodes
  import opened Dilation
  import opened SequentialCodes
  import opened Division
  import opened Concatenation

  datatype PackedMatrix = PackedMatrix(rows: nat, columns: nat, format: Format, codes: seq<bv8>, scales: seq<real>) {
    function Groups(): nat { columns / 128 }

    function RowBytes(): nat { PackedRowBytes(format, columns) }

    predicate Valid() {
      && rows != 0 && columns != 0 && rows % 16 == 0 && columns % 128 == 0
      && |codes| == rows * RowBytes() && |scales| == rows * Groups()
    }

    lemma RowFits(row: nat)
      requires Valid() && row < rows
      ensures row * RowBytes() + RowBytes() <= |codes| && RowBytes() == Groups() * GroupBytes(format)
    {
      PieceFits(row, rows, RowBytes());
    }

    function Row(row: nat): (r: seq<bv8>)
      requires Valid() && row < rows
      ensures |r| == RowBytes() == Groups() * GroupBytes(format)
    {
      RowFits(row);
      codes[row * RowBytes()..row * RowBytes() + RowBytes()]
    }

    /** The code of one weight. */
    function Code(row: nat, column: nat): (code: bv8)
      requires Valid() && row < rows && column < columns
      ensures IsCode(code, format)
    {
      LoadCode(Row(row), column, format)
    }
  }

  /** The bytes of 32 consecutive weights of a row. */
  function FragmentBytes(f: Format): nat {
    2 * LaneBytes(f)
  }

  /** The first n of 32 codes, packed one after the other. */
  function Packed(codes: seq<bv8>, n: nat): (r: seq<bv8>)
    requires n <= |codes| == 32
    ensures |r| == 12
  {
    if n == 0 then ZEROS else StoreSequential(Packed(codes, n - 1), n - 1, codes[n - 1])
  }

  const ZEROS: seq<bv8> := [0, 0, 0, 0, 0, 0, 0, 0, 0, 0, 0, 0]

  /** Fragment k of a packed row: its 32 codes from column 32 * k on.  Two- and four-bit codes are
      already next to each other; three-bit codes are taken from their planes. */
  function RowFragment(bytes: seq<bv8>, f: Format, k: nat): (r: seq<bv8>)
    requires HasBlock(|bytes|, f, k)
    ensures |r| == FragmentBytes(f)
  {
    if f == W3 then Packed(Codes(bytes, k), 32)
    else
      var width := FragmentBytes(f);
      bytes[k * width..k * width + width]
  }

  predicate HasBlock(bytes: nat, f: Format, k: nat) {
    match f
    case W2 => (k / 4 + 1) * 32 <= bytes
    case W3 => (k / 4 + 1) * 48 <= bytes
    case W4 => (k / 4 + 1) * 64 <= bytes
  }

  lemma InBlock(k: nat, i: nat)
    requires i < 32
    ensures (k * 32 + i) / 128 == k / 4
  {
  }

  function BlockCode(bytes: seq<bv8>, k: nat, i: nat): (code: bv8)
    requires HasBlock(|bytes|, W3, k) && i < 32
    ensures code < 8
  {
    InBlock(k, i);
    var code := LoadCode(bytes, k * 32 + i, W3);
    assert IsCode(code, W3);
    code
  }

  lemma CodesAt(bytes: seq<bv8>, k: nat, i: nat, column: nat)
    requires HasBlock(|bytes|, W3, k) && i < 32 && column == k * 32 + i
    ensures HasColumn(|bytes|, column, W3) && Codes(bytes, k)[i] == LoadCode(bytes, column, W3)
  {
    InBlock(k, i);
  }

  function Codes(bytes: seq<bv8>, k: nat): (r: seq<bv8>)
    requires HasBlock(|bytes|, W3, k)
    ensures |r| == 32 && forall i | 0 <= i < 32 :: r[i] < 8
  {
    seq(32, i requires 0 <= i < 32 => BlockCode(bytes, k, i))
  }

  function Fragment(m: PackedMatrix, row: nat, k: nat): (r: seq<bv8>)
    requires m.Valid() && row < m.rows && k < m.Groups() * 4
    ensures |r| == FragmentBytes(m.format)
  {
    RowFragment(m.Row(row), m.format, k)
  }

  lemma ZeroCode(j: nat)
    requires j < 32
    ensures SequentialCode(ZEROS, j) == 0
  {
    forall i | 0 <= i < 12
      ensures ZEROS[i] == 0
    {
    }
  }

  lemma {:induction false} PackedHolds(codes: seq<bv8>, n: nat, j: nat)
    requires n <= |codes| == 32 && j < 32 && forall i | 0 <= i < 32 :: codes[i] < 8
    ensures SequentialCode(Packed(codes, n), j) == if j < n then codes[j] else 0
  {
    if n == 0 {
      ZeroCode(j);
    } else {
      PackedHolds(codes, n - 1, j);
      StoredSequential(Packed(codes, n - 1), n - 1, codes[n - 1], j);
    }
  }

  lemma HalfCode(fragment: seq<bv8>, half: nat, j: nat)
    requires |fragment| == 12 && half < 2 && j < 16
    ensures SequentialCode(fragment[half * 6..half * 6 + 6], j) == SequentialCode(fragment, half * 16 + j)
  {
    HalfPlace(half, j);
    CodeInSlice(fragment, half * 6, 3 * j / 8, Bit8(3 * j));
  }

  lemma HalfPlace(half: nat, j: nat)
    requires half < 2 && j < 16
    ensures 3 * j / 8 < 6 && (Bit8(3 * j) > 5 ==> 3 * j / 8 < 5)
    ensures 3 * (half * 16 + j) / 8 == half * 6 + 3 * j / 8 && Bit8(3 * (half * 16 + j)) == Bit8(3 * j)
  {
    QuotientIs(3 * (half * 16 + j), 8, half * 6 + 3 * j / 8, 3 * j % 8);
  }

  lemma CodeInSlice(fragment: seq<bv8>, at: nat, byte: nat, shift: bv8)
    requires at + 6 <= |fragment| && byte < 6 && (shift > 5 ==> byte < 5) && shift < 8
    ensures CodeFrom(fragment[at..at + 6], byte, shift) == CodeFrom(fragment, at + byte, shift)
  {
  }

  lemma PairsInPlace(row: seq<bv8>, k: nat, half: nat, j: nat)
    requires half < 2 && j < 16 && k * 8 + 8 <= |row| && HasColumn(|row|, k * 32 + half * 16 + j, W2)
    ensures LaneCode(row[k * 8 + half * 4..k * 8 + half * 4 + 4], j, W2) == LoadCode(row, k * 32 + half * 16 + j, W2)
  {
    var column := k * 32 + half * 16 + j;
    assert column / 4 == k * 8 + half * 4 + j / 4 && column % 4 == j % 4;
  }

  lemma NibblesInPlace(row: seq<bv8>, k: nat, half: nat, j: nat)
    requires half < 2 && j < 16 && k * 16 + 16 <= |row| && HasColumn(|row|, k * 32 + half * 16 + j, W4)
    ensures LaneCode(row[k * 16 + half * 8..k * 16 + half * 8 + 8], j, W4) == LoadCode(row, k * 32 + half * 16 + j, W4)
  {
    var column := k * 32 + half * 16 + j;
    assert column / 2 == k * 16 + half * 8 + j / 2 && column % 2 == j % 2;
  }

  /** The lane's half of a fragment. */
  function HalfOf(fragment: seq<bv8>, half: nat, f: Format): (r: seq<bv8>)
    requires |fragment| == FragmentBytes(f) && half < 2
    ensures |r| == LaneBytes(f)
  {
    fragment[half * LaneBytes(f)..half * LaneBytes(f) + LaneBytes(f)]
  }

  /** Each half of a fragment holds its sixteen codes. */
  lemma FragmentHolds(m: PackedMatrix, row: nat, k: nat, half: nat, j: nat)
    requires m.Valid() && row < m.rows && k < m.Groups() * 4 && half < 2 && j < 16
    ensures LaneCode(HalfOf(Fragment(m, row, k), half, m.format), j, m.format) == m.Code(row, k * 32 + half * 16 + j)
  {
    match m.format
    case W2 => FragmentW2(m, row, k, half, j);
    case W3 => FragmentW3(m, row, k, half, j);
    case W4 => FragmentW4(m, row, k, half, j);
  }

  lemma BlockHasColumns(bytes: nat, f: Format, k: nat, half: nat, j: nat)
    requires HasBlock(bytes, f, k) && half < 2 && j < 16
    ensures HasColumn(bytes, k * 32 + half * 16 + j, f)
    ensures f != W3 ==> k * FragmentBytes(f) + FragmentBytes(f) <= bytes
  {
    InBlock(k, half * 16 + j);
  }

  lemma FragmentRow2(bytes: seq<bv8>, k: nat, half: nat, j: nat)
    requires HasBlock(|bytes|, W2, k) && HasColumn(|bytes|, k * 32 + half * 16 + j, W2) && half < 2 && j < 16
    ensures LaneCode(HalfOf(RowFragment(bytes, W2, k), half, W2), j, W2) == LoadCode(bytes, k * 32 + half * 16 + j, W2)
  {
    BlockHasColumns(|bytes|, W2, k, half, j);
    assert RowFragment(bytes, W2, k) == bytes[k * 8..k * 8 + 8];
    SliceOfSlice(bytes, k * 8, 8, half * 4, 4);
    PairsInPlace(bytes, k, half, j);
  }

  lemma FragmentRow4(bytes: seq<bv8>, k: nat, half: nat, j: nat)
    requires HasBlock(|bytes|, W4, k) && HasColumn(|bytes|, k * 32 + half * 16 + j, W4) && half < 2 && j < 16
    ensures LaneCode(HalfOf(RowFragment(bytes, W4, k), half, W4), j, W4) == LoadCode(bytes, k * 32 + half * 16 + j, W4)
  {
    BlockHasColumns(|bytes|, W4, k, half, j);
    assert RowFragment(bytes, W4, k) == bytes[k * 16..k * 16 + 16];
    SliceOfSlice(bytes, k * 16, 16, half * 8, 8);
    NibblesInPlace(bytes, k, half, j);
  }

  lemma FragmentW2(m: PackedMatrix, row: nat, k: nat, half: nat, j: nat)
    requires m.Valid() && m.format == W2 && row < m.rows && k < m.Groups() * 4 && half < 2 && j < 16
    ensures LaneCode(HalfOf(Fragment(m, row, k), half, W2), j, W2) == m.Code(row, k * 32 + half * 16 + j)
  {
    BlockHasColumns(|m.Row(row)|, W2, k, half, j);
    FragmentRow2(m.Row(row), k, half, j);
  }

  lemma FragmentW4(m: PackedMatrix, row: nat, k: nat, half: nat, j: nat)
    requires m.Valid() && m.format == W4 && row < m.rows && k < m.Groups() * 4 && half < 2 && j < 16
    ensures LaneCode(HalfOf(Fragment(m, row, k), half, W4), j, W4) == m.Code(row, k * 32 + half * 16 + j)
  {
    BlockHasColumns(|m.Row(row)|, W4, k, half, j);
    FragmentRow4(m.Row(row), k, half, j);
  }

  lemma FragmentW3(m: PackedMatrix, row: nat, k: nat, half: nat, j: nat)
    requires m.Valid() && m.format == W3 && row < m.rows && k < m.Groups() * 4 && half < 2 && j < 16
    ensures LaneCode(HalfOf(Fragment(m, row, k), half, W3), j, W3) == m.Code(row, k * 32 + half * 16 + j)
  {
    var codes := Codes(m.Row(row), k);
    CodesAt(m.Row(row), k, half * 16 + j, k * 32 + half * 16 + j);
    HalfOfPacked(codes, half, j);
  }

  lemma {:induction false} HalfOfPacked(codes: seq<bv8>, half: nat, j: nat)
    requires |codes| == 32 && half < 2 && j < 16 && forall i | 0 <= i < 32 :: codes[i] < 8
    ensures LaneCode(HalfOf(Packed(codes, 32), half, W3), j, W3) == codes[half * 16 + j]
  {
    HalfCode(Packed(codes, 32), half, j);
    PackedHolds(codes, 32, half * 16 + j);
  }

  // ---- the tiled matrix

  /** Where a fragment comes from: fragment index f counts rows of a tile, then the four 32-column
      blocks of a group, then groups, then tiles of 16 rows. */
  function FragmentRow(groups: nat, f: nat): nat
    requires groups > 0
  {
    f / 64 / groups * 16 + f % 16
  }

  function FragmentBlock(groups: nat, f: nat): nat
    requires groups > 0
  {
    f / 64 % groups * 4 + f / 16 % 4
  }

  lemma FragmentInRange(rows: nat, groups: nat, f: nat)
    requires groups > 0 && rows % 16 == 0 && f < rows / 16 * groups * 64
    ensures FragmentRow(groups, f) < rows && FragmentBlock(groups, f) < groups * 4
  {
    var g := f / 64;
    var d := g / groups - rows / 16;
    assert groups * d == groups * (g / groups) - groups * (rows / 16);
    Scale(groups, d);
  }

  /** The index a kernel or the tiler computes for a fragment is the one it comes from. */
  lemma FragmentIndex(groups: nat, tile: nat, group: nat, kTile: nat, localRow: nat)
    requires group < groups && kTile < 4 && localRow < 16
    ensures var f := ((tile * groups + group) * 4 + kTile) * 16 + localRow;
            FragmentRow(groups, f) == tile * 16 + localRow && FragmentBlock(groups, f) == group * 4 + kTile
  {
    var f := ((tile * groups + group) * 4 + kTile) * 16 + localRow;
    assert f / 64 == tile * groups + group;
    QuotientIs(tile * groups + group, groups, tile, group);
  }

  function Fragments(m: PackedMatrix): nat {
    m.rows / 16 * m.Groups() * 64
  }

  /** The fragments of the tiled matrix in their order. */
  ghost function FragmentSource(m: PackedMatrix): nat -> seq<bv8>
    requires m.Valid()
  {
    (n: nat) =>
      if n < Fragments(m) then
        FragmentInRange(m.rows, m.Groups(), n);
        Fragment(m, FragmentRow(m.Groups(), n), FragmentBlock(m.Groups(), n))
      else []
  }

  lemma SourceUniform(m: PackedMatrix)
    requires m.Valid()
    ensures Uniform(FragmentSource(m), Fragments(m), FragmentBytes(m.format))
  {
    forall n | 0 <= n < Fragments(m)
      ensures |FragmentSource(m)(n)| == FragmentBytes(m.format)
    {
      FragmentInRange(m.rows, m.Groups(), n);
    }
  }

  /** The codes of a tiled matrix. */
  ghost function TiledCodes(m: PackedMatrix): (r: seq<bv8>)
    requires m.Valid()
  {
    Flat(FragmentSource(m), Fragments(m))
  }
}
