/** Quantizing a weight matrix: a scale per row and group of 128 columns, and a packed code per
    weight. */
module Quantizer {
  import opened LowBitCodes
  import opened ScaleFit
  import opened Tiling
  import opened Dilation
  import opened TiledWeights
  import opened Concatenation
  import opened DeviceMemory
  import opened Division
  import Seals

  /** The code of a level. */
  function CodeOf(q: int, f: Format): (code: bv8)
    requires IsLevel(q, f)
  {
    match f
    case W2 => if q == -3 then 0 else if q == -1 then 1 else if q == 1 then 2 else 3
    case W3 => Offset8(q + 4)
    case W4 => if q < 0 then Offset8(q + 8) + 8 else Offset8(q)
  }

  function Offset8(n: int): bv8
    requires 0 <= n < 8
  {
    if n == 0 then 0 else if n == 1 then 1 else if n == 2 then 2 else if n == 3 then 3
    else if n == 4 then 4 else if n == 5 then 5 else if n == 6 then 6 else 7
  }

  /** decode_value inverts the code of a level. */
  lemma DecodeInverts(q: int, f: Format)
    requires IsLevel(q, f)
    ensures IsCode(CodeOf(q, f), f) && DecodeValue(CodeOf(q, f), f) == q
  {
  }

  function EncodeValue(value: real, scale: real, f: Format): (code: bv8)
    ensures IsCode(code, f)
  {
    DecodeInverts(LevelOf(value, scale, f), f);
    CodeOf(LevelOf(value, scale, f), f)
  }

  /** The values of a group. */
  function GroupOf(source: seq<real>, group: nat): (r: seq<real>)
    requires (group + 1) * 128 <= |source|
    ensures |r| == 128
  {
    source[group * 128..group * 128 + 128]
  }

  /** The first n columns of a packed row hold their codes, and the bits of the others are clear. */
  ghost predicate RowPacked(bytes: seq<bv8>, codes: seq<bv8>, f: Format, n: nat) {
    && HasColumns(|bytes|, |codes|, f)
    && forall c | 0 <= c < |codes| :: LoadCode(bytes, c, f) == if c < n then codes[c] else 0
  }

  ghost predicate HasColumns(bytes: nat, columns: nat, f: Format) {
    columns % 128 == 0 && bytes == columns / 128 * GroupBytes(f)
  }

  lemma InRow(bytes: nat, columns: nat, f: Format, c: nat)
    requires HasColumns(bytes, columns, f) && c < columns
    ensures HasColumn(bytes, c, f)
  {
    assert c / 128 + 1 <= columns / 128;
  }

  /** What a row of weights is quantized to: a scale per group, a code per weight. */
  function RowScales(source: seq<real>, f: Format): (r: seq<real>)
    requires |source| % 128 == 0
    ensures |r| == |source| / 128
  {
    seq(|source| / 128, g requires 0 <= g < |source| / 128 => ChosenScale(GroupOf(source, g), f))
  }

  /** encode_value of a format, as a value: the packing proofs pass it on behind a seal, so that the
      arithmetic that finds the nearest level stays out of them. */
  ghost function Encoder(f: Format): (real, real) -> bv8 {
    (value, scale) => EncodeValue(value, scale, f)
  }

  ghost predicate IsEncoder(encode: (real, real) -> bv8, f: Format) {
    Encodes(encode, f)
      && forall seal {:trigger Seals.Opened(seal)} | Seals.Opened(seal) && seal == Seals.Encoder :: encode == Encoder(f)
  }

  ghost predicate Encodes(encode: (real, real) -> bv8, f: Format) {
    forall v: real, s: real {:trigger encode(v, s)} :: IsCode(encode(v, s), f)
  }

  /** The codes of a row under the scales of its groups. */
  ghost function RowCodes(source: seq<real>, scales: seq<real>, encode: (real, real) -> bv8): (r: seq<bv8>)
    requires |source| % 128 == 0 && |scales| == |source| / 128
    ensures |r| == |source|
  {
    seq(|source|, c requires 0 <= c < |source| => encode(source[c], scales[c / 128]))
  }

  /** Storing code n. */
  lemma PackedNext(bytes: seq<bv8>, codes: seq<bv8>, f: Format, n: nat, after: seq<bv8>, next: nat)
    requires n < |codes| && RowPacked(bytes, codes, f, n) && IsCode(codes[n], f) && HasColumn(|bytes|, n, f)
    requires next == n + 1 && after == StoreCode(bytes, n, codes[n], f)
    ensures RowPacked(after, codes, f, next)
  {
    forall c | 0 <= c < |codes|
      ensures LoadCode(after, c, f) == if c < next then codes[c] else 0
    {
      InRow(|bytes|, |codes|, f, c);
      StoredCode(bytes, n, codes[n], f, c);
      NothingUnder(codes[n]);
    }
  }

  lemma NothingUnder(code: bv8)
    ensures 0 | code == code
  {
  }

  /** The first n codes stored into a clear row. */
  function StoredRow(codes: seq<bv8>, f: Format, n: nat): (r: seq<bv8>)
    requires |codes| % 128 == 0 && n <= |codes|
    ensures |r| == |codes| / 128 * GroupBytes(f)
  {
    if n == 0 then seq(|codes| / 128 * GroupBytes(f), _ => 0)
    else
      InRow(|codes| / 128 * GroupBytes(f), |codes|, f, n - 1);
      StoreCode(StoredRow(codes, f, n - 1), n - 1, codes[n - 1], f)
  }

  lemma ClearPacked(codes: seq<bv8>, f: Format, bytes: seq<bv8>)
    requires HasColumns(|bytes|, |codes|, f) && forall i | 0 <= i < |bytes| :: bytes[i] == 0
    ensures RowPacked(bytes, codes, f, 0)
  {
    forall c | 0 <= c < |codes|
      ensures HasColumn(|bytes|, c, f) && LoadCode(bytes, c, f) == 0
    {
      InRow(|bytes|, |codes|, f, c);
    }
  }

  /** A stored row reads back. */
  lemma {:induction false} StoredRowPacked(codes: seq<bv8>, f: Format, n: nat)
    requires |codes| % 128 == 0 && n <= |codes| && forall c | 0 <= c < |codes| :: IsCode(codes[c], f)
    ensures RowPacked(StoredRow(codes, f, n), codes, f, n)
  {
    if n == 0 {
      ClearPacked(codes, f, StoredRow(codes, f, 0));
    } else {
      StoredRowPacked(codes, f, n - 1);
      StoredRowNext(codes, f, n - 1, n, StoredRow(codes, f, n - 1));
      PackedNext(StoredRow(codes, f, n - 1), codes, f, n - 1, StoredRow(codes, f, n), n);
    }
  }

  lemma {:induction false} StoredRowNext(codes: seq<bv8>, f: Format, n: nat, next: nat, before: seq<bv8>)
    requires |codes| % 128 == 0 && n < |codes| && next == n + 1 && before == StoredRow(codes, f, n)
    ensures HasColumn(|before|, n, f) && StoredRow(codes, f, next) == StoreCode(before, n, codes[n], f)
  {
    InRow(|before|, |codes|, f, n);
  }

  /** The scale of a group: its largest magnitude, then choose_scale. */
  method GroupScale(values: seq<real>, f: Format) returns (scale: real)
    ensures scale == ChosenScale(values, f)
  {
    var maximum := 0.0;
    for offset := 0 to |values|
      invariant maximum == MaximumOf(values, offset)
    {
      maximum := Larger(maximum, Abs(values[offset]));
    }
    scale := ChooseScale(values, maximum, f);
  }

  method Encode(value: real, scale: real, f: Format, ghost encode: (real, real) -> bv8) returns (code: bv8)
    requires IsEncoder(encode, f)
    ensures code == encode(value, scale)
  {
    assert Seals.Opened(Seals.Encoder);
    code := EncodeValue(value, scale, f);
  }

  /** The bytes of a stored row, behind a seal. */
  ghost predicate IsStored(bytes: seq<bv8>, codes: seq<bv8>, f: Format, n: nat) {
    && |codes| % 128 == 0 && n <= |codes| && |bytes| == |codes| / 128 * GroupBytes(f)
    && forall seal {:trigger Seals.Opened(seal)} | Seals.Opened(seal) && seal == Seals.Row ::
         bytes == StoredRow(codes, f, n)
  }

  lemma SameStored(a: seq<bv8>, b: seq<bv8>, codes: seq<bv8>, f: Format, n: nat)
    requires IsStored(a, codes, f, n) && IsStored(b, codes, f, n)
    ensures a == b
  {
    assert Seals.Opened(Seals.Row);
  }

  method PackCode(source: seq<real>, column: nat, scale: real, f: Format, bytes: seq<bv8>,
                  ghost codes: seq<bv8>, ghost encode: (real, real) -> bv8) returns (r: seq<bv8>)
    requires column < |source| == |codes| && IsStored(bytes, codes, f, column)
    requires IsEncoder(encode, f) && codes[column] == encode(source[column], scale)
    ensures IsStored(r, codes, f, column + 1)
  {
    var code := Encode(source[column], scale, f, encode);
    InRow(|bytes|, |codes|, f, column);
    r := StoreCode(bytes, column, code, f);
    assert Seals.Opened(Seals.Row);
  }

  /** The codes of a group, stored behind those of the groups before it. */
  method PackGroup(source: seq<real>, group: nat, scale: real, f: Format, bytes: seq<bv8>,
                   ghost codes: seq<bv8>, ghost encode: (real, real) -> bv8) returns (r: seq<bv8>)
    requires (group + 1) * 128 <= |source| == |codes| && IsStored(bytes, codes, f, group * 128)
    requires IsEncoder(encode, f)
             && forall c | group * 128 <= c < (group + 1) * 128 :: codes[c] == encode(source[c], scale)
    ensures IsStored(r, codes, f, (group + 1) * 128)
  {
    r := bytes;
    for column := group * 128 to (group + 1) * 128
      invariant IsStored(r, codes, f, column)
    {
      r := PackCode(source, column, scale, f, r, codes, encode);
    }
  }

  lemma IsEncoded(encode: (real, real) -> bv8, f: Format, value: real, scale: real)
    requires Encodes(encode, f)
    ensures IsCode(encode(value, scale), f)
  {
  }

  lemma RowCodesAreCodes(source: seq<real>, scales: seq<real>, encode: (real, real) -> bv8, f: Format)
    requires |source| % 128 == 0 && |scales| == |source| / 128 && Encodes(encode, f)
    ensures forall c | 0 <= c < |source| :: IsCode(RowCodes(source, scales, encode)[c], f)
  {
    forall c | 0 <= c < |source|
      ensures IsCode(RowCodes(source, scales, encode)[c], f)
    {
      IsEncoded(encode, f, source[c], scales[c / 128]);
    }
  }

  lemma GroupCodes(source: seq<real>, scales: seq<real>, encode: (real, real) -> bv8, group: nat)
    requires |source| % 128 == 0 && |scales| == |source| / 128 && group < |scales|
    ensures forall c | group * 128 <= c < (group + 1) * 128 ::
              RowCodes(source, scales, encode)[c] == encode(source[c], scales[group])
  {
  }

  /** There is one for every format. */
  lemma EncoderEncodes(f: Format, encode: (real, real) -> bv8)
    requires encode == Encoder(f)
    ensures IsEncoder(encode, f)
  {
    forall v, s
      ensures IsCode(Encoder(f)(v, s), f)
    {
      DecodeInverts(LevelOf(v, s, f), f);
    }
  }

  /** The scales of a row, behind a seal. */
  ghost predicate AreScales(all: seq<real>, source: seq<real>, f: Format) {
    && |source| % 128 == 0 && |all| == |source| / 128
    && forall seal {:trigger Seals.Opened(seal)} | Seals.Opened(seal) && seal == Seals.Scales ::
         all == RowScales(source, f)
  }

  method RowScale(source: seq<real>, group: nat, f: Format, ghost all: seq<real>) returns (scale: real)
    requires AreScales(all, source, f) && group < |all|
    ensures scale == all[group]
  {
    assert Seals.Opened(Seals.Scales);
    scale := GroupScale(GroupOf(source, group), f);
  }

  /** A row, packed. */
  ghost function CodeRow(source: seq<real>, f: Format, encode: (real, real) -> bv8): (r: seq<bv8>)
    requires |source| % 128 == 0
    ensures |r| == |source| / 128 * GroupBytes(f)
  {
    StoredRow(RowCodes(source, RowScales(source, f), encode), f, |source|)
  }

  method ClearRow(ghost codes: seq<bv8>, columns: nat, f: Format) returns (bytes: seq<bv8>)
    requires columns == |codes| && columns % 128 == 0
    ensures IsStored(bytes, codes, f, 0)
  {
    bytes := seq(columns / 128 * GroupBytes(f), _ => 0);
  }

  /** One row. */
  method QuantizeRow(source: seq<real>, f: Format, ghost encode: (real, real) -> bv8, ghost packed: seq<bv8>,
                     ghost all: seq<real>)
    returns (bytes: seq<bv8>, scales: seq<real>)
    requires AreScales(all, source, f) && IsEncoder(encode, f)
    requires IsStored(packed, RowCodes(source, all, encode), f, |source|)
    ensures scales == all && bytes == packed
  {
    ghost var codes := RowCodes(source, all, encode);
    bytes := ClearRow(codes, |source|, f);
    scales := [];
    ghost var n := 0;
    for group := 0 to |source| / 128
      invariant n == group * 128 && IsStored(bytes, codes, f, n) && scales == all[..group]
    {
      var scale := RowScale(source, group, f, all);
      GroupCodes(source, all, encode, group);
      bytes := PackGroup(source, group, scale, f, bytes, codes, encode);
      n := (group + 1) * 128;
      scales := scales + [scale];
    }
    SameStored(bytes, packed, codes, f, n);
  }

  /** The packed rows, and the scales of the rows, of a row-major matrix. */
  ghost function CodeRows(weights: seq<real>, rows: nat, columns: nat, f: Format,
                          encode: (real, real) -> bv8): nat -> seq<bv8>
    requires columns % 128 == 0 && rows * columns <= |weights|
  {
    (row: nat) => if row < rows then CodeRow(PieceOf(weights, columns, rows, row), f, encode) else []
  }

  ghost function ScaleRows(weights: seq<real>, rows: nat, columns: nat, f: Format): nat -> seq<real>
    requires columns % 128 == 0 && rows * columns <= |weights|
  {
    (row: nat) => if row < rows then RowScales(PieceOf(weights, columns, rows, row), f) else []
  }

  /** What a matrix is quantized to. */
  ghost function QuantizedMatrix(weights: seq<real>, rows: nat, columns: nat, f: Format,
                                 encode: (real, real) -> bv8): PackedMatrix
    requires columns % 128 == 0 && rows * columns <= |weights|
  {
    PackedMatrix(rows, columns, f, Flat(CodeRows(weights, rows, columns, f, encode), rows),
                 Flat(ScaleRows(weights, rows, columns, f), rows))
  }

  lemma RowsAt(weights: seq<real>, rows: nat, columns: nat, f: Format, encode: (real, real) -> bv8, row: nat)
    requires columns % 128 == 0 && rows * columns <= |weights| && row < rows
    ensures CodeRows(weights, rows, columns, f, encode)(row) == CodeRow(PieceOf(weights, columns, rows, row), f, encode)
    ensures ScaleRows(weights, rows, columns, f)(row) == RowScales(PieceOf(weights, columns, rows, row), f)
  {
  }

  lemma RowsUniform(weights: seq<real>, rows: nat, columns: nat, f: Format, encode: (real, real) -> bv8, width: nat)
    requires columns % 128 == 0 && rows * columns <= |weights| && width == columns / 128 * GroupBytes(f)
    ensures Uniform(CodeRows(weights, rows, columns, f, encode), rows, width)
    ensures Uniform(ScaleRows(weights, rows, columns, f), rows, columns / 128)
  {
    forall row | 0 <= row < rows
      ensures |CodeRows(weights, rows, columns, f, encode)(row)| == width
      ensures |ScaleRows(weights, rows, columns, f)(row)| == columns / 128
    {
      RowsAt(weights, rows, columns, f, encode, row);
    }
  }

  lemma RowBytesAre(f: Format, columns: nat)
    requires columns % 128 == 0
    ensures PackedRowBytes(f, columns) == columns / 128 * GroupBytes(f)
  {
  }

  lemma QuantizedSizes(weights: seq<real>, rows: nat, columns: nat, f: Format, encode: (real, real) -> bv8, width: nat)
    requires columns % 128 == 0 && rows * columns <= |weights| && width == PackedRowBytes(f, columns)
    ensures |QuantizedMatrix(weights, rows, columns, f, encode).codes| == rows * width
    ensures |QuantizedMatrix(weights, rows, columns, f, encode).scales| == rows * (columns / 128)
    ensures Uniform(CodeRows(weights, rows, columns, f, encode), rows, width)
    ensures Uniform(ScaleRows(weights, rows, columns, f), rows, columns / 128)
  {
    RowBytesAre(f, columns);
    RowsUniform(weights, rows, columns, f, encode, width);
    FlatLength(CodeRows(weights, rows, columns, f, encode), rows, width);
    FlatLength(ScaleRows(weights, rows, columns, f), rows, columns / 128);
  }

  /** The rows of a quantized matrix, behind a seal. */
  ghost predicate IsRows(codeRows: nat -> seq<bv8>, scaleRows: nat -> seq<real>, weights: seq<real>, rows: nat,
                         columns: nat, f: Format, encode: (real, real) -> bv8) {
    && columns % 128 == 0 && rows * columns <= |weights|
    && forall seal {:trigger Seals.Opened(seal)} | Seals.Opened(seal) && seal == Seals.Row ::
         codeRows == CodeRows(weights, rows, columns, f, encode) && scaleRows == ScaleRows(weights, rows, columns, f)
  }

  lemma RowStored(codeRows: nat -> seq<bv8>, scaleRows: nat -> seq<real>, weights: seq<real>, rows: nat, columns: nat,
                  f: Format, encode: (real, real) -> bv8, row: nat)
    requires IsRows(codeRows, scaleRows, weights, rows, columns, f, encode) && row < rows
    ensures var source := PieceOf(weights, columns, rows, row);
            && AreScales(scaleRows(row), source, f)
            && IsStored(codeRows(row), RowCodes(source, scaleRows(row), encode), f, columns)
  {
    assert Seals.Opened(Seals.Row);
    RowsAt(weights, rows, columns, f, encode, row);
  }

  lemma {:induction false} RowsMake(codeRows: nat -> seq<bv8>, scaleRows: nat -> seq<real>, weights: seq<real>,
                                    rows: nat, columns: nat, f: Format, encode: (real, real) -> bv8)
    requires IsRows(codeRows, scaleRows, weights, rows, columns, f, encode)
    ensures PackedMatrix(rows, columns, f, Flat(codeRows, rows), Flat(scaleRows, rows))
            == QuantizedMatrix(weights, rows, columns, f, encode)
  {
    assert Seals.Opened(Seals.Row);
  }

  lemma RowsFor(weights: seq<real>, rows: nat, columns: nat, f: Format, encode: (real, real) -> bv8)
    returns (codeRows: nat -> seq<bv8>, scaleRows: nat -> seq<real>)
    requires columns % 128 == 0 && rows * columns <= |weights|
    ensures IsRows(codeRows, scaleRows, weights, rows, columns, f, encode)
  {
    codeRows, scaleRows := CodeRows(weights, rows, columns, f, encode), ScaleRows(weights, rows, columns, f);
  }

  /** One row of a matrix of the right shape. */
  method QuantizeRowAt(weights: seq<real>, rows: nat, columns: nat, f: Format, row: nat,
                       ghost encode: (real, real) -> bv8, ghost codeRows: nat -> seq<bv8>,
                       ghost scaleRows: nat -> seq<real>)
    returns (bytes: seq<bv8>, scales: seq<real>)
    requires IsEncoder(encode, f) && row < rows && IsRows(codeRows, scaleRows, weights, rows, columns, f, encode)
    ensures bytes == codeRows(row) && scales == scaleRows(row)
  {
    PieceFits(row, rows, columns);
    var source := weights[row * columns..row * columns + columns];
    RowStored(codeRows, scaleRows, weights, rows, columns, f, encode, row);
    bytes, scales := QuantizeRow(source, f, encode, codeRows(row), scaleRows(row));
  }

  /** The rows of a matrix of the right shape, one after the other. */
  method QuantizeRows(weights: seq<real>, rows: nat, columns: nat, f: Format, ghost encode: (real, real) -> bv8)
    returns (m: PackedMatrix)
    requires IsEncoder(encode, f) && columns % 128 == 0 && |weights| == rows * columns
    ensures m == QuantizedMatrix(weights, rows, columns, f, encode)
  {
    var codes: seq<bv8>, scales: seq<real> := [], [];
    ghost var codeRows, scaleRows := RowsFor(weights, rows, columns, f, encode);
    for row := 0 to rows
      invariant codes == Flat(codeRows, row) && scales == Flat(scaleRows, row)
    {
      var bytes, more := QuantizeRowAt(weights, rows, columns, f, row, encode, codeRows, scaleRows);
      codes, scales := codes + bytes, scales + more;
    }
    RowsMake(codeRows, scaleRows, weights, rows, columns, f, encode);
    m := PackedMatrix(rows, columns, f, codes, scales);
  }

  /** A weight as it is given: a number, or an infinity or NaN. */
  datatype Single = Number(value: real) | NotFinite

  predicate AllFinite(weights: seq<Single>) {
    forall i | 0 <= i < |weights| :: weights[i].Number?
  }

  /** The numbers among the weights; what stands for the others does not matter. */
  function Numbers(weights: seq<Single>): (r: seq<real>)
    ensures |r| == |weights|
  {
    seq(|weights|, i requires 0 <= i < |weights| => if weights[i].Number? then weights[i].value else 0.0)
  }

  /** Whether a matrix is quantized at all. */
  predicate Quantizable(weights: seq<Single>, rows: nat, columns: nat) {
    rows != 0 && columns != 0 && columns % 128 == 0 && |weights| == rows * columns && AllFinite(weights)
  }

  /** quantize_group128.  A weight that is not finite is noticed on the way; what was computed with it is
      then discarded. */
  method QuantizeGroup128(weights: seq<Single>, rows: nat, columns: nat, f: Format) returns (r: Outcome<PackedMatrix>)
    ensures !r.DeviceError? && (r.Ok? <==> Quantizable(weights, rows, columns))
    ensures r.Ok? ==> r.value == QuantizedMatrix(Numbers(weights), rows, columns, f, Encoder(f))
  {
    if rows == 0 || columns == 0 || columns % 128 != 0 || |weights| != rows * columns { return InvalidArgument; }
    ghost var encode := Encoder(f);
    EncoderEncodes(f, encode);
    var nonFinite := !AllFinite(weights);
    var m := QuantizeRows(Numbers(weights), rows, columns, f, encode);
    r := if nonFinite then InvalidArgument else Ok(m);
  }

  /** A weight of a row-major matrix, and the scale of its row and group. */
  function WeightAt(weights: seq<real>, rows: nat, columns: nat, row: nat, column: nat): real
    requires rows * columns <= |weights| && row < rows && column < columns
  {
    PieceOf(weights, columns, rows, row)[column]
  }

  function ScaleAt(m: PackedMatrix, row: nat, column: nat): real
    requires m.Valid() && row < m.rows && column < m.columns
  {
    PieceOf(m.scales, m.Groups(), m.rows, row)[column / 128]
  }

  lemma RowOfQuantized(m: PackedMatrix, weights: seq<real>, encode: (real, real) -> bv8, row: nat)
    requires m.Valid() && |weights| == m.rows * m.columns && row < m.rows
    requires m == QuantizedMatrix(weights, m.rows, m.columns, m.format, encode)
    ensures var source := PieceOf(weights, m.columns, m.rows, row);
            m.Row(row) == CodeRow(source, m.format, encode)
              && PieceOf(m.scales, m.Groups(), m.rows, row) == RowScales(source, m.format)
  {
    QuantizedSizes(weights, m.rows, m.columns, m.format, encode, m.RowBytes());
    RowsAt(weights, m.rows, m.columns, m.format, encode, row);
    PieceOfFlat(CodeRows(weights, m.rows, m.columns, m.format, encode), m.rows, m.RowBytes(), row);
    PieceOfFlat(ScaleRows(weights, m.rows, m.columns, m.format), m.rows, m.Groups(), row);
    RowIsPiece(m, row);
  }

  lemma RowIsPiece(m: PackedMatrix, row: nat)
    requires m.Valid() && row < m.rows
    ensures m.Row(row) == PieceOf(m.codes, m.RowBytes(), m.rows, row)
  {
  }

  /** The code of every weight is that of its level under the scale of its group. */
  lemma QuantizedCode(m: PackedMatrix, weights: seq<real>, encode: (real, real) -> bv8, row: nat, column: nat)
    requires m.Valid() && |weights| == m.rows * m.columns && row < m.rows && column < m.columns
             && IsEncoder(encode, m.format)
    requires m == QuantizedMatrix(weights, m.rows, m.columns, m.format, encode)
    ensures m.Code(row, column) == encode(WeightAt(weights, m.rows, m.columns, row, column), ScaleAt(m, row, column))
  {
    RowOfQuantized(m, weights, encode, row);
    var source := PieceOf(weights, m.columns, m.rows, row);
    var scales := RowScales(source, m.format);
    RowCodesAreCodes(source, scales, encode, m.format);
    StoredRowPacked(RowCodes(source, scales, encode), m.format, |source|);
  }

  /** From weights to the matrix instruction: what the lane of a weight reads, after quantizing,
      packing, tiling and dilating, is the level assigned to the weight under its group's scale. */
  lemma WeightReachesLane(m: PackedMatrix, weights: seq<real>, row: nat, column: nat, bytes: seq<bv8>, value: real,
                          scale: real)
    requires m.Valid() && |weights| == m.rows * m.columns && row < m.rows && column < m.columns
    requires m == QuantizedMatrix(weights, m.rows, m.columns, m.format, Encoder(m.format))
    requires bytes == BytesFor(m, row, column)
    requires value == WeightAt(weights, m.rows, m.columns, row, column) && scale == ScaleAt(m, row, column)
    ensures ValueOf(ElementAt(LaneWords(bytes, m.format), Index(column % 16))) == LevelOf(value, scale, m.format)
  {
    var encode := Encoder(m.format);
    EncoderEncodes(m.format, encode);
    QuantizedCode(m, weights, encode, row, column);
    LayoutPreservesMeaning(m, row, column, bytes);
    LevelOfCode(encode, m.format, value, scale);
  }

  lemma LevelOfCode(encode: (real, real) -> bv8, f: Format, value: real, scale: real)
    requires IsEncoder(encode, f)
    ensures IsCode(encode(value, scale), f) && DecodeValue(encode(value, scale), f) == LevelOf(value, scale, f)
  {
    assert Seals.Opened(Seals.Encoder);
    DecodeInverts(LevelOf(value, scale, f), f);
  }
}
