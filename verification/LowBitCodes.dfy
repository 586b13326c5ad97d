/** Low-bit weight codes: how they are packed into the bytes of a row, what signed level a code
    stands for, and how the device dilates packed codes into signed nibbles. */
module LowBitCodes {
  datatype Format = W2 | W3 | W4

  /** The codes of a format: two, three or four bits. */
  predicate IsCode(code: bv8, f: Format) {
    code < match f case W2 => 4 case W3 => 8 case W4 => 16
  }

  /** The signed level a code stands for. */
  function DecodeValue(code: bv8, f: Format): int {
    match f
    case W2 => code as int * 2 - 3
    case W3 => code as int - 4
    case W4 => if code & 8 != 0 then code as int - 16 else code as int
  }

  function PackedRowBytes(f: Format, columns: nat): nat {
    match f
    case W2 => (columns + 3) / 4
    case W3 => (columns * 3 + 7) / 8
    case W4 => (columns + 1) / 2
  }

  // ---- packing

  /** Where a code sits in its byte. */
  function Shift2(column: nat): bv8 {
    if column % 4 == 0 then 0 else if column % 4 == 1 then 2 else if column % 4 == 2 then 4 else 6
  }

  function Shift4(column: nat): bv8 {
    if column % 2 == 0 then 0 else 4
  }

  function Bit8(column: nat): bv8 {
    var k := column % 8;
    if k == 0 then 0 else if k == 1 then 1 else if k == 2 then 2 else if k == 3 then 3
    else if k == 4 then 4 else if k == 5 then 5 else if k == 6 then 6 else 7
  }

  /** The byte of a bit plane: each group of 128 columns has three planes of 16 bytes. */
  function PlaneByte(column: nat, plane: nat): nat {
    column / 128 * 48 + plane * 16 + column % 128 / 8
  }

  function GroupBytes(f: Format): (r: nat)
    ensures r in {32, 48, 64}
  {
    match f case W2 => 32 case W3 => 48 case W4 => 64
  }

  /** A packed row of so many bytes has the column's whole group. */
  predicate HasColumn(bytes: nat, column: nat, f: Format) {
    match f
    case W2 => (column / 128 + 1) * 32 <= bytes
    case W3 => (column / 128 + 1) * 48 <= bytes
    case W4 => (column / 128 + 1) * 64 <= bytes
  }

  /** The code of a column, read from a packed row. */
  function LoadCode(row: seq<bv8>, column: nat, f: Format): (code: bv8)
    requires HasColumn(|row|, column, f)
    ensures IsCode(code, f)
  {
    match f
    case W2 => (row[column / 4] >> Shift2(column)) & 3
    case W3 =>
      ((row[PlaneByte(column, 0)] >> Bit8(column)) & 1)
      | (((row[PlaneByte(column, 1)] >> Bit8(column)) & 1) << 1)
      | (((row[PlaneByte(column, 2)] >> Bit8(column)) & 1) << 2)
    case W4 => (row[column / 2] >> Shift4(column)) & 15
  }

  /** The code of a column added to its bits. */
  function StoreCode(row: seq<bv8>, column: nat, code: bv8, f: Format): (r: seq<bv8>)
    requires HasColumn(|row|, column, f)
    ensures |r| == |row|
  {
    match f
    case W2 => row[column / 4 := row[column / 4] | ((code & 3) << Shift2(column))]
    case W3 => StorePlane(StorePlane(StorePlane(row, column, code, 0), column, code >> 1, 1), column, code >> 2, 2)
    case W4 => row[column / 2 := row[column / 2] | ((code & 15) << Shift4(column))]
  }

  function StorePlane(row: seq<bv8>, column: nat, code: bv8, plane: nat): (r: seq<bv8>)
    requires HasColumn(|row|, column, W3) && plane < 3
    ensures |r| == |row|
  {
    row[PlaneByte(column, plane) := row[PlaneByte(column, plane)] | ((code & 1) << Bit8(column))]
  }

  lemma OrPair(b: bv8, code: bv8, s: bv8, t: bv8)
    requires s in {0, 2, 4, 6} && t in {0, 2, 4, 6}
    ensures ((b | ((code & 3) << s)) >> t) & 3 == if s == t then ((b >> t) & 3) | (code & 3) else (b >> t) & 3
  {
  }

  lemma OrNibble(b: bv8, code: bv8, s: bv8, t: bv8)
    requires s in {0, 4} && t in {0, 4}
    ensures ((b | ((code & 15) << s)) >> t) & 15 == if s == t then ((b >> t) & 15) | (code & 15) else (b >> t) & 15
  {
  }

  lemma OrBit(b: bv8, code: bv8, s: bv8, t: bv8)
    requires s < 8 && t < 8
    ensures ((b | ((code & 1) << s)) >> t) & 1 == if s == t then ((b >> t) & 1) | (code & 1) else (b >> t) & 1
  {
  }

  /** Bit plane p of a column. */
  function PlaneBit(row: seq<bv8>, column: nat, plane: nat): bv8
    requires HasColumn(|row|, column, W3) && plane < 3
  {
    (row[PlaneByte(column, plane)] >> Bit8(column)) & 1
  }

  lemma Eighths(c: nat)
    ensures c / 8 == c / 128 * 16 + c % 128 / 8 && 0 <= c % 128 / 8 < 16
  {
  }

  lemma PlaneParts(group: nat, x: nat, group': nat, y: nat)
    requires x < 48 && y < 48 && group * 48 + x == group' * 48 + y
    ensures group == group' && x == y
  {
  }

  lemma SamePlane(column: nat, plane: nat, c: nat, p: nat)
    requires plane < 3 && p < 3 && PlaneByte(c, p) == PlaneByte(column, plane)
    ensures p == plane && c / 8 == column / 8
  {
    Eighths(c);
    Eighths(column);
    var u: nat, v: nat := c % 128 / 8, column % 128 / 8;
    PlaneParts(c / 128, p * 16 + u, column / 128, plane * 16 + v);
  }

  lemma PlacesDiffer(column: nat, plane: nat, c: nat, p: nat)
    requires plane < 3 && p < 3
    ensures PlaneByte(c, p) == PlaneByte(column, plane) && Bit8(c) == Bit8(column) <==> c == column && p == plane
  {
    if PlaneByte(c, p) == PlaneByte(column, plane) && Bit8(c) == Bit8(column) {
      SamePlane(column, plane, c, p);
      assert c % 8 == column % 8;
    }
  }

  lemma PairsDiffer(column: nat, c: nat)
    ensures c / 4 == column / 4 && Shift2(c) == Shift2(column) <==> c == column
    ensures c / 2 == column / 2 && Shift4(c) == Shift4(column) <==> c == column
  {
  }

  lemma StoredPlane(row: seq<bv8>, column: nat, code: bv8, plane: nat, c: nat, p: nat)
    requires HasColumn(|row|, column, W3) && HasColumn(|row|, c, W3) && plane < 3 && p < 3
    ensures PlaneBit(StorePlane(row, column, code, plane), c, p)
         == if c == column && p == plane then PlaneBit(row, c, p) | (code & 1) else PlaneBit(row, c, p)
  {
    PlacesDiffer(column, plane, c, p);
    OrBit(row[PlaneByte(column, plane)], code, Bit8(column), Bit8(c));
  }

  lemma JoinBits(a: bv8, code: bv8)
    requires a < 8 && code < 8
    ensures ((a & 1) | (code & 1)) | ((((a >> 1) & 1) | ((code >> 1) & 1)) << 1)
            | ((((a >> 2) & 1) | ((code >> 2) & 1)) << 2)
            == a | code
  {
  }

  lemma SplitBits(x: bv8, y: bv8, z: bv8)
    requires x < 2 && y < 2 && z < 2
    ensures var a := x | (y << 1) | (z << 2);
            a < 8 && a & 1 == x && (a >> 1) & 1 == y && (a >> 2) & 1 == z
  {
  }

  /** Storing adds the code to its own column and touches no other. */
  lemma StoredCode(row: seq<bv8>, column: nat, code: bv8, f: Format, c: nat)
    requires HasColumn(|row|, column, f) && HasColumn(|row|, c, f) && IsCode(code, f)
    ensures LoadCode(StoreCode(row, column, code, f), c, f) == if c == column then LoadCode(row, c, f) | code
            else LoadCode(row, c, f)
  {
    match f
    case W2 => StoredPair(row, column, code, c);
    case W3 => StoredPlanes(row, column, code, c);
    case W4 => StoredNibble(row, column, code, c);
  }

  lemma StoredPair(row: seq<bv8>, column: nat, code: bv8, c: nat)
    requires HasColumn(|row|, column, W2) && HasColumn(|row|, c, W2) && IsCode(code, W2)
    ensures LoadCode(StoreCode(row, column, code, W2), c, W2) == if c == column then LoadCode(row, c, W2) | code
            else LoadCode(row, c, W2)
  {
    PairsDiffer(column, c);
    OrPair(row[column / 4], code, Shift2(column), Shift2(c));
    assert code & 3 == code;
  }

  lemma StoredNibble(row: seq<bv8>, column: nat, code: bv8, c: nat)
    requires HasColumn(|row|, column, W4) && HasColumn(|row|, c, W4) && IsCode(code, W4)
    ensures LoadCode(StoreCode(row, column, code, W4), c, W4) == if c == column then LoadCode(row, c, W4) | code
            else LoadCode(row, c, W4)
  {
    PairsDiffer(column, c);
    OrNibble(row[column / 2], code, Shift4(column), Shift4(c));
    assert code & 15 == code;
  }

  lemma StoredPlanes(row: seq<bv8>, column: nat, code: bv8, c: nat)
    requires HasColumn(|row|, column, W3) && HasColumn(|row|, c, W3) && IsCode(code, W3)
    ensures LoadCode(StoreCode(row, column, code, W3), c, W3) == if c == column then LoadCode(row, c, W3) | code
            else LoadCode(row, c, W3)
  {
    var one := StorePlane(row, column, code, 0);
    var two := StorePlane(one, column, code >> 1, 1);
    forall p | 0 <= p < 3
      ensures PlaneBit(StoreCode(row, column, code, W3), c, p)
           == if c == column then PlaneBit(row, c,
                                           p) | ((code >> (if p == 0 then 0 as bv8 else if p == 1 then 1 else 2)) & 1)
             else PlaneBit(row, c, p)
    {
      StoredPlane(row, column, code, 0, c, p);
      StoredPlane(one, column, code >> 1, 1, c, p);
      StoredPlane(two, column, code >> 2, 2, c, p);
    }
    SplitBits(PlaneBit(row, c, 0), PlaneBit(row, c, 1), PlaneBit(row, c, 2));
    JoinBits(LoadCode(row, c, W3), code);
  }
}
