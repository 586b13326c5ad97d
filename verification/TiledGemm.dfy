/** The matrix kernels over a tiled matrix: their operands are the levels of the packed codes. */
module TiledGemm {
  import opened Scalars
  import opened LowBitCodes
  import opened Dilation
  import opened Tiling
  import opened TiledWeights
  import opened Gemm

  /** A tiled matrix as the lanes read it. */
  ghost function Operand(m: PackedMatrix, scale: (nat, nat) -> Float): Matrix
    requires m.Valid()
  {
    Matrix(m.rows / 16,
           (row: nat, column: nat) =>
             if row < m.rows && column < m.columns
             then ValueOf(ElementAt(LaneWords(BytesFor(m, row, column), m.format), Index(column % 16)))
             else 0,
           scale)
  }

  lemma OperandLevel(m: PackedMatrix, scale: (nat, nat) -> Float, row: nat, column: nat)
    requires m.Valid() && row < m.rows && column < m.columns
    ensures Operand(m, scale).level(row, column) == DecodeValue(m.Code(row, column), m.format)
  {
    LayoutPreservesMeaning(m, row, column, BytesFor(m, row, column));
  }

  lemma LevelsClamped(m: PackedMatrix, scale: (nat, nat) -> Float)
    requires m.Valid()
    ensures forall r: nat, c: nat :: -8 <= Operand(m, scale).level(r, c) <= 7
  {
    forall r: nat, c: nat
      ensures -8 <= Operand(m, scale).level(r, c) <= 7
    {
      if r < m.rows && c < m.columns {
        OperandLevel(m, scale, r, c);
        LevelBound(m.Code(r, c), m.format);
      }
    }
  }

  /** Every dot of a tiled matrix with clamped activations converts to floating point exactly. */
  lemma {:induction false} TiledDotBound(m: PackedMatrix, scale: (nat, nat) -> Float, x: Activations, row: nat,
                                         candidate: nat, group: nat)
    requires m.Valid() && forall r, c :: -7 <= x.code(r, c) <= 7
    ensures -7168 <= Dot(Operand(m, scale), x, row, candidate, group, 128) <= 7168
  {
    LevelsClamped(m, scale);
    GroupDotBound(Operand(m, scale), x, row, candidate, group);
  }
}
