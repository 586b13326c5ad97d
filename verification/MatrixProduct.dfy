/** What the matrix kernels compute, read over the real numbers: the product of the dequantized
    operands, column by column.  The definitions of the accumulation are not used to say so. */
module MatrixProduct {
  import opened Scalars
  import opened LowBitCodes
  import opened Tiling
  import opened Tiler
  import opened TiledWeights
  import opened Gemm
  import opened TiledGemm
  import Seals

  /** The conversion of a dot is exact within the range of a group's dots. */
  ghost predicate Converts(exact: int -> Float, value: Float -> real) {
    forall n | -7168 <= n <= 7168 :: value(exact(n)) == n as real
  }

  /** Levels of four bits and activations clamped to [-7, 7]. */
  ghost predicate Clamped(m: Matrix, x: Activations) {
    (forall r, c :: -8 <= m.level(r, c) <= 7) && forall r, c :: -7 <= x.code(r, c) <= 7
  }

  /** A row of weights and a candidate's activations, dequantized. */
  ghost function WeightRow(m: Matrix, value: Float -> real, row: nat): nat -> real {
    (column: nat) => m.level(row, column) as real * value(m.scale(row, column / 128))
  }

  ghost function ActivationRow(x: Activations, value: Float -> real, candidate: nat): nat -> real {
    (column: nat) => x.code(candidate, column) as real * value(x.scale(candidate, column / 128))
  }

  /** The inner product of two rows over the first n columns. */
  ghost function Inner(f: nat -> real, g: nat -> real, n: nat): real {
    if n == 0 then 0.0 else Inner(f, g, n - 1) + f(n - 1) * g(n - 1)
  }

  /** A sum with a scaled dot in it, behind a seal. */
  ghost predicate IsScaledSum(total: real, front: real, dot: int, w: real, a: real) {
    forall seal {:trigger Seals.Opened(seal)} | Seals.Opened(seal) && seal == Seals.Law ::
      total == front + dot as real * (w * a)
  }

  lemma SameProduct(p: real, q: real, a: real, b: real)
    requires Seals.IsProduct(p, a, b) && Seals.IsProduct(q, a, b)
    ensures p == q
  {
    assert Seals.Opened(Seals.Law);
  }

  lemma NoTerm(front: real, w: real, a: real)
    ensures IsScaledSum(front, front, 0, w, a)
  {
  }

  /** One more column: a product of two codes times the scales. */
  lemma OneColumn(total: real, next: real, dot: int, nextDot: int, w: real, a: real, p: real, q: real, level: int,
                  code: int)
    requires Seals.IsProduct(p, level as real, w) && Seals.IsProduct(q, code as real, a)
    requires IsNext(total, next, p, q) && nextDot == dot + level * code
    ensures Rises(total, next, dot, nextDot, w, a)
  {
    assert Seals.Opened(Seals.Law);
    Regrouped(level as real, code as real, w, a);
    assert (level * code) as real == level as real * code as real;
  }

  lemma Regrouped(level: real, code: real, w: real, a: real)
    ensures (level * w) * (code * a) == (level * code) * (w * a)
  {
  }

  lemma Distributes(a: real, b: real, c: real)
    ensures (a + b) * c == a * c + b * c
  {
  }

  /** Rows that are levels and codes times scales, over the columns of a group. */
  ghost predicate IsScaled(f: nat -> real, level: (nat, nat) -> int, scale: (nat, nat) -> Float,
                           value: Float -> real, row: nat) {
    forall column: nat {:trigger f(column)} ::
      Seals.IsProduct(f(column), level(row, column) as real, value(scale(row, column / 128)))
  }

  lemma RowsAreScaled(m: Matrix, x: Activations, value: Float -> real, row: nat, candidate: nat)
    ensures IsScaled(WeightRow(m, value, row), m.level, m.scale, value, row)
    ensures IsScaled(ActivationRow(x, value, candidate), x.code, x.scale, value, candidate)
  {
  }

  lemma InGroup(group: nat, j: nat)
    requires j < 128
    ensures (group * 128 + j) / 128 == group
  {
  }

  /** A total that rises with a dot, times the scales. */
  ghost predicate Rises(total: real, next: real, dot: int, nextDot: int, w: real, a: real) {
    IsScaledSum(next, total, nextDot - dot, w, a)
  }

  lemma AddRise(total: real, next: real, front: real, dot: int, nextDot: int, w: real, a: real)
    requires IsScaledSum(total, front, dot, w, a) && Rises(total, next, dot, nextDot, w, a)
    ensures IsScaledSum(next, front, nextDot, w, a)
  {
    assert Seals.Opened(Seals.Law);
    assert nextDot as real == dot as real + (nextDot - dot) as real;
    Distributes(dot as real, (nextDot - dot) as real, w * a);
  }

  /** A function that sums the products of two rows, step by step. */
  ghost predicate Sums(total: nat -> real, f: nat -> real, g: nat -> real) {
    total(0) == 0.0 && forall n: nat {:trigger f(n)} :: IsNext(total(n), total(n + 1), f(n), g(n))
  }

  ghost predicate IsNext(total: real, next: real, p: real, q: real) {
    forall seal {:trigger Seals.Opened(seal)} | Seals.Opened(seal) && seal == Seals.Law :: next == total + p * q
  }

  lemma InnerSums(f: nat -> real, g: nat -> real)
    ensures Sums((n: nat) => Inner(f, g, n), f, g)
  {
    var total := (n: nat) => Inner(f, g, n);
    forall n: nat
      ensures IsNext(total(n), total(n + 1), f(n), g(n))
    {
    }
  }

  lemma ColumnRises(m: Matrix, x: Activations, value: Float -> real, row: nat, candidate: nat, group: nat, j: nat,
                    column: nat, f: nat -> real, g: nat -> real, total: nat -> real)
    requires IsScaled(f, m.level, m.scale, value, row) && IsScaled(g, x.code, x.scale, value, candidate)
    requires Sums(total, f, g) && j < 128 && column == group * 128 + j
    ensures Rises(total(column), total(column + 1), Dot(m, x, row, candidate, group, j),
                  Dot(m, x, row, candidate, group, j + 1), value(m.scale(row, group)), value(x.scale(candidate, group)))
  {
    InGroup(group, j);
    OneColumn(total(column), total(column + 1), Dot(m, x, row, candidate, group, j),
              Dot(m, x, row, candidate, group, j + 1), value(m.scale(row, group)), value(x.scale(candidate, group)),
              f(column), g(column), m.level(row, column), x.code(candidate, column));
  }

  /** Within a group the scales factor out of the sum. */
  lemma {:induction false} GroupProduct(m: Matrix, x: Activations, value: Float -> real, row: nat, candidate: nat,
                                        group: nat, n: nat, f: nat -> real, g: nat -> real, total: nat -> real)
    requires IsScaled(f, m.level, m.scale, value, row) && IsScaled(g, x.code, x.scale, value, candidate)
    requires Sums(total, f, g) && n <= 128
    ensures IsScaledSum(total(group * 128 + n), total(group * 128), Dot(m, x, row, candidate, group, n),
                        value(m.scale(row, group)), value(x.scale(candidate, group)))
  {
    var w, a := value(m.scale(row, group)), value(x.scale(candidate, group));
    if n == 0 {
      NoTerm(total(group * 128), w, a);
    } else {
      var j: nat := n - 1;
      GroupProduct(m, x, value, row, candidate, group, j, f, g, total);
      ColumnRises(m, x, value, row, candidate, group, j, group * 128 + j, f, g, total);
      AddRise(total(group * 128 + j), total(group * 128 + n), total(group * 128), Dot(m, x, row, candidate, group, j),
              Dot(m, x, row, candidate, group, n), w, a);
    }
  }

  lemma SameSum(total: real, other: real, front: real, dot: int, w: real, a: real)
    requires IsScaledSum(total, front, dot, w, a) && IsScaledSum(other, front, dot, w, a)
    ensures total == other
  {
    assert Seals.Opened(Seals.Law);
  }

  lemma {:induction false} GroupAdded(ar: Arithmetic, exact: int -> Float, value: Float -> real, m: Matrix,
                                      x: Activations, row: nat, candidate: nat, group: nat, sum: Float)
    requires Exact(ar, value) && Converts(exact, value) && Clamped(m, x)
    ensures IsScaledSum(value(AddGroup(ar, exact, m, x, row, candidate, group, sum)), value(sum),
                        Dot(m, x, row, candidate, group, 128), value(m.scale(row, group)),
                        value(x.scale(candidate, group)))
  {
    var dot, w, a := Dot(m, x, row, candidate, group, 128), m.scale(row, group), x.scale(candidate, group);
    GroupDotBound(m, x, row, candidate, group);
    assert value(exact(dot)) == dot as real;
    assert ExactAt(ar, value, w, a, ar.zero);
    assert ExactAt(ar, value, exact(dot), ar.mul(w, a), sum);
  }

  lemma {:induction false} OneMoreGroup(ar: Arithmetic, exact: int -> Float, value: Float -> real, m: Matrix,
                                        x: Activations, row: nat, candidate: nat, group: nat, sum: Float, next: Float,
                                        front: real, total: real)
    requires Exact(ar, value) && Converts(exact, value) && Clamped(m, x)
    requires value(sum) == front && next == AddGroup(ar, exact, m, x, row, candidate, group, sum)
    requires IsScaledSum(total, front, Dot(m, x, row, candidate, group, 128), value(m.scale(row, group)),
                         value(x.scale(candidate, group)))
    ensures value(next) == total
  {
    GroupAdded(ar, exact, value, m, x, row, candidate, group, sum);
    SameSum(value(next), total, front, Dot(m, x, row, candidate, group, 128), value(m.scale(row, group)),
            value(x.scale(candidate, group)));
  }

  /** The conditions of the product, behind a seal. */
  ghost predicate Exactly(ar: Arithmetic, exact: int -> Float, value: Float -> real, m: Matrix, x: Activations) {
    forall seal {:trigger Seals.Opened(seal)} | Seals.Opened(seal) && seal == Seals.Law ::
      Exact(ar, value) && Converts(exact, value) && Clamped(m, x)
  }

  lemma GroupGrows(ar: Arithmetic, exact: int -> Float, value: Float -> real, m: Matrix, x: Activations, row: nat,
                   candidate: nat, group: nat, f: nat -> real, g: nat -> real, total: nat -> real)
    requires Exactly(ar, exact, value, m, x)
    requires IsScaled(f, m.level, m.scale, value, row) && IsScaled(g, x.code, x.scale, value, candidate)
    requires Sums(total, f, g) && value(Output(ar, exact, m, x, row, candidate, group)) == total(group * 128)
    ensures value(Output(ar, exact, m, x, row, candidate, group + 1)) == total(group * 128 + 128)
  {
    var sum := Output(ar, exact, m, x, row, candidate, group);
    assert Seals.Opened(Seals.Law);
    GroupProduct(m, x, value, row, candidate, group, 128, f, g, total);
    OneMoreGroup(ar, exact, value, m, x, row, candidate, group, sum,
                 AddGroup(ar, exact, m, x, row, candidate, group, sum), total(group * 128), total(group * 128 + 128));
  }

  lemma {:induction false} ByGroups(out: nat -> Float, total: nat -> real, value: Float -> real, n: nat)
    requires value(out(0)) == total(0)
    requires forall group: nat | group < n && value(out(group)) == total(group * 128) ::
               value(out(group + 1)) == total(group * 128 + 128)
    ensures value(out(n)) == total(n * 128)
  {
    if n > 0 {
      ByGroups(out, total, value, n - 1);
      assert (n - 1) * 128 + 128 == n * 128;
    }
  }

  lemma {:induction false} NoGroups(ar: Arithmetic, exact: int -> Float, value: Float -> real, m: Matrix,
                                    x: Activations, row: nat, candidate: nat)
    requires Exactly(ar, exact, value, m, x)
    ensures value(Output(ar, exact, m, x, row, candidate, 0)) == 0.0
  {
    assert Seals.Opened(Seals.Law);
  }

  lemma {:induction false} OutputIsSum(ar: Arithmetic, exact: int -> Float, value: Float -> real, m: Matrix,
                                       x: Activations, row: nat, candidate: nat, groups: nat, f: nat -> real,
                                       g: nat -> real, total: nat -> real)
    requires Exactly(ar, exact, value, m, x) && Sums(total, f, g)
    requires IsScaled(f, m.level, m.scale, value, row) && IsScaled(g, x.code, x.scale, value, candidate)
    ensures value(Output(ar, exact, m, x, row, candidate, groups)) == total(groups * 128)
  {
    var out := (n: nat) => Output(ar, exact, m, x, row, candidate, n);
    NoGroups(ar, exact, value, m, x, row, candidate);
    forall group: nat | group < groups && value(out(group)) == total(group * 128)
      ensures value(out(group + 1)) == total(group * 128 + 128)
    {
      GroupGrows(ar, exact, value, m, x, row, candidate, group, f, g, total);
    }
    ByGroups(out, total, value, groups);
  }

  lemma {:induction false} OutputIsInner(ar: Arithmetic, exact: int -> Float, value: Float -> real, m: Matrix,
                                         x: Activations, row: nat, candidate: nat, groups: nat, f: nat -> real,
                                         g: nat -> real)
    requires Exact(ar, value) && Converts(exact, value) && Clamped(m, x)
    requires IsScaled(f, m.level, m.scale, value, row) && IsScaled(g, x.code, x.scale, value, candidate)
    ensures value(Output(ar, exact, m, x, row, candidate, groups)) == Inner(f, g, groups * 128)
  {
    InnerSums(f, g);
    OutputIsSum(ar, exact, value, m, x, row, candidate, groups, f, g, (n: nat) => Inner(f, g, n));
  }

  /** An output of the kernels is the product of the dequantized operands over all columns. */
  lemma {:induction false} OutputIsProduct(ar: Arithmetic, exact: int -> Float, value: Float -> real, m: Matrix,
                                           x: Activations, row: nat, candidate: nat, groups: nat)
    requires Exact(ar, value) && Converts(exact, value) && Clamped(m, x)
    ensures value(Output(ar, exact, m, x, row, candidate, groups))
            == Inner(WeightRow(m, value, row), ActivationRow(x, value, candidate), groups * 128)
  {
    RowsAreScaled(m, x, value, row, candidate);
    OutputIsInner(ar, exact, value, m, x, row, candidate, groups, WeightRow(m, value, row),
                  ActivationRow(x, value, candidate));
  }

  // ---- tiled matrices

  /** An operand has the levels of the packed codes, and its scales are those of the tiled matrix at the
      places the kernels read. */
  ghost predicate Presents(o: Matrix, m: PackedMatrix, value: Float -> real)
    requires m.Valid()
  {
    && (forall row, column | 0 <= row < m.rows && 0 <= column < m.columns :: HasLevel(o, m, row, column))
    && forall row, group | 0 <= row < m.rows && 0 <= group < m.Groups() :: ReadsScale(o.scale, m, value, row, group)
  }

  ghost predicate HasLevel(o: Matrix, m: PackedMatrix, row: nat, column: nat)
    requires m.Valid() && row < m.rows && column < m.columns
  {
    o.level(row, column) == DecodeValue(m.Code(row, column), m.format)
  }

  ghost predicate ReadsScale(scale: (nat, nat) -> Float, m: PackedMatrix, value: Float -> real, row: nat, group: nat)
    requires m.Valid() && row < m.rows && group < m.Groups()
  {
    ScaleMoves(m, row / 16, group, row % 16);
    value(scale(row, group)) == AllScales(m)[ScaleAt(m.Groups(), row / 16, group, row % 16)]
  }

  /** The operand of a tiled matrix does, if its scales are read there. */
  lemma OperandPresents(m: PackedMatrix, scale: (nat, nat) -> Float, value: Float -> real)
    requires m.Valid()
    requires forall row, group | 0 <= row < m.rows && 0 <= group < m.Groups() :: ReadsScale(scale, m, value, row, group)
    ensures Presents(Operand(m, scale), m, value)
  {
    var o := Operand(m, scale);
    forall row, column | 0 <= row < m.rows && 0 <= column < m.columns
      ensures HasLevel(o, m, row, column)
    {
      OperandLevel(m, scale, row, column);
    }
    assert o.scale == scale;
  }

  /** A row of the packed matrix, dequantized. */
  ghost function PackedRow(m: PackedMatrix, row: nat): nat -> real
    requires m.Valid() && row < m.rows
  {
    (column: nat) => if column < m.columns then Weight(m, row, column) else 0.0
  }

  lemma ReadScaleOf(o: Matrix, m: PackedMatrix, value: Float -> real, row: nat, group: nat)
    requires m.Valid() && row < m.rows && group < m.Groups() && ReadsScale(o.scale, m, value, row, group)
    ensures ScaleOf(m.Groups(), row, group) < |m.scales|
            && value(o.scale(row, group)) == m.scales[ScaleOf(m.Groups(), row, group)]
  {
    ScalePreserved(m, row / 16, group, row % 16);
    assert row / 16 * 16 + row % 16 == row;
  }

  lemma WeightIs(m: PackedMatrix, row: nat, column: nat, level: int, scale: real)
    requires m.Valid() && row < m.rows && column < m.columns
    requires level == DecodeValue(m.Code(row, column), m.format)
    requires ScaleOf(m.Groups(), row, column / 128) < |m.scales|
             && scale == m.scales[ScaleOf(m.Groups(), row, column / 128)]
    ensures Seals.IsProduct(Weight(m, row, column), level as real, scale)
  {
    DequantizedIs(m.Code(row, column), m.format, scale);
  }

  lemma DequantizedIs(code: bv8, f: Format, scale: real)
    ensures Seals.IsProduct(Dequantized(code, f, scale), DecodeValue(code, f) as real, scale)
  {
  }

  /** The operand's weight is the packed one. */
  lemma OperandWeight(o: Matrix, m: PackedMatrix, value: Float -> real, row: nat, column: nat, p: real)
    requires m.Valid() && row < m.rows && column < m.columns && HasLevel(o, m, row, column)
    requires ReadsScale(o.scale, m, value, row, column / 128)
    requires Seals.IsProduct(p, o.level(row, column) as real, value(o.scale(row, column / 128)))
    ensures p == Weight(m, row, column)
  {
    var level, scale := o.level(row, column), value(o.scale(row, column / 128));
    ReadScaleOf(o, m, value, row, column / 128);
    WeightIs(m, row, column, level, scale);
    SameProduct(p, Weight(m, row, column), level as real, scale);
  }

  lemma {:induction false} SameInner(f: nat -> real, h: nat -> real, g: nat -> real, n: nat)
    requires forall i: nat | i < n :: f(i) == h(i)
    ensures Inner(f, g, n) == Inner(h, g, n)
  {
    if n > 0 { SameInner(f, h, g, n - 1); }
  }

  lemma OperandRow(o: Matrix, m: PackedMatrix, value: Float -> real, row: nat, f: nat -> real, i: nat)
    requires m.Valid() && row < m.rows && Presents(o, m, value) && IsScaled(f, o.level, o.scale, value, row)
    requires i < m.columns
    ensures f(i) == Weight(m, row, i)
  {
    assert HasLevel(o, m, row, i) && ReadsScale(o.scale, m, value, row, i / 128);
    OperandWeight(o, m, value, row, i, f(i));
  }

  lemma OperandProduct(o: Matrix, m: PackedMatrix, value: Float -> real, row: nat, f: nat -> real, g: nat -> real)
    requires m.Valid() && row < m.rows && Presents(o, m, value) && IsScaled(f, o.level, o.scale, value, row)
    ensures Inner(f, g, m.columns) == Inner(PackedRow(m, row), g, m.columns)
  {
    forall i: nat | i < m.columns
      ensures f(i) == PackedRow(m, row)(i)
    {
      OperandRow(o, m, value, row, f, i);
    }
    SameInner(f, PackedRow(m, row), g, m.columns);
  }

  lemma {:induction false} PresentedProduct(ar: Arithmetic, exact: int -> Float, value: Float -> real, o: Matrix,
                                            m: PackedMatrix, x: Activations, row: nat, candidate: nat)
    requires Exact(ar, value) && Converts(exact, value) && m.Valid() && row < m.rows
    requires Presents(o, m, value) && Clamped(o, x)
    ensures value(Output(ar, exact, o, x, row, candidate, m.Groups()))
            == Inner(PackedRow(m, row), ActivationRow(x, value, candidate), m.columns)
  {
    var f, g := WeightRow(o, value, row), ActivationRow(x, value, candidate);
    RowsAreScaled(o, x, value, row, candidate);
    OutputIsInner(ar, exact, value, o, x, row, candidate, m.Groups(), f, g);
    OperandProduct(o, m, value, row, f, g);
    assert m.Groups() * 128 == m.columns;
  }

  /** Over a tiled matrix an output is the product of the weights that the packed codes and scales stand
      for with the dequantized activations. */
  lemma {:induction false} TiledOutputIsProduct(ar: Arithmetic, exact: int -> Float, value: Float -> real,
                                                m: PackedMatrix, scale: (nat, nat) -> Float, x: Activations, row: nat,
                                                candidate: nat)
    requires Exact(ar, value) && Converts(exact, value) && m.Valid() && row < m.rows
    requires forall r, group | 0 <= r < m.rows && 0 <= group < m.Groups() :: ReadsScale(scale, m, value, r, group)
    requires forall r, c :: -7 <= x.code(r, c) <= 7
    ensures value(Output(ar, exact, Operand(m, scale), x, row, candidate, m.Groups()))
            == Inner(PackedRow(m, row), ActivationRow(x, value, candidate), m.columns)
  {
    var o := Operand(m, scale);
    LevelsClamped(m, scale);
    OperandPresents(m, scale, value);
    PresentedProduct(ar, exact, value, o, m, x, row, candidate);
  }
}
