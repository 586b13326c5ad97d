/** The concatenation of pieces given by number. */
module Concatenation {
  import opened Division

  function Flat<T>(piece: nat -> seq<T>, n: nat): seq<T> {
    if n == 0 then [] else Flat(piece, n - 1) + piece(n - 1)
  }

  ghost predicate Uniform<T>(piece: nat -> seq<T>, n: nat, width: nat) {
    forall i | 0 <= i < n :: |piece(i)| == width
  }

  lemma {:induction false} FlatLength<T>(piece: nat -> seq<T>, n: nat, width: nat)
    requires Uniform(piece, n, width)
    ensures |Flat(piece, n)| == n * width
  {
    if n > 0 {
      FlatLength(piece, n - 1, width);
      assert n * width == (n - 1) * width + width;
    }
  }

  function PieceOf<T>(s: seq<T>, width: nat, n: nat, i: nat): (r: seq<T>)
    requires i < n && n * width <= |s|
    ensures |r| == width
  {
    PieceFits(i, n, width);
    s[i * width..i * width + width]
  }

  /** Piece i of the concatenation is piece i. */
  lemma {:induction false} PieceOfFlat<T>(piece: nat -> seq<T>, n: nat, width: nat, i: nat)
    requires i < n && Uniform(piece, n, width)
    ensures |Flat(piece, n)| == n * width && PieceOf(Flat(piece, n), width, n, i) == piece(i)
  {
    FlatLength(piece, n, width);
    FlatLength(piece, n - 1, width);
    PieceFits(i, n, width);
    if i < n - 1 {
      PieceOfFlat(piece, n - 1, width, i);
      PieceFits(i, n - 1, width);
    }
  }

  /** Pieces that continue with those of another concatenation. */
  lemma {:induction false} FlatAppend<T>(piece: nat -> seq<T>, before: nat, more: nat -> seq<T>, n: nat)
    requires forall i | 0 <= i < n :: more(i) == piece(before + i)
    ensures Flat(piece, before + n) == Flat(piece, before) + Flat(more, n)
  {
    if n == 0 {
      assert Flat(piece, before) + [] == Flat(piece, before);
    } else {
      FlatAppend(piece, before, more, n - 1);
      assert more(n - 1) == piece(before + (n - 1));
    }
  }

  lemma {:induction false} FlatPrefix<T>(piece: nat -> seq<T>, k: nat, n: nat)
    requires k <= n
    ensures |Flat(piece, k)| <= |Flat(piece, n)| && Flat(piece, n)[..|Flat(piece, k)|] == Flat(piece, k)
    decreases n
  {
    if k < n {
      FlatPrefix(piece, k, n - 1);
    }
  }

  /** The pieces from first on, cut out of the concatenation. */
  lemma {:induction false} SliceOfFlat<T>(piece: nat -> seq<T>, n: nat, width: nat, first: nat, count: nat,
                                          more: nat -> seq<T>)
    requires Uniform(piece, n, width) && first + count <= n && forall i | 0 <= i < count :: more(i) == piece(first + i)
    ensures first * width + count * width <= |Flat(piece, n)|
    ensures Flat(piece, n)[first * width..first * width + count * width] == Flat(more, count)
  {
    FlatLength(piece, first, width);
    FlatLength(more, count, width);
    FlatAppend(piece, first, more, count);
    FlatPrefix(piece, first + count, n);
    MiddlePart(Flat(piece, n), Flat(piece, first), Flat(more, count));
  }

  lemma MiddlePart<T>(s: seq<T>, a: seq<T>, b: seq<T>)
    requires |a| + |b| <= |s| && s[..|a| + |b|] == a + b
    ensures s[|a|..|a| + |b|] == b
  {
    assert s[|a|..|a| + |b|] == s[..|a| + |b|][|a|..];
  }

  lemma SliceOfSlice<T>(s: seq<T>, at: nat, width: nat, from: nat, n: nat)
    requires from + n <= width && at + width <= |s|
    ensures s[at..at + width][from..from + n] == s[at + from..at + from + n]
  {
    var a, b := s[at..at + width][from..from + n], s[at + from..at + from + n];
    assert forall i | 0 <= i < n :: a[i] == b[i];
  }
}
