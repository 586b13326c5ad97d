/** A register that bytes are folded into by a linear step, over any type of register. */
module LinearRegister {
  type Step<!T> = T -> T
  type Plus<!T> = (T, T) -> T

  function Iterate<T>(step: Step<T>, x: T, n: nat): T
    decreases n
  {
    if n == 0 then x else Iterate(step, step(x), n - 1)
  }

  ghost predicate Linear<T(!new)>(step: Step<T>, plus: Plus<T>) {
    forall x, y :: LinearAt(step, plus, x, y)
  }

  ghost predicate LinearAt<T>(step: Step<T>, plus: Plus<T>, x: T, y: T) {
    step(plus(x, y)) == plus(step(x), step(y))
  }

  ghost predicate Injective<T(!new)>(step: Step<T>) {
    forall x, y :: InjectiveAt(step, x, y)
  }

  ghost predicate InjectiveAt<T>(step: Step<T>, x: T, y: T) {
    step(x) == step(y) ==> x == y
  }

  ghost predicate Associative<T(!new)>(plus: Plus<T>) {
    forall x, y, z :: AssociativeAt(plus, x, y, z)
  }

  ghost predicate AssociativeAt<T>(plus: Plus<T>, x: T, y: T, z: T) {
    plus(plus(x, y), z) == plus(x, plus(y, z))
  }

  /** What is added to two sums can be taken from both. */
  ghost predicate CancelsRight<T(!new)>(plus: Plus<T>) {
    forall x, y, z :: CancelsRightAt(plus, x, y, z)
  }

  ghost predicate CancelsRightAt<T>(plus: Plus<T>, x: T, y: T, z: T) {
    plus(x, z) == plus(y, z) ==> x == y
  }

  lemma {:induction false} IterateLinear<T(!new)>(step: Step<T>, plus: Plus<T>, x: T, y: T, n: nat)
    requires Linear(step, plus)
    ensures Iterate(step, plus(x, y), n) == plus(Iterate(step, x, n), Iterate(step, y, n))
    decreases n
  {
    if n > 0 {
      assert LinearAt(step, plus, x, y);
      IterateLinear(step, plus, step(x), step(y), n - 1);
    }
  }

  lemma {:induction false} IterateInjective<T(!new)>(step: Step<T>, x: T, y: T, n: nat)
    requires Injective(step) && Iterate(step, x, n) == Iterate(step, y, n)
    ensures x == y
    decreases n
  {
    if n > 0 {
      IterateInjective(step, step(x), step(y), n - 1);
      assert InjectiveAt(step, x, y);
    }
  }

  /** A byte is added at the leading end and the register stepped. */
  function Fold<T>(step: Step<T>, plus: Plus<T>, lead: bv8 -> T, x: T, bytes: seq<bv8>): T
    decreases |bytes|
  {
    if bytes == [] then x else Fold(step, plus, lead, step(plus(x, lead(bytes[0]))), bytes[1..])
  }

  /** Folding composes over any split of the bytes. */
  lemma {:induction false} FoldAppend<T>(step: Step<T>, plus: Plus<T>, lead: bv8 -> T, x: T, a: seq<bv8>, b: seq<bv8>)
    ensures Fold(step, plus, lead, x, a + b) == Fold(step, plus, lead, Fold(step, plus, lead, x, a), b)
    decreases |a|
  {
    if a == [] {
      assert a + b == b;
    } else {
      assert (a + b)[1..] == a[1..] + b;
      FoldAppend(step, plus, lead, step(plus(x, lead(a[0]))), a[1..], b);
    }
  }

  /** Equal bytes keep different registers apart. */
  lemma {:induction false} FoldInjective<T(!new)>(step: Step<T>, plus: Plus<T>, lead: bv8 -> T, x: T, y: T,
                                                  bytes: seq<bv8>)
    requires Injective(step) && CancelsRight(plus)
    requires Fold(step, plus, lead, x, bytes) == Fold(step, plus, lead, y, bytes)
    ensures x == y
    decreases |bytes|
  {
    if bytes != [] {
      var byte := lead(bytes[0]);
      FoldInjective(step, plus, lead, step(plus(x, byte)), step(plus(y, byte)), bytes[1..]);
      assert InjectiveAt(step, plus(x, byte), plus(y, byte));
      assert CancelsRightAt(plus, x, y, byte);
    }
  }

  /** The bytes of a window as one register value. */
  function Window<T>(plus: Plus<T>, lead: bv8 -> T, down: Step<T>, zero: T, bytes: seq<bv8>): T
    decreases |bytes|
  {
    if bytes == [] then zero else plus(lead(bytes[0]), down(Window(plus, lead, down, zero, bytes[1..])))
  }

  /** Stepping undoes the shift of a window that is not full. */
  ghost predicate StepRaises<T>(step: Step<T>, plus: Plus<T>, lead: bv8 -> T, down: Step<T>, zero: T, bytes: seq<bv8>) {
    step(down(Window(plus, lead, down, zero, bytes))) == Window(plus, lead, down, zero, bytes)
  }

  /** Folding a window is stepping over its bytes added all at once. */
  lemma {:induction false} FoldWindow<T(!new)>(step: Step<T>, plus: Plus<T>, lead: bv8 -> T, down: Step<T>, zero: T,
                                               x: T, bytes: seq<bv8>)
    requires Linear(step, plus) && Associative(plus) && plus(x, zero) == x && (forall y :: AddsNothing(plus, zero, y))
    requires forall n | 0 < n <= |bytes| :: StepRaises(step, plus, lead, down, zero, bytes[n..])
    ensures Fold(step, plus, lead, x, bytes) == Iterate(step, plus(x, Window(plus, lead, down, zero, bytes)), |bytes|)
    decreases |bytes|
  {
    if bytes != [] {
      var rest, first := bytes[1..], lead(bytes[0]);
      var w := Window(plus, lead, down, zero, rest);
      var next := step(plus(x, first));
      forall n | 0 < n <= |rest|
        ensures StepRaises(step, plus, lead, down, zero, rest[n..])
      {
        assert rest[n..] == bytes[n + 1..];
      }
      assert AddsNothing(plus, zero, next);
      FoldWindow(step, plus, lead, down, zero, next, rest);
      assert StepRaises(step, plus, lead, down, zero, rest);
      assert LinearAt(step, plus, plus(x, first), down(w));
      assert AssociativeAt(plus, x, first, down(w));
    }
  }

  ghost predicate AddsNothing<T>(plus: Plus<T>, zero: T, y: T) {
    plus(y, zero) == y
  }
}
