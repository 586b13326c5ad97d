/** Reals with the value the kernels start a maximum from. */
module ExtendedReal {
  datatype Extended = MinusInfinity | Finite(value: real)

  predicate Greater(a: Extended, b: Extended) {
    a.Finite? && (b.MinusInfinity? || a.value > b.value)
  }
}
