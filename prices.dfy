/** Fares as the refresh engine compares them. */
module Prices {

  /** A fare: a finite, non-negative amount, or the `Infinity` that stands in
      for a response without a `MinPrice`. */
  datatype Price = Fin(amount: nat) | Inf

  /** JavaScript's `<` on numbers, with `Infinity` above every finite amount
      and not below itself. */
  predicate Less(a: Price, b: Price)
  {
    a.Fin? && (b.Inf? || a.amount < b.amount)
  }

  /** "Not more expensive": the order the sort comparator
      `(a, b) => a.price - b.price` induces (`Infinity - Infinity` is `NaN`,
      which the sort treats as "neither is before the other"). */
  predicate LessEq(a: Price, b: Price)
  {
    !Less(b, a)
  }
}
