/** What several modules share: optional values and a fact about multiplication. */
module Prelude {
  datatype Option<T> = None | Some(value: T)

  lemma MulLess(a: int, b: int, unit: int)
    requires unit >= 1 && a * unit < b * unit
    ensures a < b
  {
  }
}
