/** A missing value: pandas' NaN / NaT becomes None. */
module Wrappers {
  datatype Option<+T> = None | Some(value: T)
}
