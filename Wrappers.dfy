/** The optional value used wherever the scraper reads something that may be missing. */
module Wrappers {
  datatype Option<+T> = None | Some(value: T)
}
