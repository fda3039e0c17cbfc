/** The optional value used everywhere, and the two modes of a lock. */
module Wrappers {
  datatype Option<+T> = None | Some(value: T)

  // FOR UPDATE and writes exclude everyone; the FOR KEY SHARE of a foreign key excludes only those.
  datatype Mode = Shared | Exclusive
}
