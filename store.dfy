/** Values the handlers receive from the configuration store and the clock. */
module Store {

  /** A point on the time line, in nanoseconds (the resolution of time.Time).
      `a < b` is `a.Before(b)`. */
  type Instant = int

  /** A host name as returned by the store's Names call. */
  type Host = string

  /** The answer of a store call or of the date parse: a value, or an error. */
  datatype Result<T> = Ok(value: T) | Err

  /** A possibly missing value: `*time.Time` that may be nil. */
  datatype Option<T> = None | Some(value: T)
}
