/** Shared vocabulary of the order-tracking model: optional values, dates and
    the outcome of the persistent store's I/O. */
module Common {

  /** Swift's `T?`. */
  datatype Option<+T> = None | Some(value: T)

  /** A point in time. Foundation's `Date` is modelled as a whole number of
      time units; only its ordering matters to the application. */
  type Date = int

  /** Foundation's `Date.distantFuture`, the stand-in the order list uses for
      a missing due date. Any fixed value works for the model; it is named so
      that the properties can talk about it. */
  const DistantFuture: Date := 63113904000

  /** Whether the one Core Data request an operation makes succeeds. A fetch
      that throws and a `save()` that throws are both outside the model's
      control, so every operation that performs one takes its outcome as an
      argument. */
  datatype Io = Io(fetchOk: bool, saveOk: bool)
}
