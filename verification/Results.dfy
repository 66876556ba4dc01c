/** How a call of the Go program ends. */
module Results {
  // With a value, with an error, or with a run-time panic.
  datatype Result<+T> = Done(value: T) | Failed | Panicked
}
