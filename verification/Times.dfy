/** Instants of time.Time; the model only compares them. */
module Times {
  type Time = int
  const ZERO_TIME: Time := 0
}
