/**
  Moments of time as the record table stores them (`DateTime(timezone=True)`):
  an absolute instant, totally ordered. Parsing ISO 8601 text into one is not
  part of this model; the record schema receives it as a parameter.
*/
module Time {
  type Timestamp = int
}
