/** A value that may be absent: a missing (NaN) cell of the fish table, or the
    mean of a column that has no numeric value at all. */
module Options {

  datatype Option<+T> = None | Some(value: T)
}
