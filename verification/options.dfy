/** Missing values.

    Every cell the pipeline reads can be absent: an empty CSV field, a value a
    type coercion could not parse (NaN / NaT), or the fields of a side that a
    left-outer join did not match. All of these are `None` here.
 */
module Options {

  datatype Option<+T> = None | Some(value: T)
}
