/** The scalar and tuple values the scripts store in their containers. */
module Values {

  /** A `bool`, an `int`, a `str`, or a tuple of values (which may itself hold tuples). */
  datatype Value = Bool(b: bool) | Int(i: int) | Str(s: string) | Tuple(items: seq<Value>)
}
