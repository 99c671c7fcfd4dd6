/**
 * Values that flow through the matching script: optional strings (a pandas
 * column entry that may be NaN), errors raised by positional or label access,
 * and the cells of the registry frame.
 */
module Values {

  datatype Option<+T> = None | Some(value: T)

  /** The pandas exceptions the modelled lines can raise. */
  datatype Error =
    | IndexError              // `iloc[0, ...]` on a frame with no rows
    | KeyError(column: string) // `df[column]` for a column label the frame does not have

  datatype Result<+T> = Ok(value: T) | Err(error: Error)

  /** One cell of a frame: missing (NaN/None), a string, or an integer score. */
  datatype Cell = Null | Text(s: string) | Num(n: int)

  /** The string held by a cell, if it holds one. */
  function AsText(c: Cell): (o: Option<string>)
    ensures o.Some? <==> c.Text?
    ensures o.Some? ==> c == Text(o.value)
  {
    if c.Text? then Some(c.s) else None
  }

  /** The cell that stores an optional string: a missing string becomes NaN. */
  function ToCell(o: Option<string>): (c: Cell)
    ensures c.Null? <==> o.None?
    ensures AsText(c) == o
  {
    match o
    case None => Null
    case Some(s) => Text(s)
  }
}
