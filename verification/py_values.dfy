/** The handful of Python 2 values and exceptions the scripts' small
    argument-parsing helpers see. A `str` is a byte string; a list is
    modelled by the strings it holds. */
module PyValues {
  import opened Wrappers

  datatype PyValue =
    | PyNone
    | PyBool(b: bool)
    | PyInt(i: int)
    | PyFloat(f: real)
    | PyStr(s: string)
    | PyList(items: seq<string>)
    | PyOther                      // any other object (a dict, a unicode string, ...)

  /** The exception a helper raises, by its Python class. */
  datatype PyException =
    | ValueError
    | TypeError
    | IndexError
    | KeyError
    | IOError
    | ZeroDivisionError
    | UnboundLocalError
    | PlainException               // `raise Exception(...)`

  /** `ast.literal_eval(v)`: a string is parsed as a Python literal (the
      grammar is the standard library's and is passed in as `parseLiteral`);
      any value that is not a string and not a syntax tree is rejected with
      ValueError ("malformed node or string"). */
  function LiteralEval(v: PyValue, parseLiteral: string -> Result<PyValue, PyException>): (r: Result<PyValue, PyException>)
    ensures v.PyStr? ==> r == parseLiteral(v.s)
    ensures !v.PyStr? ==> r == Err(ValueError)
  {
    match v
    case PyStr(s) => parseLiteral(s)
    case _ => Err(ValueError)
  }
}
