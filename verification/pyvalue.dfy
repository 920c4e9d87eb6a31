/** The dynamically typed Python values the pipeline passes between stages.
    Dictionaries are maps from key to value, so a missing key is a
    `KeyError` exactly where the Python code subscripts it. */
module PyValue {

  /** The values that occur in the pipeline's records: strings, numbers
      (Python ints and floats, modelled as reals) and lists of strings. */
  datatype Value = Str(s: string) | Num(x: real) | StrList(items: seq<string>)

  /** A Python `dict` with string keys. */
  type Dict = map<string, Value>

  /** The exceptions the modelled code can raise. */
  datatype PyError =
    | KeyError(key: string)   // `d[key]` on a dict without `key`
    | IndexError              // a list subscript out of range
    | TypeError               // `str.join` of a non-string, `+` on a non-number
    | ValueError              // `range()` with a zero step
    | OutputNotFound          // the downloader's "Could not determine output filenames"

  /** How an f-string renders a value: a string verbatim, anything else
      through `fmt`, which stands for Python's `str()` of that value
      (float `repr` and list `repr` are not modelled). */
  function Format(v: Value, fmt: Value -> string): (r: string)
    ensures v.Str? ==> r == v.s
  {
    if v.Str? then v.s else fmt(v)
  }
}
