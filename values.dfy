/** The Python values the helpers traverse. */
module Values {
  /** A parameter value: a str, any other scalar (int, float, bool, None) carried as
      the text `str()` gives it, a list or tuple, or a dict with string keys. */
  datatype Value =
    | Str(s: string)
    | Scalar(text: string)
    | List(items: seq<Value>)
    | Dict(entries: map<string, Value>)
}
