/** The values a field can hold and the three outcomes of a validator. */
module Values {

  /** The Python values the fields store: `str`, `int`, `bool` and the
      list of option names a multi-select field accumulates. */
  datatype Value = Str(s: string) | Int(i: int) | Bool(b: bool) | List(items: seq<string>)

  /** What a per-field validator does with one raw input: return `None`
      (`Skip`), return a value to store (`Accept`), or raise (`Reject`). */
  datatype Verdict = Skip | Accept(v: Value) | Reject(msg: string)

  /** The validator every `ManualField` and every `AutoField` starts with:
      empty text skips, any other text is stored as it is. */
  function KeepNonEmpty(s: string): (r: Verdict)
    ensures r == Skip <==> s == ""
    ensures s != "" ==> r == Accept(Str(s))
  {
    if s != "" then Accept(Str(s)) else Skip
  }
}
