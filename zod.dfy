/** The part of the zod schema library (version 3) the validators rely on: a request
    field as the parser receives it, the issues a failed check reports, and
    the two number rules the validators share. Every check of a string or a
    number runs and reports its own issue; a value of the wrong type reports
    one type issue and no further checks. */
module Zod {
  import opened Wrappers

  /** A field of a parsed JSON body or query: absent, a string, a number, or
      anything else (boolean, null, array, object). */
  datatype Value = Missing | Str(s: string) | Num(n: real) | Other

  /** The zod issue codes the schemas here can raise. */
  datatype IssueCode = InvalidType | TooSmall | TooBig | InvalidString | InvalidEnumValue

  /** One failed check: the field, the code, and the custom message when the
      schema gives one. */
  datatype Issue = Issue(path: string, code: IssueCode, message: Option<string>)

  /** The issue a check reports when it fails, or none. */
  function Check(ok: bool, path: string, code: IssueCode, message: Option<string>): (r: seq<Issue>)
    ensures r == [] <==> ok
  {
    if ok then [] else [Issue(path, code, message)]
  }

  predicate IsInteger(x: real) {
    x.Floor as real == x
  }

  /** `z.number().int().min(0, message)`. */
  function NonNegativeInt(path: string, v: Value, message: string): (r: Result<int, seq<Issue>>)
    ensures r.Ok? <==> v.Num? && IsInteger(v.n) && v.n >= 0.0
    ensures r.Ok? ==> r.value >= 0 && r.value as real == v.n
    ensures v.Num? && v.n < 0.0 ==> r.Err? && Issue(path, TooSmall, Some(message)) in r.error
  {
    match v
    case Num(x) =>
      var issues := Check(IsInteger(x), path, InvalidType, None) + Check(x >= 0.0, path, TooSmall, Some(message));
      if issues == [] then Ok(x.Floor) else Err(issues)
    case _ => Err([Issue(path, InvalidType, None)])
  }
}
