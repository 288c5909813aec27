/**
  Python's conversions of JSON values. How lists, dictionaries and floats are spelled, what a float is
  cut to, whether it is zero, and which texts `int` reads are parameters.
*/
module Conversions {
  import opened Wrappers
  import opened Json
  import opened JsonText

  /** A float without its fraction: `1e999` is infinite. */
  datatype Whole = Finite(n: int) | Infinite | NotANumber

  /** The exceptions of `int`: ValueError, TypeError and OverflowError. */
  datatype NumberError = BadText | BadType | TooLarge

  datatype Python = Python(
    repr: Json -> string,
    truncate: string -> Whole,
    zero: string -> bool,
    parseInt: string -> Option<int>)
  {
    /** `str` */
    function ToStr(v: Json): string {
      match v
      case Str(s) => s
      case Int(n) => PrintInt(n)
      case Bool(b) => if b then "True" else "False"
      case Null => "None"
      case _ => repr(v)
    }

    /** `int` */
    function ToInt(v: Json): Result<int, NumberError> {
      match v
      case Int(n) => Ok(n)
      case Bool(b) => Ok(if b then 1 else 0)
      case Str(s) => if parseInt(s).Some? then Ok(parseInt(s).value) else Err(BadText)
      case Float(text) =>
        (match truncate(text)
         case Finite(n) => Ok(n)
         case Infinite => Err(TooLarge)
         case NotANumber => Err(BadText))
      case _ => Err(BadType)
    }

    /** `not v` */
    predicate Falsy(v: Json) {
      match v
      case Null => true
      case Bool(b) => !b
      case Int(n) => n == 0
      case Float(text) => zero(text)
      case Str(s) => s == ""
      case Arr(items) => items == []
      case Obj(fields) => fields == []
    }
  }
}
