/** The fragment of JavaScript's value semantics that the view's guards rely
    on: the values a guard can see, their truthiness, and the `&&` operator. */
module Js {

  /** JavaScript values as far as the view uses them. Numbers are integers
      here (ids and nothing else), so NaN does not arise. */
  datatype Value = Undefined | Null | Bool(b: bool) | Number(n: int) | Str(s: string)

  /** The abstract operation ToBoolean of ECMA-262 (section 7.1.2), which
      `if (...)` and `? :` apply to their condition: undefined, null, false,
      the number 0 and the empty string are falsy; every other value is truthy. */
  function ToBoolean(v: Value): bool
  {
    match v
    case Undefined => false
    case Null => false
    case Bool(b) => b
    case Number(n) => n != 0
    case Str(s) => |s| > 0
  }

  /** The binary operator `a && b` of ECMA-262: the first operand when it is
      falsy, otherwise the second. */
  function And(a: Value, b: Value): Value
  {
    if ToBoolean(a) then b else a
  }
}
