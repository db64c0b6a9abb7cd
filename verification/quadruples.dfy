/** Quadruples (three-address instructions) and the JavaScript values their
    fields can hold. */
module Quadruples {

  /** A field value: a string, or the `undefined`/`null` that a pop of an
      empty stack, a never-assigned register or a cleared register yields. */
  datatype Val = Undef | Null | Text(s: string)

  /** A quadruple: operator, two operands, result. */
  datatype Quad = Quad(op: Val, arg1: Val, arg2: Val, result: Val)

  /** The placeholder the source writes into unused fields. */
  const Slash: Val := Text("/")

  /** How a field reads when concatenated into a string. */
  function Render(v: Val): string {
    match v
    case Undef => "undefined"
    case Null => "null"
    case Text(s) => s
  }
}
