/** Command tuples: the serialisable arrays the compiler emits, and the decoder
    that reads them back, against which the encoders are proved. */
module CommandTuples {
  import opened JsValues

  /** The arithmetic operators for which encoders are installed. */
  datatype Operator = Plus | Minus | Times | Divide

  function Symbol(op: Operator): string {
    match op
    case Plus => "+"
    case Minus => "-"
    case Times => "*"
    case Divide => "/"
  }

  /** The operator symbols, in the order in which the encoders are installed. */
  const OperatorSymbols: seq<string> := ["+", "-", "*", "/"]

  /** Reads an operator back from its symbol. */
  function ParseOperator(s: string): (r: Option<Operator>)
    ensures r.Some? <==> s in OperatorSymbols
    ensures r.Some? ==> Symbol(r.value) == s
    ensures forall op :: Symbol(op) == s ==> r == Some(op)
  {
    if s == "+" then Some(Plus)
    else if s == "-" then Some(Minus)
    else if s == "*" then Some(Times)
    else if s == "/" then Some(Divide)
    else None
  }

  /** What a command tuple means to the interpreter on the other side. */
  datatype Command =
    | GetCmd(target: JsValue, property: JsValue, cont: JsValue)
    | BinOp(op: Operator, left: JsValue, right: JsValue)

  /** Interprets a value as a command tuple: `['get', id, property, cont]` or
      `[op, a, b]`; anything else is not a command. */
  function Decode(t: JsValue): Option<Command> {
    match t
    case List(items) =>
      if |items| == 4 && items[0] == Str("get") then
        Some(GetCmd(items[1], items[2], items[3]))
      else if |items| == 3 && items[0].Str? && ParseOperator(items[0].s).Some? then
        Some(BinOp(ParseOperator(items[0].s).value, items[1], items[2]))
      else None
    case _ => None
  }

  /** Builds the tuple of a command: four elements led by 'get' whose last is the
      continuation, or three led by the operator symbol; either decodes back to
      the command, so no two commands share a tuple. */
  function Encode(c: Command): (t: JsValue)
    ensures Decode(t) == Some(c)
    ensures c.GetCmd? ==> t.List? && |t.items| == 4 && t.items[0] == Str("get") && t.items[3] == c.cont
    ensures c.BinOp? ==> t.List? && |t.items| == 3 && t.items[0] == Str(Symbol(c.op))
  {
    match c
    case GetCmd(target, property, cont) => List([Str("get"), target, property, cont])
    case BinOp(op, left, right) => List([Str(Symbol(op)), left, right])
  }

  /** The encoder installed for `op`: `op(a, b)` yields `[op, a, b]`, the
      operands passed through as they are, not evaluated. */
  function OperatorCommand(op: Operator, a: JsValue, b: JsValue): (t: JsValue)
    ensures Decode(t) == Some(BinOp(op, a, b))
    ensures t == List([Str(Symbol(op)), a, b])
  {
    Encode(BinOp(op, a, b))
  }
}
