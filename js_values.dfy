/** The JavaScript values that flow through the command compiler, as a closed
    datatype, and JavaScript truthiness over them. */
module JsValues {

  datatype Option<+T> = None | Some(value: T)

  /** A value as the compiler sees it. The host objects are classified once:
      `Window` stands for the window object and the document (an object whose
      `absolute` is 'window' or that is the document itself), `Node` for a DOM
      node (an object with a truthy `nodeType`), `Obj` for any other object. */
  datatype JsValue =
    | Undefined            // undefined or null
    | Str(s: string)
    | Num(n: int)
    | Bool(b: bool)
    | Window
    | Node(ref: nat)
    | Obj(ref: nat)
    | List(items: seq<JsValue>)

  /** JavaScript's `if (v)`: the empty string, 0, false, null and undefined are
      falsy; every object (arrays included) is truthy. */
  predicate Truthy(v: JsValue) {
    match v
    case Undefined => false
    case Str(s) => s != ""
    case Num(n) => n != 0
    case Bool(b) => b
    case _ => true
  }
}
