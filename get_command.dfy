/** The `get` command: resolves the target identity, short-circuits to a local
    property handler when one applies, and otherwise compiles a remote
    `['get', id, property, continuation]` tuple. */
module GetCommand {
  import opened JsValues
  import opened CommandTuples
  import opened Continuations

  /** The reserved identity of the window (and of the document). */
  const WindowIdentity: string := "::window"

  /** A registered property handler; `matcher` marks a handler that must be
      resolved remotely, `body` names the handler's code. */
  datatype Handler = Handler(matcher: bool, body: nat)

  /** The collaborators the command reads from its `this`: the identity
      registry's `provide`, the property handler table, the handlers' code,
      and `getContinuation`. None of them is defined in this model. */
  datatype Collaborators = Collaborators(
    provide: nat -> string,
    properties: map<string, Handler>,
    call: (Handler, JsValue, JsValue) -> JsValue,
    getContinuation: string -> JsValue)

  /** What a `get` yields: a command tuple for the remote side, the result of
      a local handler, or the TypeError thrown when `object` is null or
      undefined and its `absolute` field is read. */
  datatype GetResult = Remote(command: JsValue) | Local(result: JsValue) | TypeError

  /** The identity of a non-null target: a string is its own identity, the
      window or document is '::window', a DOM node gets the registry's
      identity, and any other value leaves the identity undefined. */
  function TargetIdentity(obj: JsValue, provide: nat -> string): JsValue {
    match obj
    case Str(_) => obj
    case Window => Str(WindowIdentity)
    case Node(n) => Str(provide(n))
    case _ => Undefined
  }

  /** A local handler answers the call: the object is truthy and the property
      has a handler without a matcher. */
  predicate HasLocalHandler(c: Collaborators, obj: JsValue, property: string) {
    Truthy(obj) && property in c.properties && !c.properties[property].matcher
  }

  /** The continuation passed on by `get`. */
  function GetContinuation(c: Collaborators, continuation: string, contd: string): JsValue {
    c.getContinuation(ResolveContinuation(continuation, contd))
  }

  /** `get.command(operation, continuation, scope, meta, object, property, contd)`;
      the `object` argument is `obj` here;
      `operation`, `scope` and `meta` are not read, and `property` is '' when it
      is missing. */
  function Get(c: Collaborators, continuation: string, obj: JsValue, property: string, contd: string): (r: GetResult)
    // only a null or undefined object throws
    ensures r.TypeError? <==> obj == Undefined
    // a local handler answers exactly when a property is given, the object is
    // truthy and the handler is not a matcher; it gets the object and the continuation
    ensures r.Local? <==> property != "" && HasLocalHandler(c, obj, property)
    ensures r.Local? ==>
      r.result == c.call(c.properties[property], obj, GetContinuation(c, continuation, contd))
    // without a property it is a global lookup of the object itself, identity ''
    ensures property == "" && obj != Undefined ==>
      r.Remote? && Decode(r.command) == Some(GetCmd(Str(""), obj, GetContinuation(c, continuation, contd)))
    // with a property and no local handler, a lookup of that property on the target
    ensures property != "" && obj != Undefined && !HasLocalHandler(c, obj, property) ==>
      r.Remote? && Decode(r.command) == Some(GetCmd(TargetIdentity(obj, c.provide), Str(property), GetContinuation(c, continuation, contd)))
    // the target identity of an object-scoped lookup
    ensures r.Remote? && property != "" && obj.Str? ==> r.command.items[1] == obj
    ensures r.Remote? && property != "" && obj == Window ==> r.command.items[1] == Str(WindowIdentity)
    ensures r.Remote? && property != "" && obj.Node? ==> r.command.items[1] == Str(c.provide(obj.ref))
    ensures r.Remote? && property != "" && !(obj.Str? || obj == Window || obj.Node?) ==> r.command.items[1] == Undefined
    // every remote result is a four-element 'get' tuple ending in the continuation
    ensures r.Remote? ==>
      r.command.List? && |r.command.items| == 4 && r.command.items[0] == Str("get") &&
      r.command.items[3] == GetContinuation(c, continuation, contd)
  {
    if obj == Undefined then TypeError
    else
      var id := TargetIdentity(obj, c.provide);
      var cont := GetContinuation(c, continuation, contd);
      if property == "" then
        Remote(Encode(GetCmd(Str(""), obj, cont)))
      else if HasLocalHandler(c, obj, property) then
        Local(c.call(c.properties[property], obj, cont))
      else
        Remote(Encode(GetCmd(id, Str(property), cont)))
  }
}
