# Command compiler of the abstract domain

This project models the command set of the abstract domain in
`lib/domains/Abstract.js`. The set compiles property reads and arithmetic into
serialisable command tuples, and it routes property writes to one of two stores.

- `get` resolves the target's identity. A string is its own identity. The
  window or document is `'::window'`. A DOM node gets the identity the registry
  provides. Without a property, the call becomes a global lookup with identity
  `''`, and the object itself becomes the property. A truthy object whose
  property has a local, non-matcher handler is answered by that handler.
  Every other call compiles `['get', id, property, continuation]`. The
  continuation is `continuation || contd || ''`, passed through
  `getContinuation`.
- `set` writes `(scope, property, value)` to the live styling subsystem
  (`intrinsic.restyle`) when one exists, and to the simulated store
  (`assumed.set`) otherwise. `suggest` always hands its whole argument list to
  the simulated store.
- `value` returns its value unchanged. When the value is exported, `value`
  also stores it in the engine's values store. The key is built from fields 1
  and 2 of the continuation string split on `,`.
- The `+ - * /` encoders turn `op(a, b)` into `[op, a, b]`.

Layout:
- `js_values.dfy` (`JsValues`): the values involved, a closed datatype, and
  JavaScript truthiness.
- `command_tuples.dfy` (`CommandTuples`): the tuples, their encoder, and the
  decoder that is its inverse.
- `continuations.dfy` (`Continuations`): the continuation fallback chain, and
  JavaScript's `split(',')` with `Join` as its inverse.
- `get_command.dfy` (`GetCommand`): the `get` command as a pure function.
- `domain.dfy` (`Domain`): `set`, `suggest` and `value` as methods of a class
  whose fields are the stores, and the operator-installing loop as a method of
  the methods prototype.

Behaviour the model keeps exactly as the code has it:
- The exported continuation string is split on `,` and fields 1 and 2 are
  taken by position. Field 0 and any fields after 2 are ignored. A missing
  field reaches `getPath` as `undefined`.
- `suggest` hands its `arguments` object to `assumed.set` as it stands, so the
  store receives every argument of the command, in the order given.
- A `get` with a property whose `object` is neither a string, the window, the
  document nor a node, and for which no local handler answers, compiles a
  tuple whose identity is `undefined`.
- A `get` whose `object` is null or undefined throws a TypeError at the read of
  `object.absolute`. `GetResult.TypeError` models this case.

## Model

| member | source | states |
|---|---|---|
| `CommandTuples.Encode` | lib/domains/Abstract.js:48 | every command tuple decodes back to its command; a get tuple has four elements, starts with `'get'` and ends with the continuation |
| `CommandTuples.ParseOperator` | lib/domains/Abstract.js:83 | exactly the four symbols `+ - * /` are operators; reading a symbol back gives the one operator that has it |
| `CommandTuples.OperatorCommand` | lib/domains/Abstract.js:84-87 | `op(a, b)` is exactly `[op, a, b]` with the operands passed through unevaluated, and it decodes to the binary command |
| `Continuations.ResolveContinuation` | lib/domains/Abstract.js:48 | the primary continuation when it is non-empty, else the fallback; the result is empty only when both are |
| `Continuations.Split` | lib/domains/Abstract.js:71 | one more part than there are commas, no part contains a comma, and joining the parts with commas gives the string back |
| `Continuations.SplitAfterWord` | lib/domains/Abstract.js:71 | a comma-free prefix is glued onto the first part of the split of what follows |
| `Continuations.SplitWordComma` | lib/domains/Abstract.js:71 | a comma-free word followed by a comma is a part of its own |
| `Continuations.SplitJoin` | lib/domains/Abstract.js:71 | the split is the inverse of joining comma-free parts |
| `Continuations.ExportPath` | lib/domains/Abstract.js:71-73 | with no comma both scope and property are undefined; with one comma the scope is a comma-free string and the property undefined; with two or more both are comma-free strings |
| `Continuations.ExportPathOfParts` | lib/domains/Abstract.js:71-74 | for every string, written as comma-free fields joined by commas, the path is field 1 and field 2, each undefined when missing (so `tag,scope` gives `(scope, undefined)`) |
| `Continuations.ExportPathOfFields` | lib/domains/Abstract.js:71-73 | `tag,scope,property` followed by any further fields yields exactly `(scope, property)` |
| `Continuations.ExportPathIgnoresTag` | lib/domains/Abstract.js:71-73 | the field before the first comma never affects the path |
| `GetCommand.Get` | lib/domains/Abstract.js:27-49 | throws only for a null or undefined object; a local handler answers exactly when a property is given, the object is truthy and the handler has no matcher, and it receives the object and the continuation; without a property the result is the global lookup `['get', '', object, cont]`; otherwise it is `['get', id, property, cont]`, where id is the string itself, `'::window'`, the registry's identity of the node, or undefined |
| `Domain.AbstractDomain.Set` | lib/domains/Abstract.js:53-59 | exactly one store receives `(scope, property, value)`: the live styling subsystem when present, else the simulated store |
| `Domain.AbstractDomain.Suggest` | lib/domains/Abstract.js:62-65 | the simulated store receives the argument list, and the live styling subsystem receives nothing |
| `Domain.AbstractDomain.Value` | lib/domains/Abstract.js:68-77 | returns the value unchanged; the values store is untouched unless the value is exported, and then only the entry at `getPath(field 1, field 2)` is set to the value |
| `Domain.MethodsPrototype.InstallOperators` | lib/domains/Abstract.js:83-92 | after loading, each of `+ - * /` is a method whose encoder captured its own symbol, so that `op(a, b)` gives `[op, a, b]`; other members are unchanged |

## Left out

- The `Abstract` constructor (lines 12-17) is not modelled. This covers its `running` check, `compile()` and the call to the base domain constructor, which is not part of this model. The `url` field and the `__extends` helper are also not modelled.
- The identity registry (`identity.provide`) is a function parameter. Because it is not defined here, registry stability and uniqueness are not claimed. `get` calls `provide` for a node even when the property is missing. That registry side effect is not modelled.
- `getContinuation`, the property handlers' code, `engine.getPath`, `intrinsic.restyle` and `assumed.set` are function parameters, or they are logs of the calls they receive. Their behaviour is outside this file.
- How objects are recognised is folded into the closed `JsValue` datatype. This covers the `absolute === 'window'` test, the comparison with `document` and the `nodeType` test.
- The handler's `this` (`prop.call(this, …)`) is not modelled.
- Property names that reach inherited keys of the handler table, such as `constructor`, are not modelled.
- Numbers are integers; floating point is not modelled.
- Non-boolean flags and non-string property and continuation arguments are not modelled: `intrinsic` and `exported` are booleans, and `get`'s `property`, `continuation` and `contd` are strings with `''` standing for every falsy value, although the code accepts any value and tests it for truthiness.
- `Domain.AbstractDomain.Suggest`: does not model the return value that `assumed.set` hands back, because the simulated store is outside this model.
- `Domain.AbstractDomain.Value`: takes the continuation string as a string. The TypeError that `split` throws on a non-string exported argument is not modelled.
