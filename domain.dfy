/** The state-changing part of the command set: `set`, `suggest` and `value`
    act on the stores of the domain they run in, and module loading installs
    the operator encoders on the shared methods prototype. */
module Domain {
  import opened JsValues
  import opened CommandTuples
  import opened Continuations

  /** A domain as its `set`, `suggest` and `value` commands see it. The live
      styling subsystem (`intrinsic`) and the simulated store (`assumed`) are
      represented by the calls they receive; the values store of the engine is
      a map from the path key `getPath(scope, property)` to the stored value. */
  class AbstractDomain {
    const intrinsic: bool
    const getPath: (JsValue, JsValue) -> string
    var restyleCalls: seq<seq<JsValue>>   // argument lists received by intrinsic.restyle
    var assumedCalls: seq<seq<JsValue>>   // argument lists received by assumed.set
    var values: map<string, JsValue>      // engine.values

    constructor (intrinsic: bool, getPath: (JsValue, JsValue) -> string, values: map<string, JsValue>)
      ensures this.intrinsic == intrinsic && this.getPath == getPath && this.values == values
      ensures restyleCalls == [] && assumedCalls == []
    {
      this.intrinsic := intrinsic;
      this.getPath := getPath;
      this.values := values;
      restyleCalls := [];
      assumedCalls := [];
    }

    /** `set.command(operation, continuation, scope, meta, property, value)`:
        exactly one store receives `(scope, property, value)`, the live styling
        subsystem when there is one and the simulated store otherwise. */
    method Set(operation: JsValue, continuation: JsValue, scope: JsValue, meta: JsValue, property: JsValue, value: JsValue)
      modifies this`restyleCalls, this`assumedCalls
      ensures intrinsic ==>
        restyleCalls == old(restyleCalls) + [[scope, property, value]] && assumedCalls == old(assumedCalls)
      ensures !intrinsic ==>
        assumedCalls == old(assumedCalls) + [[scope, property, value]] && restyleCalls == old(restyleCalls)
      ensures |restyleCalls| + |assumedCalls| == old(|restyleCalls| + |assumedCalls|) + 1
    {
      if intrinsic {
        restyleCalls := restyleCalls + [[scope, property, value]];
      } else {
        assumedCalls := assumedCalls + [[scope, property, value]];
      }
    }

    /** `suggest.command(...)`: the whole argument list goes to the simulated
        store, whether or not a live styling subsystem exists. */
    method Suggest(arguments: seq<JsValue>)
      modifies this`assumedCalls
      ensures assumedCalls == old(assumedCalls) + [arguments]
    {
      assumedCalls := assumedCalls + [arguments];
    }

    /** `value(value, continuation, string, exported)`: returns `value`
        unchanged; when exported, stores it at the path made of fields 1 and 2
        of the comma split of `s`, and changes no other entry. */
    method Value(value: JsValue, continuation: JsValue, s: string, exported: bool) returns (r: JsValue)
      modifies this`values
      ensures r == value
      ensures !exported ==> values == old(values)
      ensures exported ==>
        var key := getPath(ExportPath(s).0, ExportPath(s).1);
        key in values && values[key] == value &&
        values.Keys == old(values).Keys + {key} &&
        forall k :: k in old(values) && k != key ==> values[k] == old(values)[k]
    {
      if exported {
        var parts := Split(s);
        var scope := Field(parts, 1);
        var property := Field(parts, 2);
        values := values[getPath(scope, property) := value];
      }
      r := value;
    }
  }

  /** The methods prototype, as far as the operator encoders go: each installed
      method name maps to the operator symbol its encoder captured. */
  class MethodsPrototype {
    var encoders: map<string, string>

    constructor ()
      ensures encoders == map[]
    {
      encoders := map[];
    }

    /** Calls the method `name` on `(a, b)`, if it is an encoder. */
    function Invoke(name: string, a: JsValue, b: JsValue): Option<JsValue>
      reads this
    {
      if name in encoders then Some(List([Str(encoders[name]), a, b])) else None
    }

    /** The module-load loop: for each symbol, an encoder capturing that very
        symbol is attached under its own name; other members stay as they were. */
    method InstallOperators()
      modifies this
      ensures forall name :: name in encoders <==> name in old(encoders) || name in OperatorSymbols
      ensures forall name :: name in encoders ==>
        encoders[name] == if name in OperatorSymbols then name else old(encoders)[name]
      ensures forall op: Operator, a: JsValue, b: JsValue ::
        Invoke(Symbol(op), a, b) == Some(OperatorCommand(op, a, b))
    {
      var i := 0;
      while i < |OperatorSymbols|
        invariant 0 <= i <= |OperatorSymbols|
        invariant forall name :: name in encoders <==> name in old(encoders) || name in OperatorSymbols[..i]
        invariant forall name :: name in encoders ==>
          encoders[name] == if name in OperatorSymbols[..i] then name else old(encoders)[name]
      {
        var op := OperatorSymbols[i];
        assert OperatorSymbols[..i + 1] == OperatorSymbols[..i] + [op];
        encoders := encoders[op := op];
        i := i + 1;
      }
      assert OperatorSymbols[..i] == OperatorSymbols;
      forall op: Operator, a: JsValue, b: JsValue
        ensures Invoke(Symbol(op), a, b) == Some(OperatorCommand(op, a, b))
      {
        assert Symbol(op) in OperatorSymbols;
      }
    }
  }
}
