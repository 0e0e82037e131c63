/**
 * The host object `TA` of src/object/ta.rs: a method table, filled once by the
 * constructor, mapping method names to handler functions. Each handler checks the
 * argument count, then the argument kinds, then calls the typed method.
 */
module Objects {
  import opened Text
  import opened Ast
  import opened Results

  /** The handler functions a `TA` method table can hold. */
  datatype Handler = HandleChange | HandleCci

  class TA {
    var methods: map<string, Handler>

    /** `TA::new`: only `change` is registered (the `cci` insertion is commented out). */
    constructor ()
      ensures methods == map["change" := HandleChange]
    {
      methods := map["change" := HandleChange];
    }
  }

  /** `TA::change`: the value, the input text being ignored. */
  function Change(input: string, value: Int64): Int64 {
    value
  }

  /** `TA::cci`: the value converted to `f64`. */
  function Cci(input: string, value: Int64): Float {
    FloatOfInt(value)
  }

  /** The argument shape both handlers accept: a `String` then an `Integer`. */
  predicate StringThenInteger(args: seq<Expression>)
    requires |args| == 2
  {
    args[0].Atom? && args[0].atom.String? && args[1].Atom? && args[1].atom.Integer?
  }

  /** `handle_change` and `handle_cci`: the count is checked before the kinds. */
  function Handle(h: Handler, args: seq<Expression>): (r: Result<Expression>)
    ensures |args| != 2 ==> r.Err? && r.message == "Invalid number of arguments for ta." + HandlerName(h)
    ensures |args| == 2 && !StringThenInteger(args) ==> r == Err("Invalid arguments for ta." + HandlerName(h))
    ensures r.Ok? <==> |args| == 2 && StringThenInteger(args)
    ensures r.Ok? && h.HandleChange? ==> r.value == Int(args[1].atom.int64)
    ensures r.Ok? && h.HandleCci? ==> r.value == Atom(Double(FloatOfInt(args[1].atom.int64)))
  {
    if |args| == 2 then
      if StringThenInteger(args) then
        match h
        case HandleChange => Ok(Atom(Integer(Change(args[0].atom.text, args[1].atom.int64))))
        case HandleCci => Ok(Atom(Double(Cci(args[0].atom.text, args[1].atom.int64))))
      else Err("Invalid arguments for ta." + HandlerName(h))
    else Err("Invalid number of arguments for ta." + HandlerName(h))
  }

  /** The method name each handler reports in its messages. */
  function HandlerName(h: Handler): string {
    match h
    case HandleChange => "change"
    case HandleCci => "cci"
  }

  /** A fresh `TA` dispatches `change` and nothing else; `change` returns its integer. */
  method NewTaDispatch(name: string, text: string, value: Int64) returns (r: Option<Result<Expression>>)
    ensures r.Some? <==> name == "change"
    ensures r.Some? ==> r.value == Ok(Int(value))
  {
    var ta := new TA();
    if name in ta.methods {
      r := Some(Handle(ta.methods[name], [Atom(String(text)), Int(value)]));
    } else {
      r := None;
    }
  }
}
