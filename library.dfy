/**
 * The host libraries reachable from scripts: the `Library` trait of
 * src/package/lib.rs with its one implementation `Math` (src/package/math.rs).
 * A library is stateless (`Math` is a unit struct taking `&self`), so the trait
 * becomes a datatype with one constructor per implementation and `call_method`
 * a function of it.
 */
module Libraries {
  import opened Text
  import opened Ast
  import opened Results

  /** The implementations of the `Library` trait. */
  datatype Library = Math

  /** `Math::call_method`: `abs` of a `Double` first argument; every other call is an error. */
  function CallMethod(lib: Library, name: string, args: seq<Expression>): (r: Result<Expression>)
    ensures r.Ok? <==> name == "abs" && |args| > 0 && args[0].Atom? && args[0].atom.Double?
    ensures r.Ok? ==> r.value == Atom(Double(FloatAbs(args[0].atom.float)))
    ensures name == "abs" && r.Err? ==> r.message == "Invalid argument for math.abs"
    ensures name != "abs" ==> r.message == "Function " + name + " not found in math library"
  {
    match lib
    case Math =>
      if name == "abs" then
        if |args| > 0 && args[0].Atom? && args[0].atom.Double? then Ok(Atom(Double(FloatAbs(args[0].atom.float))))
        else Err("Invalid argument for math.abs")
      else Err("Function " + name + " not found in math library")
  }

  /** Only the first argument is looked at: the rest never changes the outcome. */
  lemma ExtraArgumentsIgnored(lib: Library, name: string, args: seq<Expression>, extra: seq<Expression>)
    requires |args| > 0
    ensures CallMethod(lib, name, args + extra) == CallMethod(lib, name, args)
  {
    assert (args + extra)[0] == args[0];
  }

  /** `abs` with no argument at all is the invalid-argument error, not a panic. */
  lemma AbsWithoutArgument(lib: Library)
    ensures CallMethod(lib, "abs", []) == Err("Invalid argument for math.abs")
  {
  }

  /** Integers are not accepted by `abs`: only a `Double` is. */
  lemma AbsRejectsInteger(lib: Library, v: Int64)
    ensures CallMethod(lib, "abs", [Int(v)]).Err?
  {
  }
}
