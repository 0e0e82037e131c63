/**
 * The `VM` of the `genv` calculator (genv/src/ast/vm.rs): tokenize, parse, evaluate
 * on the one engine it owns. A parse error panics through `expect`; so does a
 * number too large for `i32`, inside the tokenizer. Whatever follows the last
 * token is dropped.
 */
module GenvVm {
  import opened Text
  import opened Results
  import opened GenvLexer
  import opened GenvParser
  import opened GenvEngine

  /** The panic message of `expect("Failed to parse tokens")` on the parser's error. */
  function ParsePanic(message: string): string {
    "Failed to parse tokens: \"" + message + "\""
  }

  /** `execute(script)` on an engine whose table is `vars`. */
  function ExecuteScript(script: string, vars: Vars): (r: Run)
    ensures vars.Keys <= r.vars.Keys
    ensures Tokenize(script).Panics? ==> r == Run(Some(Tokenize(script).message), vars)
    ensures Tokenize(script).Lexed? && Parse(Tokenize(script).value).Err? ==>
      r == Run(Some(ParsePanic(Parse(Tokenize(script).value).message)), vars)
    ensures Tokenize(script).Lexed? && Parse(Tokenize(script).value).Ok? ==>
      r == EvaluateFrom(Parse(Tokenize(script).value).value, 0, vars)
  {
    var lexed := Tokenize(script);
    if lexed.Panics? then Run(Some(lexed.message), vars)
    else
      match Parse(lexed.value)
      case Err(m) => Run(Some(ParsePanic(m)), vars)
      case Ok(exprs) => EvaluateFrom(exprs, 0, vars)
  }

  class VM {
    var engine: Engine

    /** `VM::new`: a fresh engine with no variables. */
    constructor ()
      ensures fresh(engine) && engine.variables == map[]
    {
      engine := new Engine();
    }

    /** `execute`: the engine's table afterwards is what the script leaves in it. */
    method Execute(script: string) returns (panic: Option<string>)
      modifies engine
      ensures Run(panic, engine.variables) == ExecuteScript(script, old(engine.variables))
    {
      var lexed := Tokenize(script);
      if lexed.Panics? {
        return Some(lexed.message);
      }
      var exprs := ParseTokens(lexed.value);
      if exprs.Err? {
        return Some(ParsePanic(exprs.message));
      }
      panic := engine.Evaluate(exprs.value);
    }

    /** `get_variable`, delegated to the engine. */
    method GetVariable(name: string) returns (r: Option<Int32>)
      ensures r.Some? <==> name in engine.variables
      ensures r.Some? ==> r.value == engine.variables[name]
    {
      r := engine.GetVariable(name);
    }
  }
}
