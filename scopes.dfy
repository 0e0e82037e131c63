/**
 * `Scope` of `src/types/scope.rs`: a variable table and an independent function
 * table, each a `RefCell<HashMap>` updated in place. The `Context` of
 * genv/src/999.rs and genv/src/vm/vm.rs has the same two tables and the same
 * set/get operations, so this class models those too.
 */
module Scopes {
  import opened Text
  import opened Ast

  class Scope {
    var variables: map<string, Expression>
    var functions: map<string, Function>

    /** `Scope::new`: both tables empty. */
    constructor ()
      ensures variables == map[] && functions == map[]
    {
      variables := map[];
      functions := map[];
    }

    /** `set_variable`: insert or overwrite one binding; nothing else changes. */
    method SetVariable(name: string, value: Expression)
      modifies this
      ensures variables == old(variables)[name := value]
      ensures functions == old(functions)
    {
      variables := variables[name := value];
    }

    /** `get_variable`: the bound value, or `None` for an unbound name. */
    method GetVariable(name: string) returns (r: Option<Expression>)
      ensures r.Some? <==> name in variables
      ensures r.Some? ==> r.value == variables[name]
    {
      if name in variables {
        r := Some(variables[name]);
      } else {
        r := None;
      }
    }

    /** `variables.borrow_mut().extend(m)`: every binding of `m` is added, overwriting. */
    method ExtendVariables(m: map<string, Expression>)
      modifies this
      ensures variables == old(variables) + m
      ensures functions == old(functions)
    {
      variables := variables + m;
    }

    /** `set_function`: insert or overwrite one function; the variables do not change. */
    method SetFunction(name: string, f: Function)
      modifies this
      ensures functions == old(functions)[name := f]
      ensures variables == old(variables)
    {
      functions := functions[name := f];
    }

    /** `get_function`: the registered function, or `None`. */
    method GetFunction(name: string) returns (r: Option<Function>)
      ensures r.Some? <==> name in functions
      ensures r.Some? ==> r.value == functions[name]
    {
      if name in functions {
        r := Some(functions[name]);
      } else {
        r := None;
      }
    }

    /** The derived `Clone`: a new scope owning copies of both tables. */
    method Clone() returns (c: Scope)
      ensures fresh(c)
      ensures c.variables == variables && c.functions == functions
    {
      c := new Scope();
      c.variables := variables;
      c.functions := functions;
    }
  }

  /** Writing to a clone is not seen by the original: the tables are copies. */
  method CloneIsIndependent(s: Scope, name: string, value: Expression) returns (c: Scope)
    ensures fresh(c)
    ensures c.variables == s.variables[name := value] && c.functions == s.functions
    ensures s.variables == old(s.variables) && s.functions == old(s.functions)
  {
    c := s.Clone();
    c.SetVariable(name, value);
  }

  /** Reading back a binding after writing it, through the methods. */
  method SetThenGet(s: Scope, name: string, other: string, value: Expression)
    returns (got: Option<Expression>, gotOther: Option<Expression>)
    modifies s
    requires other != name
    ensures got == Some(value)
    ensures gotOther == (if other in old(s.variables) then Some(old(s.variables)[other]) else None)
  {
    s.SetVariable(name, value);
    got := s.GetVariable(name);
    gotOther := s.GetVariable(other);
  }
}
