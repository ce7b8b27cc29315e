/**
 * The variable store of jox/Runtime/Environment.cs: a dictionary from a name
 * to a value. `Define`, `Lookup` and `Update` state the three operations on a
 * plain map; class `Environment` is the mutable dictionary the interpreter
 * updates in place, each method proved to have the effect of its function.
 */
module Environments {
  import opened Wrappers
  import opened Values
  import opened Tokens
  import opened RuntimeErrors

  type Store = map<string, Value>

  /** The message of both `throw`s. */
  function UndefinedMessage(name: string): string {
    "Undefined variable '" + name + "'."
  }

  /** The fault for a name that has no binding, at the token that named it. */
  function Undefined(identifier: Token): RuntimeError {
    RuntimeError(identifier, UndefinedMessage(identifier.lexeme))
  }

  /** `DefineVariable`: binds or rebinds `name`. */
  function Define(values: Store, name: string, value: Value): (r: Store)
    ensures r.Keys == values.Keys + {name}
  {
    values[name := value]
  }

  /** `GetVariableValue`: the binding of the token's lexeme, or the fault. */
  function Lookup(values: Store, identifier: Token): (r: Result<Value>)
    ensures r.Fault? ==> r.error == Undefined(identifier)
  {
    if identifier.lexeme in values then Ok(values[identifier.lexeme]) else Fault(Undefined(identifier))
  }

  /** `AssignVariableValue`: rebinds a name that is bound, or faults. */
  function Update(values: Store, identifier: Token, value: Value): (r: Result<Store>)
    ensures r.Fault? ==> r.error == Undefined(identifier)
    ensures r.Ok? ==> r.value.Keys == values.Keys
  {
    if identifier.lexeme in values then Ok(values[identifier.lexeme := value]) else Fault(Undefined(identifier))
  }

  /** A defined name reads back as the value it was last given. */
  lemma DefineThenLookup(values: Store, name: string, value: Value, identifier: Token)
    requires identifier.lexeme == name
    ensures Lookup(Define(values, name, value), identifier) == Ok(value)
  {
  }

  /** Defining leaves every other binding as it was. */
  lemma DefineKeepsOthers(values: Store, name: string, value: Value, identifier: Token)
    requires identifier.lexeme != name
    ensures Lookup(Define(values, name, value), identifier) == Lookup(values, identifier)
  {
  }

  /** Redefinition: the second definition wins and the first leaves no trace. */
  lemma RedefineOverwrites(values: Store, name: string, first: Value, second: Value)
    ensures Define(Define(values, name, first), name, second) == Define(values, name, second)
  {
  }

  /** A name reads back exactly when it is bound; the line of the token plays no part. */
  lemma LookupByLexeme(values: Store, a: Token, b: Token)
    requires a.lexeme == b.lexeme
    ensures Lookup(values, a).Ok? <==> a.lexeme in values
    ensures Lookup(values, a).Ok? ==> Lookup(values, a) == Lookup(values, b)
  {
  }

  /**
   * Assignment succeeds exactly on a bound name, then rebinds only that name;
   * on an unbound name it creates no binding.
   */
  lemma UpdateOnlyBound(values: Store, identifier: Token, value: Value)
    ensures Update(values, identifier, value).Ok? <==> identifier.lexeme in values
    ensures Update(values, identifier, value).Ok? ==>
      Update(values, identifier, value).value == Define(values, identifier.lexeme, value)
  {
  }

  /** After a successful assignment the name reads back as the assigned value. */
  lemma UpdateThenLookup(values: Store, identifier: Token, value: Value)
    requires identifier.lexeme in values
    ensures Update(values, identifier, value).Ok?
    ensures Lookup(Update(values, identifier, value).value, identifier) == Ok(value)
  {
  }

  class Environment {
    var values: Store

    constructor ()
      ensures values == map[]
    {
      values := map[];
    }

    method DefineVariable(name: string, value: Value)
      modifies this
      ensures values == Define(old(values), name, value)
    {
      values := values[name := value];
    }

    method GetVariableValue(identifier: Token) returns (r: Result<Value>)
      ensures r == Lookup(values, identifier)
    {
      if identifier.lexeme in values {
        return Ok(values[identifier.lexeme]);
      }
      return Fault(RuntimeError(identifier, UndefinedMessage(identifier.lexeme)));
    }

    /** `None` on success; the thrown fault, with the store untouched, otherwise. */
    method AssignVariableValue(identifier: Token, value: Value) returns (fault: Option<RuntimeError>)
      modifies this
      ensures var u := Update(old(values), identifier, value);
        && (u.Ok? <==> fault.None?)
        && (u.Ok? ==> values == u.value)
        && (u.Fault? ==> fault == Some(u.error) && values == old(values))
    {
      if identifier.lexeme in values {
        values := values[identifier.lexeme := value];
        return None;
      }
      return Some(RuntimeError(identifier, UndefinedMessage(identifier.lexeme)));
    }
  }
}
