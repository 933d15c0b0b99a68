/** The per-request execution context: the response being produced and the write-once variable store. */
module Execution {
  import opened Errors
  import opened Strings
  import opened Types
  import opened JsonValues
  import opened Program

  /** The argument of `response.end`: plain text, or an object passed through `JSON.stringify`. */
  datatype ResponseBody = Text(text: string) | JsonText(value: Json)

  /** One call on the HTTP response. */
  datatype ResponseEvent =
    | HeaderSet(name: string, value: string)
    | HeadWritten(status: int)
    | Ended(body: ResponseBody)

  /** The HTTP response, recorded as the sequence of calls made on it. */
  class Response {
    var events: seq<ResponseEvent>

    constructor ()
      ensures events == []
    {
      events := [];
    }

    method SetHeader(name: string, value: string)
      modifies this
      ensures events == old(events) + [HeaderSet(name, value)]
    {
      events := events + [HeaderSet(name, value)];
    }

    method WriteHead(status: int)
      modifies this
      ensures events == old(events) + [HeadWritten(status)]
    {
      events := events + [HeadWritten(status)];
    }

    method End(body: ResponseBody)
      modifies this
      ensures events == old(events) + [Ended(body)]
    {
      events := events + [Ended(body)];
    }
  }

  /** A bound variable: its type and its value. */
  datatype Variable = Variable(typ: Type, value: Value)

  type Variables = map<string, Variable>

  /** The binding of an unbound name; a bound name is an InvalidState. */
  function Bind(vars: Variables, name: string, v: Variable): Result<Variables> {
    if name in vars then Err(InvalidState("reassignment of variable '" + name + "'."))
    else Ok(vars[name := v])
  }

  /** The variable a name is bound to; an unbound name is an InvalidState. */
  function Lookup(vars: Variables, name: string): (r: Result<Variable>)
    ensures r.Ok? <==> name in vars
    ensures r.Ok? ==> r.value == vars[name]
    ensures r.Err? ==> r.error.InvalidState?
  {
    if name in vars then Ok(vars[name]) else Err(InvalidState("cannot resolve variable '" + name + "'."))
  }

  /** Variables are write-once: binding a bound name fails with InvalidState, and a successful
      binding adds exactly that name and changes no other. */
  lemma WriteOnce(vars: Variables, name: string, v: Variable)
    ensures Bind(vars, name, v).Err? <==> name in vars
    ensures Bind(vars, name, v).Err? ==> Bind(vars, name, v).error.InvalidState?
    ensures Bind(vars, name, v).Ok? ==>
      var m := Bind(vars, name, v).value;
      m.Keys == vars.Keys + {name} && m[name] == v && forall k :: k in vars ==> m[k] == vars[k]
  {
  }

  /** A declared variable whose descriptor and literal both convert. */
  predicate Converts(d: VariableDescriptor) {
    FromDescriptor(d.typeDescriptor).Ok? && StringToValue(FromDescriptor(d.typeDescriptor).value, d.literal).Ok?
  }

  /** The variable a convertible declaration binds. */
  function Declared(d: VariableDescriptor): Variable
    requires Converts(d)
  {
    var t := FromDescriptor(d.typeDescriptor).value;
    Variable(t, StringToValue(t, d.literal).value)
  }

  /** The store after seeding `vars` with the declared variables, in order: each is converted
      through its type's `stringToValue` and bound; the first failure is the result. */
  function Seed(vars: Variables, decls: seq<(string, VariableDescriptor)>): Result<Variables>
    decreases |decls|
  {
    if decls == [] then Ok(vars)
    else
      var t :- FromDescriptor(decls[0].1.typeDescriptor);
      var v :- StringToValue(t, decls[0].1.literal);
      var m :- Bind(vars, decls[0].0, Variable(t, v));
      Seed(m, decls[1..])
  }

  /** One seeding step: a convertible declaration of a fresh name is bound before the rest. */
  lemma SeedStep(vars: Variables, decls: seq<(string, VariableDescriptor)>)
    requires decls != [] && decls[0].0 !in vars && Converts(decls[0].1)
    ensures Seed(vars, decls) == Seed(vars[decls[0].0 := Declared(decls[0].1)], decls[1..])
  {
  }

  /** Seeding with distinct, fresh names whose literals all convert binds every declared name
      to its converted value and keeps every earlier binding. */
  lemma {:induction false} SeedBindsAll(vars: Variables, decls: seq<(string, VariableDescriptor)>)
    requires Distinct(NamesOf(decls))
    requires forall i :: 0 <= i < |decls| ==> decls[i].0 !in vars && Converts(decls[i].1)
    ensures Seed(vars, decls).Ok?
    ensures forall k :: k in Seed(vars, decls).value <==> k in vars || k in NamesOf(decls)
    ensures forall k :: k in vars ==> Seed(vars, decls).value[k] == vars[k]
    ensures forall i :: 0 <= i < |decls| ==> Seed(vars, decls).value[decls[i].0] == Declared(decls[i].1)
    decreases |decls|
  {
    if decls != [] {
      var name := decls[0].0;
      var m := vars[name := Declared(decls[0].1)];
      var rest := decls[1..];
      var names := NamesOf(decls);
      assert names == [name] + NamesOf(rest);
      forall i | 0 <= i < |rest| ensures rest[i].0 !in m && Converts(rest[i].1) {
        assert rest[i] == decls[i + 1];
        assert names[0] != names[i + 1];
      }
      assert Distinct(NamesOf(rest)) by {
        forall i, j | 0 <= i < j < |rest| ensures NamesOf(rest)[i] != NamesOf(rest)[j] {
          assert names[i + 1] != names[j + 1];
        }
      }
      SeedStep(vars, decls);
      SeedBindsAll(m, rest);
      forall i | 0 <= i < |decls| ensures Seed(vars, decls).value[decls[i].0] == Declared(decls[i].1) {
        if i > 0 { assert rest[i - 1] == decls[i]; }
      }
    }
  }

  /** The execution context of one request. Module contexts are held by the engine. */
  class ExecutionContext {
    const response: Response
    var variables: Variables

    constructor (response: Response)
      ensures this.response == response && variables == map[]
    {
      this.response := response;
      variables := map[];
    }

    /** `assignVariable`: binds an unbound name, and refuses to rebind a bound one. */
    method AssignVariable(name: string, t: Type, value: Value) returns (r: Outcome)
      modifies this
      ensures r.Err? <==> name in old(variables)
      ensures r.Err? ==> r.error == InvalidState("reassignment of variable '" + name + "'.") && variables == old(variables)
      ensures r.Ok? ==> variables == old(variables)[name := Variable(t, value)]
      ensures r.Ok? ==> r == Done && Bind(old(variables), name, Variable(t, value)) == Ok(variables)
    {
      if name in variables {
        return Err(InvalidState("reassignment of variable '" + name + "'."));
      }
      variables := variables[name := Variable(t, value)];
      return Done;
    }

    /** `getVariable`: the binding of a name, or InvalidState when it is unbound. */
    method GetVariable(name: string) returns (r: Result<Variable>)
      ensures r.Ok? <==> name in variables
      ensures r.Ok? ==> r.value == variables[name]
      ensures r.Err? ==> r.error == InvalidState("cannot resolve variable '" + name + "'.")
      ensures r == Lookup(variables, name)
    {
      if name !in variables {
        return Err(InvalidState("cannot resolve variable '" + name + "'."));
      }
      return Ok(variables[name]);
    }
  }
}
