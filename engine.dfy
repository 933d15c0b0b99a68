/** The engine of one request as an object: its module registry filled by `initialize`, the
    statement loop of `execute` with its error response and the finalisation of every module
    context, and the finalisation of every module. */
module Engine {
  import opened Errors
  import opened Strings
  import opened Types
  import opened Program
  import opened Execution
  import opened MysqlSpec
  import opened EngineSpec
  import HttpModule
  import MysqlModule

  /** A module context of the request: the http context works on the execution context alone,
      a MySQL context is an object of its own. */
  datatype Context = HttpContext | MysqlContext(c: MysqlModule.MysqlContext)

  type Contexts = seq<(string, Context)>

  /** The MySQL context objects among the contexts. */
  function Objects(ctxs: Contexts): set<object> {
    set j | 0 <= j < |ctxs| && ctxs[j].1.MysqlContext? :: ctxs[j].1.c
  }

  /** What a context holds, as its specification sees it. */
  function SlotOfContext(ctx: Context): Slot
    reads if ctx.MysqlContext? then {ctx.c} else {}
  {
    match ctx
    case HttpContext => HttpSlot
    case MysqlContext(c) => MysqlSlot(c.pool, c.State())
  }

  /** The contexts as their specification sees them, in order. */
  function SlotsOf(ctxs: Contexts): (slots: Slots)
    reads Objects(ctxs)
    ensures |slots| == |ctxs|
    ensures forall j :: 0 <= j < |ctxs| ==> slots[j] == (ctxs[j].0, SlotOfContext(ctxs[j].1))
  {
    if ctxs == [] then []
    else
      var n := |ctxs| - 1;
      assert Objects(ctxs[..n]) <= Objects(ctxs) by {
        forall j | 0 <= j < n && ctxs[..n][j].1.MysqlContext? ensures ctxs[..n][j].1.c in Objects(ctxs) {
          assert ctxs[..n][j] == ctxs[j];
        }
      }
      var init := SlotsOf(ctxs[..n]);
      var r := init + [(ctxs[n].0, SlotOfContext(ctxs[n].1))];
      assert forall j :: 0 <= j < n ==> ctxs[..n][j] == ctxs[j];

      r
  }

  lemma SlotNames(ctxs: Contexts)
    ensures NamesOf(SlotsOf(ctxs)) == NamesOf(ctxs)
  {
    var a := NamesOf(SlotsOf(ctxs));
    var b := NamesOf(ctxs);
    assert |a| == |b|;
    forall j | 0 <= j < |a| ensures a[j] == b[j] {
      assert SlotsOf(ctxs)[j].0 == ctxs[j].0;
    }
  }

  lemma SlotsOfAppend(ctxs: Contexts, entry: (string, Context))
    ensures SlotsOf(ctxs + [entry]) == SlotsOf(ctxs) + [(entry.0, SlotOfContext(entry.1))]
  {
    assert (ctxs + [entry])[..|ctxs|] == ctxs;
  }

  lemma ObjectsAppend(ctxs: Contexts, entry: (string, Context))
    ensures Objects(ctxs + [entry]) == Objects(ctxs) + if entry.1.MysqlContext? then {entry.1.c} else {}
  {
    var all := ctxs + [entry];
    forall o | o in Objects(ctxs) ensures o in Objects(all) {
      var j :| 0 <= j < |ctxs| && ctxs[j].1.MysqlContext? && ctxs[j].1.c == o;
      assert all[j] == ctxs[j];
    }
    if entry.1.MysqlContext? {
      assert all[|ctxs|] == entry;
    }
  }

  /** The statement loop one statement further: a success extends the run, a failure ends it. */
  lemma RunStep(m0: Machine, stmts: seq<Statement>, i: nat)
    requires i < |stmts| && RunSpec(m0, stmts[..i]).result.Ok?
    ensures var p := RunSpec(m0, stmts[..i]);
      var a := StepSpec(p.machine, stmts[i]);
      (a.result.Ok? ==> RunSpec(m0, stmts[..i + 1]) == After(p.events, a)) &&
      (a.result.Err? ==> RunSpec(m0, stmts) == After(p.events, a))
  {
    RunSpecSteps(m0, stmts[..i]);
    RunSpecSteps(m0, stmts[..i + 1]);
    RunSpecSteps(m0, stmts);
    var p := RunWith(StepSpec, m0, stmts[..i]);
    if StepSpec(p.machine, stmts[i]).result.Err? {
      StopsAtFirstFailure(StepSpec, m0, stmts, i);
    } else {
      RunExtends(StepSpec, m0, stmts, i);
    }
  }

  /** The calls made since `a`, split at a later point `b`. */
  lemma Since<T>(a: seq<T>, b: seq<T>, c: seq<T>)
    requires a <= b <= c
    ensures a <= c && c[|a|..] == b[|a|..] + c[|b|..]
  {
  }

  /** A context that is no object already wired keeps the contexts wired. */
  lemma Extend(ctxs: Contexts, exec: ExecutionContext, entry: (string, Context))
    requires Wired(ctxs, exec)
    requires entry.1.MysqlContext? ==> entry.1.c !in Objects(ctxs) && entry.1.c.exec == exec && entry.1.c.Valid()
    ensures Wired(ctxs + [entry], exec)
  {
    var all := ctxs + [entry];
    forall a, b | 0 <= a < b < |all| && all[a].1.MysqlContext? && all[b].1.MysqlContext?
      ensures all[a].1.c != all[b].1.c
    {
      if b == |ctxs| {
        assert all[a] == ctxs[a] && ctxs[a].1.c in Objects(ctxs);
      }
    }
  }

  /** Distinct MySQL contexts are distinct objects. */
  predicate Separate(ctxs: Contexts) {
    forall a, b :: 0 <= a < b < |ctxs| && ctxs[a].1.MysqlContext? && ctxs[b].1.MysqlContext? ==>
      ctxs[a].1.c != ctxs[b].1.c
  }

  /** Separate MySQL contexts, all working on the same execution context, each keeping its invariant. */
  ghost predicate Wired(ctxs: Contexts, exec: ExecutionContext)
    reads Objects(ctxs)
  {
    Separate(ctxs) &&
    forall j :: 0 <= j < |ctxs| && ctxs[j].1.MysqlContext? ==> ctxs[j].1.c.exec == exec && ctxs[j].1.c.Valid()
  }

  /** When every slot but the one at `k` is still what it was, the contexts' slots are the old ones
      with that one replaced. */
  lemma Replaced(ctxs: Contexts, was: Slots, k: nat)
    requires k < |ctxs| == |was|
    requires forall j :: 0 <= j < |ctxs| && j != k ==> was[j] == (ctxs[j].0, SlotOfContext(ctxs[j].1))
    ensures SlotsOf(ctxs) == was[k := (ctxs[k].0, SlotOfContext(ctxs[k].1))]
  {
    var now := SlotsOf(ctxs);
    var want := was[k := (ctxs[k].0, SlotOfContext(ctxs[k].1))];
    forall j | 0 <= j < |ctxs| ensures now[j] == want[j] {
    }
    assert |now| == |want|;
  }

  class OctopusEngine {
    const program: Program
    /** `this.modules`: the registered modules, in registration order. */
    var modules: Modules

    constructor (program: Program)
      ensures this.program == program && modules == []
    {
      this.program := program;
      modules := [];
    }

    /** `initialize`: registers the http module, then each declared module in order; a name already
        taken or an unknown class stops the registration. */
    method Initialize() returns (r: Outcome)
      modifies this
      ensures InitStep(r, modules) == Instantiate(InitialModules, program.modules)
    {
      var names: set<string> := {"http"};
      modules := InitialModules;
      var descs := program.modules;
      assert descs[0..] == descs;
      for i := 0 to |descs|
        invariant Instantiate(InitialModules, descs) == Instantiate(modules, descs[i..])
        invariant forall k :: k in names <==> k in NamesOf(modules)
      {
        var d := descs[i];
        assert descs[i..][0] == d && descs[i..][1..] == descs[i + 1..];
        if d.name in names {
          return Err(Fault("Error", "redefinition of module '" + d.name + "'."));
        }
        names := names + {d.name};
        var m :- ModuleOf(d);
        assert NamesOf(modules + [(d.name, m)]) == NamesOf(modules) + [d.name];
        modules := modules + [(d.name, m)];
      }
      return Done;
    }

    /** The context each module instantiates, in module order, all on the same execution context. */
    method InstantiateContexts(exec: ExecutionContext) returns (ctxs: Contexts)
      ensures Wired(ctxs, exec) && SlotsOf(ctxs) == InitialSlots(modules) && fresh(Objects(ctxs))
    {
      ctxs := [];
      for i := 0 to |modules|
        invariant |ctxs| == i && Wired(ctxs, exec) && fresh(Objects(ctxs))
        invariant forall j :: 0 <= j < i ==> SlotsOf(ctxs)[j] == (modules[j].0, SlotOf(modules[j].1))
      {
        ctxs := AddContext(exec, ctxs, modules[i]);
      }
      assert |SlotsOf(ctxs)| == |InitialSlots(modules)|;
    }

    /** The contexts extended by the one a module instantiates. */
    static method AddContext(exec: ExecutionContext, ctxs: Contexts, m: (string, Module)) returns (ctxs': Contexts)
      requires Wired(ctxs, exec)
      ensures |ctxs'| == |ctxs| + 1 && ctxs'[..|ctxs|] == ctxs && ctxs'[|ctxs|].0 == m.0
      ensures Wired(ctxs', exec) && SlotsOf(ctxs') == SlotsOf(ctxs) + [(m.0, SlotOf(m.1))]
      ensures fresh(Objects(ctxs') - Objects(ctxs))
    {
      var ctx := InstantiateContext(exec, m.1);
      assert ctx.MysqlContext? ==> ctx.c !in Objects(ctxs);
      SlotsOfAppend(ctxs, (m.0, ctx));
      Extend(ctxs, exec, (m.0, ctx));
      ObjectsAppend(ctxs, (m.0, ctx));
      ctxs' := ctxs + [(m.0, ctx)];
      assert ctxs'[..|ctxs|] == ctxs;
    }

    /** `instantiateModuleContext` of a module: nothing acquired, no transaction open. */
    static method InstantiateContext(exec: ExecutionContext, m: Module) returns (ctx: Context)
      ensures SlotOfContext(ctx) == SlotOf(m)
      ensures ctx.MysqlContext? ==> fresh(ctx.c) && ctx.c.exec == exec && ctx.c.Valid()
    {
      match m
      case Http =>
        ctx := HttpContext;
      case Mysql(pool) =>
        var c := new MysqlModule.MysqlContext(exec, pool);
        ctx := MysqlContext(c);
    }

    /** The seeding of the execution context: each declared variable, in order, converted through
        its type and bound; the first failure escapes. */
    method SeedVariables(exec: ExecutionContext) returns (r: Outcome)
      requires exec.variables == map[]
      modifies exec
      ensures r.Ok? <==> Seed(map[], program.variables).Ok?
      ensures r.Ok? ==> Seed(map[], program.variables) == Ok(exec.variables)
      ensures r.Err? ==> Seed(map[], program.variables) == Err(r.error)
    {
      var decls := program.variables;
      assert decls[0..] == decls;
      for i := 0 to |decls|
        invariant Seed(map[], decls) == Seed(exec.variables, decls[i..])
      {
        var (name, d) := decls[i];
        assert decls[i..][0] == decls[i] && decls[i..][1..] == decls[i + 1..];
        var t :- FromDescriptor(d.typeDescriptor);
        var v :- StringToValue(t, d.literal);
        var bound := exec.AssignVariable(name, t, v);
        if bound.Err? {
          return bound;
        }
      }
      return Done;
    }

    /** One statement, on the context its module name resolves to. */
    method Step(exec: ExecutionContext, ctxs: Contexts, st: Statement) returns (r: Outcome)
      requires Wired(ctxs, exec)
      modifies exec, exec.response, Objects(ctxs)
      ensures Wired(ctxs, exec)
      ensures old(exec.response.events) <= exec.response.events
      ensures Run(r, Machine(exec.variables, SlotsOf(ctxs)), exec.response.events[|old(exec.response.events)|..]) ==
              StepSpec(Machine(old(exec.variables), old(SlotsOf(ctxs))), st)
    {
      SlotNames(ctxs);
      var k := IndexOfName(NamesOf(ctxs), st.moduleName);
      if k < 0 {
        assert exec.response.events[|exec.response.events|..] == [];
        return Err(Fault("Error", "cannot resolve module '" + st.moduleName + "'"));
      }
      r := StepOn(exec, ctxs, k, st.kind);
    }

    /** A statement on the context at `k`: the http context leaves every context as it was, a
        MySQL context takes the state its statement leaves. */
    method StepOn(exec: ExecutionContext, ctxs: Contexts, k: nat, kind: StatementKind) returns (r: Outcome)
      requires k < |ctxs| && Wired(ctxs, exec)
      modifies exec, exec.response, Objects(ctxs)
      ensures Wired(ctxs, exec)
      ensures old(exec.response.events) <= exec.response.events
      ensures var s0 := old(SlotsOf(ctxs));
        match s0[k].1
        case HttpSlot =>
          var h := HttpModule.HttpEffect(old(exec.variables), kind);
          r == h.result && exec.response.events[|old(exec.response.events)|..] == h.events &&
          exec.variables == old(exec.variables) && SlotsOf(ctxs) == s0
        case MysqlSlot(pool, s) =>
          var e := StatementEffect(pool, old(exec.variables), s, kind);
          r == e.result && exec.response.events[|old(exec.response.events)|..] == e.events &&
          exec.variables == e.vars && SlotsOf(ctxs) == s0[k := (ctxs[k].0, MysqlSlot(pool, e.state))]
    {
      ghost var was := SlotsOf(ctxs);
      match ctxs[k].1 {
        case HttpContext =>
          r := HttpModule.ExecuteStatement(exec, kind);
        case MysqlContext(c) =>
          assert c in Objects(ctxs);
          r := c.ExecuteStatement(kind);
      }
      forall j | 0 <= j < |ctxs| && j != k
        ensures was[j] == (ctxs[j].0, SlotOfContext(ctxs[j].1))
        ensures ctxs[j].1.MysqlContext? ==> ctxs[j].1.c.Valid()
      {
        if ctxs[j].1.MysqlContext? {
          assert old(ctxs[j].1.c.Valid());
          assert ctxs[k].1.MysqlContext? ==> ctxs[j].1.c != ctxs[k].1.c;
        }
      }
      Replaced(ctxs, was, k);
    }

    /** The statement loop: strictly in order, stopping at the first failure. */
    method RunStatements(exec: ExecutionContext, ctxs: Contexts) returns (r: Outcome)
      requires Wired(ctxs, exec)
      modifies exec, exec.response, Objects(ctxs)
      ensures Wired(ctxs, exec)
      ensures old(exec.response.events) <= exec.response.events
      ensures Run(r, Machine(exec.variables, SlotsOf(ctxs)), exec.response.events[|old(exec.response.events)|..]) ==
              RunSpec(Machine(old(exec.variables), old(SlotsOf(ctxs))), program.statements)
    {
      ghost var e0 := exec.response.events;
      ghost var m0 := Machine(exec.variables, SlotsOf(ctxs));
      var stmts := program.statements;
      assert stmts[..0] == [] && e0[|e0|..] == [];
      for i := 0 to |stmts|
        invariant Wired(ctxs, exec)
        invariant e0 <= exec.response.events
        invariant RunSpec(m0, stmts[..i]) == Run(Done, Machine(exec.variables, SlotsOf(ctxs)), exec.response.events[|e0|..])
      {
        r := StepRecorded(exec, ctxs, m0, e0, stmts, i);
        if r.Err? {
          return;
        }
      }
      assert stmts[..|stmts|] == stmts;
      return Done;
    }

    /** Statement `i` after the ones before it succeeded: the run so far grows by its effect. */
    method StepRecorded(exec: ExecutionContext, ctxs: Contexts, ghost m0: Machine, ghost e0: seq<ResponseEvent>,
                        stmts: seq<Statement>, i: nat) returns (r: Outcome)
      requires i < |stmts| && Wired(ctxs, exec) && e0 <= exec.response.events
      requires RunSpec(m0, stmts[..i]) == Run(Done, Machine(exec.variables, SlotsOf(ctxs)), exec.response.events[|e0|..])
      modifies exec, exec.response, Objects(ctxs)
      ensures Wired(ctxs, exec) && e0 <= exec.response.events
      ensures var now := Run(r, Machine(exec.variables, SlotsOf(ctxs)), exec.response.events[|e0|..]);
        if r.Ok? then r == Done && RunSpec(m0, stmts[..i + 1]) == now else RunSpec(m0, stmts) == now
    {
      ghost var e1 := exec.response.events;
      r := Step(exec, ctxs, stmts[i]);
      RunStep(m0, stmts, i);
      Since(e0, e1, exec.response.events);
      if r.Ok? {
        assert r.value == ();
      }
    }

    /** The answer to a failure: a BusinessLogic error is its status and a JSON object of status and
        message; any other error is a 500 with the error's text. */
    method Respond(response: Response, e: Error)
      modifies response
      ensures response.events == old(response.events) + EngineSpec.Respond(e)
    {
      if e.BusinessLogic? {
        response.SetHeader("Content-Type", "application/json");
        response.WriteHead(e.status);
        response.End(JsonText(JsonValues.JObject([("status", JsonValues.JNumber(e.status)), ("message", JsonValues.JString(e.message))])));
      } else {
        response.SetHeader("Content-Type", "text/plain");
        response.WriteHead(500);
        response.End(Text(ErrorText(e)));
      }
    }

    /** Every context finalised in order; a failing finalisation does not stop the others. */
    method FinalizeContexts(exec: ExecutionContext, ctxs: Contexts)
      requires Wired(ctxs, exec)
      modifies Objects(ctxs)
      ensures Wired(ctxs, exec)
      ensures SlotsOf(ctxs) == FinalizeSlots(exec.variables, old(SlotsOf(ctxs)))
    {
      ghost var s0 := SlotsOf(ctxs);
      for i := 0 to |ctxs|
        invariant Wired(ctxs, exec)
        invariant forall j :: 0 <= j < i ==> SlotsOf(ctxs)[j] == (s0[j].0, Finalized(exec.variables, s0[j].1))
        invariant forall j :: i <= j < |ctxs| ==> SlotsOf(ctxs)[j] == s0[j]
      {
        FinalizeContext(exec, ctxs, i);
      }
    }

    /** The `finalize` of one context; its failure is only logged. */
    method FinalizeContext(exec: ExecutionContext, ctxs: Contexts, i: nat)
      requires i < |ctxs| && Wired(ctxs, exec)
      modifies Objects(ctxs)
      ensures Wired(ctxs, exec)
      ensures SlotsOf(ctxs) == old(SlotsOf(ctxs))[i := (ctxs[i].0, Finalized(exec.variables, old(SlotsOf(ctxs))[i].1))]
    {
      ghost var was := SlotsOf(ctxs);
      match ctxs[i].1 {
        case HttpContext =>
        case MysqlContext(c) =>
          assert c in Objects(ctxs);
          var failure := c.Finalize();
      }
      forall j | 0 <= j < |ctxs| && j != i
        ensures was[j] == (ctxs[j].0, SlotOfContext(ctxs[j].1))
        ensures ctxs[j].1.MysqlContext? ==> ctxs[j].1.c.Valid()
      {
        if ctxs[j].1.MysqlContext? {
          assert old(ctxs[j].1.c.Valid());
          assert ctxs[i].1.MysqlContext? ==> ctxs[j].1.c != ctxs[i].1.c;
        }
      }
      Replaced(ctxs, was, i);
    }

    /** `execute`: the execution context and its module contexts are built and the variables seeded
        (a seeding failure escapes); the statements run; a failure is answered; then every module
        context is finalised. The final context states are returned for the specification. */
    method Execute(response: Response) returns (r: Outcome, ghost finals: Slots)
      modifies response
      ensures old(response.events) <= response.events
      ensures ExecRun(r, response.events[|old(response.events)|..], finals) == ExecuteSpec(modules, program)
    {
      var exec, ctxs, seeded := Prepare(response);
      if seeded.Err? {
        assert response.events[|response.events|..] == [];
        return seeded, SlotsOf(ctxs);
      }
      r, finals := RunAndFinalize(exec, ctxs);
    }

    /** The execution context on the response, the module contexts on it, and the seeding of the
        variables. */
    method Prepare(response: Response) returns (exec: ExecutionContext, ctxs: Contexts, seeded: Outcome)
      ensures fresh(exec) && fresh(Objects(ctxs)) && exec.response == response
      ensures Wired(ctxs, exec) && SlotsOf(ctxs) == InitialSlots(modules)
      ensures seeded.Ok? <==> Seed(map[], program.variables).Ok?
      ensures seeded.Ok? ==> Seed(map[], program.variables) == Ok(exec.variables)
      ensures seeded.Err? ==> Seed(map[], program.variables) == Err(seeded.error)
    {
      exec := new ExecutionContext(response);
      ctxs := InstantiateContexts(exec);
      assert exec !in Objects(ctxs);
      label seeding:
      seeded := SeedVariables(exec);
      assert unchanged@seeding(Objects(ctxs));
    }

    /** The statements run, a failure answered, then every module context finalised. */
    method RunAndFinalize(exec: ExecutionContext, ctxs: Contexts) returns (r: Outcome, ghost finals: Slots)
      requires Wired(ctxs, exec)
      modifies exec, exec.response, Objects(ctxs)
      ensures old(exec.response.events) <= exec.response.events
      ensures ExecRun(r, exec.response.events[|old(exec.response.events)|..], finals) ==
              Conclude(RunSpec(Machine(old(exec.variables), old(SlotsOf(ctxs))), program.statements))
    {
      ghost var e0 := exec.response.events;
      ghost var run := RunAndAnswer(exec, ctxs);
      ghost var vars := exec.variables;
      ghost var e1 := exec.response.events;
      assert e1[|e0|..] == run.events + Answer(run.result);
      assert vars == run.machine.vars && SlotsOf(ctxs) == run.machine.slots;
      FinalizeContexts(exec, ctxs);
      assert exec.variables == vars && exec.response.events == e1;
      finals := SlotsOf(ctxs);
      return Done, finals;
    }

    /** The statements run and a failure answered. */
    method RunAndAnswer(exec: ExecutionContext, ctxs: Contexts) returns (ghost run: Run)
      requires Wired(ctxs, exec)
      modifies exec, exec.response, Objects(ctxs)
      ensures run == RunSpec(Machine(old(exec.variables), old(SlotsOf(ctxs))), program.statements)
      ensures Wired(ctxs, exec) && old(exec.response.events) <= exec.response.events
      ensures exec.response.events[|old(exec.response.events)|..] == run.events + Answer(run.result)
      ensures exec.variables == run.machine.vars && SlotsOf(ctxs) == run.machine.slots
    {
      ghost var e0 := exec.response.events;
      var outcome := RunStatements(exec, ctxs);
      ghost var e1 := exec.response.events;
      run := Run(outcome, Machine(exec.variables, SlotsOf(ctxs)), e1[|e0|..]);
      if outcome.Err? {
        ghost var slots := SlotsOf(ctxs);
        Respond(exec.response, outcome.error);
        assert SlotsOf(ctxs) == slots;
      }
      Since(e0, e1, exec.response.events);
    }

    /** `finalize`: every registered module finalised in order; the names of those whose pool
        refused to end are logged, and none stops the others. */
    method Finalize() returns (failures: seq<string>)
      ensures failures == EndFailures(modules)
    {
      failures := [];
      for i := 0 to |modules|
        invariant failures == EndFailures(modules[..i])
      {
        assert modules[..i + 1][..i] == modules[..i];
        var (name, m) := modules[i];
        if m.Mysql? && m.pool.endError.Some? {
          failures := failures + [name];
        }
      }
      assert modules[..|modules|] == modules;
    }
  }

  /** `OctopusEngine.execute`: a fresh engine is initialised and, when that succeeded, executes the
      request; its modules are finalised in either case. */
  method Serve(program: Program, response: Response) returns (r: Outcome, ghost finals: Slots, failures: seq<string>)
    modifies response
    ensures old(response.events) <= response.events
    ensures Served(r, response.events[|old(response.events)|..], finals, failures) == ServeSpec(program)
  {
    var engine := new OctopusEngine(program);
    r := engine.Initialize();
    finals := [];
    if r.Ok? {
      r, finals := engine.Execute(response);
    } else {
      assert response.events[|response.events|..] == [];
    }
    failures := engine.Finalize();
  }
}
