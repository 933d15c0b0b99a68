/** The engine of one request, specified as functions: module instantiation, the statement run,
    the error response, and the finalisation of module contexts and modules. */
module EngineSpec {
  import opened Errors
  import opened Strings
  import opened JsonValues
  import opened Driver
  import opened Program
  import opened Execution
  import opened HttpModule
  import opened MysqlSpec

  /** An instantiated module: the built-in http module, or a MySQL module with its pool. */
  datatype Module = Http | Mysql(pool: Pool)

  type Modules = seq<(string, Module)>

  /** `this.modules` before the descriptors are read: the http module alone. */
  const InitialModules: Modules := [("http", Http)]

  function ModuleNames(descs: seq<ModuleDescriptor>): (names: seq<string>)
    ensures |names| == |descs| && forall j :: 0 <= j < |descs| ==> names[j] == descs[j].name
  {
    if descs == [] then [] else [descs[0].name] + ModuleNames(descs[1..])
  }

  datatype InitStep = InitStep(result: Outcome, modules: Modules)

  /** `initialize` from the modules already registered: each descriptor in order is refused when its
      name is taken, and otherwise instantiated by class; the modules registered before a failure
      stay registered. */
  function Instantiate(acc: Modules, descs: seq<ModuleDescriptor>): InitStep
    decreases |descs|
  {
    if descs == [] then InitStep(Done, acc)
    else if descs[0].name in NamesOf(acc) then
      InitStep(Err(Fault("Error", "redefinition of module '" + descs[0].name + "'.")), acc)
    else
      match ModuleOf(descs[0])
      case Err(e) => InitStep(Err(e), acc)
      case Ok(m) => Instantiate(acc + [(descs[0].name, m)], descs[1..])
  }

  /** `instantiateModule`: the "mysql" class is the only one. The refusal of any other class names
      a variable `moduleName` that is not in scope, so building its message throws instead. */
  function ModuleOf(d: ModuleDescriptor): (r: Result<Module>)
    ensures r.Ok? <==> d.className == "mysql"
    ensures r.Ok? ==> r.value == Mysql(d.pool)
    ensures r.Err? ==> r.error == Fault("ReferenceError", "moduleName is not defined")
  {
    if d.className == "mysql" then Ok(Mysql(d.pool))
    else Err(Fault("ReferenceError", "moduleName is not defined"))
  }

  /** Adding a name not yet present keeps the names distinct. */
  lemma DistinctAppend(acc: Modules, entry: (string, Module))
    requires Distinct(NamesOf(acc)) && entry.0 !in NamesOf(acc)
    ensures NamesOf(acc + [entry]) == NamesOf(acc) + [entry.0]
    ensures Distinct(NamesOf(acc + [entry]))
  {
    var acc' := acc + [entry];
    assert NamesOf(acc') == NamesOf(acc) + [entry.0];
    forall a, b | 0 <= a < b < |acc'| ensures NamesOf(acc')[a] != NamesOf(acc')[b] {
      if b == |acc| { assert NamesOf(acc)[a] in NamesOf(acc); }
    }
  }

  /** Initialisation never unregisters a module, and registered names stay distinct. */
  lemma {:induction false} InstantiateKeepsPrefix(acc: Modules, descs: seq<ModuleDescriptor>)
    requires Distinct(NamesOf(acc))
    ensures acc <= Instantiate(acc, descs).modules && Distinct(NamesOf(Instantiate(acc, descs).modules))
    decreases |descs|
  {
    if descs != [] && descs[0].name !in NamesOf(acc) && descs[0].className == "mysql" {
      var acc' := acc + [(descs[0].name, Mysql(descs[0].pool))];
      DistinctAppend(acc, (descs[0].name, Mysql(descs[0].pool)));
      InstantiateKeepsPrefix(acc', descs[1..]);
    }
  }

  /** Initialisation succeeds exactly when all module names (those already registered included)
      are distinct and every class is "mysql". */
  lemma {:induction false} InstantiateOkIff(acc: Modules, descs: seq<ModuleDescriptor>)
    requires Distinct(NamesOf(acc))
    ensures Instantiate(acc, descs).result.Ok? <==>
      Distinct(NamesOf(acc) + ModuleNames(descs)) && forall j :: 0 <= j < |descs| ==> descs[j].className == "mysql"
    decreases |descs|
  {
    if descs == [] {
      assert NamesOf(acc) + ModuleNames(descs) == NamesOf(acc);
    } else {
      var d := descs[0];
      var rest := descs[1..];
      var names := NamesOf(acc) + ModuleNames(descs);
      assert ModuleNames(descs) == [d.name] + ModuleNames(rest);
      assert names == (NamesOf(acc) + [d.name]) + ModuleNames(rest);
      if d.name in NamesOf(acc) {
        RepeatedNotDistinct(NamesOf(acc), d.name, ModuleNames(rest));
      } else if d.className != "mysql" {
        assert Instantiate(acc, descs).result.Err?;
      } else {
        var acc' := acc + [(d.name, Mysql(d.pool))];
        assert Instantiate(acc, descs) == Instantiate(acc', rest);
        DistinctAppend(acc, (d.name, Mysql(d.pool)));
        InstantiateOkIff(acc', rest);
        AllMysqlStep(descs);
      }
    }
  }

  /** A name that occurs in `a` occurs twice in `a + [x] + b`. */
  lemma RepeatedNotDistinct(a: seq<string>, x: string, b: seq<string>)
    requires x in a
    ensures !Distinct((a + [x]) + b)
  {
    var k :| 0 <= k < |a| && a[k] == x;
    var names := (a + [x]) + b;
    assert names[k] == x && names[|a|] == x;
  }

  lemma AllMysqlStep(descs: seq<ModuleDescriptor>)
    requires descs != []
    ensures (forall j :: 0 <= j < |descs| ==> descs[j].className == "mysql") <==>
      descs[0].className == "mysql" && forall j :: 0 <= j < |descs[1..]| ==> descs[1..][j].className == "mysql"
  {
    assert forall j :: 0 <= j < |descs[1..]| ==> descs[1..][j] == descs[j + 1];
  }

  /** A successful initialisation registers one MySQL module per descriptor, in order, after the
      modules already registered. */
  lemma {:induction false} InstantiateRegisters(acc: Modules, descs: seq<ModuleDescriptor>)
    requires Instantiate(acc, descs).result.Ok?
    ensures var i := Instantiate(acc, descs);
      |i.modules| == |acc| + |descs| && i.modules[..|acc|] == acc &&
      forall j :: 0 <= j < |descs| ==> i.modules[|acc| + j] == (descs[j].name, Mysql(descs[j].pool))
    decreases |descs|
  {
    if descs != [] {
      var acc' := acc + [(descs[0].name, Mysql(descs[0].pool))];
      var rest := descs[1..];
      InstantiateRegisters(acc', rest);
      var i := Instantiate(acc', rest);
      assert i.modules[..|acc|] == i.modules[..|acc'|][..|acc|];
      forall j | 0 <= j < |descs| ensures i.modules[|acc| + j] == (descs[j].name, Mysql(descs[j].pool)) {
        if j > 0 { assert rest[j - 1] == descs[j]; }
      }
    }
  }

  /** What a module context of the request holds: nothing for http, the context state for MySQL. */
  datatype Slot = HttpSlot | MysqlSlot(pool: Pool, state: MysqlState)

  type Slots = seq<(string, Slot)>

  /** The module contexts of a fresh execution context, one per module, in module order. */
  function InitialSlots(modules: Modules): (slots: Slots)
    ensures |slots| == |modules| && NamesOf(slots) == NamesOf(modules)
    ensures forall j :: 0 <= j < |modules| ==> slots[j].1 == SlotOf(modules[j].1)
  {
    if modules == [] then []
    else
      var n := |modules| - 1;
      assert forall j :: 0 <= j < n ==> modules[..n][j] == modules[j];
      InitialSlots(modules[..n]) + [(modules[n].0, SlotOf(modules[n].1))]
  }

  /** The context a module instantiates: an http context, or a MySQL context with nothing acquired. */
  function SlotOf(m: Module): Slot {
    match m
    case Http => HttpSlot
    case Mysql(pool) => MysqlSlot(pool, Initial)
  }

  /** The variable store and the module contexts while the statements run. */
  datatype Machine = Machine(vars: Variables, slots: Slots)

  /** What a run of statements returned, the machine after it, and the calls it made on the response. */
  datatype Run = Run(result: Outcome, machine: Machine, events: seq<ResponseEvent>)

  /** The index of the first entry named `name`, or -1. */
  function IndexOfName(names: seq<string>, name: string): (k: int)
    ensures -1 <= k < |names|
    ensures k >= 0 ==> names[k] == name && forall j :: 0 <= j < k ==> names[j] != name
    ensures k == -1 <==> name !in names
  {
    if names == [] then -1
    else if names[|names| - 1] == name && name !in names[..|names| - 1] then |names| - 1
    else if name !in names[..|names| - 1] then -1
    else IndexOfName(names[..|names| - 1], name)
  }

  /** One statement: its module context is resolved by name and executes it. */
  function StepSpec(m: Machine, st: Statement): Run {
    var k := IndexOfName(NamesOf(m.slots), st.moduleName);
    if k < 0 then Run(Err(Fault("Error", "cannot resolve module '" + st.moduleName + "'")), m, [])
    else
      match m.slots[k].1
      case HttpSlot =>
        var h := HttpEffect(m.vars, st.kind);
        Run(h.result, m, h.events)
      case MysqlSlot(pool, s) =>
        var e := StatementEffect(pool, m.vars, s, st.kind);
        Run(e.result, Machine(e.vars, m.slots[k := (st.moduleName, MysqlSlot(pool, e.state))]), e.events)
  }

  /** A run preceded by response calls already made. */
  function After(events: seq<ResponseEvent>, r: Run): Run {
    Run(r.result, r.machine, events + r.events)
  }

  lemma AfterEmpty(r: Run)
    ensures After([], r) == r
  {
    assert [] + r.events == r.events;
  }

  lemma AfterAssoc(a: seq<ResponseEvent>, b: seq<ResponseEvent>, r: Run)
    ensures After(a, After(b, r)) == After(a + b, r)
  {
    assert a + (b + r.events) == (a + b) + r.events;
  }

  /** A way of executing one statement on a machine. */
  type Stepper = (Machine, Statement) -> Run

  /** The statement loop over any way of executing one statement: each statement in order,
      stopping at the first failure. */
  function RunWith(step: Stepper, m: Machine, stmts: seq<Statement>): Run
    decreases |stmts|
  {
    if stmts == [] then Run(Done, m, [])
    else
      var a := step(m, stmts[0]);
      if a.result.Err? then a else After(a.events, RunWith(step, a.machine, stmts[1..]))
  }

  /** The statement loop of a request: each statement on the context its module name resolves to. */
  function RunSpec(m: Machine, stmts: seq<Statement>): Run
    decreases |stmts|
  {
    if stmts == [] then Run(Done, m, [])
    else
      var a := StepSpec(m, stmts[0]);
      if a.result.Err? then a else After(a.events, RunSpec(a.machine, stmts[1..]))
  }

  /** The statement loop of a request is the general loop over its step. */
  lemma {:induction false} RunSpecSteps(m: Machine, stmts: seq<Statement>)
    ensures RunSpec(m, stmts) == RunWith(StepSpec, m, stmts)
    decreases |stmts|
  {
    if stmts != [] {
      var a := StepSpec(m, stmts[0]);
      if a.result.Ok? {
        RunSpecSteps(a.machine, stmts[1..]);
      }
    }
  }

  /** A run of statements splits at any point the run reaches without failing. */
  lemma {:induction false} RunPrefix(step: Stepper, m: Machine, stmts: seq<Statement>, k: nat)
    requires k <= |stmts| && RunWith(step, m, stmts[..k]).result.Ok?
    ensures var p := RunWith(step, m, stmts[..k]);
      RunWith(step, m, stmts) == After(p.events, RunWith(step, p.machine, stmts[k..]))
    decreases k
  {
    if k == 0 {
      assert stmts[..0] == [] && stmts[0..] == stmts;
      AfterEmpty(RunWith(step, m, stmts));
    } else {
      var a := step(m, stmts[0]);
      assert stmts[..k][0] == stmts[0] && stmts[..k][1..] == stmts[1..][..k - 1];
      assert a.result.Ok?;
      var p' := RunWith(step, a.machine, stmts[1..][..k - 1]);
      RunPrefix(step, a.machine, stmts[1..], k - 1);
      assert stmts[1..][k - 1..] == stmts[k..];
      AfterAssoc(a.events, p'.events, RunWith(step, p'.machine, stmts[k..]));
    }
  }

  /** Strict order with abort: when the statements before k succeed and statement k fails, the run
      fails with k's error, and no statement after k has any effect. */
  lemma StopsAtFirstFailure(step: Stepper, m: Machine, stmts: seq<Statement>, k: nat)
    requires k < |stmts| && RunWith(step, m, stmts[..k]).result.Ok?
    requires step(RunWith(step, m, stmts[..k]).machine, stmts[k]).result.Err?
    ensures var p := RunWith(step, m, stmts[..k]);
      var f := step(p.machine, stmts[k]);
      RunWith(step, m, stmts) == After(p.events, f) && RunWith(step, m, stmts) == RunWith(step, m, stmts[..k + 1])
  {
    var p := RunWith(step, m, stmts[..k]);
    RunPrefix(step, m, stmts, k);
    assert stmts[k..][0] == stmts[k];
    assert stmts[..k + 1][..k] == stmts[..k];
    RunPrefix(step, m, stmts[..k + 1], k);
    assert stmts[..k + 1][k..] == [stmts[k]];
  }

  /** A successful statement extends the run by its effect. */
  lemma RunExtends(step: Stepper, m: Machine, stmts: seq<Statement>, k: nat)
    requires k < |stmts| && RunWith(step, m, stmts[..k]).result.Ok?
    requires step(RunWith(step, m, stmts[..k]).machine, stmts[k]).result.Ok?
    ensures var p := RunWith(step, m, stmts[..k]);
      RunWith(step, m, stmts[..k + 1]) == After(p.events, step(p.machine, stmts[k]))
  {
    var p := RunWith(step, m, stmts[..k]);
    var a := step(p.machine, stmts[k]);
    assert stmts[..k + 1][..k] == stmts[..k];
    RunPrefix(step, m, stmts[..k + 1], k);
    var last := stmts[..k + 1][k..];
    assert last == [stmts[k]];
    assert last[0] == stmts[k] && last[1..] == [];
    var rest := RunWith(step, a.machine, last[1..]);
    assert rest == Run(Done, a.machine, []);
    assert RunWith(step, p.machine, last) == After(a.events, rest);
    assert a.result.value == () && a.events + [] == a.events;
  }

  /** A run that succeeds ran every statement successfully. */
  lemma {:induction false} OkRunsAll(step: Stepper, m: Machine, stmts: seq<Statement>, k: nat)
    requires k < |stmts| && RunWith(step, m, stmts).result.Ok?
    ensures RunWith(step, m, stmts[..k]).result.Ok?
    ensures step(RunWith(step, m, stmts[..k]).machine, stmts[k]).result.Ok?
    decreases k
  {
    var a := step(m, stmts[0]);
    if k == 0 {
      assert stmts[..0] == [];
    } else {
      assert stmts[1..][..k - 1] == stmts[..k][1..] && stmts[..k][0] == stmts[0];
      assert stmts[1..][k - 1] == stmts[k];
      OkRunsAll(step, a.machine, stmts[1..], k - 1);
    }
  }

  /** The error response: a BusinessLogic error becomes its status and a JSON object of status and
      message; any other error becomes a 500 with the error's text. */
  function Respond(e: Error): (events: seq<ResponseEvent>)
    ensures |events| == 3 && events[0].HeaderSet? && events[0].name == "Content-Type"
    ensures events[1] == HeadWritten(if e.BusinessLogic? then e.status else 500)
    ensures e.BusinessLogic? ==> events[2] == Ended(JsonText(JObject([("status", JNumber(e.status)), ("message", JString(e.message))])))
    ensures !e.BusinessLogic? ==> events[2] == Ended(Text(ErrorText(e)))
  {
    match e
    case BusinessLogic(status, message) =>
      [HeaderSet("Content-Type", "application/json"), HeadWritten(status),
       Ended(JsonText(JObject([("status", JNumber(status)), ("message", JString(message))])))]
    case _ => [HeaderSet("Content-Type", "text/plain"), HeadWritten(500), Ended(Text(ErrorText(e)))]
  }

  /** Every module context finalised, each independently of the others' outcomes. */
  function FinalizeSlots(vars: Variables, slots: Slots): (r: Slots)
    ensures |r| == |slots|
    ensures forall j :: 0 <= j < |slots| ==> r[j] == (slots[j].0, Finalized(vars, slots[j].1))
  {
    if slots == [] then []
    else
      var n := |slots| - 1;
      assert forall j :: 0 <= j < n ==> slots[..n][j] == slots[j];
      FinalizeSlots(vars, slots[..n]) + [(slots[n].0, Finalized(vars, slots[n].1))]
  }

  /** A module context after its `finalize`: a MySQL context takes the state its finalisation leaves. */
  function Finalized(vars: Variables, slot: Slot): Slot {
    match slot
    case HttpSlot => HttpSlot
    case MysqlSlot(pool, s) => MysqlSlot(pool, FinalizeEffect(pool, vars, s).state)
  }

  /** The outcome `execute` lets escape, the calls it made on the response, and its module contexts at the end. */
  datatype ExecRun = ExecRun(result: Outcome, events: seq<ResponseEvent>, slots: Slots)

  /** `execute` as evidently intended: the contexts are created and the variables seeded (a seeding
      failure escapes); the statements run; a failure is answered; then every context is finalised. */
  function ExecuteSpec(modules: Modules, program: Program): ExecRun {
    var initial := InitialSlots(modules);
    match Seed(map[], program.variables)
    case Err(e) => ExecRun(Err(e), [], initial)
    case Ok(vars) => Conclude(RunSpec(Machine(vars, initial), program.statements))
  }

  /** The end of `execute` once the statements ran: a failure is answered, then every module
      context is finalised. */
  function Conclude(run: Run): ExecRun {
    ExecRun(Done, run.events + Answer(run.result), FinalizeSlots(run.machine.vars, run.machine.slots))
  }

  /** The response calls that answer the statements' outcome: none for success. */
  function Answer(result: Outcome): seq<ResponseEvent> {
    if result.Err? then Respond(result.error) else []
  }

  /** `execute` as written: the BusinessLogic answer returns from the method before the contexts are
      finalised. */
  function ExecuteSpecAsWritten(modules: Modules, program: Program): ExecRun {
    var initial := InitialSlots(modules);
    match Seed(map[], program.variables)
    case Err(e) => ExecRun(Err(e), [], initial)
    case Ok(vars) => ConcludeAsWritten(RunSpec(Machine(vars, initial), program.statements))
  }

  /** The end of `execute` as written: a BusinessLogic failure is answered and nothing is finalised. */
  function ConcludeAsWritten(run: Run): ExecRun {
    if run.result.Err? && run.result.error.BusinessLogic? then
      ExecRun(Done, run.events + Respond(run.result.error), run.machine.slots)
    else Conclude(run)
  }

  /** The names of the modules whose `finalize` fails: the MySQL modules whose pool refuses to end. */
  function EndFailures(modules: Modules): (failed: seq<string>)
    ensures forall k :: k in failed <==> (exists j :: 0 <= j < |modules| && modules[j].0 == k && EndFails(modules[j].1))
  {
    if modules == [] then []
    else
      var n := |modules| - 1;
      var rest := EndFailures(modules[..n]);
      assert forall j :: 0 <= j < n ==> modules[..n][j] == modules[j];
      if EndFails(modules[n].1) then rest + [modules[n].0] else rest
  }

  /** Whether a module's `finalize` fails: a MySQL pool that refuses to end. */
  predicate EndFails(m: Module) {
    m.Mysql? && m.pool.endError.Some?
  }

  /** A whole request: what escapes, the response calls, the final module contexts (none when
      initialisation failed), and the modules whose finalisation failed. */
  datatype Served = Served(result: Outcome, events: seq<ResponseEvent>, slots: Slots, endFailures: seq<string>)

  /** `OctopusEngine.execute`: initialise, execute when initialisation succeeded, and finalise every
      registered module in either case. */
  function ServeSpec(program: Program): Served {
    var init := Instantiate(InitialModules, program.modules);
    if init.result.Err? then Served(init.result, [], [], EndFailures(init.modules))
    else
      var x := ExecuteSpec(init.modules, program);
      Served(x.result, x.events, x.slots, EndFailures(init.modules))
  }

  // ---------------------------------------------------------------------------------------------
  // Properties of a request

  /** Every MySQL context keeps its invariant. */
  predicate SlotsInv(slots: Slots) {
    forall j :: 0 <= j < |slots| && slots[j].1.MysqlSlot? ==> Inv(slots[j].1.state)
  }

  /** A statement keeps the module contexts' names and kinds, and their invariants. */
  lemma StepPreservesInv(m: Machine, st: Statement)
    requires SlotsInv(m.slots)
    ensures var a := StepSpec(m, st);
      NamesOf(a.machine.slots) == NamesOf(m.slots) && SlotsInv(a.machine.slots) &&
      forall j :: 0 <= j < |m.slots| ==> a.machine.slots[j].1.MysqlSlot? == m.slots[j].1.MysqlSlot?
  {
    var k := IndexOfName(NamesOf(m.slots), st.moduleName);
    if k >= 0 && m.slots[k].1.MysqlSlot? {
      var pool := m.slots[k].1.pool;
      var e := StatementEffect(pool, m.vars, m.slots[k].1.state, st.kind);
      StatementPreservesInv(pool, m.vars, m.slots[k].1.state, st.kind);
      SlotReplaced(m.slots, k, st.moduleName, MysqlSlot(pool, e.state));
    }
  }

  /** Replacing the slot at `k` under its own name keeps the names, and which slots are MySQL ones
      when the new one is. */
  lemma SlotReplaced(slots: Slots, k: nat, name: string, slot: Slot)
    requires k < |slots| && slots[k].0 == name && slots[k].1.MysqlSlot? && slot.MysqlSlot?
    ensures var r := slots[k := (name, slot)];
      NamesOf(r) == NamesOf(slots) &&
      forall j :: 0 <= j < |slots| ==> r[j].1.MysqlSlot? == slots[j].1.MysqlSlot?
  {
    var r := slots[k := (name, slot)];
    assert |NamesOf(r)| == |NamesOf(slots)|;
    forall j | 0 <= j < |slots| ensures NamesOf(r)[j] == NamesOf(slots)[j] {
    }
  }

  /** A run of statements keeps the module contexts' names and kinds, and their invariants. */
  lemma {:induction false} RunPreservesInv(m: Machine, stmts: seq<Statement>)
    requires SlotsInv(m.slots)
    ensures var r := RunSpec(m, stmts);
      NamesOf(r.machine.slots) == NamesOf(m.slots) && SlotsInv(r.machine.slots) &&
      forall j :: 0 <= j < |m.slots| ==> r.machine.slots[j].1.MysqlSlot? == m.slots[j].1.MysqlSlot?
    decreases |stmts|
  {
    if stmts != [] {
      StepPreservesInv(m, stmts[0]);
      var a := StepSpec(m, stmts[0]);
      if a.result.Ok? {
        RunPreservesInv(a.machine, stmts[1..]);
      }
    }
  }

  /** A finalised context: a MySQL context keeps its invariant, and unless its transaction is
      still open it has released exactly the connection it acquired. */
  predicate Settled(slot: Slot) {
    slot.MysqlSlot? ==> Inv(slot.state) && (!slot.state.inTx ==> (slot.state.released <==> slot.state.acquired))
  }

  /** Finalising contexts that keep their invariant settles every one of them. */
  lemma FinalizeSettles(vars: Variables, slots: Slots)
    requires SlotsInv(slots)
    ensures forall j :: 0 <= j < |slots| ==> Settled(FinalizeSlots(vars, slots)[j].1)
  {
    forall j | 0 <= j < |slots| ensures Settled(FinalizeSlots(vars, slots)[j].1) {
      if slots[j].1.MysqlSlot? {
        FinalizeGuard(slots[j].1.pool, vars, slots[j].1.state);
      }
    }
  }

  /** After `execute` (as intended), every MySQL context has been finalised: one whose transaction
      is still open was rolled back and kept its connection, and every other one holds no connection
      that is not released. This holds whatever the statements did, a BusinessLogic failure included. */
  lemma ExecuteReleasesConnections(modules: Modules, program: Program)
    requires Seed(map[], program.variables).Ok?
    ensures var x := ExecuteSpec(modules, program);
      x.result == Done && NamesOf(x.slots) == NamesOf(modules) &&
      forall j :: 0 <= j < |modules| ==> (modules[j].1.Mysql? <==> x.slots[j].1.MysqlSlot?) && Settled(x.slots[j].1)
  {
    var vars := Seed(map[], program.variables).value;
    var initial := InitialSlots(modules);
    var m := Machine(vars, initial);
    InitialSlotsInv(modules);
    RunPreservesInv(m, program.statements);
    var run := RunSpec(m, program.statements);
    ConcludeSettles(run);
    var x := ExecuteSpec(modules, program);
    assert x == Conclude(run);
    assert |run.machine.slots| == |modules| by {
      assert |NamesOf(run.machine.slots)| == |NamesOf(initial)|;
    }
    forall j | 0 <= j < |modules|
      ensures (modules[j].1.Mysql? <==> x.slots[j].1.MysqlSlot?) && Settled(x.slots[j].1)
    {
      assert modules[j].1.Mysql? <==> initial[j].1.MysqlSlot?;
    }
  }

  /** Fresh module contexts keep their invariant. */
  lemma InitialSlotsInv(modules: Modules)
    ensures SlotsInv(InitialSlots(modules))
    ensures forall j :: 0 <= j < |modules| ==> (modules[j].1.Mysql? <==> InitialSlots(modules)[j].1.MysqlSlot?)
  {
  }

  /** Concluding a run whose contexts keep their invariant settles every context and keeps their
      names and kinds. */
  lemma ConcludeSettles(run: Run)
    requires SlotsInv(run.machine.slots)
    ensures var x := Conclude(run);
      x.result == Done && NamesOf(x.slots) == NamesOf(run.machine.slots) &&
      forall j :: 0 <= j < |run.machine.slots| ==>
        (run.machine.slots[j].1.MysqlSlot? <==> x.slots[j].1.MysqlSlot?) && Settled(x.slots[j].1)
  {
    FinalizeSettles(run.machine.vars, run.machine.slots);
  }

  /** As written, a BusinessLogic failure answers the request and skips the finalisation of every
      module context; as intended, the same failure is answered the same way and every context is
      finalised. */
  lemma BusinessLogicSkipsFinalizeAsWritten(modules: Modules, program: Program)
    requires Seed(map[], program.variables).Ok?
    requires var run := RunSpec(Machine(Seed(map[], program.variables).value, InitialSlots(modules)), program.statements);
      run.result.Err? && run.result.error.BusinessLogic?
    ensures var run := RunSpec(Machine(Seed(map[], program.variables).value, InitialSlots(modules)), program.statements);
      ExecuteSpecAsWritten(modules, program).slots == run.machine.slots &&
      ExecuteSpec(modules, program).slots == FinalizeSlots(run.machine.vars, run.machine.slots) &&
      ExecuteSpecAsWritten(modules, program).events == ExecuteSpec(modules, program).events
  {
  }

  /** With any other outcome, the code as written and as intended agree. */
  lemma ExecuteAsWrittenOtherwiseAgrees(modules: Modules, program: Program)
    requires Seed(map[], program.variables).Ok? ==>
      var run := RunSpec(Machine(Seed(map[], program.variables).value, InitialSlots(modules)), program.statements);
      !(run.result.Err? && run.result.error.BusinessLogic?)
    ensures ExecuteSpecAsWritten(modules, program) == ExecuteSpec(modules, program)
  {
  }

  /** A pool whose every query returns the single row ("taken") under the column "message". */
  function ConflictPool(): Pool {
    Pool(None, (log: seq<string>, sql: string) => Rows(ResultSetData(["message"], [["taken"]], 0, 0)),
         (x: string) => x, None)
  }

  /** On the conflict pool, START TRANSACTION acquires the connection and opens the transaction. */
  lemma ConflictStart()
    ensures StatementEffect(ConflictPool(), map[], Initial, StartTransaction) ==
      Effect(Done, MysqlState(true, ["START TRANSACTION"], true, false), map[], [])
  {
    var pool := ConflictPool();
    AssembleKeyword(map[], pool.escape, "START TRANSACTION");
    var s0 := MysqlState(true, ["START TRANSACTION"], false, false);
    assert RunQuery(pool, map[], Initial, ["START TRANSACTION"]) ==
      QueryStep(Ok(ResultSetData(["message"], [["taken"]], 0, 0)), s0);
  }

  /** On the conflict pool, a CHECK inside the transaction finds a row, rolls back, closes the
      transaction and fails with 409. */
  lemma ConflictCheck()
    ensures StatementEffect(ConflictPool(), map[], MysqlState(true, ["START TRANSACTION"], true, false), Check(["SELECT 1"], None)) ==
      Effect(Err(BusinessLogic(409, "taken")), MysqlState(true, ["START TRANSACTION", "SELECT 1", "ROLLBACK"], false, false), map[], [])
  {
    var pool := ConflictPool();
    AssembleKeyword(map[], pool.escape, "SELECT 1");
    AssembleKeyword(map[], pool.escape, "ROLLBACK");
    var rs := ResultSetData(["message"], [["taken"]], 0, 0);
    var s1 := MysqlState(true, ["START TRANSACTION"], true, false);
    var s2 := MysqlState(true, ["START TRANSACTION", "SELECT 1"], true, false);
    assert RunQuery(pool, map[], s1, ["SELECT 1"]) == QueryStep(Ok(rs), s2);
    var s3 := MysqlState(true, ["START TRANSACTION", "SELECT 1", "ROLLBACK"], true, false);
    assert RunQuery(pool, map[], s2, ["ROLLBACK"]) == QueryStep(Ok(rs), s3);
  }

  /** START TRANSACTION, then a CHECK whose query returns a row. Both the guard as written and the
      corrected one let this CHECK through; it rolls back and fails with BusinessLogic 409. As
      written the request is answered with 409 and the MySQL context keeps its acquired connection
      unreleased; as intended the same answer is given and the connection is released. */
  lemma ConnectionLeftHeldAsWritten()
    ensures !CheckRefusedAsWritten(None, true) && !CheckRefused(None, true)
    ensures var modules := [("http", Http), ("db", Mysql(ConflictPool()))];
      var program := Program([], [ModuleDescriptor("db", "mysql", ConflictPool())],
                             [Statement("db", StartTransaction), Statement("db", Check(["SELECT 1"], None))]);
      var w := ExecuteSpecAsWritten(modules, program);
      var c := ExecuteSpec(modules, program);
      |w.slots| == 2 && w.slots[1].1.MysqlSlot? && w.slots[1].1.state.acquired && !w.slots[1].1.state.released &&
      |c.slots| == 2 && c.slots[1].1.MysqlSlot? && c.slots[1].1.state.released &&
      w.events[1] == HeadWritten(409) && c.events == w.events
  {
    var pool := ConflictPool();
    var modules: Modules := [("http", Http), ("db", Mysql(pool))];
    var start := Statement("db", StartTransaction);
    var check := Statement("db", Check(["SELECT 1"], None));
    var program := Program([], [ModuleDescriptor("db", "mysql", pool)], [start, check]);
    var initial := InitialSlots(modules);
    assert initial == [("http", HttpSlot), ("db", MysqlSlot(pool, Initial))];
    var m := Machine(map[], initial);
    assert NamesOf(initial) == ["http", "db"];
    assert IndexOfName(["http", "db"], "db") == 1;
    ConflictStart();
    var s1 := MysqlState(true, ["START TRANSACTION"], true, false);
    var a := StepSpec(m, start);
    assert a == Run(Done, Machine(map[], [("http", HttpSlot), ("db", MysqlSlot(pool, s1))]), []);
    ConflictCheck();
    var s4 := MysqlState(true, ["START TRANSACTION", "SELECT 1", "ROLLBACK"], false, false);
    var b := StepSpec(a.machine, check);
    assert NamesOf(a.machine.slots) == ["http", "db"];
    assert b == Run(Err(BusinessLogic(409, "taken")), Machine(map[], [("http", HttpSlot), ("db", MysqlSlot(pool, s4))]), []);
    assert [start, check][0] == start && [start, check][1..] == [check];
    assert RunSpec(a.machine, [check]) == b;
    var run := RunSpec(m, [start, check]);
    assert run == b;
    assert Seed(map[], []) == Ok(map[]);
    assert ExecuteSpec(modules, program) == Conclude(run);
    assert FinalizeEffect(pool, map[], s4).state == s4.(released := true);
  }
}
