/**
 * StepRunnerBase: runs one step through the pipeline
 *   bind metadata -> set up -> step validators -> PreExecute -> resolve modules
 *   -> BeforeExecution hooks -> Execute -> AfterExecution hooks -> rethrow or swallow.
 * Exceptions are values (Result/Outcome); the hooks the runner invokes are
 * recorded in a ghost trace of events.
 */
module StepRunning {
  import opened Base
  import opened Seqs
  import opened Kernels

  /** StepState. */
  datatype StepState = NotExecuted | Executed | Failed

  /** StepExceptionHandlingMode: Rethrow, or any other value, which swallows the error. */
  datatype HandlingMode = Rethrow | Continue

  /**
   * The step's settable properties: Executor (by identity), CallingMethodName,
   * ExceptionHandlingMode, and the step's own public properties by name.
   */
  datatype StepData = StepData(executor: nat, callingMethodName: string, mode: HandlingMode, props: map<string, string>)

  /** What IStepValidator.Validate returns: IsValid and Message. */
  datatype Validation = Validation(isValid: bool, message: string)

  /** What the step's own code does with its properties: PreExecute and Execute, each of which may throw. */
  datatype StepCode<V> = StepCode(preExecute: StepData -> Outcome<Error>, execute: StepData -> Result<V, Error>)

  /** What the modules' BeforeExecution(step) and AfterExecution(step, state) do. */
  datatype ModuleHooks = ModuleHooks(
    before: (Instance, StepData) -> Outcome<Error>,
    after: (Instance, StepData, StepState) -> Outcome<Error>)

  /** IStepModuleValidator.Validate(moduleType, step), the step given by its type and properties. */
  type ModuleValidator = (TypeRef, TypeRef, StepData) -> bool

  /** IStepValidator.Validate(step). */
  type StepValidator = (TypeRef, StepData) -> Validation

  /** The calls the runner makes into code outside it. */
  datatype Event =
    | SetUpInvoked
    | StepValidatorInvoked(index: nat)
    | PreExecuteInvoked
    | BeforeExecutionInvoked(stepModule: Instance)
    | ExecuteInvoked
    | AfterExecutionInvoked(stepModule: Instance, state: StepState)

  /** A step object: its runtime type, the module types its [UseWithStepModule] attributes list, its code and its state. */
  class Step<V> {
    const stepType: TypeRef
    const declaredModules: seq<TypeRef>
    const code: StepCode<V>
    var data: StepData
    var state: StepState
    var lastException: Option<Error>

    constructor(stepType: TypeRef, declaredModules: seq<TypeRef>, code: StepCode<V>, data: StepData)
      ensures this.stepType == stepType && this.declaredModules == declaredModules && this.code == code
      ensures this.data == data && state == NotExecuted && lastException == None
    {
      this.stepType := stepType;
      this.declaredModules := declaredModules;
      this.code := code;
      this.data := data;
      state := NotExecuted;
      lastException := None;
    }
  }

  // ---------------------------------------------------------------------------
  // The pipeline, phase by phase, as functions

  function OutcomeError(o: Outcome<Error>): Option<Error> {
    if o.Fail? then Some(o.error) else None
  }

  /** Contract.Assert(validator.IsValid, validator.Message). */
  function ValidationFailure(stepType: TypeRef, d: StepData): StepValidator -> Option<Error> {
    (v: StepValidator) => if v(stepType, d).isValid then None else Some(ContractAssertFailed(v(stepType, d).message))
  }

  function BeforeFailure(hooks: ModuleHooks, d: StepData): Instance -> Option<Error> {
    (m: Instance) => OutcomeError(hooks.before(m, d))
  }

  function AfterFailure(hooks: ModuleHooks, d: StepData, state: StepState): Instance -> Option<Error> {
    (m: Instance) => OutcomeError(hooks.after(m, d, state))
  }

  /** How many elements a foreach that stops at the first throwing one visits. */
  function Visited<T>(s: seq<T>, fails: T -> Option<Error>): (n: nat)
    ensures n <= |s|
  {
    var k := FirstFailing(s, fails);
    if k < |s| then k + 1 else k
  }

  function ValidatorEvents(n: nat): seq<Event> {
    seq(n, i requires 0 <= i < n => StepValidatorInvoked(i))
  }

  function BeforeEvents(modules: seq<Instance>): seq<Event> {
    seq(|modules|, i requires 0 <= i < |modules| => BeforeExecutionInvoked(modules[i]))
  }

  function AfterEvents(modules: seq<Instance>, state: StepState): seq<Event> {
    seq(|modules|, i requires 0 <= i < |modules| => AfterExecutionInvoked(modules[i], state))
  }

  /** Every module validator accepts the module type for this step. */
  predicate AcceptedByAll(validators: seq<ModuleValidator>, moduleType: TypeRef, stepType: TypeRef, d: StepData) {
    forall j :: 0 <= j < |validators| ==> validators[j](moduleType, stepType, d)
  }

  function AcceptTest(validators: seq<ModuleValidator>, stepType: TypeRef, d: StepData): Instance -> bool {
    (m: Instance) => AcceptedByAll(validators, m.runtimeType, stepType, d)
  }

  /** GetValidatedModulesForStep. */
  function ValidatedModules(modules: seq<Instance>, validators: seq<ModuleValidator>, stepType: TypeRef, d: StepData): seq<Instance> {
    Filter(modules, AcceptTest(validators, stepType, d))
  }

  /** A registered module is kept iff every validator accepts it; the order is kept. */
  lemma ValidatedModulesKeepAccepted(modules: seq<Instance>, validators: seq<ModuleValidator>, stepType: TypeRef, d: StepData)
    ensures var r := ValidatedModules(modules, validators, stepType, d);
            && IsSubsequence(r, modules)
            && (forall i :: 0 <= i < |r| ==> AcceptedByAll(validators, r[i].runtimeType, stepType, d))
            && (forall i :: 0 <= i < |modules| && AcceptedByAll(validators, modules[i].runtimeType, stepType, d) ==> modules[i] in r)
  {
    FilterMembers(modules, AcceptTest(validators, stepType, d));
    FilterIsSubsequence(modules, AcceptTest(validators, stepType, d));
  }

  function AbsentTest(contextual: seq<Instance>): TypeRef -> bool {
    (t: TypeRef) => forall j :: 0 <= j < |contextual| ==> contextual[j].runtimeType != t
  }

  /** The declared module types no contextual module has exactly as its runtime type. */
  function AbsentTypes(declared: seq<TypeRef>, contextual: seq<Instance>): seq<TypeRef> {
    Filter(declared, AbsentTest(contextual))
  }

  /** The kernel's bindings and counter, and the modules resolved so far. */
  datatype Resolution = Resolution(bindings: seq<Binding>, nextInstance: nat, modules: seq<Instance>)

  /** Bind(t).ToSelf(); Get(t); Unbind(t), for each type in order. */
  function ResolveAbsent(bindings: seq<Binding>, next: nat, types: seq<TypeRef>): Resolution
    decreases |types|
  {
    if types == [] then Resolution(bindings, next, [])
    else
      var r := ResolveAbsent(bindings, next, types[..|types| - 1]);
      var t := types[|types| - 1];
      Resolution(Filter(r.bindings + [SelfBinding(t)], NotService(t)), r.nextInstance + 1,
                 r.modules + [Instance(t, r.nextInstance)])
  }

  function NotAmong(types: seq<TypeRef>): Binding -> bool {
    (b: Binding) => b.service !in types
  }

  /**
   * Resolving the absent types yields one fresh instance per type, in order;
   * the temporary bindings are gone afterwards, and so is any binding the
   * kernel already had for one of those types.
   */
  lemma {:induction false} ResolveAbsentEffect(bindings: seq<Binding>, next: nat, types: seq<TypeRef>)
    ensures var r := ResolveAbsent(bindings, next, types);
            && r.nextInstance == next + |types|
            && |r.modules| == |types|
            && (forall i :: 0 <= i < |types| ==> r.modules[i] == Instance(types[i], next + i))
            && r.bindings == Filter(bindings, NotAmong(types))
    decreases |types|
  {
    if types != [] {
      var types', t := types[..|types| - 1], types[|types| - 1];
      ResolveAbsentEffect(bindings, next, types');
      var r' := ResolveAbsent(bindings, next, types');
      FilterAppend(r'.bindings, [SelfBinding(t)], NotService(t));
      FilterSingleton(SelfBinding(t), NotService(t));
      assert Filter(r'.bindings + [SelfBinding(t)], NotService(t)) == Filter(r'.bindings, NotService(t));
      forall i | 0 <= i < |bindings|
        ensures NotAmong(types)(bindings[i]) == (NotAmong(types')(bindings[i]) && NotService(t)(bindings[i]))
      {
        assert types == types' + [t];
      }
      FilterTwice(bindings, NotAmong(types'), NotService(t), NotAmong(types));
    } else {
      FilterAll(bindings, NotAmong(types));
    }
  }

  /** When the kernel had no binding for any absent type, its bindings are as before. */
  lemma ResolutionRestoresKernel(bindings: seq<Binding>, next: nat, types: seq<TypeRef>)
    requires forall i :: 0 <= i < |bindings| ==> bindings[i].service !in types
    ensures ResolveAbsent(bindings, next, types).bindings == bindings
  {
    ResolveAbsentEffect(bindings, next, types);
    FilterAll(bindings, NotAmong(types));
  }

  /** The runner's configuration: its module list, the validators and the modules' hooks. */
  datatype Setting = Setting(
    modules: seq<Instance>,
    moduleValidators: seq<ModuleValidator>,
    stepValidators: seq<StepValidator>,
    hooks: ModuleHooks)

  /** The arguments of Run / RunWithReturnValue besides the step. */
  datatype RunArgs = RunArgs(
    executor: nat,
    callingMethodName: string,
    setUp: Option<StepData -> Result<StepData, Error>>,
    mode: HandlingMode,
    validateStep: bool)

  /** How a run ends: the events, the step's and the kernel's new state, and what the caller sees. */
  datatype RunEnd<V> = RunEnd(
    events: seq<Event>,
    data: StepData,
    state: StepState,
    lastException: Option<Error>,
    bindings: seq<Binding>,
    nextInstance: nat,
    result: Result<V, Error>)

  /** The step before the run, and the kernel. */
  datatype Start = Start(data: StepData, state: StepState, lastException: Option<Error>, bindings: seq<Binding>, nextInstance: nat)

  /** The same end of a run, after the events that came before it. */
  function After<V>(events: seq<Event>, e: RunEnd<V>): RunEnd<V> {
    e.(events := events + e.events)
  }

  /** Execute, then the AfterExecution hooks, then rethrow or swallow. */
  function ExecutedRun<V>(hooks: ModuleHooks, code: StepCode<V>, d: StepData, modules: seq<Instance>, s: Start,
                          default: V): RunEnd<V>
  {
    match code.execute(d)
    case Success(v) =>
      var fails := AfterFailure(hooks, d, Executed);
      var k := FirstFailing(modules, fails);
      RunEnd([ExecuteInvoked] + AfterEvents(modules[..Visited(modules, fails)], Executed), d, Executed, s.lastException,
             s.bindings, s.nextInstance, if k < |modules| then Failure(fails(modules[k]).value) else Success(v))
    case Failure(e) =>
      var fails := AfterFailure(hooks, d, Failed);
      var k := FirstFailing(modules, fails);
      RunEnd([ExecuteInvoked] + AfterEvents(modules[..Visited(modules, fails)], Failed), d, Failed, Some(e),
             s.bindings, s.nextInstance,
             if k < |modules| then Failure(fails(modules[k]).value)
             else if d.mode == Rethrow then Failure(e)
             else Success(default))
  }

  /** The modules a step runs with: the validated registered ones, then fresh instances of the absent declared ones. */
  function StepModules(r: Setting, stepType: TypeRef, declared: seq<TypeRef>, d: StepData, s: Start): seq<Instance> {
    var validated := ValidatedModules(r.modules, r.moduleValidators, stepType, d);
    validated + ResolveAbsent(s.bindings, s.nextInstance, AbsentTypes(declared, validated)).modules
  }

  /** The kernel after the absent declared modules were resolved. */
  function Resolved(r: Setting, stepType: TypeRef, declared: seq<TypeRef>, d: StepData, s: Start): Start {
    var validated := ValidatedModules(r.modules, r.moduleValidators, stepType, d);
    var absent := ResolveAbsent(s.bindings, s.nextInstance, AbsentTypes(declared, validated));
    s.(bindings := absent.bindings, nextInstance := absent.nextInstance)
  }

  /** The BeforeExecution hooks over the step's modules, then Execute. */
  function HookedRun<V>(hooks: ModuleHooks, code: StepCode<V>, d: StepData, modules: seq<Instance>, s: Start,
                        default: V): RunEnd<V>
  {
    var fails := BeforeFailure(hooks, d);
    var k := FirstFailing(modules, fails);
    var events := BeforeEvents(modules[..Visited(modules, fails)]);
    if k < |modules| then RunEnd(events, d, s.state, s.lastException, s.bindings, s.nextInstance, Failure(fails(modules[k]).value))
    else After(events, ExecutedRun(hooks, code, d, modules, s, default))
  }

  /** The step validators, then PreExecute, then module resolution and the rest. */
  function ValidatedRun<V>(r: Setting, stepType: TypeRef, declared: seq<TypeRef>, code: StepCode<V>, d: StepData,
                           s: Start, default: V): RunEnd<V>
  {
    var fails := ValidationFailure(stepType, d);
    var k := FirstFailing(r.stepValidators, fails);
    var events := ValidatorEvents(Visited(r.stepValidators, fails));
    if k < |r.stepValidators| then
      RunEnd(events, d, s.state, s.lastException, s.bindings, s.nextInstance, Failure(fails(r.stepValidators[k]).value))
    else
      var events := events + [PreExecuteInvoked];
      match code.preExecute(d)
      case Fail(e) => RunEnd(events, d, s.state, s.lastException, s.bindings, s.nextInstance, Failure(e))
      case Pass =>
        After(events, HookedRun(r.hooks, code, d, StepModules(r, stepType, declared, d, s), Resolved(r, stepType, declared, d, s), default))
  }

  /** The metadata the runner writes before the set-up action. */
  function Bound(d: StepData, args: RunArgs): StepData {
    d.(executor := args.executor, callingMethodName := args.callingMethodName, mode := args.mode)
  }

  /** Run / RunWithReturnValue as a whole. `validateStep` is never consulted. */
  function RunSpec<V>(r: Setting, stepType: TypeRef, declared: seq<TypeRef>, code: StepCode<V>, s: Start,
                      args: RunArgs, default: V, setUpMessage: string): RunEnd<V>
  {
    var d := Bound(s.data, args);
    match args.setUp
    case None => ValidatedRun(r, stepType, declared, code, d, s, default)
    case Some(setUp) =>
      match setUp(d)
      case Failure(e) => RunEnd([SetUpInvoked], d, s.state, s.lastException, s.bindings, s.nextInstance,
                                Failure(StepSetUp(setUpMessage, e)))
      case Success(d') => After([SetUpInvoked], ValidatedRun(r, stepType, declared, code, d', s, default))
  }

  /** The StepSetUpException message of Run: the step type's Name. */
  function RunSetUpMessage(stepType: TypeRef): string {
    "Unexpected error during setting up of step: " + stepType.name + " has occured."
  }

  /** Type.ToString(): the namespace and the name, or the bare name in the global namespace. */
  function FullName(t: TypeRef): (r: string)
    ensures t.ns == [] ==> r == t.name
    ensures t.ns != [] ==> |r| == |t.ns| + 1 + |t.name| && r[..|t.ns|] == t.ns && r[|t.ns|] == '.' && r[|t.ns| + 1..] == t.name
  {
    if t.ns == [] then t.name else t.ns + "." + t.name
  }

  /** The message of RunWithReturnValue: the step's ToString(), by default its full type name. */
  function ValueSetUpMessage(stepType: TypeRef): string {
    "Unexpected error during setting up of step: " + FullName(stepType) + " has occured."
  }

  // ---------------------------------------------------------------------------
  // Properties of the pipeline

  /** A throwing set-up action is wrapped and always propagates; nothing else runs and nothing changes. */
  lemma SetUpFailureAlwaysPropagates<V>(r: Setting, stepType: TypeRef, declared: seq<TypeRef>, code: StepCode<V>, s: Start,
                                        args: RunArgs, default: V, message: string)
    requires args.setUp.Some? && args.setUp.value(Bound(s.data, args)).Failure?
    ensures var e := RunSpec(r, stepType, declared, code, s, args, default, message);
            && e.result == Failure(StepSetUp(message, args.setUp.value(Bound(s.data, args)).error))
            && e.events == [SetUpInvoked]
            && e.state == s.state && e.lastException == s.lastException
            && e.bindings == s.bindings && e.nextInstance == s.nextInstance
  {
  }

  /**
   * The first invalid step validation aborts with its message, after every
   * earlier validator ran and before PreExecute, module resolution or any hook.
   */
  lemma InvalidStepAborts<V>(r: Setting, stepType: TypeRef, declared: seq<TypeRef>, code: StepCode<V>, d: StepData,
                             s: Start, default: V, k: nat)
    requires k < |r.stepValidators| && !r.stepValidators[k](stepType, d).isValid
    requires forall j :: 0 <= j < k ==> r.stepValidators[j](stepType, d).isValid
    ensures var e := ValidatedRun(r, stepType, declared, code, d, s, default);
            && e.result == Failure(ContractAssertFailed(r.stepValidators[k](stepType, d).message))
            && e.events == ValidatorEvents(k + 1)
            && e.state == s.state && e.bindings == s.bindings && e.nextInstance == s.nextInstance
  {
    FirstFailingAt(r.stepValidators, ValidationFailure(stepType, d), k);
  }

  /** Whether the caller asked for validation or not, the run is the same. */
  lemma ValidateStepIsIgnored<V>(r: Setting, stepType: TypeRef, declared: seq<TypeRef>, code: StepCode<V>, s: Start,
                                 args: RunArgs, default: V, message: string)
    ensures RunSpec(r, stepType, declared, code, s, args, default, message)
         == RunSpec(r, stepType, declared, code, s, args.(validateStep := !args.validateStep), default, message)
  {
  }

  /** A throwing BeforeExecution propagates: Execute and AfterExecution do not run, the step's state is unchanged. */
  lemma BeforeFailureSkipsExecution<V>(hooks: ModuleHooks, code: StepCode<V>, d: StepData, modules: seq<Instance>, s: Start,
                                       default: V, k: nat)
    requires k < |modules| && hooks.before(modules[k], d).Fail?
    requires forall j :: 0 <= j < k ==> hooks.before(modules[j], d).Pass?
    ensures var e := HookedRun(hooks, code, d, modules, s, default);
            && e.result == Failure(hooks.before(modules[k], d).error)
            && e.events == BeforeEvents(modules[..k + 1])
            && e.state == s.state && e.lastException == s.lastException
  {
    FirstFailingAt(modules, BeforeFailure(hooks, d), k);
  }

  /**
   * When Execute succeeds: every AfterExecution(step, Executed) runs once, in
   * the modules' order, after Execute; the state is Executed and the value is
   * Execute's.
   */
  lemma SuccessfulExecution<V>(hooks: ModuleHooks, code: StepCode<V>, d: StepData, modules: seq<Instance>, s: Start,
                               default: V)
    requires code.execute(d).Success?
    requires forall i :: 0 <= i < |modules| ==> hooks.after(modules[i], d, Executed).Pass?
    ensures var e := ExecutedRun(hooks, code, d, modules, s, default);
            && e.state == Executed && e.result == Success(code.execute(d).value)
            && e.events == [ExecuteInvoked] + AfterEvents(modules, Executed)
            && e.lastException == s.lastException
  {
    FirstFailingAt(modules, AfterFailure(hooks, d, Executed), |modules|);
    assert modules[..|modules|] == modules;
  }

  /**
   * When Execute throws: the step records the exception and becomes Failed,
   * every AfterExecution(step, Failed) runs once in order, and the exception
   * is rethrown only in Rethrow mode; otherwise the default value is returned.
   */
  lemma FailedExecution<V>(hooks: ModuleHooks, code: StepCode<V>, d: StepData, modules: seq<Instance>, s: Start,
                           default: V)
    requires code.execute(d).Failure?
    requires forall i :: 0 <= i < |modules| ==> hooks.after(modules[i], d, Failed).Pass?
    ensures var e := ExecutedRun(hooks, code, d, modules, s, default);
            && e.state == Failed && e.lastException == Some(code.execute(d).error)
            && e.events == [ExecuteInvoked] + AfterEvents(modules, Failed)
            && (d.mode == Rethrow ==> e.result == Failure(code.execute(d).error))
            && (d.mode != Rethrow ==> e.result == Success(default))
  {
    FirstFailingAt(modules, AfterFailure(hooks, d, Failed), |modules|);
    assert modules[..|modules|] == modules;
  }

  /**
   * A throwing AfterExecution propagates its own exception, even over the
   * step's: the hooks after it do not run.
   */
  lemma AfterFailureWins<V>(hooks: ModuleHooks, code: StepCode<V>, d: StepData, modules: seq<Instance>, s: Start,
                            default: V, state: StepState, k: nat)
    requires state == (if code.execute(d).Success? then Executed else Failed)
    requires k < |modules| && hooks.after(modules[k], d, state).Fail?
    requires forall j :: 0 <= j < k ==> hooks.after(modules[j], d, state).Pass?
    ensures var e := ExecutedRun(hooks, code, d, modules, s, default);
            && e.state == state
            && e.result == Failure(hooks.after(modules[k], d, state).error)
            && e.events == [ExecuteInvoked] + AfterEvents(modules[..k + 1], state)
  {
    FirstFailingAt(modules, AfterFailure(hooks, d, state), k);
  }

  /**
   * The mode that decides rethrowing is read after set-up: a set-up action
   * that switches a Rethrow run to Continue makes a failing step's exception
   * silent.
   */
  lemma ModeIsReadAfterSetUp<V>(hooks: ModuleHooks, code: StepCode<V>, data: StepData, s: Start, default: V, message: string)
    requires var d := data.(executor := 0, callingMethodName := "Do", mode := Continue);
             code.execute(d).Failure? && code.preExecute(d).Pass?
    ensures var args := RunArgs(0, "Do", Some((d: StepData) => Success(d.(mode := Continue))), Rethrow, true);
            var e := RunSpec(Setting([], [], [], hooks), TypeRef("", ""), [], code, s.(data := data), args, default, message);
            e.state == Failed && e.result == Success(default)
  {
    var d := data.(executor := 0, callingMethodName := "Do", mode := Continue);
    var r := Setting([], [], [], hooks);
    assert ValidatedModules([], [], TypeRef("", ""), d) == [];
    assert AbsentTypes([], []) == [];
  }

  // ---------------------------------------------------------------------------
  // The runner

  /**
   * What kernel.GetAll<IStepModule>() yields: every registered module, or,
   * given a name, the modules registered under it.
   */
  datatype ModuleSource = ModuleSource(all: seq<Instance>, named: string -> seq<Instance>)

  /** A StepRunnerBase: the kernel, the module list it was built with, the validators, and the modules' hooks. */
  class StepRunner {
    const kernel: Kernel
    var modules: seq<Instance>
    const moduleValidators: seq<ModuleValidator>
    const stepValidators: seq<StepValidator>
    const hooks: ModuleHooks
    ghost var trace: seq<Event>

    /** The modules a new runner starts with: all registered ones, or those of the session's context. */
    constructor(kernel: Kernel, sessionId: string, source: ModuleSource, moduleValidators: seq<ModuleValidator>,
                stepValidators: seq<StepValidator>, hooks: ModuleHooks)
      ensures this.kernel == kernel && trace == []
      ensures sessionId == "" ==> modules == source.all
      ensures sessionId != "" ==> modules == source.named(sessionId)
      ensures this.moduleValidators == moduleValidators && this.stepValidators == stepValidators && this.hooks == hooks
    {
      this.kernel := kernel;
      modules := if sessionId == "" then source.all else source.named(sessionId);
      this.moduleValidators := moduleValidators;
      this.stepValidators := stepValidators;
      this.hooks := hooks;
      trace := [];
    }

    function Config(): Setting
      reads this`modules
    {
      Setting(modules, moduleValidators, stepValidators, hooks)
    }

    /** GetValidatedModulesForStep: every validator is consulted for every module. */
    method GetValidatedModulesForStep<V>(step: Step<V>) returns (validatedModules: seq<Instance>)
      ensures validatedModules == ValidatedModules(modules, moduleValidators, step.stepType, step.data)
    {
      validatedModules := [];
      var accept := AcceptTest(moduleValidators, step.stepType, step.data);
      for i := 0 to |modules|
        invariant validatedModules == Filter(modules[..i], accept)
      {
        var stepModule := modules[i];
        var isValid := true;
        for j := 0 to |moduleValidators|
          invariant isValid <==> forall k :: 0 <= k < j ==> moduleValidators[k](stepModule.runtimeType, step.stepType, step.data)
        {
          if !moduleValidators[j](stepModule.runtimeType, step.stepType, step.data) {
            isValid := false;
          }
        }
        assert modules[..i + 1][..i] == modules[..i];
        if isValid {
          validatedModules := validatedModules + [stepModule];
        }
      }
      assert modules[..|modules|] == modules;
    }

    /** GetAbsendStepDefinedModules: each absent declared type is bound to itself, resolved and unbound. */
    method GetAbsendStepDefinedModules<V>(step: Step<V>, contextualStepModules: seq<Instance>) returns (result: seq<Instance>)
      modifies kernel
      ensures var r := ResolveAbsent(old(kernel.bindings), old(kernel.nextInstance),
                                     AbsentTypes(step.declaredModules, contextualStepModules));
              result == r.modules && kernel.bindings == r.bindings && kernel.nextInstance == r.nextInstance
    {
      var stepModuleTypes := AbsentTypes(step.declaredModules, contextualStepModules);
      ghost var b0, n0 := kernel.bindings, kernel.nextInstance;
      result := [];
      for i := 0 to |stepModuleTypes|
        invariant var r := ResolveAbsent(b0, n0, stepModuleTypes[..i]);
                  result == r.modules && kernel.bindings == r.bindings && kernel.nextInstance == r.nextInstance
      {
        var stepModuleType := stepModuleTypes[i];
        assert stepModuleTypes[..i + 1][..i] == stepModuleTypes[..i];
        kernel.Bind(SelfBinding(stepModuleType));
        var resolved := kernel.Get(stepModuleType);
        result := result + [resolved];
        kernel.Unbind(stepModuleType);
      }
      assert stepModuleTypes[..|stepModuleTypes|] == stepModuleTypes;
    }

    /** BeforeExecution: each module's hook in order; an exception ends the loop. */
    method BeforeExecution<V>(step: Step<V>, stepModules: seq<Instance>) returns (outcome: Outcome<Error>)
      modifies this`trace
      ensures var fails := BeforeFailure(hooks, step.data);
              && trace == old(trace) + BeforeEvents(stepModules[..Visited(stepModules, fails)])
              && outcome == (if FirstFailing(stepModules, fails) < |stepModules|
                             then Fail(fails(stepModules[FirstFailing(stepModules, fails)]).value) else Pass)
    {
      ghost var fails := BeforeFailure(hooks, step.data);
      var i := 0;
      outcome := Pass;
      while i < |stepModules|
        invariant 0 <= i <= |stepModules|
        invariant forall j :: 0 <= j < i ==> fails(stepModules[j]).None?
        invariant trace == old(trace) + BeforeEvents(stepModules[..i])
      {
        trace := trace + [BeforeExecutionInvoked(stepModules[i])];
        assert BeforeEvents(stepModules[..i + 1]) == BeforeEvents(stepModules[..i]) + [BeforeExecutionInvoked(stepModules[i])];
        var o := hooks.before(stepModules[i], step.data);
        if o.Fail? {
          FirstFailingAt(stepModules, fails, i);
          return o;
        }
        i := i + 1;
      }
      FirstFailingAt(stepModules, fails, i);
    }

    /** AfterExecution: each module's hook with the given state, in order; an exception ends the loop. */
    method AfterExecution<V>(step: Step<V>, state: StepState, stepModules: seq<Instance>) returns (outcome: Outcome<Error>)
      modifies this`trace
      ensures var fails := AfterFailure(hooks, step.data, state);
              && trace == old(trace) + AfterEvents(stepModules[..Visited(stepModules, fails)], state)
              && outcome == (if FirstFailing(stepModules, fails) < |stepModules|
                             then Fail(fails(stepModules[FirstFailing(stepModules, fails)]).value) else Pass)
    {
      ghost var fails := AfterFailure(hooks, step.data, state);
      var i := 0;
      outcome := Pass;
      while i < |stepModules|
        invariant 0 <= i <= |stepModules|
        invariant forall j :: 0 <= j < i ==> fails(stepModules[j]).None?
        invariant trace == old(trace) + AfterEvents(stepModules[..i], state)
      {
        trace := trace + [AfterExecutionInvoked(stepModules[i], state)];
        assert AfterEvents(stepModules[..i + 1], state) == AfterEvents(stepModules[..i], state) + [AfterExecutionInvoked(stepModules[i], state)];
        var o := hooks.after(stepModules[i], step.data, state);
        if o.Fail? {
          FirstFailingAt(stepModules, fails, i);
          return o;
        }
        i := i + 1;
      }
      FirstFailingAt(stepModules, fails, i);
    }

    /** The step validators, each asserted in turn. */
    method RunStepValidators<V>(step: Step<V>) returns (outcome: Outcome<Error>)
      modifies this`trace
      ensures var fails := ValidationFailure(step.stepType, step.data);
              && trace == old(trace) + ValidatorEvents(Visited(stepValidators, fails))
              && outcome == (if FirstFailing(stepValidators, fails) < |stepValidators|
                             then Fail(fails(stepValidators[FirstFailing(stepValidators, fails)]).value) else Pass)
    {
      ghost var fails := ValidationFailure(step.stepType, step.data);
      var i := 0;
      outcome := Pass;
      while i < |stepValidators|
        invariant 0 <= i <= |stepValidators|
        invariant forall j :: 0 <= j < i ==> fails(stepValidators[j]).None?
        invariant trace == old(trace) + ValidatorEvents(i)
      {
        trace := trace + [StepValidatorInvoked(i)];
        assert ValidatorEvents(i + 1) == ValidatorEvents(i) + [StepValidatorInvoked(i)];
        var validator := stepValidators[i](step.stepType, step.data);
        if !validator.isValid {
          FirstFailingAt(stepValidators, fails, i);
          return Fail(ContractAssertFailed(validator.message));
        }
        i := i + 1;
      }
      FirstFailingAt(stepValidators, fails, i);
    }

    /** Run: the pipeline for a step without a return value. */
    method Run(executor: nat, callingMethodName: string, step: Step<()>,
               stepSetUpAction: Option<StepData -> Result<StepData, Error>>,
               exceptionHandlingMode: HandlingMode, validateStep: bool) returns (outcome: Outcome<Error>)
      modifies this`trace, step, kernel
      ensures var e := RunSpec(Config(), step.stepType, step.declaredModules, step.code,
                               old(Start(step.data, step.state, step.lastException, kernel.bindings, kernel.nextInstance)),
                               RunArgs(executor, callingMethodName, stepSetUpAction, exceptionHandlingMode, validateStep),
                               (), RunSetUpMessage(step.stepType));
              && trace == old(trace) + e.events
              && step.data == e.data && step.state == e.state && step.lastException == e.lastException
              && kernel.bindings == e.bindings && kernel.nextInstance == e.nextInstance
              && outcome == (if e.result.Failure? then Fail(e.result.error) else Pass)
    {
      var v := Pipeline(executor, callingMethodName, step, stepSetUpAction, exceptionHandlingMode, validateStep,
                        (), RunSetUpMessage(step.stepType));
      outcome := if v.Failure? then Fail(v.error) else Pass;
    }

    /** RunWithReturnValue: the same pipeline, returning Execute's value, or `default` when a failure is swallowed. */
    method RunWithReturnValue<V>(executor: nat, callingMethodName: string, step: Step<V>,
                                 stepSetUpAction: Option<StepData -> Result<StepData, Error>>,
                                 exceptionHandlingMode: HandlingMode, validateStep: bool, default: V) returns (value: Result<V, Error>)
      modifies this`trace, step, kernel
      ensures var e := RunSpec(Config(), step.stepType, step.declaredModules, step.code,
                               old(Start(step.data, step.state, step.lastException, kernel.bindings, kernel.nextInstance)),
                               RunArgs(executor, callingMethodName, stepSetUpAction, exceptionHandlingMode, validateStep),
                               default, ValueSetUpMessage(step.stepType));
              && trace == old(trace) + e.events
              && step.data == e.data && step.state == e.state && step.lastException == e.lastException
              && kernel.bindings == e.bindings && kernel.nextInstance == e.nextInstance
              && value == e.result
    {
      value := Pipeline(executor, callingMethodName, step, stepSetUpAction, exceptionHandlingMode, validateStep,
                        default, ValueSetUpMessage(step.stepType));
    }

    /** The body Run and RunWithReturnValue share, up to the set-up message and the value. */
    method Pipeline<V>(executor: nat, callingMethodName: string, step: Step<V>,
                       stepSetUpAction: Option<StepData -> Result<StepData, Error>>,
                       exceptionHandlingMode: HandlingMode, validateStep: bool, default: V, setUpMessage: string)
      returns (value: Result<V, Error>)
      modifies this`trace, step, kernel
      ensures var e := RunSpec(Config(), step.stepType, step.declaredModules, step.code,
                               old(Start(step.data, step.state, step.lastException, kernel.bindings, kernel.nextInstance)),
                               RunArgs(executor, callingMethodName, stepSetUpAction, exceptionHandlingMode, validateStep),
                               default, setUpMessage);
              && trace == old(trace) + e.events
              && step.data == e.data && step.state == e.state && step.lastException == e.lastException
              && kernel.bindings == e.bindings && kernel.nextInstance == e.nextInstance
              && value == e.result
    {
      ghost var s := Start(step.data, step.state, step.lastException, kernel.bindings, kernel.nextInstance);
      step.data := step.data.(executor := executor, callingMethodName := callingMethodName, mode := exceptionHandlingMode);
      if stepSetUpAction.Some? {
        trace := trace + [SetUpInvoked];
        var setUp := stepSetUpAction.value(step.data);
        if setUp.Failure? {
          return Failure(StepSetUp(setUpMessage, setUp.error));
        }
        step.data := setUp.value;
      }
      value := ValidateAndExecute(step, s, default);
    }

    /** From the step validators to PreExecute. */
    method ValidateAndExecute<V>(step: Step<V>, ghost s: Start, default: V) returns (value: Result<V, Error>)
      requires step.state == s.state && step.lastException == s.lastException
      requires kernel.bindings == s.bindings && kernel.nextInstance == s.nextInstance
      modifies this`trace, step, kernel
      ensures var e := ValidatedRun(Config(), step.stepType, step.declaredModules, step.code, old(step.data), s, default);
              && trace == old(trace) + e.events
              && step.data == e.data && step.state == e.state && step.lastException == e.lastException
              && kernel.bindings == e.bindings && kernel.nextInstance == e.nextInstance
              && value == e.result
    {
      ghost var events := ValidatorEvents(Visited(stepValidators, ValidationFailure(step.stepType, step.data)));
      var validated := RunStepValidators(step);
      if validated.Fail? {
        return Failure(validated.error);
      }
      trace := trace + [PreExecuteInvoked];
      var pre := step.code.preExecute(step.data);
      if pre.Fail? {
        return Failure(pre.error);
      }
      ghost var d := step.data;
      ghost var s' := Resolved(Config(), step.stepType, step.declaredModules, d, s);
      ghost var e := HookedRun(hooks, step.code, d, StepModules(Config(), step.stepType, step.declaredModules, d, s), s', default);
      assert ValidatedRun(Config(), step.stepType, step.declaredModules, step.code, d, s, default)
          == After(events + [PreExecuteInvoked], e);
      var stepModules := ResolveModules(step, s);
      value := HookAndExecute(step, stepModules, s', default);
      assert trace == old(trace) + (events + [PreExecuteInvoked] + e.events);
    }

    /** The validated registered modules, then the resolved absent declared ones. */
    method ResolveModules<V>(step: Step<V>, ghost s: Start) returns (stepModules: seq<Instance>)
      requires kernel.bindings == s.bindings && kernel.nextInstance == s.nextInstance
      modifies kernel
      ensures stepModules == StepModules(Config(), step.stepType, step.declaredModules, step.data, s)
      ensures var s' := Resolved(Config(), step.stepType, step.declaredModules, step.data, s);
              kernel.bindings == s'.bindings && kernel.nextInstance == s'.nextInstance
    {
      stepModules := GetValidatedModulesForStep(step);
      var absent := GetAbsendStepDefinedModules(step, stepModules);
      stepModules := stepModules + absent;
    }

    /** The BeforeExecution hooks, Execute and the AfterExecution hooks over the step's modules. */
    method HookAndExecute<V>(step: Step<V>, stepModules: seq<Instance>, ghost s: Start, default: V) returns (value: Result<V, Error>)
      requires step.state == s.state && step.lastException == s.lastException
      requires kernel.bindings == s.bindings && kernel.nextInstance == s.nextInstance
      modifies this`trace, step
      ensures var e := HookedRun(hooks, step.code, old(step.data), stepModules, s, default);
              && trace == old(trace) + e.events
              && step.data == e.data && step.state == e.state && step.lastException == e.lastException
              && value == e.result
    {
      var before := BeforeExecution(step, stepModules);
      if before.Fail? {
        return Failure(before.error);
      }
      trace := trace + [ExecuteInvoked];
      var executed := step.code.execute(step.data);
      if executed.Success? {
        step.state := Executed;
        var after := AfterExecution(step, Executed, stepModules);
        value := if after.Fail? then Failure(after.error) else Success(executed.value);
      } else {
        step.lastException := Some(executed.error);
        step.state := Failed;
        var after := AfterExecution(step, Failed, stepModules);
        if after.Fail? {
          return Failure(after.error);
        }
        if step.data.mode != Rethrow {
          return Success(default);
        }
        return Failure(step.lastException.value);
      }
    }

    /** AddModules: null or empty leaves the list; otherwise the modules are appended in order. */
    method AddModules(newModules: Option<seq<Instance>>)
      modifies this`modules
      ensures newModules.None? || newModules.value == [] ==> modules == old(modules)
      ensures newModules.Some? ==> modules == old(modules) + newModules.value
    {
      if newModules.None? || |newModules.value| <= 0 {
        return;
      }
      modules := modules + newModules.value;
    }

    /** RemoveModules: List.Remove for each given module, in order. */
    method RemoveModules(toRemove: Option<seq<Instance>>)
      modifies this`modules
      ensures toRemove.None? ==> modules == old(modules)
      ensures toRemove.Some? ==> modules == RemoveEach(old(modules), toRemove.value)
    {
      if toRemove.None? || |toRemove.value| <= 0 {
        return;
      }
      var xs := toRemove.value;
      var modulesList := modules;
      for i := 0 to |xs|
        invariant RemoveEach(modulesList, xs[i..]) == RemoveEach(modules, xs)
      {
        assert xs[i..][0] == xs[i] && xs[i..][1..] == xs[i + 1..];
        modulesList := RemoveFirst(modulesList, xs[i]);
      }
      modules := modulesList;
    }
  }
}
