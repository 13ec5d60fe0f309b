/**
 * StepDrivenTest (TestUnium.Stepping): the test-facing facade. Every Do
 * overload builds a fresh runner for the current session and hands it a
 * step; ad-hoc actions are wrapped in fake steps; module registration is
 * delegated to the registration strategy with the empty context.
 */
module Stepping {
  import opened Base
  import opened Seqs
  import opened Kernels
  import opened StepRunning

  const IStepExecutor := TypeRef("TestUnium.Stepping", "IStepExecutor")

  /** A call the test makes on its IStepModuleRegistrationStrategy, whose implementations are not part of this model. */
  datatype RegistrationCall =
    | RegisterStepModules(context: string, makeReusable: bool, moduleTypes: seq<TypeRef>)
    | UnregisterStepModules(moduleTypes: seq<TypeRef>)

  /** The properties of a freshly resolved fake step. */
  const FreshStepData := StepData(0, "", Rethrow, map[])

  function AsResult(o: Outcome<Error>): Result<(), Error> {
    if o.Fail? then Failure(o.error) else Success(())
  }

  function AsOutcome<V>(r: Result<V, Error>): Outcome<Error> {
    if r.Failure? then Fail(r.error) else Pass
  }

  /** A fake step: PreExecute does nothing and Execute runs the stored operations. */
  function FakeStepCode<V>(operations: () -> Result<V, Error>): StepCode<V> {
    StepCode((d: StepData) => Pass, (d: StepData) => operations())
  }

  /** The step and the kernel are where the run left them. */
  predicate Ended<V>(step: Step<V>, kernel: Kernel, e: RunEnd<V>)
    reads step, kernel
  {
    && step.data == e.data && step.state == e.state && step.lastException == e.lastException
    && kernel.bindings == e.bindings && kernel.nextInstance == e.nextInstance
  }

  /** stepSetUpAction?.Invoke(step): the action runs once, or not at all when there is none; the step is not run. */
  method ApplySetUp<V>(step: Step<V>, stepSetUpAction: Option<StepData -> Result<StepData, Error>>) returns (outcome: Outcome<Error>)
    modifies step
    ensures stepSetUpAction.None? ==> outcome == Pass && step.data == old(step.data)
    ensures stepSetUpAction.Some? ==> outcome == AsOutcome(stepSetUpAction.value(old(step.data)))
    ensures stepSetUpAction.Some? && outcome == Pass ==> step.data == stepSetUpAction.value(old(step.data)).value
    ensures stepSetUpAction.Some? && outcome.Fail? ==> step.data == old(step.data)
    ensures step.state == old(step.state) && step.lastException == old(step.lastException)
  {
    outcome := Pass;
    if stepSetUpAction.Some? {
      var r := stepSetUpAction.value(step.data);
      if r.Failure? {
        return Fail(r.error);
      }
      step.data := r.value;
    }
  }

  class StepDrivenTest {
    /** This test, by identity: the Executor every step it runs receives. */
    const executor: nat
    const runtimeType: TypeRef
    const kernel: Kernel
    /** The id of the current session; empty outside a session. */
    const sessionId: string
    const source: ModuleSource
    const moduleValidators: seq<ModuleValidator>
    const stepValidators: seq<StepValidator>
    const hooks: ModuleHooks
    /** The calls made on the registration strategy so far. */
    var registrations: seq<RegistrationCall>

    /** The test binds itself as the IStepExecutor. */
    constructor(executor: nat, runtimeType: TypeRef, kernel: Kernel, sessionId: string, source: ModuleSource,
                moduleValidators: seq<ModuleValidator>, stepValidators: seq<StepValidator>, hooks: ModuleHooks)
      modifies kernel
      ensures this.executor == executor && this.runtimeType == runtimeType && this.kernel == kernel
      ensures this.sessionId == sessionId && this.source == source
      ensures this.moduleValidators == moduleValidators && this.stepValidators == stepValidators && this.hooks == hooks
      ensures registrations == []
      ensures kernel.bindings == old(kernel.bindings) + [Binding(IStepExecutor, Constant, runtimeType, Singleton, "")]
      ensures kernel.nextInstance == old(kernel.nextInstance)
    {
      this.executor := executor;
      this.runtimeType := runtimeType;
      this.kernel := kernel;
      this.sessionId := sessionId;
      this.source := source;
      this.moduleValidators := moduleValidators;
      this.stepValidators := stepValidators;
      this.hooks := hooks;
      registrations := [];
      kernel.Bind(Binding(IStepExecutor, Constant, runtimeType, Singleton, ""));
    }

    /** What the runner built for the current session runs with. */
    function RunnerSetting(): Setting {
      Setting(if sessionId == "" then source.all else source.named(sessionId), moduleValidators, stepValidators, hooks)
    }

    /** Do<TStep>: runs the resolved step through a fresh runner; no set-up, Rethrow and validation by default. */
    method Do(step: Step<()>, stepSetUpAction: Option<StepData -> Result<StepData, Error>> := None,
              exceptionHandlingMode: HandlingMode := Rethrow, validateStep: bool := true, callingMethodName: string := "")
      returns (outcome: Outcome<Error>)
      modifies step, kernel
      ensures var e := RunSpec(RunnerSetting(), step.stepType, step.declaredModules, step.code,
                               old(Start(step.data, step.state, step.lastException, kernel.bindings, kernel.nextInstance)),
                               RunArgs(executor, callingMethodName, stepSetUpAction, exceptionHandlingMode, validateStep),
                               (), RunSetUpMessage(step.stepType));
              Ended(step, kernel, e) && outcome == AsOutcome(e.result)
    {
      var runner := new StepRunner(kernel, sessionId, source, moduleValidators, stepValidators, hooks);
      outcome := runner.Run(executor, callingMethodName, step, stepSetUpAction, exceptionHandlingMode, validateStep);
    }

    /** Do<TStep>(mode, validateStep): no set-up; the runner is told the caller is "Do", not `callingMethodName`. */
    method DoWithMode(step: Step<()>, exceptionHandlingMode: HandlingMode, validateStep: bool := true, callingMethodName: string := "")
      returns (outcome: Outcome<Error>)
      modifies step, kernel
      ensures var e := RunSpec(RunnerSetting(), step.stepType, step.declaredModules, step.code,
                               old(Start(step.data, step.state, step.lastException, kernel.bindings, kernel.nextInstance)),
                               RunArgs(executor, "Do", None, exceptionHandlingMode, validateStep),
                               (), RunSetUpMessage(step.stepType));
              Ended(step, kernel, e) && outcome == AsOutcome(e.result)
    {
      outcome := Do(step, None, exceptionHandlingMode, validateStep, "Do");
    }

    /** Do<TStep>(validateStep): no set-up and Rethrow; the caller's name is not forwarded either. */
    method DoValidating(step: Step<()>, validateStep: bool, callingMethodName: string := "") returns (outcome: Outcome<Error>)
      modifies step, kernel
      ensures var e := RunSpec(RunnerSetting(), step.stepType, step.declaredModules, step.code,
                               old(Start(step.data, step.state, step.lastException, kernel.bindings, kernel.nextInstance)),
                               RunArgs(executor, "Do", None, Rethrow, validateStep),
                               (), RunSetUpMessage(step.stepType));
              Ended(step, kernel, e) && outcome == AsOutcome(e.result)
    {
      outcome := Do(step, None, Rethrow, validateStep, "Do");
    }

    /** Do<TStep, TResult>: as Do<TStep>, returning the runner's value; `default` stands for default(TResult). */
    method DoValue<V>(step: Step<V>, default: V, stepSetUpAction: Option<StepData -> Result<StepData, Error>> := None,
                      exceptionHandlingMode: HandlingMode := Rethrow, validateStep: bool := true, callingMethodName: string := "")
      returns (value: Result<V, Error>)
      modifies step, kernel
      ensures var e := RunSpec(RunnerSetting(), step.stepType, step.declaredModules, step.code,
                               old(Start(step.data, step.state, step.lastException, kernel.bindings, kernel.nextInstance)),
                               RunArgs(executor, callingMethodName, stepSetUpAction, exceptionHandlingMode, validateStep),
                               default, ValueSetUpMessage(step.stepType));
              Ended(step, kernel, e) && value == e.result
    {
      var runner := new StepRunner(kernel, sessionId, source, moduleValidators, stepValidators, hooks);
      value := runner.RunWithReturnValue(executor, callingMethodName, step, stepSetUpAction, exceptionHandlingMode, validateStep, default);
    }

    /** Do<TStep, TResult>(mode, validateStep): no set-up, caller "Do". */
    method DoValueWithMode<V>(step: Step<V>, default: V, exceptionHandlingMode: HandlingMode, validateStep: bool := true,
                              callingMethodName: string := "") returns (value: Result<V, Error>)
      modifies step, kernel
      ensures var e := RunSpec(RunnerSetting(), step.stepType, step.declaredModules, step.code,
                               old(Start(step.data, step.state, step.lastException, kernel.bindings, kernel.nextInstance)),
                               RunArgs(executor, "Do", None, exceptionHandlingMode, validateStep),
                               default, ValueSetUpMessage(step.stepType));
              Ended(step, kernel, e) && value == e.result
    {
      value := DoValue(step, default, None, exceptionHandlingMode, validateStep, "Do");
    }

    /** Do<TStep, TResult>(validateStep): no set-up, Rethrow, caller "Do". */
    method DoValueValidating<V>(step: Step<V>, default: V, validateStep: bool, callingMethodName: string := "")
      returns (value: Result<V, Error>)
      modifies step, kernel
      ensures var e := RunSpec(RunnerSetting(), step.stepType, step.declaredModules, step.code,
                               old(Start(step.data, step.state, step.lastException, kernel.bindings, kernel.nextInstance)),
                               RunArgs(executor, "Do", None, Rethrow, validateStep),
                               default, ValueSetUpMessage(step.stepType));
              Ended(step, kernel, e) && value == e.result
    {
      value := DoValue(step, default, None, Rethrow, validateStep, "Do");
    }

    /** Do(Action): the action becomes a fresh FakeStep's Operations, run with no set-up and without validation. */
    method DoAction(outOfStepOperations: () -> Outcome<Error>, exceptionHandlingMode: HandlingMode := Rethrow,
                    callingMethodName: string := "") returns (outcome: Outcome<Error>, step: Step<()>)
      modifies kernel
      ensures fresh(step) && step.stepType == FakeStep && step.declaredModules == []
      ensures step.code == FakeStepCode(() => AsResult(outOfStepOperations()))
      ensures var e := RunSpec(RunnerSetting(), FakeStep, [], step.code,
                               Start(FreshStepData, NotExecuted, None, old(kernel.bindings), old(kernel.nextInstance)),
                               RunArgs(executor, callingMethodName, None, exceptionHandlingMode, false),
                               (), RunSetUpMessage(FakeStep));
              Ended(step, kernel, e) && outcome == AsOutcome(e.result)
    {
      step := new Step<()>(FakeStep, [], FakeStepCode(() => AsResult(outOfStepOperations())), FreshStepData);
      outcome := Do(step, None, exceptionHandlingMode, false, callingMethodName);
    }

    /** Do(Func): the function becomes a fresh FakeStepWithReturnValue's operations; the runner's value is returned as is. */
    method DoFunc<V>(outOfStepFuncWithReturnValue: () -> Result<V, Error>, default: V,
                     exceptionHandlingMode: HandlingMode := Rethrow, callingMethodName: string := "")
      returns (value: Result<V, Error>, step: Step<V>)
      modifies kernel
      ensures fresh(step) && step.stepType == FakeStepWithReturnValue && step.declaredModules == []
      ensures step.code == FakeStepCode(outOfStepFuncWithReturnValue)
      ensures var e := RunSpec(RunnerSetting(), FakeStepWithReturnValue, [], step.code,
                               Start(FreshStepData, NotExecuted, None, old(kernel.bindings), old(kernel.nextInstance)),
                               RunArgs(executor, callingMethodName, None, exceptionHandlingMode, false),
                               default, ValueSetUpMessage(FakeStepWithReturnValue));
              Ended(step, kernel, e) && value == e.result
    {
      step := new Step<V>(FakeStepWithReturnValue, [], FakeStepCode(outOfStepFuncWithReturnValue), FreshStepData);
      value := DoValue(step, default, None, exceptionHandlingMode, false, callingMethodName);
    }

    /** GetStep: the resolved step with the set-up action applied once; it is not run. */
    method GetStep<V>(step: Step<V>, stepSetupAction: Option<StepData -> Result<StepData, Error>> := None)
      returns (outcome: Outcome<Error>)
      modifies step
      ensures stepSetupAction.None? ==> outcome == Pass && step.data == old(step.data)
      ensures stepSetupAction.Some? ==> outcome == AsOutcome(stepSetupAction.value(old(step.data)))
      ensures stepSetupAction.Some? && outcome == Pass ==> step.data == stepSetupAction.value(old(step.data)).value
      ensures step.state == old(step.state) && step.lastException == old(step.lastException)
    {
      outcome := ApplySetUp(step, stepSetupAction);
    }

    /** RegisterStepModule<T>(makeReusable), false when omitted: one type, the empty context. */
    method RegisterStepModule(moduleType: TypeRef, makeReusable: bool := false)
      modifies this`registrations
      ensures registrations == old(registrations) + [RegisterStepModules("", makeReusable, [moduleType])]
    {
      registrations := registrations + [RegisterStepModules("", makeReusable, [moduleType])];
    }

    /** RegisterStepModules([makeReusable,] types): the empty context; not reusable when the flag is omitted. */
    method RegisterStepModuleTypes(moduleTypes: seq<TypeRef>, makeReusable: bool := false)
      modifies this`registrations
      ensures registrations == old(registrations) + [RegisterStepModules("", makeReusable, moduleTypes)]
    {
      registrations := registrations + [RegisterStepModules("", makeReusable, moduleTypes)];
    }

    /** UnregisterStepModule<T>: UnregisterStepModules of the one type. */
    method UnregisterStepModule(moduleType: TypeRef)
      modifies this`registrations
      ensures registrations == old(registrations) + [UnregisterStepModules([moduleType])]
    {
      UnregisterStepModuleTypes([moduleType]);
    }

    method UnregisterStepModuleTypes(moduleTypes: seq<TypeRef>)
      modifies this`registrations
      ensures registrations == old(registrations) + [UnregisterStepModules(moduleTypes)]
    {
      registrations := registrations + [UnregisterStepModules(moduleTypes)];
    }
  }

  /**
   * A fake step's outcome is its operations' outcome under Rethrow when no
   * validator objects and every module hook passes: the wrapping adds nothing.
   */
  lemma FakeStepReportsOperations<V>(hooks: ModuleHooks, modules: seq<Instance>, operations: () -> Result<V, Error>, s: Start,
                                     default: V, executor: nat, name: string, message: string)
    requires forall i :: 0 <= i < |modules| ==> hooks.before(modules[i], Bound(s.data, RunArgs(executor, name, None, Rethrow, false))).Pass?
    requires forall i, st :: 0 <= i < |modules| ==> hooks.after(modules[i], Bound(s.data, RunArgs(executor, name, None, Rethrow, false)), st).Pass?
    ensures var e := RunSpec(Setting(modules, [], [], hooks), FakeStep, [], FakeStepCode(operations), s,
                             RunArgs(executor, name, None, Rethrow, false), default, message);
            e.result == operations()
  {
    var args := RunArgs(executor, name, None, Rethrow, false);
    var d := Bound(s.data, args);
    var r := Setting(modules, [], [], hooks);
    FilterAll(modules, AcceptTest([], FakeStep, d));
    assert AbsentTypes([], modules) == [];
    assert StepModules(r, FakeStep, [], d, s) == modules;
    FirstFailingAt(modules, BeforeFailure(hooks, d), |modules|);
    if operations().Success? {
      SuccessfulExecution(hooks, FakeStepCode(operations), d, modules, Resolved(r, FakeStep, [], d, s), default);
    } else {
      FailedExecution(hooks, FakeStepCode(operations), d, modules, Resolved(r, FakeStep, [], d, s), default);
    }
  }
}
