# TestUnium core, modelled in Dafny

TestUnium is a C# test-orchestration framework for browser tests. A test class is configured by
*customization attributes*. The framework picks the attributes that apply to the test type and
orders them with `CustomizationAttribute.CompareTo`. Only the last attribute of each `[TheOnly]` group
survives. Each survivor is applied once, and its type is recorded as invoked or hidden.

Work is done in *steps*, which `StepRunnerBase` runs through a module pipeline:
1. set-up action;
2. step validators (`Contract.Assert`);
3. `PreExecute`;
4. module selection and resolution;
5. `BeforeExecution` hooks;
6. `Execute`;
7. `AfterExecution` hooks;
8. rethrow or swallow.

Two `StepDrivenTest` facades hand steps to a runner. The `Instantiation` one also registers and
unregisters step modules in the container. A session wraps a test run in plugin `OnStart`/`OnEnd`
hooks.

The concrete customizations are modelled as well:
- the two `SettingsAttribute`s (load, create or default a settings object);
- `ForbiddenBrowsers`, `DefaultBrowser` and `DetectBrowser`;
- the demo `ReusableCounterModule`.

How the C# becomes Dafny:
- **Objects whose fields change in place** are classes with `modifies` frames: the step, the runner,
  the kernel's bindings, the session, the customization-driven test, and the settings and browser
  contexts.
- **Each such method** is proved against a specification function of the old state. Examples:
  `RunSpec` for a whole step run, `StartSpec`/`EndSpec` for a session, `Registered`/`Unregistered`
  for module registration, `CustomizeSpec` for settings.
- **Lemmas** state what the source promises about those functions.
- **Loops in the source** (`foreach`, `List.ForEach`, `for`) are `while`/`for` loops with
  invariants.
- **An exception** is the `Fail`/`Failure` case of an `Outcome`/`Result`.
- **Reflection facts** come in as a `Universe` value: subclassing, implemented interfaces and
  attributes.
- **The dependency-injection container** is a `Kernel`: a list of bindings with a counter for
  fresh instances.

Two facts about cancellation shape the driver:
- A skipped (cancelled) attribute is recorded in neither the invoked nor the hidden list
  (CustomizationAttributeDrivenTest.cs:49).
- `CheckCancellationClause` as written always returns false, and ignores a collection that is not a
  `List<Type>` (see Findings). The driver therefore takes the cancellation test as a parameter and
  proves its properties both for the literal test and for the intended one.

## Model

| member | source | states |
|---|---|---|
| CustomizationAttributes.NewCustomizationAttribute | src/TestUnium/Customization/CustomizationAttribute.cs:19-31 | a new attribute is visible, keeps the target and the cancellation collection, and takes its priority from the class's `[Priority]` when present, else from the argument |
| CustomizationAttributes.NewCustomizationAttributeWithoutCancellation | src/TestUnium/Customization/CustomizationAttribute.cs:17 | the short constructor passes an empty `List<Type>` as the cancellation collection, with the same priority rule |
| CustomizationAttributes.GetCustomizationTargetType | src/TestUnium/Customization/CustomizationAttribute.cs:65 | the attribute's target type; that it is the constructor's argument is stated by TargetTypeIsConstructorArgument |
| CustomizationAttributes.TargetTypeIsConstructorArgument | src/TestUnium/Customization/CustomizationAttribute.cs:65 | `GetCustomizationTargetType` returns the constructor's target type, and the attribute starts visible |
| CustomizationAttributes.ClauseResultIsFalse | src/TestUnium/Customization/CustomizationAttribute.cs:33-45 | the clause's result stays false whatever the cancellation items and the invocation list |
| CustomizationAttributes.CheckCancellationClause | src/TestUnium/Customization/CustomizationAttribute.cs:33-45 | the loop over the cancellation list (none when the collection is not a `List<Type>`) returns the fold of the clause, which is always false |
| CustomizationAttributes.CancellationClauseIgnoresMatch | src/TestUnium/Customization/CustomizationAttribute.cs:39-41 | an attribute cancelled by NoSettingsAttribute is not reported cancelled when NoSettingsAttribute was invoked |
| CustomizationAttributes.CheckCancellationClauseCorrected | src/TestUnium/Customization/CustomizationAttribute.cs:33-45 | corrected clause, fixing both line 36 and line 41: true iff some item of the cancellation collection, whatever its runtime type, has its name among the invoked types' names |
| CustomizationAttributes.CompareTo | src/TestUnium/Customization/CustomizationAttribute.cs:52-63 | throws IncorrectCustomizationTargetType for this target first, then the other; on success the value lies within the UInt16 difference range |
| CustomizationAttributes.SubclassTargetSortsAfter | src/TestUnium/Customization/CustomizationAttribute.cs:60-61 | an attribute for a strict subclass target compares 1 against one for its base, and the base compares -1 |
| CustomizationAttributes.ZeroPrioritySortsLast | src/TestUnium/Customization/CustomizationAttribute.cs:62 | with unrelated targets, priority 0 compares greater than any nonzero priority, in both directions |
| CustomizationAttributes.NonzeroPrioritiesAscend | src/TestUnium/Customization/CustomizationAttribute.cs:62 | with unrelated targets and nonzero priorities, the sign of the comparison is the sign of the priority difference |
| CustomizationAttributes.AntisymmetricExceptZeroPairs | src/TestUnium/Customization/CustomizationAttribute.cs:52-63 | the comparison is antisymmetric except for two unrelated priority-0 attributes, which each compare greater |
| CustomizationAttributes.ZeroPriorityGreaterThanItself | src/TestUnium/Customization/CustomizationAttribute.cs:62 | a priority-0 attribute compares 1 against itself |
| CustomizationAttributes.CompareToHasCycle | src/TestUnium/Customization/CustomizationAttribute.cs:60-62 | three attributes (Sub 1, Base 9, Other 5) compare greater round a cycle, so the order is not transitive |
| CustomizationDriver.Candidates | src/TestUnium/Customization/CustomizationAttributeDrivenTest.cs:40-42 | the candidates are exactly the declared ICustomizer attributes whose target accepts the type, in declaration order |
| CustomizationDriver.SortFailure | src/TestUnium/Customization/CustomizationAttributeDrivenTest.cs:43 | sorting fails iff there are two or more candidates and one has a target that is not an ICustomizationAttributeDrivenTest |
| CustomizationDriver.LastInGroup | src/TestUnium/Customization/CustomizationAttributeDrivenTest.cs:66 | the result is a TheOnly member of the group with no later member after it, or None when the group is empty |
| CustomizationDriver.TheOnlyPolicy | src/TestUnium/Customization/CustomizationAttributeDrivenTest.cs:62-77 | the specification of the policy, element by element: an attribute stays iff it is not TheOnly or is the last of its group; its properties are stated by TheOnlyPolicyKeepsLastOfEachGroup |
| CustomizationDriver.TheOnlyPolicyKeepsLastOfEachGroup | src/TestUnium/Customization/CustomizationAttributeDrivenTest.cs:62-77 | the policy keeps the order, every attribute that is not TheOnly and the last member of each group, and no other TheOnly member |
| CustomizationDriver.TheOnlyExclusivity | src/TestUnium/Customization/CustomizationAttributeDrivenTest.cs:62-77 | of three attributes of one TheOnly group, only the last remains |
| CustomizationDriver.GroupLasts | src/TestUnium/Customization/CustomizationAttributeDrivenTest.cs:66 | an attribute is in the grouped lasts iff it is the last of its TheOnlyRoot group |
| CustomizationDriver.LastOfRootOfTheOnlys | src/TestUnium/Customization/CustomizationAttributeDrivenTest.cs:65-66 | grouping the TheOnly attributes by root finds the same last member as scanning the whole list |
| CustomizationDriver.DoomedIsNotSurviving | src/TestUnium/Customization/CustomizationAttributeDrivenTest.cs:70 | the loop's removal test holds of an element iff it does not survive the policy |
| CustomizationDriver.ApplyTheOnlyPolicy | src/TestUnium/Customization/CustomizationAttributeDrivenTest.cs:62-77 | the backward loop with `Remove` returns exactly the policy's result |
| CustomizationDriver.Record | src/TestUnium/Customization/CustomizationAttributeDrivenTest.cs:52-58 | an applied type goes to the invoked list when visible, else to the hidden list, and the lists stay disjoint and free of repeats |
| CustomizationDriver.ApplyOne | src/TestUnium/Customization/CustomizationAttributeDrivenTest.cs:46-58 | one iteration of the ForEach: skip a recorded or cancelled type, else Customize, PostCustomize and record; stated by ApplyOneEffect |
| CustomizationDriver.ApplyAll | src/TestUnium/Customization/CustomizationAttributeDrivenTest.cs:45-59 | the ForEach over the list, ended by the first exception; stated by ApplyAllStopsAfterFailure, ApplyAllOncePerType and ApplyAllSettles |
| CustomizationDriver.ApplyAllStep | src/TestUnium/Customization/CustomizationAttributeDrivenTest.cs:45-59 | after a prefix without exception, one more element is one more iteration |
| CustomizationDriver.ApplyAllStopsAfterFailure | src/TestUnium/Customization/CustomizationAttributeDrivenTest.cs:45-59 | once an attribute throws, the rest of the list is not visited |
| CustomizationDriver.ApplyOneEffect | src/TestUnium/Customization/CustomizationAttributeDrivenTest.cs:47-58 | one iteration does nothing, or customizes a type not yet recorded and records it when nothing threw |
| CustomizationDriver.ApplyAllKeepsTrackerValid | src/TestUnium/Customization/CustomizationAttributeDrivenTest.cs:45-59 | the invoked and hidden lists only grow and stay valid |
| CustomizationDriver.ApplyAllOncePerType | src/TestUnium/Customization/CustomizationAttributeDrivenTest.cs:47-58 | each attribute type is customized at most once, never one already recorded, and after a run without exception every customized type is recorded |
| CustomizationDriver.SettledListIsInert | src/TestUnium/Customization/CustomizationAttributeDrivenTest.cs:47-49 | a list whose attributes are all recorded or cancelled calls nothing and changes nothing |
| CustomizationDriver.ApplyAllSettles | src/TestUnium/Customization/CustomizationAttributeDrivenTest.cs:45-59 | after a run without exception the list is settled, given a cancellation test that stays true as more types are invoked |
| CustomizationDriver.ReapplicationIsInert | src/TestUnium/Customization/CustomizationAttributeDrivenTest.cs:47-48 | applying the same list again after a run without exception changes nothing |
| CustomizationDriver.CancellationByInvokedOnly | src/TestUnium/Customization/CustomizationAttributeDrivenTest.cs:49 | with the intended cancellation test, an attribute cancelled by an invoked type is skipped, and one whose canceller was only hidden is applied |
| CustomizationDriver.LiteralCancellationIsMonotone | src/TestUnium/Customization/CustomizationAttribute.cs:33-45 | the cancellation test as written meets the monotonicity premise of the lemmas above |
| CustomizationDriver.CustomizationAttributeDrivenTest.Sorted | src/TestUnium/Customization/CustomizationAttributeDrivenTest.cs:40-43 | the candidates for the target type (GetType() when none is given) in the order the class's fixed sort leaves them |
| CustomizationDriver.CustomizationAttributeDrivenTest.ApplyCustomization | src/TestUnium/Customization/CustomizationAttributeDrivenTest.cs:33-60 | a comparer failure changes nothing; otherwise the fields become the result of applying the policy's survivors in the class's fixed sort order; a passing run leaves its list settled (monotone cancellation), and from a settled state a call passes and changes no field, so a second call with the same target type is inert |
| CustomizationDriver.CustomizationAttributeDrivenTest.ApplyInOrder | src/TestUnium/Customization/CustomizationAttributeDrivenTest.cs:45-59 | the ForEach leaves the invoked and hidden lists, the context and the call log exactly as the fold `ApplyAll` does |
| CustomizationDriver.CustomizationAttributeDrivenTest.GetAppliedCustomizations | src/TestUnium/Customization/CustomizationAttributeDrivenTest.cs:79 | the returned list (the hidden one) holds no type recorded as invoked |
| StepRunning.ValidatedModulesKeepAccepted | src/TestUnium/Stepping/StepRunnerBase.cs:40-62 | the validated modules keep the registered order, and a module is kept iff every module validator accepts it |
| StepRunning.ResolveAbsentEffect | src/TestUnium/Stepping/StepRunnerBase.cs:64-77 | each absent declared type yields one fresh instance, in order, and its temporary bindings are gone afterwards, along with any earlier binding of that type |
| StepRunning.ResolutionRestoresKernel | src/TestUnium/Stepping/StepRunnerBase.cs:64-77 | when the kernel had no binding for the absent types, its bindings end as they began |
| StepRunning.SetUpFailureAlwaysPropagates | src/TestUnium/Stepping/StepRunnerBase.cs:101-111 | a throwing set-up action is wrapped in StepSetUpException and rethrown whatever the mode; nothing else runs and the step's state is unchanged |
| StepRunning.InvalidStepAborts | src/TestUnium/Stepping/StepRunnerBase.cs:113-119 | the first invalid step validation aborts with its message, after the earlier validators and before PreExecute, resolution and hooks |
| StepRunning.ValidateStepIsIgnored | src/TestUnium/Stepping/StepRunnerBase.cs:95-140 | the `validateStep` argument makes no difference to a run |
| StepRunning.BeforeFailureSkipsExecution | src/TestUnium/Stepping/StepRunnerBase.cs:124-127 | a throwing BeforeExecution propagates after the earlier hooks; Execute and the After hooks do not run and the state is unchanged |
| StepRunning.SuccessfulExecution | src/TestUnium/Stepping/StepRunnerBase.cs:127-139 | after a successful Execute the state is Executed, every AfterExecution(Executed) runs once in module order, and Execute's value is returned |
| StepRunning.FailedExecution | src/TestUnium/Stepping/StepRunnerBase.cs:127-139 | a throwing Execute sets Failed and LastException, runs every AfterExecution(Failed), and rethrows only in Rethrow mode, else returns the default |
| StepRunning.AfterFailureWins | src/TestUnium/Stepping/StepRunnerBase.cs:132-139 | a throwing AfterExecution propagates its own exception, even over the step's, and later hooks do not run |
| StepRunning.ModeIsReadAfterSetUp | src/TestUnium/Stepping/StepRunnerBase.cs:101-139 | a set-up action that switches the mode to Continue silences a failing step's exception |
| StepRunning.StepRunner.constructor | src/TestUnium/Stepping/StepRunnerBase.cs:28-38 | the runner starts with all registered modules when there is no session id, else with the session context's modules |
| StepRunning.StepRunner.GetValidatedModulesForStep | src/TestUnium/Stepping/StepRunnerBase.cs:40-62 | the nested loops return the validated modules |
| StepRunning.StepRunner.GetAbsendStepDefinedModules | src/TestUnium/Stepping/StepRunnerBase.cs:64-77 | the loop of Bind, Get and Unbind returns the resolved instances and leaves the kernel as `ResolveAbsent` says |
| StepRunning.StepRunner.BeforeExecution | src/TestUnium/Stepping/StepRunnerBase.cs:79-85 | the hooks run in module order up to and including the first that throws, whose exception is returned |
| StepRunning.StepRunner.AfterExecution | src/TestUnium/Stepping/StepRunnerBase.cs:87-93 | the hooks run with the given state in module order up to the first that throws, whose exception is returned |
| StepRunning.StepRunner.RunStepValidators | src/TestUnium/Stepping/StepRunnerBase.cs:113-119 | the validators run in order up to the first invalid one, whose message is the failure |
| StepRunning.StepRunner.Run | src/TestUnium/Stepping/StepRunnerBase.cs:95-140 | the step's data, state, LastException, the kernel and the event trace end as `RunSpec` says, and the outcome is its result |
| StepRunning.RunSpec | src/TestUnium/Stepping/StepRunnerBase.cs:95-140 | the whole run as a function of the old step and kernel: metadata bound, set-up, validators, PreExecute, module resolution, hooks, Execute and the rethrow decision; its properties are the StepRunning lemmas above |
| StepRunning.FullName | src/TestUnium/Stepping/StepRunnerBase.cs:156 | the step type's ToString(): namespace, a dot and the name, or the bare name for a type in the global namespace |
| StepRunning.StepRunner.RunWithReturnValue | src/TestUnium/Stepping/StepRunnerBase.cs:142-187 | as Run, returning Execute's value or the default, with the step's full name in a set-up failure |
| StepRunning.StepRunner.Pipeline | src/TestUnium/Stepping/StepRunnerBase.cs:95-140 | the shared body of both runs meets `RunSpec` |
| StepRunning.StepRunner.ValidateAndExecute | src/TestUnium/Stepping/StepRunnerBase.cs:113-139 | from the validators on, the run meets `ValidatedRun` |
| StepRunning.StepRunner.ResolveModules | src/TestUnium/Stepping/StepRunnerBase.cs:121-122 | the step's modules are the validated registered ones followed by the resolved absent declared ones |
| StepRunning.StepRunner.HookAndExecute | src/TestUnium/Stepping/StepRunnerBase.cs:124-139 | the Before hooks, Execute and the After hooks meet `HookedRun` |
| StepRunning.StepRunner.AddModules | src/TestUnium/Stepping/StepRunnerBase.cs:189-195 | null or empty leaves the modules; otherwise they are appended in order |
| StepRunning.StepRunner.RemoveModules | src/TestUnium/Stepping/StepRunnerBase.cs:197-206 | null leaves the modules; otherwise the first occurrence of each given module is removed, in turn |
| Stepping.ApplySetUp | src/TestUnium/Stepping/StepDrivenTest.cs:91-96 | the set-up action runs once on the step, or not at all when there is none; a throwing action leaves the step's data unchanged |
| Stepping.StepDrivenTest.constructor | src/TestUnium/Stepping/StepDrivenTest.cs:13-17 | the test binds itself as the IStepExecutor singleton, and nothing else changes |
| Stepping.StepDrivenTest.Do | src/TestUnium/Stepping/StepDrivenTest.cs:37-46 | a fresh runner runs the step with the given set-up, mode, validation flag and caller; the step and kernel end as `RunSpec` says |
| Stepping.StepDrivenTest.DoWithMode | src/TestUnium/Stepping/StepDrivenTest.cs:47-49 | no set-up, the given mode, and the caller is reported as "Do" |
| Stepping.StepDrivenTest.DoValidating | src/TestUnium/Stepping/StepDrivenTest.cs:50-52 | no set-up, Rethrow, and the caller is reported as "Do" |
| Stepping.StepDrivenTest.DoValue | src/TestUnium/Stepping/StepDrivenTest.cs:55-65 | as Do, returning the runner's value |
| Stepping.StepDrivenTest.DoValueWithMode | src/TestUnium/Stepping/StepDrivenTest.cs:66-68 | no set-up, the given mode, caller "Do", the runner's value |
| Stepping.StepDrivenTest.DoValueValidating | src/TestUnium/Stepping/StepDrivenTest.cs:69-71 | no set-up, Rethrow, caller "Do", the runner's value |
| Stepping.StepDrivenTest.DoAction | src/TestUnium/Stepping/StepDrivenTest.cs:73-80 | a fresh FakeStep carries the action and is run with no set-up and without validation |
| Stepping.StepDrivenTest.DoFunc | src/TestUnium/Stepping/StepDrivenTest.cs:82-89 | a fresh FakeStepWithReturnValue carries the function; the runner's value is returned |
| Stepping.StepDrivenTest.GetStep | src/TestUnium/Stepping/StepDrivenTest.cs:91-96 | the set-up action is applied once and the step is not run |
| Stepping.StepDrivenTest.RegisterStepModule | src/TestUnium/Stepping/StepDrivenTest.cs:19-23 | one registration of the one type, in the empty context, with the flag (false when omitted) |
| Stepping.StepDrivenTest.RegisterStepModuleTypes | src/TestUnium/Stepping/StepDrivenTest.cs:25-29 | one registration of the types, in the empty context, with the flag |
| Stepping.StepDrivenTest.UnregisterStepModule | src/TestUnium/Stepping/StepDrivenTest.cs:31-35 | one unregistration of the one type |
| Stepping.StepDrivenTest.UnregisterStepModuleTypes | src/TestUnium/Stepping/StepDrivenTest.cs:31-35 | one unregistration of the types |
| Stepping.FakeStepReportsOperations | src/TestUnium/Stepping/StepDrivenTest.cs:73-89 | with no validators and passing hooks, a fake step's result under Rethrow is its operations' result |
| InstantiationStepping.Registered | src/TestUnium/Instantiation/Stepping/StepDrivenTest.cs:36-49 | the registration loop as written, as the bindings it adds and how it ends; stated by RegistrationStopsEarly |
| InstantiationStepping.StopIndex | src/TestUnium/Instantiation/Stepping/StepDrivenTest.cs:38-48 | every type before the stop is a non-reusable module, and the type at the stop is not a module or is reusable |
| InstantiationStepping.RegistrationStopsEarly | src/TestUnium/Instantiation/Stepping/StepDrivenTest.cs:36-49 | the types before the stop get transient bindings; a non-module at the stop throws IncorrectInheritance and keeps them; a reusable type gets a singleton binding and the later types are skipped |
| InstantiationStepping.LastProviding | src/TestUnium/Instantiation/Stepping/StepDrivenTest.cs:63-74 | the position found provides the type and no later binding does, or it is -1 |
| InstantiationStepping.RemovedAtTakesOne | src/TestUnium/Instantiation/Stepping/StepDrivenTest.cs:75-79 | removing at a position takes exactly that binding out |
| InstantiationStepping.UnregisterRemovesAtMostOnePerType | src/TestUnium/Instantiation/Stepping/StepDrivenTest.cs:56-82 | unregistering removes at most one binding per type, and only IStepModule type bindings to one of the types |
| InstantiationStepping.Unregistered | src/TestUnium/Instantiation/Stepping/StepDrivenTest.cs:56-82 | the kernel's bindings after unregistering: for each type in turn, the last IStepModule binding to exactly that type removed; stated by UnregisterRemovesAtMostOnePerType and UnregisterWithoutMatch |
| InstantiationStepping.UnregisterWithoutMatch | src/TestUnium/Instantiation/Stepping/StepDrivenTest.cs:56-82 | when no binding provides the type, nothing changes |
| InstantiationStepping.StepDrivenTest.constructor | src/TestUnium/Instantiation/Stepping/StepDrivenTest.cs:22-25 | the test binds itself as the IStepDrivenTest singleton |
| InstantiationStepping.StepDrivenTest.RegisterStepModules | src/TestUnium/Instantiation/Stepping/StepDrivenTest.cs:32-49 | the loop appends exactly the bindings `Registered` gives and ends with its outcome |
| InstantiationStepping.StepDrivenTest.RegisterStepModule | src/TestUnium/Instantiation/Stepping/StepDrivenTest.cs:27-30 | the test's own runtime type is registered, whatever the type argument |
| InstantiationStepping.ReusableModuleEndsRegistration | src/TestUnium/Instantiation/Stepping/StepDrivenTest.cs:42-46 | with two module types and the reusable flag, only the first is bound, where the corrected registration binds both |
| InstantiationStepping.CorrectedRegistersEveryModule | src/TestUnium/Instantiation/Stepping/StepDrivenTest.cs:36-49 | corrected registration passes iff every type is a module, and binds each type before the first non-module in its own scope |
| InstantiationStepping.RegisterStepModuleIgnoresTypeArgument | src/TestUnium/Instantiation/Stepping/StepDrivenTest.cs:27-30 | for a test type that is not a module, registering it fails with IncorrectInheritance, while registering the module type T would pass |
| InstantiationStepping.StepDrivenTest.RegisterStepModulesCorrected | src/TestUnium/Instantiation/Stepping/StepDrivenTest.cs:36-49 | the loop without the early return appends exactly the bindings of the corrected registration |
| InstantiationStepping.StepDrivenTest.RegisterStepModuleCorrected | src/TestUnium/Instantiation/Stepping/StepDrivenTest.cs:27-30 | T itself is bound, in its scope, or IncorrectInheritance names T when it is not a module |
| InstantiationStepping.StepDrivenTest.UnregisterStepModules | src/TestUnium/Instantiation/Stepping/StepDrivenTest.cs:56-82 | for each type in turn the last IStepModule binding to exactly it is removed |
| InstantiationStepping.StepDrivenTest.UnregisterStepModule | src/TestUnium/Instantiation/Stepping/StepDrivenTest.cs:51-54 | the same for one type |
| InstantiationStepping.StepDrivenTest.Do | src/TestUnium/Instantiation/Stepping/StepDrivenTest.cs:84-92 | modules are registered first, then the set-up is applied; a throwing set-up skips the run; otherwise the runner's outcome is returned |
| InstantiationStepping.StepDrivenTest.DoValue | src/TestUnium/Instantiation/Stepping/StepDrivenTest.cs:94-101 | no module registration; set-up, then the runner's value |
| InstantiationStepping.StepDrivenTest.DoAction | src/TestUnium/Instantiation/Stepping/StepDrivenTest.cs:103-109 | a fresh FakeStep carrying the action is run without module registration |
| InstantiationStepping.StepDrivenTest.DoFunc | src/TestUnium/Instantiation/Stepping/StepDrivenTest.cs:111-117 | a fresh FakeStepWithReturnValue carrying the function is run, and the runner's value is returned |
| InstantiationStepping.StepDrivenTest.Fill | src/TestUnium/Instantiation/Stepping/StepDrivenTest.cs:119-124 | the set-up action is applied once and the step is not run |
| Sessions.ForEachPlugin | src/TestUnium/Sessioning/SessionBase.cs:88 | a sweep visits at most every plugin, all of them when it passes, and at least the throwing one when it fails |
| Sessions.SweepWithoutFailure | src/TestUnium/Sessioning/SessionBase.cs:88 | when no hook throws, the sweep passes |
| Sessions.EndAlwaysRuns | src/TestUnium/Sessioning/SessionBase.cs:84-102 | End runs after Start whatever happened: every OnEnd in order, then the thread's entry is removed, and a failed OnStart's exception surfaces |
| Sessions.FailedStartSkipsOperations | src/TestUnium/Sessioning/SessionBase.cs:86-93 | a throwing OnStart skips the later OnStart calls and the operations; End still runs |
| Sessions.ForEachPluginPrefix | src/TestUnium/Sessioning/SessionBase.cs:88 | a sweep that stopped within the first k plugins is that sweep |
| Sessions.Session.constructor | src/TestUnium/Sessioning/SessionBase.cs:22-30 | a new session has no plugins and a fresh id |
| Sessions.Session.Using | src/TestUnium/Sessioning/SessionBase.cs:33-42 | plugins are appended in order and the session itself is returned |
| Sessions.Session.UsingNew | src/TestUnium/Sessioning/SessionBase.cs:56-61 | one new plugin instance is appended and the session returned |
| Sessions.Session.Configure | src/TestUnium/Sessioning/SessionBase.cs:44-48 | the action runs once on the context, and the session is returned |
| Sessions.Session.ConfigureContainer | src/TestUnium/Sessioning/SessionBase.cs:50-54 | the action runs once on the context's container |
| Sessions.Session.Include | src/TestUnium/Sessioning/SessionBase.cs:70-77 | one registration of the types with the flag, false when omitted |
| Sessions.Session.IncludeModule | src/TestUnium/Sessioning/SessionBase.cs:78-81 | one registration of the module type with the flag |
| Sessions.Session.GetSessionId | src/TestUnium/Sessioning/SessionBase.cs:104 | the session id's string form |
| Sessions.Session.ForEach | src/TestUnium/Sessioning/SessionBase.cs:84-102 | the loop leaves the context, outcome and trace of `ForEachPlugin` |
| Sessions.Session.End | src/TestUnium/Sessioning/SessionBase.cs:97-102 | every OnEnd in order, then the thread's entry is removed, as `EndSpec` says |
| Sessions.EndSpec | src/TestUnium/Sessioning/SessionBase.cs:97-102 | End as a function of the plugins and the sessions map: every OnEnd in order up to the first that throws, then the thread's entry removed when none threw |
| Sessions.StartSpec | src/TestUnium/Sessioning/SessionBase.cs:84-95 | Start as a function: OnStart calls, then the operations when none threw, then End, whose exception replaces the try block's; stated by EndAlwaysRuns and FailedStartSkipsOperations |
| Sessions.Session.Start | src/TestUnium/Sessioning/SessionBase.cs:84-95 | try (OnStart calls, operations) finally End, as `StartSpec` says; an exception from End replaces the try block's |
| SettingsCustomization.Decide | src/TestUnium/Settings/SettingsAttribute.cs:41-57 | which branch Customize takes from the file's existence and the two flags; the table is stated by DecisionTable |
| SettingsCustomization.Decided | src/TestUnium/Settings/SettingsAttribute.cs:41-60 | the outcome, settings and files each branch leaves, post-initialization included |
| SettingsCustomization.CustomizeSpec | src/TestUnium/Settings/SettingsAttribute.cs:32-61 | Customize as a function of the old state: the cast failure, the path, then the branch; stated by PostInitializationExactlyOnce, FileWrittenOnlyWhenMissing and LoadedFromExistingFile |
| SettingsCustomization.DecisionTable | src/TestUnium/Settings/SettingsAttribute.cs:41-57 | the file is loaded iff it exists and loading is on, created iff it is missing and creation is on, and otherwise the fresh instance is kept |
| SettingsCustomization.SettingsFilePath | src/TestUnium/Settings/SettingsAttribute.cs:36-38 | the path is the argument after the first settings flag when that flag is not last, else "settings.json" |
| SettingsCustomization.NewSettingsAttribute | src/TestUnium/Settings/SettingsAttribute.cs:10-30 | a type that is not an ISettingsSource throws IncorrectCustomizationSourceType naming SettingsBase; otherwise the attribute targets SettingsDrivenTest, is cancelled by NoSettingsAttribute, is TheOnly and has the Settings priority |
| SettingsCustomization.ArrayCancellationIsIgnored | src/TestUnium/Settings/SettingsAttribute.cs:20-23 | the attribute's cancellation collection names NoSettingsAttribute, yet the items the clause iterates are none, because the array is not a List<Type> |
| SettingsCustomization.CorrectedClauseCancelsSettingsAttribute | src/TestUnium/Settings/SettingsAttribute.cs:20-23 | with the corrected clause, the attribute is cancelled iff a type named NoSettingsAttribute was invoked |
| SettingsCustomization.PostInitializationExactlyOnce | src/TestUnium/Settings/SettingsAttribute.cs:34-60 | whenever Customize completes, the final settings object of the configured type had PostInitializationAction called exactly once |
| SettingsCustomization.FileWrittenOnlyWhenMissing | src/TestUnium/Settings/SettingsAttribute.cs:49-57 | files change only when the file is missing and creation is on, and then exactly the new instance's JSON is written at the path |
| SettingsCustomization.LoadedFromExistingFile | src/TestUnium/Settings/SettingsAttribute.cs:41-48 | an existing file with loading on gives the deserialized object and writes nothing |
| SettingsCustomization.Customize | src/TestUnium/Settings/SettingsAttribute.cs:32-61 | the assignments leave the outcome, the test's Settings and the files as `CustomizeSpec` says, including the cast failure for a non-SettingsBase type |
| InstantiationSettings.NewSettingsAttribute | src/TestUnium/Instantiation/Settings/SettingsAttribute.cs:10-30 | a type that is not an ISettings throws IncorrectInheritance([name], [SettingsBase]); otherwise NoSettingsAttribute cancels it, it is TheOnly and has the Settings priority |
| InstantiationSettings.AgreesWithSettingsVariant | src/TestUnium/Instantiation/Settings/SettingsAttribute.cs:32-57 | for a SettingsBase type and the same path, this Customize behaves exactly like the TestUnium.Settings one |
| InstantiationSettings.PostDeserializationExactlyOnce | src/TestUnium/Instantiation/Settings/SettingsAttribute.cs:34-56 | PostDeserializationAction ran exactly once iff Customize completed; a failed deserialization leaves the created instance |
| InstantiationSettings.Customize | src/TestUnium/Instantiation/Settings/SettingsAttribute.cs:32-57 | the assignments leave the outcome, the Settings and the files as `CustomizeSpec` says |
| InstantiationSettings.CustomizeSpec | src/TestUnium/Instantiation/Settings/SettingsAttribute.cs:32-57 | Customize as a function of the path and the files, the same branches as the TestUnium.Settings variant; stated by AgreesWithSettingsVariant and PostDeserializationExactlyOnce |
| Browsing.BrowserAttribute | src/TestUnium/Instantiation/Browsing/ForbiddenBrowsersAttribute.cs:10-15 | a browser attribute targets WebDriverDrivenTest with its class's priority and no cancellation |
| Browsing.CheckForbidden | src/TestUnium/Instantiation/Browsing/ForbiddenBrowsersAttribute.cs:20-25 | an array as long as the Browser enumeration throws NoAllowedBrowsers first; otherwise it throws BrowserNotAllowed(current) iff the current browser is in the array |
| Browsing.NothingForbiddenPasses | src/TestUnium/Instantiation/Browsing/ForbiddenBrowsersAttribute.cs:20-25 | an empty array never throws |
| Browsing.DuplicatesForbidEverything | src/TestUnium/Instantiation/Browsing/ForbiddenBrowsersAttribute.cs:22-23 | one browser repeated as many times as there are browsers throws NoAllowedBrowsers while another browser is allowed |
| Browsing.CheckForbiddenCorrected | src/TestUnium/Instantiation/Browsing/ForbiddenBrowsersAttribute.cs:20-25 | corrected check: NoAllowedBrowsers iff every browser is forbidden; otherwise it fails iff the current browser is forbidden |
| Browsing.CorrectionAgreesWithoutDuplicates | src/TestUnium/Instantiation/Browsing/ForbiddenBrowsersAttribute.cs:22-24 | on an array of distinct browser values the corrected and the written checks agree |
| Browsing.NewDefaultBrowserAttribute | src/TestUnium/Instantiation/Browsing/DefaultBrowserAttribute.cs:9-17 | the constructor stores the browser and targets WebDriverDrivenTest with the DefaultBrowser priority |
| Browsing.CustomizeDefaultBrowser | src/TestUnium/Instantiation/Browsing/DefaultBrowserAttribute.cs:18-21 | the context's browser becomes the default browser and nothing else changes, so applying it twice is the same as once |
| Browsing.DefaultThenForbidden | src/TestUnium/Instantiation/Browsing/ForbiddenBrowsersAttribute.cs:20-25 | with DefaultBrowser (DefaultBrowserAttribute.cs:18-21) applied before ForbiddenBrowsers, an order assumed from the priorities, the browser becomes the default and the check fails iff the default browser is forbidden, unless the array is as long as the enumeration |
| BrowserDetection.TryParseBrowser | src/TestUnium.Selenium/WebDriving/Browsing/DetectBrowserAttribute.cs:16-17 | an unparseable text gives default(Browser), 0; otherwise the parsed value |
| BrowserDetection.DetectedBrowser | src/TestUnium.Selenium/WebDriving/Browsing/DetectBrowserAttribute.cs:14-18 | the browser Customize sets: the parsed argument after the flag, else the current browser's name parsed; stated by FlagSelectsBrowser, NoFlagKeepsBrowser and UnparseableArgumentGivesDefault |
| BrowserDetection.FlagSelectsBrowser | src/TestUnium.Selenium/WebDriving/Browsing/DetectBrowserAttribute.cs:14-17 | the browser named after the first flag, not last, is the one detected |
| BrowserDetection.NoFlagKeepsBrowser | src/TestUnium.Selenium/WebDriving/Browsing/DetectBrowserAttribute.cs:17-18 | without the flag before the last argument, the browser stays as it was, given that its name parses back to it |
| BrowserDetection.UnparseableArgumentGivesDefault | src/TestUnium.Selenium/WebDriving/Browsing/DetectBrowserAttribute.cs:16-18 | an argument after the flag that does not parse sets default(Browser) |
| BrowserDetection.CustomizeDetectBrowser | src/TestUnium.Selenium/WebDriving/Browsing/DetectBrowserAttribute.cs:12-19 | only the browser is written, to the detected value |
| CounterModule.WrapInt32 | demo/StepModules/ReusableCounterModule.cs:19 | truncation to Int32 is congruent modulo 2^32 and is the identity in range |
| CounterModule.Incremented | demo/StepModules/ReusableCounterModule.cs:19 | `+= 1` adds one below Int32.MaxValue and wraps to Int32.MinValue from it |
| CounterModule.IncrementsWrap | demo/StepModules/ReusableCounterModule.cs:17-20 | after n calls the counter is its start plus n, truncated to Int32 |
| CounterModule.CountsExactlyBelowOverflow | demo/StepModules/ReusableCounterModule.cs:17-20 | from a fresh module, n calls count exactly n while n is below 2^31 |
| CounterModule.CounterRejectedByInstantiationRegistration | demo/StepModules/ReusableCounterModule.cs:7-12 | the counter implements the TestUnium.Stepping.Modules IStepModule, not the Instantiation one, so the Instantiation loop fails on it with IncorrectInheritance and binds nothing |
| CounterModule.InstantiationCounterRegisteredAsSingleton | src/TestUnium/Instantiation/Stepping/StepDrivenTest.cs:42-46 | a counter that implemented the Instantiation IStepModule and carried its [Reusable] would be bound as a singleton, and the loop would stop there |
| CounterModule.ReusableCounterModule.constructor | demo/StepModules/ReusableCounterModule.cs:15-16 | both counters start at 0 |
| CounterModule.ReusableCounterModule.BeforeExecution | demo/StepModules/ReusableCounterModule.cs:17-20 | the positive counter is incremented with wrap-around and the negative one is untouched |
| CounterModule.ReusableCounterModule.AfterExecution | demo/StepModules/ReusableCounterModule.cs:22-25 | the negative counter is set to -1 whatever it held, and the positive one is untouched |
| CommandLine.IndexOf | src/TestUnium/Settings/SettingsAttribute.cs:37 | Array.IndexOf: -1 iff the flag is absent, else a position holding it with no earlier occurrence |
| CommandLine.ArgAfter | src/TestUnium/Settings/SettingsAttribute.cs:37-38 | none iff no argument but the last is the flag, else the argument after its first occurrence |
| Kernels.Kernel.Bind | src/TestUnium/Stepping/StepRunnerBase.cs:71 | a binding is appended and nothing else changes |
| Kernels.Kernel.Get | src/TestUnium/Stepping/StepRunnerBase.cs:72 | a new instance of the type, with the next identity, and the bindings unchanged |
| Kernels.Kernel.Unbind | src/TestUnium/Stepping/StepRunnerBase.cs:73 | every binding of the service type is dropped, the others kept in order |
| Kernels.Kernel.GetBindings | src/TestUnium/Instantiation/Stepping/StepDrivenTest.cs:61 | exactly the bindings of the service type |
| Kernels.Kernel.RemoveBindingAt | src/TestUnium/Instantiation/Stepping/StepDrivenTest.cs:79 | exactly the binding at the position is removed |

## Left out

- Container internals: Ninject/Windsor scoping, provider resolution and ambiguous `Get` are not modelled. The kernel is a binding list, and `Get` of a self-bound type always yields a new instance.
- Steps are passed in already resolved. The runner's own `Kernel.Get<TStep>()` is not modelled.
- Module hooks, validators and set-up actions are functions of the step's data. They cannot change the step or the modules. Only set-up changes the step's data.
- Any side effect of `PreExecute` beyond its outcome is not modelled.
- A hook or action that throws has no partial effects.
- `FakeStep`, `FakeStepWithReturnValue`, `IStepRunner`, `IStepModuleRegistrationStrategy` and the `ICustomizer` invocation are not part of this model. `FakeStep.PreExecute` is taken to do nothing.
- The Instantiation facade logs its calls to the runner, and the runner's result is a parameter.
- The registration strategy's calls are logged, not run.
- `List.Sort` is a per-class function from candidate lists to permutations of them, so the same candidates always come out in the same order. The comparator is neither transitive nor reflexive (see CompareToHasCycle), so no sorted order is required of it.
- `GroupBy(...).Select(Last)` is modelled up to order, since only membership in it is consulted.
- `HasToBeCanceled` is not part of this model. `ApplyCustomization` takes the cancellation test as a parameter.
- `Contract.Assert` is modelled as an abort that carries the validator's message. Conditional compilation is not modelled.
- These are parameters:
  - `Guid.NewGuid`;
  - thread ids;
  - the command line;
  - `File.Exists`/`ReadAllText`/`WriteAllText` (a map from path to text);
  - `JsonConvert` (de)serialization;
  - `ShellHelper.TryGetArg`, which is not part of this model (its result is the path);
  - `Enum.TryParse` and `Browser.ToString`;
  - the values of `CustomizationAttributePriorities`, `CommandLineArgsConstants` and the size of the `Browser` enumeration.
- A deserializer that returns null is not modelled. The null dereference it causes in `PostInitializationAction` is not modelled either.
- The `Instantiation` `CustomizationAttribute` base and `CustomizationBase` are not part of this model. The browser attributes reuse the `TestUnium.Customization` attribute.
- `ReusableCounterModule` hooks are not wired into the runner's hook functions. The counter is modelled on its own.
- The demo registers its counter through the `TestUnium.Stepping` facade, whose `IStepModuleRegistrationStrategy` is not part of this model, so the counter's registration as a singleton there is not proved. The Instantiation loop checks the `TestUnium.Instantiation.Stepping.Modules` types, a different family, and rejects the counter.
- Concurrency is not modelled: the thread-indexed `Resolver` and the concurrent `Sessions` map (a plain map here).

## Findings

| source | as written | input that shows it | evidently intended | confidence | as-written member | corrected member |
|---|---|---|---|---|---|---|
| src/TestUnium/Customization/CustomizationAttribute.cs:39-41 | a matching cancellation item assigns `result = false`, so the clause always returns false | an attribute with cancellation list [NoSettingsAttribute] checked against the invocation list [NoSettingsAttribute] | a match sets the result to true | high, not executed | CustomizationAttributes.CancellationClauseIgnoresMatch | CustomizationAttributes.CheckCancellationClauseCorrected |
| src/TestUnium/Customization/CustomizationAttribute.cs:36 | `CancellationList as List<Type>` gives null for an array, so the clause visits no item even once line 41 is fixed | TestUnium.Settings `SettingsAttribute`, whose cancellation collection is `new[] { typeof(NoSettingsAttribute) }` (Settings/SettingsAttribute.cs:20-23), with NoSettingsAttribute invoked | the collection is read whatever its runtime type | medium, not executed | SettingsCustomization.ArrayCancellationIsIgnored | SettingsCustomization.CorrectedClauseCancelsSettingsAttribute |
| src/TestUnium/Instantiation/Browsing/ForbiddenBrowsersAttribute.cs:22-23 | NoAllowedBrowsers compares the number of array entries with the number of Browser values | `[ForbiddenBrowsers(b, b, …)]` with b repeated as many times as there are browsers, and the current browser another one | NoAllowedBrowsers only when every browser is forbidden | medium, not executed | Browsing.DuplicatesForbidEverything | Browsing.CheckForbiddenCorrected |
| src/TestUnium/Instantiation/Stepping/StepDrivenTest.cs:42-46 | `return` after binding a reusable module ends the loop, so later types are not registered | `RegisterStepModules(true, A, B)` with A and B modules binds only A | `continue` to the next type | medium, not executed | InstantiationStepping.ReusableModuleEndsRegistration | InstantiationStepping.StepDrivenTest.RegisterStepModulesCorrected |
| src/TestUnium/Instantiation/Stepping/StepDrivenTest.cs:29 | `RegisterStepModule<T>` registers `this.GetType()` instead of `typeof(T)` | `RegisterStepModule<T>()` with T an Instantiation step module, on a test class that is not one, throws IncorrectInheritance naming the test class | register `typeof(T)` | high, not executed | InstantiationStepping.RegisterStepModuleIgnoresTypeArgument | InstantiationStepping.StepDrivenTest.RegisterStepModuleCorrected |
