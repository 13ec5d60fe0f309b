/**
 * SessionBase: an ordered list of plugins around a block of operations.
 * Start runs every plugin's OnStart, then the operations, and always ends
 * the session; End runs every plugin's OnEnd and removes the current
 * thread's entry from the test's session map.
 */
module Sessions {
  import opened Base
  import opened Kernels

  /** The session context: its container's bindings and whatever else plugins and operations keep in it. */
  datatype SessionContext = SessionContext(container: seq<Binding>, values: map<string, string>)

  type ContextAction = SessionContext -> Result<SessionContext, Error>

  /** What the plugins' OnStart and OnEnd do to the context. */
  datatype PluginHooks = PluginHooks(
    onStart: (Instance, SessionContext) -> Result<SessionContext, Error>,
    onEnd: (Instance, SessionContext) -> Result<SessionContext, Error>)

  /** A call on the session's step-module registration strategy, whose implementations are not part of this model. */
  datatype IncludeCall =
    | RegisterStepModules(makeReusable: bool, moduleTypes: seq<TypeRef>)
    | RegisterStepModule(moduleType: TypeRef, makeReusable: bool)

  datatype SessionEvent = OnStartInvoked(plugin: Instance) | OperationsInvoked | OnEndInvoked(plugin: Instance) | SessionRemoved

  /** A ForEach over the plugins: the context it leaves, how many plugins it reached, and how it ended. */
  datatype Sweep = Sweep(context: SessionContext, visited: nat, outcome: Outcome<Error>)

  /** List.ForEach(hook): stops at the first plugin whose hook throws. */
  function ForEachPlugin(plugins: seq<Instance>, hook: (Instance, SessionContext) -> Result<SessionContext, Error>,
                         context: SessionContext): (s: Sweep)
    ensures s.visited <= |plugins|
    ensures s.outcome.Pass? ==> s.visited == |plugins|
    ensures s.outcome.Fail? ==> 0 < s.visited
    decreases |plugins|
  {
    if plugins == [] then Sweep(context, 0, Pass)
    else
      var s := ForEachPlugin(plugins[..|plugins| - 1], hook, context);
      if s.outcome.Fail? then s
      else
        match hook(plugins[|plugins| - 1], s.context)
        case Failure(e) => Sweep(s.context, |plugins|, Fail(e))
        case Success(c) => Sweep(c, |plugins|, Pass)
  }

  function StartEvents(plugins: seq<Instance>): seq<SessionEvent> {
    seq(|plugins|, i requires 0 <= i < |plugins| => OnStartInvoked(plugins[i]))
  }

  function EndEvents(plugins: seq<Instance>): seq<SessionEvent> {
    seq(|plugins|, i requires 0 <= i < |plugins| => OnEndInvoked(plugins[i]))
  }

  /** The OnStart or the OnEnd events of the plugins. */
  function HookEvents(start: bool, plugins: seq<Instance>): seq<SessionEvent> {
    if start then StartEvents(plugins) else EndEvents(plugins)
  }

  /** How End or Start leaves things. */
  datatype Ending = Ending(events: seq<SessionEvent>, context: SessionContext, sessions: map<int, string>, outcome: Outcome<Error>)

  /** End: every OnEnd in order, then Sessions.TryRemove(current thread). */
  function EndSpec(plugins: seq<Instance>, hooks: PluginHooks, context: SessionContext, sessions: map<int, string>, threadId: int): Ending {
    var s := ForEachPlugin(plugins, hooks.onEnd, context);
    var events := EndEvents(plugins[..s.visited]);
    if s.outcome.Fail? then Ending(events, s.context, sessions, s.outcome)
    else Ending(events + [SessionRemoved], s.context, sessions - {threadId}, Pass)
  }

  /**
   * Start: try { every OnStart; operations } finally { End() }. An exception
   * from End replaces the one from the try block, as in C#.
   */
  function StartSpec(plugins: seq<Instance>, hooks: PluginHooks, operations: ContextAction, context: SessionContext,
                     sessions: map<int, string>, threadId: int): Ending {
    var s := ForEachPlugin(plugins, hooks.onStart, context);
    var started := StartEvents(plugins[..s.visited]);
    var tried :=
      if s.outcome.Fail? then Ending(started, s.context, sessions, s.outcome)
      else match operations(s.context)
           case Failure(e) => Ending(started + [OperationsInvoked], s.context, sessions, Fail(e))
           case Success(c) => Ending(started + [OperationsInvoked], c, sessions, Pass);
    var ended := EndSpec(plugins, hooks, tried.context, sessions, threadId);
    Ending(tried.events + ended.events, ended.context, ended.sessions, if ended.outcome.Fail? then ended.outcome else tried.outcome)
  }

  /** A sweep in which no hook throws visits every plugin. */
  lemma {:induction false} SweepWithoutFailure(plugins: seq<Instance>, hook: (Instance, SessionContext) -> Result<SessionContext, Error>,
                                               context: SessionContext)
    requires forall p, c :: p in plugins ==> hook(p, c).Success?
    ensures ForEachPlugin(plugins, hook, context).outcome == Pass
    decreases |plugins|
  {
    if plugins != [] {
      SweepWithoutFailure(plugins[..|plugins| - 1], hook, context);
    }
  }

  /**
   * End runs after Start whatever happened before it: when no OnEnd throws,
   * every plugin's OnEnd runs in registration order, last of all the thread's
   * session entry is removed, and only then does the outcome of the try
   * block surface.
   */
  lemma EndAlwaysRuns(plugins: seq<Instance>, hooks: PluginHooks, operations: ContextAction, context: SessionContext,
                      sessions: map<int, string>, threadId: int)
    requires forall p, c :: p in plugins ==> hooks.onEnd(p, c).Success?
    ensures var r := StartSpec(plugins, hooks, operations, context, sessions, threadId);
            var s := ForEachPlugin(plugins, hooks.onStart, context);
            && r.sessions == sessions - {threadId}
            && |EndEvents(plugins) + [SessionRemoved]| <= |r.events|
            && r.events[|r.events| - |plugins| - 1..] == EndEvents(plugins) + [SessionRemoved]
            && (s.outcome.Fail? ==> r.outcome == s.outcome)
  {
    var s := ForEachPlugin(plugins, hooks.onStart, context);
    var tried :=
      if s.outcome.Fail? then Ending(StartEvents(plugins[..s.visited]), s.context, sessions, s.outcome)
      else match operations(s.context)
           case Failure(e) => Ending(StartEvents(plugins[..s.visited]) + [OperationsInvoked], s.context, sessions, Fail(e))
           case Success(c) => Ending(StartEvents(plugins[..s.visited]) + [OperationsInvoked], c, sessions, Pass);
    SweepWithoutFailure(plugins, hooks.onEnd, tried.context);
    assert plugins[..|plugins|] == plugins;
  }

  /** A throwing OnStart skips the later OnStart calls and the operations; End still runs. */
  lemma FailedStartSkipsOperations(plugins: seq<Instance>, hooks: PluginHooks, operations: ContextAction, context: SessionContext,
                                   sessions: map<int, string>, threadId: int)
    requires ForEachPlugin(plugins, hooks.onStart, context).outcome.Fail?
    ensures var r := StartSpec(plugins, hooks, operations, context, sessions, threadId);
            var k := ForEachPlugin(plugins, hooks.onStart, context).visited;
            var ended := EndSpec(plugins, hooks, ForEachPlugin(plugins, hooks.onStart, context).context, sessions, threadId);
            && r.events == StartEvents(plugins[..k]) + ended.events
            && forall i :: 0 <= i < |r.events| ==> r.events[i] != OperationsInvoked
  {
    var s := ForEachPlugin(plugins, hooks.onStart, context);
    var ended := EndSpec(plugins, hooks, s.context, sessions, threadId);
    var started := StartEvents(plugins[..s.visited]);
    assert StartSpec(plugins, hooks, operations, context, sessions, threadId).events == started + ended.events;
    assert forall i :: 0 <= i < |ended.events| ==> ended.events[i] != OperationsInvoked;
    assert forall i :: 0 <= i < |started| ==> started[i] != OperationsInvoked;
  }

  /** The test that owns the sessions: one per thread, by thread id. */
  class SessionDrivenTest {
    var sessions: map<int, string>

    constructor(sessions: map<int, string>)
      ensures this.sessions == sessions
    {
      this.sessions := sessions;
    }
  }

  class Session {
    const testContext: SessionDrivenTest
    var context: SessionContext
    var plugins: seq<Instance>
    const hooks: PluginHooks
    /** Guid.NewGuid() at construction, by its string form. */
    var sessionId: string
    /** The calls made on the registration strategy so far. */
    var included: seq<IncludeCall>
    ghost var trace: seq<SessionEvent>

    /** A new session: no plugins yet, a fresh id (given, since it comes from Guid.NewGuid). */
    constructor(testContext: SessionDrivenTest, context: SessionContext, hooks: PluginHooks, newGuid: string)
      ensures this.testContext == testContext && this.context == context && this.hooks == hooks
      ensures plugins == [] && sessionId == newGuid && included == [] && trace == []
    {
      this.testContext := testContext;
      this.context := context;
      this.hooks := hooks;
      plugins := [];
      sessionId := newGuid;
      included := [];
      trace := [];
    }

    /** AddPlugins / Using(plugins): appended in the given order; the session itself is returned. */
    method Using(newPlugins: seq<Instance>) returns (self: Session)
      modifies this`plugins
      ensures plugins == old(plugins) + newPlugins && self == this
    {
      plugins := plugins + newPlugins;
      return this;
    }

    /** Using<TPlugin>(): one new plugin instance, appended. */
    method UsingNew(created: Instance) returns (self: Session)
      modifies this`plugins
      ensures plugins == old(plugins) + [created] && self == this
    {
      self := Using([created]);
    }

    /** Configure: the action runs once on the context. */
    method Configure(contextSetUpAction: ContextAction) returns (self: Session, outcome: Outcome<Error>)
      modifies this`context
      ensures self == this
      ensures contextSetUpAction(old(context)).Success? ==> outcome == Pass && context == contextSetUpAction(old(context)).value
      ensures contextSetUpAction(old(context)).Failure? ==> outcome == Fail(contextSetUpAction(old(context)).error) && context == old(context)
    {
      self := this;
      var r := contextSetUpAction(context);
      if r.Failure? {
        return this, Fail(r.error);
      }
      context := r.value;
      outcome := Pass;
    }

    /** ConfigureContainer: the action runs once on the context's container. */
    method ConfigureContainer(containerSetUpAction: seq<Binding> -> Result<seq<Binding>, Error>) returns (self: Session, outcome: Outcome<Error>)
      modifies this`context
      ensures self == this
      ensures containerSetUpAction(old(context.container)).Success? ==>
                outcome == Pass && context == old(context).(container := containerSetUpAction(old(context.container)).value)
      ensures containerSetUpAction(old(context.container)).Failure? ==>
                outcome == Fail(containerSetUpAction(old(context.container)).error) && context == old(context)
    {
      self := this;
      var r := containerSetUpAction(context.container);
      if r.Failure? {
        return this, Fail(r.error);
      }
      context := context.(container := r.value);
      outcome := Pass;
    }

    /** Include([makeReusable,] types): not reusable when the flag is omitted. */
    method Include(moduleTypes: seq<TypeRef>, makeReusable: bool := false) returns (self: Session)
      modifies this`included
      ensures included == old(included) + [RegisterStepModules(makeReusable, moduleTypes)] && self == this
    {
      included := included + [RegisterStepModules(makeReusable, moduleTypes)];
      return this;
    }

    /** Include<TStepModule>(makeReusable). */
    method IncludeModule(moduleType: TypeRef, makeReusable: bool := false) returns (self: Session)
      modifies this`included
      ensures included == old(included) + [RegisterStepModule(moduleType, makeReusable)] && self == this
    {
      included := included + [RegisterStepModule(moduleType, makeReusable)];
      return this;
    }

    /** GetSessionId: the id's string form. */
    method GetSessionId() returns (id: string)
      ensures id == sessionId
    {
      return sessionId;
    }

    /** plugins.ForEach(hook) on the context. */
    method ForEach(hook: (Instance, SessionContext) -> Result<SessionContext, Error>, start: bool) returns (outcome: Outcome<Error>)
      modifies this`context, this`trace
      ensures var s := ForEachPlugin(plugins, hook, old(context));
              && context == s.context && outcome == s.outcome
              && trace == old(trace) + HookEvents(start, plugins[..s.visited])
    {
      outcome := Pass;
      var i := 0;
      while i < |plugins|
        invariant 0 <= i <= |plugins|
        invariant ForEachPlugin(plugins[..i], hook, old(context)) == Sweep(context, i, Pass)
        invariant trace == old(trace) + HookEvents(start, plugins[..i])
      {
        assert plugins[..i + 1][..i] == plugins[..i];
        var plugin := plugins[i];
        trace := trace + [if start then OnStartInvoked(plugin) else OnEndInvoked(plugin)];
        assert HookEvents(start, plugins[..i + 1]) == HookEvents(start, plugins[..i]) + [if start then OnStartInvoked(plugin) else OnEndInvoked(plugin)];
        var r := hook(plugin, context);
        if r.Failure? {
          ForEachPluginPrefix(plugins, hook, old(context), i + 1);
          return Fail(r.error);
        }
        context := r.value;
        i := i + 1;
      }
      assert plugins[..i] == plugins;
    }

    /** End: every OnEnd, then the current thread's session entry is removed. */
    method End(threadId: int) returns (outcome: Outcome<Error>)
      modifies this`context, this`trace, testContext
      ensures var e := EndSpec(plugins, hooks, old(context), old(testContext.sessions), threadId);
              && trace == old(trace) + e.events && context == e.context
              && testContext.sessions == e.sessions && outcome == e.outcome
    {
      outcome := ForEach(hooks.onEnd, false);
      if outcome.Fail? {
        return;
      }
      trace := trace + [SessionRemoved];
      testContext.sessions := testContext.sessions - {threadId};
    }

    /** Start: try { OnStart of every plugin; operations } finally { End() }. */
    method Start(operations: ContextAction, threadId: int) returns (outcome: Outcome<Error>)
      modifies this`context, this`trace, testContext
      ensures var e := StartSpec(plugins, hooks, operations, old(context), old(testContext.sessions), threadId);
              && trace == old(trace) + e.events && context == e.context
              && testContext.sessions == e.sessions && outcome == e.outcome
    {
      var tried := ForEach(hooks.onStart, true);
      if tried.Pass? {
        trace := trace + [OperationsInvoked];
        var r := operations(context);
        if r.Failure? {
          tried := Fail(r.error);
        } else {
          context := r.value;
        }
      }
      var ended := End(threadId);
      outcome := if ended.Fail? then ended else tried;
    }
  }

  /** A sweep that stopped at plugin k-1 is the sweep over the first k plugins. */
  lemma {:induction false} ForEachPluginPrefix(plugins: seq<Instance>, hook: (Instance, SessionContext) -> Result<SessionContext, Error>,
                                               context: SessionContext, k: nat)
    requires 0 < k <= |plugins| && ForEachPlugin(plugins[..k], hook, context).outcome.Fail?
    ensures ForEachPlugin(plugins, hook, context) == ForEachPlugin(plugins[..k], hook, context)
    decreases |plugins|
  {
    if k < |plugins| {
      assert plugins[..|plugins| - 1][..k] == plugins[..k];
      ForEachPluginPrefix(plugins[..|plugins| - 1], hook, context, k);
    } else {
      assert plugins[..k] == plugins;
    }
  }
}
