/**
 * ReusableCounterModule (demo): a [Reusable] step module counting the
 * steps it has seen. C# Int32 addition is unchecked, so the counter wraps
 * from Int32.MaxValue to Int32.MinValue.
 */
module CounterModule {
  import opened Base
  import opened Kernels
  import opened StepRunning
  import opened InstantiationStepping

  const ReusableCounterModuleType := TypeRef("StepModules", "ReusableCounterModule")

  /**
   * The type facts of the demo: the class implements IStepModule and carries
   * [Reusable], both from TestUnium.Stepping.Modules (its using directive).
   */
  const CounterUniverse := Universe({}, {(ReusableCounterModuleType, IStepModule)},
                                    {(ReusableCounterModuleType, ReusableAttribute)})

  const TwoTo32 := 0x1_0000_0000
  const TwoTo31 := 0x8000_0000

  /** Truncation of an integer to Int32, as unchecked arithmetic does. */
  function WrapInt32(x: int): (r: Int32)
    ensures (x - r) % TwoTo32 == 0
    ensures -TwoTo31 <= x < TwoTo31 ==> r == x
  {
    (x + TwoTo31) % TwoTo32 - TwoTo31
  }

  /** `PositiveCounter += 1` on an Int32. */
  function Incremented(c: Int32): (r: Int32)
    ensures c < TwoTo31 - 1 ==> r == c + 1
    ensures c == TwoTo31 - 1 ==> r == -TwoTo31
  {
    WrapInt32(c + 1)
  }

  /** The counter after n BeforeExecution calls. */
  function Increments(c: Int32, n: nat): Int32 {
    if n == 0 then c else Incremented(Increments(c, n - 1))
  }

  /** Wrapping twice is wrapping once: truncation of a truncated sum. */
  lemma WrapOfWrapped(x: int)
    ensures WrapInt32(WrapInt32(x) + 1) == WrapInt32(x + 1)
  {
    var q := (x + TwoTo31) / TwoTo32;
    assert x + TwoTo31 == q * TwoTo32 + (x + TwoTo31) % TwoTo32;
    assert WrapInt32(x) + 1 == x + 1 - q * TwoTo32;
    ModShift(x + 1 + TwoTo31, q);
  }

  lemma ModShift(y: int, q: int)
    ensures (y - q * TwoTo32) % TwoTo32 == y % TwoTo32
  {
    var r := y % TwoTo32;
    var d := y / TwoTo32;
    assert y - q * TwoTo32 == (d - q) * TwoTo32 + r;
  }

  /** After n calls the counter holds its start plus n, truncated to Int32. */
  lemma {:induction false} IncrementsWrap(c: Int32, n: nat)
    ensures Increments(c, n) == WrapInt32(c + n)
  {
    if n > 0 {
      IncrementsWrap(c, n - 1);
      WrapOfWrapped(c + n - 1);
    }
  }

  /** From a fresh module, n calls with n below 2^31 count exactly n. */
  lemma CountsExactlyBelowOverflow(n: nat)
    requires n < TwoTo31
    ensures Increments(0, n) == n
  {
    IncrementsWrap(0, n);
  }

  /**
   * The counter implements the TestUnium.Stepping.Modules interface, not the
   * Instantiation one, so the Instantiation registration loop rejects it
   * first thing, whatever the flag and whatever follows, and binds nothing.
   */
  lemma CounterRejectedByInstantiationRegistration(makeReusable: bool, later: seq<TypeRef>)
    ensures Registered(CounterUniverse, makeReusable, [ReusableCounterModuleType] + later)
            == Registration(Fail(IncorrectInheritance(["ReusableCounterModule"], ["IStepModule"])), [])
  {
  }

  /**
   * A counter class that implemented the Instantiation IStepModule and
   * carried its [Reusable] would be bound as a singleton, and the loop
   * would stop there.
   */
  lemma InstantiationCounterRegisteredAsSingleton(makeReusable: bool, later: seq<TypeRef>)
    ensures var u := Universe({}, {(ReusableCounterModuleType, InstantiationIStepModule)},
                              {(ReusableCounterModuleType, InstantiationReusableAttribute)});
            Registered(u, makeReusable, [ReusableCounterModuleType] + later)
            == Registration(Pass, [ModuleBinding(ReusableCounterModuleType, Singleton)])
  {
  }

  class ReusableCounterModule {
    var positiveCounter: Int32
    var negativeCounter: Int32

    constructor()
      ensures positiveCounter == 0 && negativeCounter == 0
    {
      positiveCounter := 0;
      negativeCounter := 0;
    }

    /** BeforeExecution: one more step seen; the negative counter is untouched. */
    method BeforeExecution(step: TypeRef)
      modifies this`positiveCounter
      ensures positiveCounter == Incremented(old(positiveCounter))
    {
      positiveCounter := WrapInt32(positiveCounter + 1);
    }

    /** AfterExecution: the negative counter is set to -1, whatever it held; the positive one is untouched. */
    method AfterExecution(step: TypeRef, state: StepState)
      modifies this`negativeCounter
      ensures negativeCounter == -1
    {
      negativeCounter := -1;
    }
  }
}
