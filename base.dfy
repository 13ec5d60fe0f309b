/**
 * Shared vocabulary of the TestUnium model: failure-carrying results, the
 * runtime types that reflection talks about, the exceptions the core raises,
 * and the fixed-width integers the C# code uses.
 */
module Base {

  datatype Option<+T> = None | Some(value: T) {
    function GetOr(default: T): T {
      match this
      case Some(v) => v
      case None => default
    }
  }

  datatype Result<+R, +E> = Success(value: R) | Failure(error: E)

  /** The result of an operation that returns nothing or throws. */
  datatype Outcome<+E> = Pass | Fail(error: E)

  /** C#'s UInt16 (the type of CustomizationAttribute.Priority). */
  type UInt16 = x: int | 0 <= x < 0x1_0000

  /** C#'s Int32. */
  type Int32 = x: int | -0x8000_0000 <= x < 0x8000_0000

  /** A value of the Browser enumeration, by its underlying integer; 0 is default(Browser). */
  type Browser = int

  /**
   * A runtime type. Two types are the same type when namespace and short name
   * agree; `name` is what Type.Name returns.
   */
  datatype TypeRef = TypeRef(ns: string, name: string)

  /**
   * The reflection facts the core consults, as data: strict class inheritance
   * (Type.IsSubclassOf), interface implementation, and which attributes a type
   * carries (GetCustomAttribute<A>() != null).
   */
  datatype Universe = Universe(
    subclassOf: set<(TypeRef, TypeRef)>,
    implements: set<(TypeRef, TypeRef)>,
    attributes: set<(TypeRef, TypeRef)>)

  /** Class inheritance is a strict partial order. */
  ghost predicate WellFormed(u: Universe) {
    && (forall p :: p in u.subclassOf ==> p.0 != p.1)
    && (forall p, q :: p in u.subclassOf && q in u.subclassOf && p.1 == q.0 ==> (p.0, q.1) in u.subclassOf)
  }

  /** `t.IsSubclassOf(b)`: strict, classes only. */
  predicate IsSubclassOf(u: Universe, t: TypeRef, b: TypeRef) {
    (t, b) in u.subclassOf
  }

  /** `target.IsAssignableFrom(t)`: the same type, a subclass, or an implemented interface. */
  predicate IsAssignableFrom(u: Universe, target: TypeRef, t: TypeRef) {
    t == target || (t, target) in u.subclassOf || (t, target) in u.implements
  }

  /** `t.GetCustomAttribute<A>() != null`. */
  predicate HasAttribute(u: Universe, t: TypeRef, a: TypeRef) {
    (t, a) in u.attributes
  }

  lemma SubclassAsymmetric(u: Universe, a: TypeRef, b: TypeRef)
    requires WellFormed(u) && IsSubclassOf(u, a, b)
    ensures !IsSubclassOf(u, b, a)
  {
  }

  // The framework's own types the core names.
  const ICustomizationAttributeDrivenTest := TypeRef("TestUnium.Core", "ICustomizationAttributeDrivenTest")
  const IStepModule := TypeRef("TestUnium.Stepping.Modules", "IStepModule")
  const ReusableAttribute := TypeRef("TestUnium.Stepping.Modules", "ReusableAttribute")
  /** The module interface and attribute of the Instantiation namespace, a family of their own. */
  const InstantiationIStepModule := TypeRef("TestUnium.Instantiation.Stepping.Modules", "IStepModule")
  const InstantiationReusableAttribute := TypeRef("TestUnium.Instantiation.Stepping.Modules", "ReusableAttribute")
  const ISettingsSource := TypeRef("TestUnium.Settings", "ISettingsSource")
  const ISettings := TypeRef("TestUnium.Instantiation.Settings", "ISettings")
  const SettingsBase := TypeRef("TestUnium.Settings", "SettingsBase")
  const SettingsDrivenTest := TypeRef("TestUnium.Settings", "SettingsDrivenTest")
  const NoSettingsAttribute := TypeRef("TestUnium.Settings", "NoSettingsAttribute")
  const WebDriverDrivenTest := TypeRef("TestUnium.Instantiation.WebDriving", "WebDriverDrivenTest")
  const FakeStep := TypeRef("TestUnium.Stepping.Steps", "FakeStep")
  const FakeStepWithReturnValue := TypeRef("TestUnium.Stepping.Steps", "FakeStepWithReturnValue")

  /** The exceptions the modelled code throws or lets through. */
  datatype Error =
    | IncorrectCustomizationTargetType(typeName: string)
      /** List.Sort wraps an exception of the comparer in an InvalidOperationException. */
    | ComparerFailed(inner: Error)
    | IncorrectInheritance(typeNames: seq<string>, baseNames: seq<string>)
    | IncorrectCustomizationSourceType(typeName: string, expected: string)
    | InvalidCast(typeName: string, targetName: string)
    | NoAllowedBrowsers
    | BrowserNotAllowed(browser: Browser)
    | StepSetUp(message: string, inner: Error)
      /** Contract.Assert(false, message) on an invalid step validation result. */
    | ContractAssertFailed(message: string)
      /** Any exception raised by code outside the core (a step body, a hook, a plugin, an action). */
    | UserCode(id: nat)
}
