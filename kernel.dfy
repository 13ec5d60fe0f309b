/**
 * The dependency-injection kernel as the core uses it: an ordered list of
 * bindings (Bind, Unbind, GetBindings, RemoveBinding) and fresh instances
 * handed out on resolution. Activation, scopes' caches and providers are not
 * modelled; a resolved instance is identified by its runtime type and a number.
 */
module Kernels {
  import opened Base
  import opened Seqs

  /** The lifetime a binding asks for: InTransientScope (the default) or InSingletonScope. */
  datatype Scope = Transient | Singleton

  /** Ninject's BindingTarget: ToSelf, To(type), ToConstant(value). */
  datatype BindingTarget = Self | Type | Constant

  /** Bind<service>().To(implementation) in a scope, for a named context ("" when none). */
  datatype Binding = Binding(service: TypeRef, target: BindingTarget, implementation: TypeRef, scope: Scope, context: string)

  /** An object the kernel handed out: its runtime type (GetType()) and its identity. */
  datatype Instance = Instance(runtimeType: TypeRef, id: nat)

  /** Bind(t).ToSelf(). */
  function SelfBinding(t: TypeRef): Binding {
    Binding(t, Self, t, Transient, "")
  }

  function HasService(service: TypeRef): Binding -> bool {
    (b: Binding) => b.service == service
  }

  function NotService(service: TypeRef): Binding -> bool {
    (b: Binding) => b.service != service
  }

  class Kernel {
    var bindings: seq<Binding>
    /** The identity the next resolved instance receives. */
    var nextInstance: nat

    constructor(bindings: seq<Binding>)
      ensures this.bindings == bindings && nextInstance == 0
    {
      this.bindings := bindings;
      nextInstance := 0;
    }

    /** Bind: append a binding. */
    method Bind(b: Binding)
      modifies this
      ensures bindings == old(bindings) + [b] && nextInstance == old(nextInstance)
    {
      bindings := bindings + [b];
    }

    /** Get of a type bound to itself: a new instance of that type. */
    method Get(t: TypeRef) returns (i: Instance)
      modifies this
      ensures i == Instance(t, old(nextInstance)) && nextInstance == old(nextInstance) + 1
      ensures bindings == old(bindings)
    {
      i := Instance(t, nextInstance);
      nextInstance := nextInstance + 1;
    }

    /** Unbind: drop every binding of the service type. */
    method Unbind(service: TypeRef)
      modifies this
      ensures bindings == Filter(old(bindings), NotService(service)) && nextInstance == old(nextInstance)
    {
      bindings := Filter(bindings, NotService(service));
    }

    /** GetBindings: the bindings of a service type, in binding order. */
    function GetBindings(service: TypeRef): (r: seq<Binding>)
      reads this
      ensures forall i :: 0 <= i < |r| ==> r[i] in bindings && r[i].service == service
      ensures forall i :: 0 <= i < |bindings| && bindings[i].service == service ==> bindings[i] in r
    {
      FilterMembers(bindings, HasService(service));
      Filter(bindings, HasService(service))
    }

    /** RemoveBinding: drop one binding, identified by its position. */
    method RemoveBindingAt(k: nat)
      requires k < |bindings|
      modifies this
      ensures bindings == old(bindings[..k] + bindings[k + 1..]) && nextInstance == old(nextInstance)
    {
      bindings := bindings[..k] + bindings[k + 1..];
    }
  }
}
