/**
 * CustomizationAttribute: a declarative configuration attribute attached to a
 * test class. It names the test type it customizes, carries a priority, a
 * visibility flag and a cancellation list, and orders itself against other
 * attributes with CompareTo.
 */
module CustomizationAttributes {
  import opened Base

  /**
   * What reflection reports about the class of an attribute (a.GetType()):
   * whether it implements ICustomizer<>, carries [TheOnly], [Visibility(v)] or
   * [Priority(p)], and the TheOnlyRoot that groups TheOnly attributes.
   */
  datatype AttributeKind = AttributeKind(
    typeRef: TypeRef,
    isCustomizer: bool,
    theOnly: bool,
    theOnlyRoot: TypeRef,
    visibility: Option<bool>,
    priorityAttribute: Option<UInt16>)

  /**
   * One attribute instance. Dafny's equality of values stands in for .NET's
   * Attribute.Equals, which compares the runtime type and every field; the
   * two differ only in that two instances with the same type and fields are
   * one value here. List.Remove and Contains treat such twins alike anyway,
   * and ApplyAll applies a type at most once.
   * `cancellationIsList` records whether the cancellation collection given to
   * the constructor is a List<Type> (CheckCancellationClause only looks at it then).
   */
  datatype Attribute = Attribute(
    kind: AttributeKind,
    target: TypeRef,
    priority: UInt16,
    visible: bool,
    cancellation: seq<TypeRef>,
    cancellationIsList: bool)

  /**
   * CustomizationAttribute(targetType, cancellationCollection, priority = 0):
   * visible, the given cancellation collection, and the priority of the
   * class's [Priority] attribute when there is one, else the argument.
   */
  function NewCustomizationAttribute(kind: AttributeKind, targetType: TypeRef, cancellation: seq<TypeRef>,
                                     cancellationIsList: bool, priority: UInt16): (a: Attribute)
    ensures a.kind == kind && a.target == targetType && a.visible
    ensures a.cancellation == cancellation && a.cancellationIsList == cancellationIsList
    ensures kind.priorityAttribute.Some? ==> a.priority == kind.priorityAttribute.value
    ensures kind.priorityAttribute.None? ==> a.priority == priority
  {
    Attribute(kind, targetType, kind.priorityAttribute.GetOr(priority), true, cancellation, cancellationIsList)
  }

  /** CustomizationAttribute(targetType, priority = 0): an empty List<Type> as cancellation collection. */
  function NewCustomizationAttributeWithoutCancellation(kind: AttributeKind, targetType: TypeRef, priority: UInt16): (a: Attribute)
    ensures a.visible && a.target == targetType && a.cancellation == [] && a.cancellationIsList
    ensures a.priority == kind.priorityAttribute.GetOr(priority)
  {
    NewCustomizationAttribute(kind, targetType, [], true, priority)
  }

  /** GetCustomizationTargetType: the target type given to the constructor. */
  function GetCustomizationTargetType(a: Attribute): TypeRef {
    a.target
  }

  lemma TargetTypeIsConstructorArgument(kind: AttributeKind, targetType: TypeRef, cancellation: seq<TypeRef>,
                                        isList: bool, priority: UInt16)
    ensures GetCustomizationTargetType(NewCustomizationAttribute(kind, targetType, cancellation, isList, priority)) == targetType
    ensures NewCustomizationAttribute(kind, targetType, cancellation, isList, priority).visible
  {
  }

  // ---------------------------------------------------------------------------
  // The cancellation clause

  /** Some entry of the invocation list has the short name of `item` (types are matched by Name). */
  predicate NameInvoked(item: TypeRef, invocationList: seq<TypeRef>) {
    exists i :: 0 <= i < |invocationList| && invocationList[i].name == item.name
  }

  /** The entries CheckCancellationClause iterates: the list, or nothing when the `as List<Type>` cast gives null. */
  function CancellationItems(a: Attribute): seq<TypeRef> {
    if a.cancellationIsList then a.cancellation else []
  }

  /**
   * The value of `result` after the ForEach has visited `items` in order,
   * starting from `false`: a matching item assigns `false`, any other leaves it.
   */
  function ClauseResult(items: seq<TypeRef>, invocationList: seq<TypeRef>): bool
    decreases |items|
  {
    if items == [] then false
    else if NameInvoked(items[|items| - 1], invocationList) then false
    else ClauseResult(items[..|items| - 1], invocationList)
  }

  /** Whatever the items and the invocation list, the clause as written yields false. */
  lemma {:induction false} ClauseResultIsFalse(items: seq<TypeRef>, invocationList: seq<TypeRef>)
    ensures !ClauseResult(items, invocationList)
    decreases |items|
  {
    if items != [] {
      ClauseResultIsFalse(items[..|items| - 1], invocationList);
    }
  }

  /** CheckCancellationClause, as written. */
  method CheckCancellationClause(a: Attribute, invocationList: seq<TypeRef>) returns (result: bool)
    ensures result == ClauseResult(CancellationItems(a), invocationList)
    ensures !result
  {
    result := false;
    var types := CancellationItems(a);
    for i := 0 to |types|
      invariant result == ClauseResult(types[..i], invocationList)
    {
      assert types[..i + 1][..i] == types[..i];
      if NameInvoked(types[i], invocationList) {
        result := false;
      }
    }
    assert types[..|types|] == types;
    ClauseResultIsFalse(types, invocationList);
  }

  /** A cancellation item's name is in the invocation list: what the clause evidently means to detect. */
  predicate CancelledBy(a: Attribute, invocationList: seq<TypeRef>) {
    exists i :: 0 <= i < |a.cancellation| && NameInvoked(a.cancellation[i], invocationList)
  }

  /**
   * The clause as written ignores a match: an attribute cancelled by
   * NoSettingsAttribute is not cancelled when NoSettingsAttribute was invoked.
   */
  lemma CancellationClauseIgnoresMatch(kind: AttributeKind, target: TypeRef)
    ensures var a := NewCustomizationAttribute(kind, target, [NoSettingsAttribute], true, 0);
            CancelledBy(a, [NoSettingsAttribute]) && !ClauseResult(CancellationItems(a), [NoSettingsAttribute])
  {
    var a := NewCustomizationAttribute(kind, target, [NoSettingsAttribute], true, 0);
    assert NameInvoked(a.cancellation[0], [NoSettingsAttribute]);
    assert CancellationItems(a) == [NoSettingsAttribute];
    ClauseResultIsFalse(CancellationItems(a), [NoSettingsAttribute]);
  }

  /**
   * CheckCancellationClause with the evident intent: a match sets the result
   * to true, and the collection is consulted whatever its runtime type.
   */
  method CheckCancellationClauseCorrected(a: Attribute, invocationList: seq<TypeRef>) returns (result: bool)
    ensures result <==> CancelledBy(a, invocationList)
  {
    result := false;
    for i := 0 to |a.cancellation|
      invariant result <==> exists j :: 0 <= j < i && NameInvoked(a.cancellation[j], invocationList)
    {
      if NameInvoked(a.cancellation[i], invocationList) {
        result := true;
      }
    }
  }

  // ---------------------------------------------------------------------------
  // Ordering

  /** `typeof(ICustomizationAttributeDrivenTest).IsAssignableFrom(t)`. */
  predicate CustomizableTarget(u: Universe, t: TypeRef) {
    IsAssignableFrom(u, ICustomizationAttributeDrivenTest, t)
  }

  /**
   * CompareTo: throws for a target that is not a customizable test (this
   * attribute's target checked first); an attribute for a strict subclass compares
   * greater; otherwise priority 0 compares greater, else the priority difference.
   */
  function CompareTo(u: Universe, a: Attribute, other: Attribute): (r: Result<int, Error>)
    ensures r.Failure? <==> !CustomizableTarget(u, a.target) || !CustomizableTarget(u, other.target)
    ensures !CustomizableTarget(u, a.target) ==> r == Failure(IncorrectCustomizationTargetType(a.target.name))
    ensures CustomizableTarget(u, a.target) && !CustomizableTarget(u, other.target) ==>
              r == Failure(IncorrectCustomizationTargetType(other.target.name))
    ensures r.Success? ==> -0xFFFF <= r.value <= 0xFFFF
  {
    if !CustomizableTarget(u, a.target) then Failure(IncorrectCustomizationTargetType(a.target.name))
    else if !CustomizableTarget(u, other.target) then Failure(IncorrectCustomizationTargetType(other.target.name))
    else if IsSubclassOf(u, a.target, other.target) then Success(1)
    else if IsSubclassOf(u, other.target, a.target) then Success(-1)
    else if a.priority == 0 then Success(1)
    else if other.priority == 0 then Success(-1)
    else Success(a.priority - other.priority)
  }

  function Sign(x: int): int {
    if x > 0 then 1 else if x < 0 then -1 else 0
  }

  /** Neither target is a strict subclass of the other. */
  predicate Unrelated(u: Universe, a: Attribute, b: Attribute) {
    !IsSubclassOf(u, a.target, b.target) && !IsSubclassOf(u, b.target, a.target)
  }

  /** An attribute for a more derived test type sorts after the attribute for its base. */
  lemma SubclassTargetSortsAfter(u: Universe, a: Attribute, b: Attribute)
    requires WellFormed(u) && CustomizableTarget(u, a.target) && CustomizableTarget(u, b.target)
    requires IsSubclassOf(u, a.target, b.target)
    ensures CompareTo(u, a, b) == Success(1) && CompareTo(u, b, a) == Success(-1)
  {
    SubclassAsymmetric(u, a.target, b.target);
  }

  /** Among unrelated targets, priority 0 sorts after every nonzero priority. */
  lemma ZeroPrioritySortsLast(u: Universe, a: Attribute, b: Attribute)
    requires CustomizableTarget(u, a.target) && CustomizableTarget(u, b.target) && Unrelated(u, a, b)
    requires a.priority == 0 && b.priority != 0
    ensures CompareTo(u, a, b) == Success(1) && CompareTo(u, b, a) == Success(-1)
  {
  }

  /** Among unrelated targets with nonzero priorities, the order is ascending priority. */
  lemma NonzeroPrioritiesAscend(u: Universe, a: Attribute, b: Attribute)
    requires CustomizableTarget(u, a.target) && CustomizableTarget(u, b.target) && Unrelated(u, a, b)
    requires a.priority != 0 && b.priority != 0
    ensures CompareTo(u, a, b).Success? && Sign(CompareTo(u, a, b).value) == Sign(a.priority - b.priority)
  {
  }

  /**
   * The comparator is antisymmetric except on one kind of pair: two unrelated
   * attributes of priority 0, which each compare greater than the other.
   */
  lemma AntisymmetricExceptZeroPairs(u: Universe, a: Attribute, b: Attribute)
    requires WellFormed(u) && CustomizableTarget(u, a.target) && CustomizableTarget(u, b.target)
    ensures CompareTo(u, a, b).Success? && CompareTo(u, b, a).Success?
    ensures Unrelated(u, a, b) && a.priority == 0 && b.priority == 0 ==>
              CompareTo(u, a, b) == Success(1) && CompareTo(u, b, a) == Success(1)
    ensures !(Unrelated(u, a, b) && a.priority == 0 && b.priority == 0) ==>
              Sign(CompareTo(u, a, b).value) == -Sign(CompareTo(u, b, a).value)
  {
    if IsSubclassOf(u, a.target, b.target) {
      SubclassAsymmetric(u, a.target, b.target);
    }
  }

  /** A priority-0 attribute compares greater than itself (IComparable asks for 0). */
  lemma ZeroPriorityGreaterThanItself(u: Universe, a: Attribute)
    requires WellFormed(u) && CustomizableTarget(u, a.target) && a.priority == 0
    ensures CompareTo(u, a, a) == Success(1)
  {
    assert !IsSubclassOf(u, a.target, a.target);
  }

  /**
   * The comparator is not transitive: with Sub a subclass of Base and an
   * unrelated Other, attributes (Sub, 1), (Base, 9), (Other, 5) each compare
   * greater than the next, round a cycle.
   */
  lemma CompareToHasCycle(kind: AttributeKind)
    ensures
      var sub, base, other := TypeRef("T", "Sub"), TypeRef("T", "Base"), TypeRef("T", "Other");
      var u := Universe({(sub, base)},
                        {(sub, ICustomizationAttributeDrivenTest), (base, ICustomizationAttributeDrivenTest),
                         (other, ICustomizationAttributeDrivenTest)}, {});
      var a, b, c := Attribute(kind, sub, 1, true, [], true), Attribute(kind, base, 9, true, [], true),
                     Attribute(kind, other, 5, true, [], true);
      WellFormed(u) && CompareTo(u, a, b) == Success(1) && CompareTo(u, b, c) == Success(4) &&
      CompareTo(u, c, a) == Success(4)
  {
  }
}
