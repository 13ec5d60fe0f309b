/**
 * CustomizationAttributeDrivenTest: collects the customization attributes
 * declared on the test class, orders them, keeps one per TheOnly group, and
 * applies each attribute type at most once per test instance, recording it as
 * invoked (visible) or hidden.
 */
module CustomizationDriver {
  import opened Base
  import opened Seqs
  import opened CustomizationAttributes

  // ---------------------------------------------------------------------------
  // Candidate selection

  /** The attribute implements ICustomizer<> and its target accepts `targetType`. */
  predicate IsCandidate(u: Universe, targetType: TypeRef, a: Attribute) {
    a.kind.isCustomizer && IsAssignableFrom(u, a.target, targetType)
  }

  /** The declared attributes that may customize `targetType`, in declaration order. */
  function Candidates(u: Universe, declared: seq<Attribute>, targetType: TypeRef): (c: seq<Attribute>)
    ensures IsSubsequence(c, declared)
    ensures forall i :: 0 <= i < |c| ==> IsCandidate(u, targetType, c[i])
    ensures forall i :: 0 <= i < |declared| && IsCandidate(u, targetType, declared[i]) ==> declared[i] in c
  {
    var p := (a: Attribute) => IsCandidate(u, targetType, a);
    FilterIsSubsequence(declared, p);
    FilterMembers(declared, p);
    Filter(declared, p)
  }

  /** A target on which CompareTo throws, reported as the comparer's exception. */
  function TargetFailure(u: Universe, a: Attribute): Option<Error> {
    if CustomizableTarget(u, a.target) then None else Some(IncorrectCustomizationTargetType(a.target.name))
  }

  /**
   * List.Sort compares only when there are two elements or more, and wraps a
   * comparer exception in an InvalidOperationException.
   */
  function SortFailure(u: Universe, sorted: seq<Attribute>): (r: Option<Error>)
    ensures r.Some? ==> |sorted| >= 2 && exists i :: 0 <= i < |sorted| && !CustomizableTarget(u, sorted[i].target)
    ensures r.None? ==> |sorted| < 2 || forall i :: 0 <= i < |sorted| ==> CustomizableTarget(u, sorted[i].target)
  {
    var k := FirstFailing(sorted, a => TargetFailure(u, a));
    if |sorted| >= 2 && k < |sorted| then Some(ComparerFailed(TargetFailure(u, sorted[k]).value)) else None
  }

  // ---------------------------------------------------------------------------
  // The TheOnly policy

  predicate IsTheOnly(a: Attribute) {
    a.kind.theOnly
  }

  predicate InGroup(a: Attribute, g: TypeRef) {
    a.kind.theOnly && a.kind.theOnlyRoot == g
  }

  /** The last TheOnly attribute of group `g` in `s`. */
  function LastInGroup(s: seq<Attribute>, g: TypeRef): (r: Option<Attribute>)
    ensures r.Some? ==> InGroup(r.value, g)
    ensures r.Some? ==> exists k :: 0 <= k < |s| && s[k] == r.value && forall j :: k < j < |s| ==> !InGroup(s[j], g)
    ensures r.None? ==> forall i :: 0 <= i < |s| ==> !InGroup(s[i], g)
    decreases |s|
  {
    if s == [] then None
    else if InGroup(s[|s| - 1], g) then Some(s[|s| - 1])
    else
      var r := LastInGroup(s[..|s| - 1], g);
      assert forall i :: 0 <= i < |s| - 1 ==> s[..|s| - 1][i] == s[i];
      r
  }

  /** An attribute survives the policy when it is not TheOnly or is the last of its group. */
  predicate Survives(s: seq<Attribute>, a: Attribute) {
    !a.kind.theOnly || LastInGroup(s, a.kind.theOnlyRoot) == Some(a)
  }

  function SurvivalTest(s: seq<Attribute>): Attribute -> bool {
    a => Survives(s, a)
  }

  /** What ApplyTheOnlyPolicy returns, stated per element. */
  function TheOnlyPolicy(s: seq<Attribute>): seq<Attribute> {
    Filter(s, SurvivalTest(s))
  }

  /**
   * The policy keeps the order, keeps every attribute that is not TheOnly,
   * keeps the last member of each TheOnly group, and drops every other member.
   */
  lemma TheOnlyPolicyKeepsLastOfEachGroup(s: seq<Attribute>)
    ensures IsSubsequence(TheOnlyPolicy(s), s)
    ensures forall i :: 0 <= i < |s| && !s[i].kind.theOnly ==> s[i] in TheOnlyPolicy(s)
    ensures forall g :: LastInGroup(s, g).Some? ==> LastInGroup(s, g).value in TheOnlyPolicy(s)
    ensures forall i :: 0 <= i < |TheOnlyPolicy(s)| && TheOnlyPolicy(s)[i].kind.theOnly ==>
              LastInGroup(s, TheOnlyPolicy(s)[i].kind.theOnlyRoot) == Some(TheOnlyPolicy(s)[i])
  {
    FilterIsSubsequence(s, SurvivalTest(s));
    FilterMembers(s, SurvivalTest(s));
    forall g | LastInGroup(s, g).Some? ensures LastInGroup(s, g).value in TheOnlyPolicy(s) {
      var a := LastInGroup(s, g).value;
      var k :| 0 <= k < |s| && s[k] == a;
      assert SurvivalTest(s)(s[k]);
    }
  }

  /** Three attributes of one TheOnly group declared in order: only the last remains. */
  lemma TheOnlyExclusivity(a: Attribute, b: Attribute, c: Attribute, g: TypeRef)
    requires InGroup(a, g) && InGroup(b, g) && InGroup(c, g)
    requires a != c && b != c
    ensures TheOnlyPolicy([a, b, c]) == [c]
  {
    var s := [a, b, c];
    var p := SurvivalTest(s);
    assert LastInGroup(s, g) == Some(c);
    assert !p(a) && !p(b) && p(c);
    FilterSingleton(a, p);
    FilterSingleton(b, p);
    FilterSingleton(c, p);
    FilterAppend([a], [b], p);
    FilterAppend([a, b], [c], p);
    assert [a] + [b] == [a, b] && [a, b] + [c] == s;
  }

  /** The last attribute with TheOnlyRoot `g` in a list of TheOnly attributes (grp.Last()). */
  function LastOfRoot(t: seq<Attribute>, g: TypeRef): Option<Attribute>
    decreases |t|
  {
    if t == [] then None
    else if t[|t| - 1].kind.theOnlyRoot == g then Some(t[|t| - 1])
    else LastOfRoot(t[..|t| - 1], g)
  }

  /**
   * `GroupBy(TheOnlyRoot).Select(Last)`, up to order: only membership in it is
   * ever consulted, and an attribute is a member iff it is the last of its group.
   */
  function GroupLasts(t: seq<Attribute>): (r: seq<Attribute>)
    ensures forall i :: 0 <= i < |r| ==> r[i] in t && LastOfRoot(t, r[i].kind.theOnlyRoot) == Some(r[i])
    ensures forall i :: 0 <= i < |t| && LastOfRoot(t, t[i].kind.theOnlyRoot) == Some(t[i]) ==> t[i] in r
  {
    var p := (a: Attribute) => LastOfRoot(t, a.kind.theOnlyRoot) == Some(a);
    FilterMembers(t, p);
    Filter(t, p)
  }

  /** Grouping the TheOnly attributes of `s` by root finds the same last member as LastInGroup. */
  lemma {:induction false} LastOfRootOfTheOnlys(s: seq<Attribute>, g: TypeRef)
    ensures LastOfRoot(Filter(s, IsTheOnly), g) == LastInGroup(s, g)
    decreases |s|
  {
    if s != [] {
      var s', x := s[..|s| - 1], s[|s| - 1];
      LastOfRootOfTheOnlys(s', g);
      var t' := Filter(s', IsTheOnly);
      if IsTheOnly(x) {
        assert Filter(s, IsTheOnly) == t' + [x];
        assert (t' + [x])[..|t'|] == t';
      } else {
        assert Filter(s, IsTheOnly) == t';
      }
    }
  }

  /** The loop's removal test. */
  predicate Doomed(theOnlys: seq<Attribute>, lasts: seq<Attribute>, a: Attribute) {
    a in theOnlys && a !in lasts
  }

  function KeepTest(theOnlys: seq<Attribute>, lasts: seq<Attribute>): Attribute -> bool {
    a => !Doomed(theOnlys, lasts, a)
  }

  /** On the input list, the loop's removal test is exactly "does not survive". */
  lemma DoomedIsNotSurviving(s: seq<Attribute>)
    ensures var theOnlys := Filter(s, IsTheOnly);
            forall i :: 0 <= i < |s| ==> KeepTest(theOnlys, GroupLasts(theOnlys))(s[i]) == SurvivalTest(s)(s[i])
  {
    var theOnlys := Filter(s, IsTheOnly);
    FilterMembers(s, IsTheOnly);
    forall i | 0 <= i < |s|
      ensures KeepTest(theOnlys, GroupLasts(theOnlys))(s[i]) == SurvivalTest(s)(s[i])
    {
      var a := s[i];
      LastOfRootOfTheOnlys(s, a.kind.theOnlyRoot);
      if a in theOnlys {
        var k :| 0 <= k < |theOnlys| && theOnlys[k] == a;
        assert IsTheOnly(a);
      }
    }
  }

  /** ApplyTheOnlyPolicy: walk the list backwards, removing (first occurrence of) every non-last TheOnly member. */
  method ApplyTheOnlyPolicy(customizationAttributes: seq<Attribute>) returns (attributeList: seq<Attribute>)
    ensures attributeList == TheOnlyPolicy(customizationAttributes)
  {
    attributeList := customizationAttributes;
    var theOnlys := Filter(attributeList, IsTheOnly);
    var theOnlyLasts := GroupLasts(theOnlys);
    ghost var keep := KeepTest(theOnlys, theOnlyLasts);
    DoomedIsNotSurviving(customizationAttributes);
    FilterCongruence(customizationAttributes, keep, SurvivalTest(customizationAttributes));
    var i := |attributeList| - 1;
    assert attributeList[..i + 1] == attributeList;
    while i >= 0
      invariant -1 <= i < |attributeList|
      invariant Filter(attributeList[..i + 1], keep) + attributeList[i + 1..] == Filter(customizationAttributes, keep)
      decreases i
    {
      var attr := attributeList[i];
      ghost var l := attributeList;
      if attr in theOnlys && attr !in theOnlyLasts {
        FilterRemoveDropped(l, i, keep);
        attributeList := RemoveFirst(attributeList, attr);
      } else {
        FilterKeepAt(l, i, keep);
      }
      i := i - 1;
    }
  }

  // ---------------------------------------------------------------------------
  // Applying the attributes

  /** _invokedAttributes and _hiddenAttributes. */
  datatype Tracker = Tracker(invoked: seq<TypeRef>, hidden: seq<TypeRef>)

  predicate Tracked(t: Tracker, ty: TypeRef) {
    ty in t.invoked || ty in t.hidden
  }

  /** Each type is recorded at most once, and never in both lists. */
  predicate TrackerValid(t: Tracker) {
    NoDuplicates(t.invoked) && NoDuplicates(t.hidden) &&
    forall i :: 0 <= i < |t.invoked| ==> t.invoked[i] !in t.hidden
  }

  /** No [Visibility] on the class, or it says visible, or the instance is visible. */
  predicate RecordsAsInvoked(a: Attribute) {
    a.kind.visibility.None? || a.kind.visibility.value || a.visible
  }

  /** Record an applied attribute's type in the list its visibility selects. */
  function Record(t: Tracker, a: Attribute): (t': Tracker)
    ensures RecordsAsInvoked(a) ==> t' == Tracker(t.invoked + [a.kind.typeRef], t.hidden)
    ensures !RecordsAsInvoked(a) ==> t' == Tracker(t.invoked, t.hidden + [a.kind.typeRef])
    ensures TrackerValid(t) && !Tracked(t, a.kind.typeRef) ==> TrackerValid(t')
  {
    if RecordsAsInvoked(a) then Tracker(t.invoked + [a.kind.typeRef], t.hidden)
    else Tracker(t.invoked, t.hidden + [a.kind.typeRef])
  }

  /** The calls made through ReflectionService.InvokeMethod. */
  datatype Call = Customize(attribute: Attribute) | PostCustomize(attribute: Attribute)

  /**
   * The attribute-supplied code: HasToBeCanceled, and Customize/PostCustomize
   * acting on the test's state `C` (or throwing).
   */
  datatype Hooks<!C> = Hooks(
    cancels: (Attribute, seq<TypeRef>) -> bool,
    customize: (Attribute, C) -> Result<C, Error>,
    postCustomize: (Attribute, C) -> Result<C, Error>)

  /** The test's customization state, the calls made so far, and whether one threw. */
  datatype Applied<C> = Applied(tracker: Tracker, context: C, calls: seq<Call>, outcome: Outcome<Error>)

  /** One iteration of the ForEach. */
  function ApplyOne<C>(st: Applied<C>, a: Attribute, h: Hooks<C>): Applied<C> {
    if Tracked(st.tracker, a.kind.typeRef) then st
    else if h.cancels(a, st.tracker.invoked) then st
    else match h.customize(a, st.context)
      case Failure(e) => st.(calls := st.calls + [Customize(a)], outcome := Fail(e))
      case Success(c1) =>
        match h.postCustomize(a, c1)
        case Failure(e) => st.(context := c1, calls := st.calls + [Customize(a), PostCustomize(a)], outcome := Fail(e))
        case Success(c2) => Applied(Record(st.tracker, a), c2, st.calls + [Customize(a), PostCustomize(a)], Pass)
  }

  /** The ForEach over `list`; an exception ends it. */
  function ApplyAll<C>(st: Applied<C>, list: seq<Attribute>, h: Hooks<C>): Applied<C>
    decreases |list|
  {
    if list == [] then st
    else
      var mid := ApplyAll(st, list[..|list| - 1], h);
      if mid.outcome.Fail? then mid else ApplyOne(mid, list[|list| - 1], h)
  }

  /** Visiting one more element after a run without exception is one more iteration. */
  lemma ApplyAllStep<C>(st: Applied<C>, list: seq<Attribute>, i: nat, h: Hooks<C>)
    requires i < |list| && ApplyAll(st, list[..i], h).outcome.Pass?
    ensures ApplyAll(st, list[..i + 1], h) == ApplyOne(ApplyAll(st, list[..i], h), list[i], h)
  {
    assert list[..i + 1][..i] == list[..i];
  }

  /** Once an exception was raised, the rest of the list is not visited. */
  lemma {:induction false} ApplyAllStopsAfterFailure<C>(st: Applied<C>, list: seq<Attribute>, k: nat, h: Hooks<C>)
    requires k <= |list| && ApplyAll(st, list[..k], h).outcome.Fail?
    ensures ApplyAll(st, list, h) == ApplyAll(st, list[..k], h)
    decreases |list|
  {
    if k < |list| {
      assert list[..|list| - 1][..k] == list[..k];
      ApplyAllStopsAfterFailure(st, list[..|list| - 1], k, h);
    } else {
      assert list[..k] == list;
    }
  }

  /** The attribute types handed to Customize, in call order. */
  function CustomizedTypes(calls: seq<Call>): seq<TypeRef>
    decreases |calls|
  {
    if calls == [] then []
    else CustomizedTypes(calls[..|calls| - 1]) +
         (if calls[|calls| - 1].Customize? then [calls[|calls| - 1].attribute.kind.typeRef] else [])
  }

  lemma CustomizedTypesAppend(calls: seq<Call>, more: seq<Call>)
    ensures CustomizedTypes(calls + more) == CustomizedTypes(calls) + CustomizedTypes(more)
    decreases |more|
  {
    if more == [] {
      assert calls + more == calls;
    } else {
      assert (calls + more)[..|calls + more| - 1] == calls + more[..|more| - 1];
      CustomizedTypesAppend(calls, more[..|more| - 1]);
    }
  }

  /** One iteration either does nothing, or customizes a type not yet recorded and records it if nothing threw. */
  lemma ApplyOneEffect<C>(st: Applied<C>, a: Attribute, h: Hooks<C>)
    requires st.outcome == Pass
    ensures var r := ApplyOne(st, a, h);
            || r == st
            || (&& !Tracked(st.tracker, a.kind.typeRef)
                && CustomizedTypes(r.calls) == CustomizedTypes(st.calls) + [a.kind.typeRef]
                && (r.outcome.Pass? ==> r.tracker == Record(st.tracker, a))
                && (r.outcome.Fail? ==> r.tracker == st.tracker))
  {
    var r := ApplyOne(st, a, h);
    if r != st {
      var more := if h.customize(a, st.context).Failure? then [Customize(a)] else [Customize(a), PostCustomize(a)];
      assert r.calls == st.calls + more;
      CustomizedTypesAppend(st.calls, more);
      assert [Customize(a), PostCustomize(a)][..1] == [Customize(a)];
      assert CustomizedTypes(more) == [a.kind.typeRef];
    }
  }

  /** The recorded lists only grow, stay valid, and gain only customized types. */
  lemma {:induction false} ApplyAllKeepsTrackerValid<C>(st: Applied<C>, list: seq<Attribute>, h: Hooks<C>)
    requires st.outcome == Pass && TrackerValid(st.tracker)
    ensures var r := ApplyAll(st, list, h);
            && TrackerValid(r.tracker)
            && st.tracker.invoked <= r.tracker.invoked && st.tracker.hidden <= r.tracker.hidden
    decreases |list|
  {
    if list != [] {
      var mid := ApplyAll(st, list[..|list| - 1], h);
      ApplyAllKeepsTrackerValid(st, list[..|list| - 1], h);
      if mid.outcome.Pass? {
        ApplyOneEffect(mid, list[|list| - 1], h);
      }
    }
  }

  /**
   * Applying a list from a fresh call log: each attribute type is customized at
   * most once and never one already recorded; after a run without exception
   * every customized type is recorded; nothing but customized types is newly
   * recorded.
   */
  lemma {:induction false} ApplyAllOncePerType<C>(st: Applied<C>, list: seq<Attribute>, h: Hooks<C>)
    requires st.calls == [] && st.outcome == Pass && TrackerValid(st.tracker)
    ensures var r := ApplyAll(st, list, h);
            var customized := CustomizedTypes(r.calls);
            && NoDuplicates(customized)
            && (forall i :: 0 <= i < |customized| ==> !Tracked(st.tracker, customized[i]))
            && (r.outcome.Pass? ==> forall i :: 0 <= i < |customized| ==> Tracked(r.tracker, customized[i]))
            && (forall ty :: Tracked(r.tracker, ty) ==> Tracked(st.tracker, ty) || ty in customized)
    decreases |list|
  {
    if list != [] {
      var mid := ApplyAll(st, list[..|list| - 1], h);
      ApplyAllOncePerType(st, list[..|list| - 1], h);
      ApplyAllKeepsTrackerValid(st, list[..|list| - 1], h);
      if mid.outcome.Pass? {
        ApplyOneEffect(mid, list[|list| - 1], h);
      }
    }
  }

  /** HasToBeCanceled stays true when more types get invoked. */
  ghost predicate MonotoneCancellation(cancels: (Attribute, seq<TypeRef>) -> bool) {
    forall a, invoked, more :: cancels(a, invoked) ==> cancels(a, invoked + more)
  }

  /** Every attribute of `list` is already recorded or cancelled by the invoked list. */
  predicate Settled<C>(t: Tracker, list: seq<Attribute>, h: Hooks<C>) {
    forall i :: 0 <= i < |list| ==> Tracked(t, list[i].kind.typeRef) || h.cancels(list[i], t.invoked)
  }

  /** A settled list changes nothing and calls nothing. */
  lemma {:induction false} SettledListIsInert<C>(st: Applied<C>, list: seq<Attribute>, h: Hooks<C>)
    requires st.outcome == Pass && Settled(st.tracker, list, h)
    ensures ApplyAll(st, list, h) == st
    decreases |list|
  {
    if list != [] {
      SettledListIsInert(st, list[..|list| - 1], h);
    }
  }

  /** After a run without exception, the list is settled (for a cancellation test that is monotone). */
  lemma {:induction false} ApplyAllSettles<C>(st: Applied<C>, list: seq<Attribute>, h: Hooks<C>)
    requires MonotoneCancellation(h.cancels)
    requires st.outcome == Pass && ApplyAll(st, list, h).outcome == Pass
    ensures st.tracker.invoked <= ApplyAll(st, list, h).tracker.invoked
    ensures st.tracker.hidden <= ApplyAll(st, list, h).tracker.hidden
    ensures Settled(ApplyAll(st, list, h).tracker, list, h)
    decreases |list|
  {
    if list != [] {
      var list' := list[..|list| - 1];
      var mid := ApplyAll(st, list', h);
      ApplyAllSettles(st, list', h);
      var r := ApplyAll(st, list, h);
      var more := r.tracker.invoked[|mid.tracker.invoked|..];
      assert r.tracker.invoked == mid.tracker.invoked + more;
      forall i | 0 <= i < |list|
        ensures Tracked(r.tracker, list[i].kind.typeRef) || h.cancels(list[i], r.tracker.invoked)
      {
        if i < |list| - 1 {
          assert list'[i] == list[i];
          if !Tracked(mid.tracker, list[i].kind.typeRef) {
            assert h.cancels(list[i], mid.tracker.invoked);
          }
        } else if h.cancels(list[i], mid.tracker.invoked) {
          assert h.cancels(list[i], mid.tracker.invoked + more);
        }
      }
    }
  }

  /** Applying the same ordered list a second time, after a run without exception, changes nothing. */
  lemma ReapplicationIsInert<C>(st: Applied<C>, list: seq<Attribute>, h: Hooks<C>)
    requires MonotoneCancellation(h.cancels) && st.outcome == Pass
    requires ApplyAll(st, list, h).outcome == Pass
    ensures var r := ApplyAll(st, list, h).(calls := []);
            ApplyAll(r, list, h) == r
  {
    ApplyAllSettles(st, list, h);
    SettledListIsInert(ApplyAll(st, list, h).(calls := []), list, h);
  }

  /**
   * With the cancellation test the source intends, an attribute whose
   * cancellation list names an invoked type is skipped, and is applied when
   * that type was only hidden.
   */
  lemma CancellationByInvokedOnly<C>(st: Applied<C>, m: Attribute, n: TypeRef, h: Hooks<C>)
    requires h.cancels == ((a: Attribute, invoked: seq<TypeRef>) => CancelledBy(a, invoked))
    requires m.cancellation == [n] && st.outcome == Pass && !Tracked(st.tracker, m.kind.typeRef)
    ensures n in st.tracker.invoked ==> ApplyOne(st, m, h) == st
    ensures (forall i :: 0 <= i < |st.tracker.invoked| ==> st.tracker.invoked[i].name != n.name) ==>
              ApplyOne(st, m, h).calls == st.calls + [Customize(m)] ||
              ApplyOne(st, m, h).calls == st.calls + [Customize(m), PostCustomize(m)]
  {
    if n in st.tracker.invoked {
      var k :| 0 <= k < |st.tracker.invoked| && st.tracker.invoked[k] == n;
      assert NameInvoked(m.cancellation[0], st.tracker.invoked);
    }
  }

  /** The cancellation test as the attribute implements it today admits everything, and is monotone. */
  lemma LiteralCancellationIsMonotone()
    ensures MonotoneCancellation((a: Attribute, invoked: seq<TypeRef>) => ClauseResult(CancellationItems(a), invoked))
  {
    forall a: Attribute, invoked: seq<TypeRef> {
      ClauseResultIsFalse(CancellationItems(a), invoked);
    }
  }

  /** A test object deriving from CustomizationAttributeDrivenTest; `C` is the state its customizers act on. */
  class CustomizationAttributeDrivenTest<C> {
    /** The reflection facts, the runtime type GetType() and its declared customization attributes. */
    const universe: Universe
    const runtimeType: TypeRef
    const declaredAttributes: seq<Attribute>
    /**
     * The order List.Sort leaves a candidate list in. The comparer is fixed,
     * so the same candidates always come out in the same order.
     */
    const sortOrder: seq<Attribute> -> seq<Attribute>
    var invokedAttributes: seq<TypeRef>
    var hiddenAttributes: seq<TypeRef>
    var context: C
    ghost var calls: seq<Call>

    ghost predicate Valid()
      reads this
    {
      && TrackerValid(Tracker(invokedAttributes, hiddenAttributes))
      && forall c :: multiset(sortOrder(c)) == multiset(c)
    }

    constructor(universe: Universe, runtimeType: TypeRef, declaredAttributes: seq<Attribute>,
                sortOrder: seq<Attribute> -> seq<Attribute>, context: C)
      requires forall c :: multiset(sortOrder(c)) == multiset(c)
      ensures this.universe == universe && this.runtimeType == runtimeType
      ensures this.declaredAttributes == declaredAttributes && this.sortOrder == sortOrder && this.context == context
      ensures invokedAttributes == [] && hiddenAttributes == [] && calls == []
      ensures Valid()
    {
      this.universe := universe;
      this.runtimeType := runtimeType;
      this.declaredAttributes := declaredAttributes;
      this.sortOrder := sortOrder;
      this.context := context;
      invokedAttributes := [];
      hiddenAttributes := [];
      calls := [];
    }

    /** The candidates for `targetType` (GetType() when none is given), in the order List.Sort leaves them. */
    function Sorted(targetType: Option<TypeRef>): seq<Attribute> {
      sortOrder(Candidates(universe, declaredAttributes, targetType.GetOr(runtimeType)))
    }

    /**
     * ApplyCustomization(targetType). A comparer exception leaves everything
     * unchanged; otherwise the TheOnly survivors are applied in sorted order.
     * A run that ends without exception settles its list, and a settled list
     * is left alone: a second call with the same target type changes nothing.
     */
    method ApplyCustomization(targetType: Option<TypeRef>, h: Hooks<C>)
      returns (outcome: Outcome<Error>)
      requires Valid()
      modifies this
      ensures Valid()
      ensures SortFailure(universe, Sorted(targetType)).Some? ==>
                outcome == Fail(SortFailure(universe, Sorted(targetType)).value) && unchanged(this)
      ensures SortFailure(universe, Sorted(targetType)).None? ==>
                var r := ApplyAll(Applied(old(Tracker(invokedAttributes, hiddenAttributes)), old(context), [], Pass),
                                  TheOnlyPolicy(Sorted(targetType)), h);
                && invokedAttributes == r.tracker.invoked && hiddenAttributes == r.tracker.hidden
                && context == r.context && calls == old(calls) + r.calls && outcome == r.outcome
      ensures MonotoneCancellation(h.cancels) && outcome.Pass? ==>
                Settled(Tracker(invokedAttributes, hiddenAttributes), TheOnlyPolicy(Sorted(targetType)), h)
      ensures SortFailure(universe, Sorted(targetType)).None? &&
              Settled(old(Tracker(invokedAttributes, hiddenAttributes)), TheOnlyPolicy(Sorted(targetType)), h) ==>
                && outcome == Pass && invokedAttributes == old(invokedAttributes)
                && hiddenAttributes == old(hiddenAttributes) && context == old(context) && calls == old(calls)
    {
      var sortFailure := SortFailure(universe, Sorted(targetType));
      if sortFailure.Some? {
        return Fail(sortFailure.value);
      }
      var attributeList := ApplyTheOnlyPolicy(Sorted(targetType));
      ghost var st := Applied(Tracker(invokedAttributes, hiddenAttributes), context, [], Pass);
      outcome := ApplyInOrder(attributeList, h);
      if MonotoneCancellation(h.cancels) && outcome.Pass? {
        ApplyAllSettles(st, attributeList, h);
      }
      if Settled(st.tracker, attributeList, h) {
        SettledListIsInert(st, attributeList, h);
        assert calls == old(calls) + [];
      }
    }

    /** The ForEach of ApplyCustomization over the ordered survivors. */
    method ApplyInOrder(attributeList: seq<Attribute>, h: Hooks<C>) returns (outcome: Outcome<Error>)
      requires Valid()
      modifies this
      ensures Valid()
      ensures var r := ApplyAll(Applied(old(Tracker(invokedAttributes, hiddenAttributes)), old(context), [], Pass),
                                attributeList, h);
              && invokedAttributes == r.tracker.invoked && hiddenAttributes == r.tracker.hidden
              && context == r.context && calls == old(calls) + r.calls && outcome == r.outcome
    {
      ghost var init := Applied(Tracker(invokedAttributes, hiddenAttributes), context, [], Pass);
      ghost var oldCalls := calls;
      ghost var newCalls: seq<Call> := [];
      outcome := Pass;
      var i := 0;
      while i < |attributeList| && outcome.Pass?
        invariant 0 <= i <= |attributeList|
        invariant calls == oldCalls + newCalls
        invariant Applied(Tracker(invokedAttributes, hiddenAttributes), context, newCalls, outcome)
                  == ApplyAll(init, attributeList[..i], h)
      {
        var a := attributeList[i];
        ghost var before := Applied(Tracker(invokedAttributes, hiddenAttributes), context, newCalls, outcome);
        ApplyAllStep(init, attributeList, i, h);
        var ty := a.kind.typeRef;
        if ty in invokedAttributes || ty in hiddenAttributes {
        } else if h.cancels(a, invokedAttributes) {
        } else {
          var customized := h.customize(a, context);
          calls, newCalls := calls + [Customize(a)], newCalls + [Customize(a)];
          if customized.Failure? {
            outcome := Fail(customized.error);
          } else {
            context := customized.value;
            var posted := h.postCustomize(a, context);
            calls, newCalls := calls + [PostCustomize(a)], newCalls + [PostCustomize(a)];
            assert newCalls == before.calls + [Customize(a), PostCustomize(a)];
            if posted.Failure? {
              outcome := Fail(posted.error);
            } else {
              context := posted.value;
              if RecordsAsInvoked(a) {
                invokedAttributes := invokedAttributes + [ty];
              } else {
                hiddenAttributes := hiddenAttributes + [ty];
              }
              assert Tracker(invokedAttributes, hiddenAttributes) == Record(before.tracker, a);
            }
          }
        }
        i := i + 1;
      }
      if i < |attributeList| {
        ApplyAllStopsAfterFailure(init, attributeList, i, h);
      } else {
        assert attributeList[..i] == attributeList;
      }
      ApplyAllKeepsTrackerValid(init, attributeList, h);
    }

    /** GetAppliedCustomizations: the hidden list, so never a type recorded as invoked. */
    function GetAppliedCustomizations(): (r: seq<TypeRef>)
      reads this
      ensures Valid() ==> forall i :: 0 <= i < |r| ==> r[i] !in invokedAttributes
    {
      hiddenAttributes
    }
  }
}
