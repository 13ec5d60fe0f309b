/**
 * The browser customizations of a WebDriverDrivenTest:
 * ForbiddenBrowsersAttribute rejects the current browser, and
 * DefaultBrowserAttribute sets it. The Browser enumeration is given by
 * the number of its values, 0 through browserCount - 1.
 */
module Browsing {
  import opened Base
  import opened CustomizationAttributes

  /** The part of a WebDriverDrivenTest these attributes read and write. */
  class WebDriverContext {
    var browser: Browser

    constructor(browser: Browser)
      ensures this.browser == browser
    {
      this.browser := browser;
    }
  }

  const ForbiddenBrowsersAttributeType := TypeRef("TestUnium.Instantiation.Browsing", "ForbiddenBrowsersAttribute")
  const DefaultBrowserAttributeType := TypeRef("TestUnium.Instantiation.Browsing", "DefaultBrowserAttribute")

  /** A customization attribute of the given class targeting WebDriverDrivenTest with its class priority. */
  function BrowserAttribute(typeRef: TypeRef, priority: UInt16): (a: Attribute)
    ensures a.target == WebDriverDrivenTest && a.priority == priority && a.kind.typeRef == typeRef
    ensures a.cancellation == [] && !a.kind.theOnly
  {
    NewCustomizationAttributeWithoutCancellation(
      AttributeKind(typeRef, true, false, typeRef, None, Some(priority)), WebDriverDrivenTest, priority)
  }

  /**
   * ForbiddenBrowsersAttribute.Customize, as written: an array as long as
   * the Browser enumeration means no browser is allowed; otherwise the
   * current browser must not be in the array. The context is not changed.
   */
  function CheckForbidden(forbidden: seq<Browser>, browserCount: nat, current: Browser): (r: Outcome<Error>)
    ensures |forbidden| == browserCount ==> r == Fail(NoAllowedBrowsers)
    ensures |forbidden| != browserCount ==> (r.Fail? <==> current in forbidden)
    ensures r.Fail? && |forbidden| != browserCount ==> r.error == BrowserNotAllowed(current)
  {
    if |forbidden| == browserCount then Fail(NoAllowedBrowsers)
    else if exists i :: 0 <= i < |forbidden| && forbidden[i] == current then Fail(BrowserNotAllowed(current))
    else Pass
  }

  /** Forbidding nothing never throws, on an enumeration with any values at all. */
  lemma NothingForbiddenPasses(browserCount: nat, current: Browser)
    requires browserCount > 0
    ensures CheckForbidden([], browserCount, current) == Pass
  {
  }

  /**
   * The length test counts entries, not browsers: with two or more
   * browsers, repeating one forbidden browser as often as there are
   * browsers reports that none is allowed while every other browser is.
   */
  lemma DuplicatesForbidEverything(browserCount: nat, b: Browser, current: Browser)
    requires browserCount >= 2 && 0 <= current < browserCount && current != b
    ensures var forbidden := seq(browserCount, _ => b);
            && current !in forbidden
            && CheckForbidden(forbidden, browserCount, current) == Fail(NoAllowedBrowsers)
  {
    var forbidden := seq(browserCount, _ => b);
    assert forall i :: 0 <= i < |forbidden| ==> forbidden[i] == b;
  }

  /** Every browser value of the enumeration is in the array. */
  predicate AllForbidden(forbidden: seq<Browser>, browserCount: nat) {
    forall b :: 0 <= b < browserCount ==> b in forbidden
  }

  /**
   * The check as evidently intended: NoAllowedBrowsers exactly when every
   * browser of the enumeration is forbidden, whatever the repetitions.
   */
  function CheckForbiddenCorrected(forbidden: seq<Browser>, browserCount: nat, current: Browser): (r: Outcome<Error>)
    ensures r == Fail(NoAllowedBrowsers) <==> AllForbidden(forbidden, browserCount)
    ensures !AllForbidden(forbidden, browserCount) ==> (r.Fail? <==> current in forbidden)
    ensures r.Fail? && !AllForbidden(forbidden, browserCount) ==> r.error == BrowserNotAllowed(current)
  {
    if AllForbidden(forbidden, browserCount) then Fail(NoAllowedBrowsers)
    else if current in forbidden then Fail(BrowserNotAllowed(current))
    else Pass
  }

  /**
   * On an array without repetitions of enumeration values the two checks
   * agree, so the correction changes only arrays that repeat a browser.
   */
  lemma {:induction false} CorrectionAgreesWithoutDuplicates(forbidden: seq<Browser>, browserCount: nat, current: Browser)
    requires forall i :: 0 <= i < |forbidden| ==> 0 <= forbidden[i] < browserCount
    requires forall i, j :: 0 <= i < j < |forbidden| ==> forbidden[i] != forbidden[j]
    ensures CheckForbiddenCorrected(forbidden, browserCount, current) == CheckForbidden(forbidden, browserCount, current)
  {
    var values := set i | 0 <= i < |forbidden| :: forbidden[i];
    DistinctCount(forbidden);
    assert values <= RangeSet(browserCount) by {
      forall x | x in values ensures x in RangeSet(browserCount) { RangeSetMembers(browserCount, x); }
    }
    RangeSetSize(browserCount);
    if AllForbidden(forbidden, browserCount) {
      assert RangeSet(browserCount) <= values by {
        forall x | x in RangeSet(browserCount) ensures x in values {
          RangeSetMembers(browserCount, x);
          assert x in forbidden;
          var i :| 0 <= i < |forbidden| && forbidden[i] == x;
        }
      }
      assert values == RangeSet(browserCount);
    } else {
      var b :| 0 <= b < browserCount && b !in forbidden;
      RangeSetMembers(browserCount, b);
      assert values < RangeSet(browserCount);
      SubsetSmaller(values, RangeSet(browserCount));
    }
  }

  /** The values 0 .. n - 1. */
  function RangeSet(n: nat): (r: set<int>)
    ensures forall x :: x in r ==> 0 <= x < n
  {
    if n == 0 then {} else RangeSet(n - 1) + {n - 1}
  }

  lemma {:induction false} RangeSetMembers(n: nat, x: int)
    ensures x in RangeSet(n) <==> 0 <= x < n
  {
    if n > 0 {
      RangeSetMembers(n - 1, x);
    }
  }

  lemma {:induction false} RangeSetSize(n: nat)
    ensures |RangeSet(n)| == n
  {
    if n > 0 {
      RangeSetSize(n - 1);
      assert n - 1 !in RangeSet(n - 1);
    }
  }

  lemma SubsetSmaller<T>(a: set<T>, b: set<T>)
    requires a < b
    ensures |a| < |b|
  {
    var x :| x in b && x !in a;
    SubsetNoLarger(a, b - {x});
  }

  lemma {:induction false} SubsetNoLarger<T>(a: set<T>, b: set<T>)
    requires a <= b
    ensures |a| <= |b|
    decreases a
  {
    if a != {} {
      var y :| y in a;
      SubsetNoLarger(a - {y}, b - {y});
    }
  }

  /** A sequence without repetitions has as many distinct values as elements. */
  lemma {:induction false} DistinctCount(s: seq<Browser>)
    requires forall i, j :: 0 <= i < j < |s| ==> s[i] != s[j]
    ensures |set i | 0 <= i < |s| :: s[i]| == |s|
  {
    if |s| > 0 {
      var init := s[..|s| - 1];
      DistinctCount(init);
      var front := set i | 0 <= i < |init| :: init[i];
      var all := set i | 0 <= i < |s| :: s[i];
      assert all == front + {s[|s| - 1]} by {
        forall x | x in all ensures x in front + {s[|s| - 1]} {
          var i :| 0 <= i < |s| && s[i] == x;
          if i < |s| - 1 { assert init[i] == x; }
        }
        forall x | x in front ensures x in all {
          var i :| 0 <= i < |init| && init[i] == x;
          assert s[i] == x;
        }
      }
      assert s[|s| - 1] !in front by {
        forall i | 0 <= i < |init| ensures init[i] != s[|s| - 1] { assert init[i] == s[i]; }
      }
    }
  }

  /** DefaultBrowserAttribute: the browser to set. */
  datatype DefaultBrowserAttribute = DefaultBrowserAttribute(base: Attribute, defaultBrowser: Browser)

  /** The constructor stores the browser and targets WebDriverDrivenTest. */
  function NewDefaultBrowserAttribute(defaultBrowserPriority: UInt16, defaultBrowser: Browser): (a: DefaultBrowserAttribute)
    ensures a.defaultBrowser == defaultBrowser
    ensures a.base.target == WebDriverDrivenTest && a.base.priority == defaultBrowserPriority
  {
    DefaultBrowserAttribute(BrowserAttribute(DefaultBrowserAttributeType, defaultBrowserPriority), defaultBrowser)
  }

  /** DefaultBrowserAttribute.Customize: the context's browser becomes the attribute's, and nothing else changes. */
  method CustomizeDefaultBrowser(a: DefaultBrowserAttribute, context: WebDriverContext)
    modifies context`browser
    ensures context.browser == a.defaultBrowser
  {
    context.browser := a.defaultBrowser;
  }

  /**
   * A WebDriverDrivenTest carrying both Instantiation attributes, applied
   * DefaultBrowser first and ForbiddenBrowsers second. That order is an
   * assumption here: it follows from the two classes' [Priority] values,
   * which this model takes as parameters. The check then fails exactly when
   * the default browser is forbidden, unless the array is as long as the
   * enumeration.
   */
  method DefaultThenForbidden(a: DefaultBrowserAttribute, forbidden: seq<Browser>, browserCount: nat,
                              context: WebDriverContext)
    returns (outcome: Outcome<Error>)
    modifies context`browser
    ensures context.browser == a.defaultBrowser
    ensures |forbidden| != browserCount ==> (outcome.Fail? <==> a.defaultBrowser in forbidden)
    ensures |forbidden| == browserCount ==> outcome == Fail(NoAllowedBrowsers)
  {
    CustomizeDefaultBrowser(a, context);
    outcome := CheckForbidden(forbidden, browserCount, context.browser);
  }
}
