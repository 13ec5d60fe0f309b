/**
 * Sequence operations the core performs through .NET collections:
 * LINQ's Where, List.Remove (first occurrence), Array.IndexOf, and the
 * "run every hook until one throws" loop that several foreach statements share.
 */
module Seqs {
  import opened Base

  /** LINQ `Where`: the elements satisfying `p`, in their original order. */
  function Filter<T>(s: seq<T>, p: T -> bool): (r: seq<T>)
    ensures |r| <= |s|
    decreases |s|
  {
    if s == [] then []
    else Filter(s[..|s| - 1], p) + (if p(s[|s| - 1]) then [s[|s| - 1]] else [])
  }

  /** The filter keeps exactly the elements that pass the test. */
  lemma {:induction false} FilterMembers<T>(s: seq<T>, p: T -> bool)
    ensures forall i :: 0 <= i < |Filter(s, p)| ==> Filter(s, p)[i] in s && p(Filter(s, p)[i])
    ensures forall i :: 0 <= i < |s| && p(s[i]) ==> s[i] in Filter(s, p)
    decreases |s|
  {
    if s != [] {
      var s' := s[..|s| - 1];
      FilterMembers(s', p);
      assert forall i :: 0 <= i < |s'| ==> s'[i] == s[i];
      assert s == s' + [s[|s| - 1]];
    }
  }

  lemma {:induction false} FilterAppend<T>(a: seq<T>, b: seq<T>, p: T -> bool)
    ensures Filter(a + b, p) == Filter(a, p) + Filter(b, p)
    decreases |b|
  {
    if b == [] {
      assert a + b == a;
    } else {
      var b' := b[..|b| - 1];
      assert (a + b)[..|a + b| - 1] == a + b';
      FilterAppend(a, b', p);
    }
  }

  lemma FilterSingleton<T>(x: T, p: T -> bool)
    ensures Filter([x], p) == if p(x) then [x] else []
  {
    assert [x][..0] == [];
  }

  /** Filters by two tests that agree on every element of `s` give the same result. */
  lemma {:induction false} FilterCongruence<T>(s: seq<T>, p: T -> bool, q: T -> bool)
    requires forall i :: 0 <= i < |s| ==> p(s[i]) == q(s[i])
    ensures Filter(s, p) == Filter(s, q)
    decreases |s|
  {
    if s != [] {
      FilterCongruence(s[..|s| - 1], p, q);
    }
  }

  /** Filtering twice is filtering once by both tests. */
  lemma {:induction false} FilterTwice<T>(s: seq<T>, p: T -> bool, q: T -> bool, both: T -> bool)
    requires forall i :: 0 <= i < |s| ==> both(s[i]) == (p(s[i]) && q(s[i]))
    ensures Filter(Filter(s, p), q) == Filter(s, both)
    decreases |s|
  {
    if s != [] {
      var s', x := s[..|s| - 1], s[|s| - 1];
      FilterTwice(s', p, q, both);
      if p(x) {
        FilterAppend(Filter(s', p), [x], q);
        FilterSingleton(x, q);
      } else {
        assert Filter(s, p) == Filter(s', p);
      }
    }
  }

  /** A test every element passes keeps everything. */
  lemma {:induction false} FilterAll<T>(s: seq<T>, p: T -> bool)
    requires forall i :: 0 <= i < |s| ==> p(s[i])
    ensures Filter(s, p) == s
    decreases |s|
  {
    if s != [] {
      FilterAll(s[..|s| - 1], p);
    }
  }

  /** No element occurs twice. */
  predicate NoDuplicates<T(==)>(s: seq<T>) {
    forall i, j :: 0 <= i < j < |s| ==> s[i] != s[j]
  }

  /** `r` can be obtained from `s` by deleting elements (checked greedily from the end). */
  predicate IsSubsequence<T(==)>(r: seq<T>, s: seq<T>)
    decreases |s|
  {
    if r == [] then true
    else if s == [] then false
    else if r[|r| - 1] == s[|s| - 1] then IsSubsequence(r[..|r| - 1], s[..|s| - 1])
    else IsSubsequence(r, s[..|s| - 1])
  }

  /** A filter keeps its survivors in their original order. */
  lemma {:induction false} FilterIsSubsequence<T>(s: seq<T>, p: T -> bool)
    ensures IsSubsequence(Filter(s, p), s)
    decreases |s|
  {
    if s != [] {
      var s', y := s[..|s| - 1], s[|s| - 1];
      var r := Filter(s', p);
      FilterIsSubsequence(s', p);
      FilterMembers(s', p);
      if p(y) {
        assert (r + [y])[..|r|] == r;
      } else {
        assert Filter(s, p) == r;
        assert s[..|s| - 1] == s';
        if r != [] {
          assert p(r[|r| - 1]);
          assert r[|r| - 1] != y;
        }
      }
    }
  }

  /** List.Remove: drop the first element equal to `x`, if any. */
  function RemoveFirst<T(==)>(s: seq<T>, x: T): (r: seq<T>)
    ensures x !in s ==> r == s
    ensures x in s ==> |r| == |s| - 1
    ensures multiset(r) == multiset(s) - multiset{x}
  {
    if s == [] then []
    else if s[0] == x then (assert s == [s[0]] + s[1..]; s[1..])
    else (assert s == [s[0]] + s[1..]; [s[0]] + RemoveFirst(s[1..], x))
  }

  /** The position of the first occurrence of `x`. */
  function FirstIndex<T(==)>(s: seq<T>, x: T): (k: nat)
    requires x in s
    ensures k < |s| && s[k] == x && x !in s[..k]
  {
    if s[0] == x then 0
    else
      var k := FirstIndex(s[1..], x);
      assert s[..k + 1] == [s[0]] + s[1..][..k];
      k + 1
  }

  /** Removing the first `x` deletes exactly the position of its first occurrence. */
  lemma {:induction false} RemoveFirstAt<T>(s: seq<T>, x: T, k: nat)
    requires k < |s| && s[k] == x && x !in s[..k]
    ensures RemoveFirst(s, x) == s[..k] + s[k + 1..]
  {
    if k > 0 {
      assert s[1..][..k - 1] == s[..k][1..];
      RemoveFirstAt(s[1..], x, k - 1);
    }
  }

  /**
   * Removing the first occurrence of an element that fails the filter, found
   * at position i, leaves "filtered prefix up to i, then the rest" unchanged.
   */
  lemma FilterRemoveDropped<T>(l: seq<T>, i: nat, p: T -> bool)
    requires i < |l| && !p(l[i])
    ensures var l' := RemoveFirst(l, l[i]);
            i <= |l'| && Filter(l'[..i], p) + l'[i..] == Filter(l[..i + 1], p) + l[i + 1..]
  {
    var x := l[i];
    var k := FirstIndex(l, x);
    RemoveFirstAt(l, x, k);
    FilterDropAt(l, k, i, p);
  }

  /** Moving position i, whose element passes the filter, from the rest into the filtered prefix. */
  lemma FilterKeepAt<T>(l: seq<T>, i: nat, p: T -> bool)
    requires i < |l| && p(l[i])
    ensures Filter(l[..i], p) + l[i..] == Filter(l[..i + 1], p) + l[i + 1..]
  {
    FilterAppend(l[..i], [l[i]], p);
    FilterSingleton(l[i], p);
    assert l[..i + 1] == l[..i] + [l[i]];
    assert l[i..] == [l[i]] + l[i + 1..];
  }

  /** Deleting position k <= i, whose element fails the filter. */
  lemma FilterDropAt<T>(l: seq<T>, k: nat, i: nat, p: T -> bool)
    requires k <= i < |l| && !p(l[k])
    ensures var l' := l[..k] + l[k + 1..];
            Filter(l'[..i], p) + l'[i..] == Filter(l[..i + 1], p) + l[i + 1..]
  {
    var x := l[k];
    var a, b, c := l[..k], l[k + 1..i + 1], l[i + 1..];
    var l' := l[..k] + l[k + 1..];
    assert l' == (a + b) + c by {
      assert l[k + 1..] == b + c;
    }
    assert l'[..i] == a + b;
    assert l'[i..] == c;
    assert l[..i + 1] == (a + [x]) + b;
    FilterSingleton(x, p);
    calc {
      Filter(l'[..i], p) + l'[i..];
      Filter(a + b, p) + c;
      { FilterAppend(a, b, p); }
      Filter(a, p) + Filter(b, p) + c;
      { FilterAppend(a, [x], p); }
      Filter(a + [x], p) + Filter(b, p) + c;
      { FilterAppend(a + [x], b, p); }
      Filter((a + [x]) + b, p) + c;
      Filter(l[..i + 1], p) + l[i + 1..];
    }
  }

  /** `List.Remove` applied once for each element of `xs`, in order. */
  function RemoveEach<T(==)>(s: seq<T>, xs: seq<T>): (r: seq<T>)
    decreases |xs|
  {
    if xs == [] then s else RemoveEach(RemoveFirst(s, xs[0]), xs[1..])
  }

  /** Each removal takes away one occurrence, when there is one. */
  lemma {:induction false} RemoveEachMultiset<T>(s: seq<T>, xs: seq<T>)
    ensures multiset(RemoveEach(s, xs)) == multiset(s) - multiset(xs)
    decreases |xs|
  {
    if xs != [] {
      var s1 := RemoveFirst(s, xs[0]);
      RemoveEachMultiset(s1, xs[1..]);
      assert xs == [xs[0]] + xs[1..];
      calc {
        multiset(RemoveEach(s, xs));
        multiset(s1) - multiset(xs[1..]);
        (multiset(s) - multiset{xs[0]}) - multiset(xs[1..]);
        { MultisetDifference(multiset(s), multiset{xs[0]}, multiset(xs[1..])); }
        multiset(s) - (multiset{xs[0]} + multiset(xs[1..]));
        multiset(s) - multiset(xs);
      }
    }
  }

  lemma MultisetDifference<T>(m: multiset<T>, a: multiset<T>, b: multiset<T>)
    ensures (m - a) - b == m - (a + b)
  {
    forall x ensures ((m - a) - b)[x] == (m - (a + b))[x] {
    }
  }

  /**
   * The position of the first hook in `s` that throws, or |s| when none does:
   * a foreach over `s` that calls a hook on each element stops there.
   */
  function FirstFailing<T>(s: seq<T>, fails: T -> Option<Error>): (k: nat)
    ensures k <= |s|
    ensures forall j :: 0 <= j < k ==> fails(s[j]).None?
    ensures k < |s| ==> fails(s[k]).Some?
  {
    if s == [] then 0
    else if fails(s[0]).Some? then 0
    else 1 + FirstFailing(s[1..], fails)
  }

  /** The error the first throwing hook raises, if any. */
  function FailureOf<T>(s: seq<T>, fails: T -> Option<Error>): Option<Error>
  {
    var k := FirstFailing(s, fails);
    if k < |s| then fails(s[k]) else None
  }

  /** A loop that stopped at position i for the first time has stopped at FirstFailing. */
  lemma FirstFailingAt<T>(s: seq<T>, fails: T -> Option<Error>, i: nat)
    requires i <= |s|
    requires forall j :: 0 <= j < i ==> fails(s[j]).None?
    requires i < |s| ==> fails(s[i]).Some?
    ensures FirstFailing(s, fails) == i
  {
  }
}

/**
 * Command-line argument lookup: `Array.IndexOf(args, flag)` and the choice
 * `(pos != -1 && pos < args.Length - 1) ? args[pos + 1] : fallback`.
 */
module CommandLine {
  import opened Base

  /** Array.IndexOf: the first position of `x`, or -1. */
  function IndexOf(args: seq<string>, x: string): (pos: int)
    ensures -1 <= pos < |args|
    ensures pos == -1 <==> x !in args
    ensures pos >= 0 ==> args[pos] == x && x !in args[..pos]
  {
    if args == [] then -1
    else if args[0] == x then 0
    else
      var p := IndexOf(args[1..], x);
      if p == -1 then -1
      else
        assert args[..p + 1] == [args[0]] + args[1..][..p];
        p + 1
  }

  /** The argument that follows the first occurrence of `flag`, when there is one. */
  function ArgAfter(args: seq<string>, flag: string): (r: Option<string>)
    ensures r.None? <==> forall i :: 0 <= i < |args| - 1 ==> args[i] != flag
    ensures r.Some? ==> exists i :: 0 <= i < |args| - 1 && args[i] == flag && flag !in args[..i] && r.value == args[i + 1]
  {
    var pos := IndexOf(args, flag);
    if pos != -1 && pos < |args| - 1 then Some(args[pos + 1])
    else
      assert forall i :: 0 <= i < |args| - 1 ==> args[i] != flag by {
        forall i | 0 <= i < |args| - 1 ensures args[i] != flag {
          if pos >= 0 {
            assert args[..pos][i] == args[i];
          }
        }
      }
      None
  }
}
