/** The packages that can observe a change: the reverse closure of the workspace dependency graph. */
module DependencyClosure {
  import opened Base

  /** Package name to the local packages it depends on. */
  type Dependencies = map<string, set<string>>

  ghost predicate IsChain(deps: Dependencies, chain: seq<string>) {
    chain != [] && forall i :: 0 <= i < |chain| - 1 ==> DependsDirectly(deps, chain[i], chain[i + 1])
  }

  predicate DependsDirectly(deps: Dependencies, package: string, dependency: string) {
    package in deps && dependency in deps[package]
  }

  /** A chain of dependencies leads from `package` to a changed package. */
  ghost predicate ChainTo(deps: Dependencies, changed: set<string>, package: string, chain: seq<string>) {
    IsChain(deps, chain) && chain[0] == package && chain[|chain| - 1] in changed
  }

  ghost predicate Observes(deps: Dependencies, changed: set<string>, package: string) {
    exists chain :: ChainTo(deps, changed, package, chain)
  }

  /** Everything that observes a change, the changed packages included. */
  ghost function Closure(changed: set<string>, deps: Dependencies): set<string> {
    set package | package in changed + deps.Keys && Observes(deps, changed, package)
  }

  ghost predicate Closed(deps: Dependencies, s: set<string>) {
    forall package, dependency :: DependsDirectly(deps, package, dependency) && dependency in s ==> package in s
  }

  lemma {:induction false} ObservesItself(deps: Dependencies, changed: set<string>, package: string)
    requires package in changed
    ensures Observes(deps, changed, package)
  {
    assert ChainTo(deps, changed, package, [package]);
  }

  lemma {:induction false} ObservesThrough(deps: Dependencies, changed: set<string>, package: string,
                                           dependency: string)
    requires DependsDirectly(deps, package, dependency) && Observes(deps, changed, dependency)
    ensures Observes(deps, changed, package)
  {
    var chain :| ChainTo(deps, changed, dependency, chain);
    assert ChainTo(deps, changed, package, [package] + chain);
  }

  /** Whatever observes a change is in the closure. */
  lemma {:induction false} ObserversAreClosure(deps: Dependencies, changed: set<string>, package: string)
    ensures package in Closure(changed, deps) <==> Observes(deps, changed, package)
  {
    if chain :| ChainTo(deps, changed, package, chain) {
      assert |chain| > 1 ==> DependsDirectly(deps, chain[0], chain[1]);
    }
  }

  /** The closure is a closed superset of the changed packages. */
  lemma {:induction false} ClosureIsClosed(changed: set<string>, deps: Dependencies)
    ensures changed <= Closure(changed, deps) && Closed(deps, Closure(changed, deps))
  {
    forall package | package in changed ensures package in Closure(changed, deps) {
      ObservesItself(deps, changed, package);
    }
    forall package, dependency | DependsDirectly(deps, package, dependency) && dependency in Closure(changed, deps)
      ensures package in Closure(changed, deps)
    {
      ObservesThrough(deps, changed, package, dependency);
    }
  }

  lemma {:induction false} ChainWithin(deps: Dependencies, s: set<string>, chain: seq<string>)
    requires IsChain(deps, chain) && chain[|chain| - 1] in s && Closed(deps, s)
    ensures chain[0] in s
  {
    if |chain| > 1 {
      ChainWithin(deps, s, chain[1..]);
      assert DependsDirectly(deps, chain[0], chain[1]);
    }
  }

  /** And the least one. */
  lemma {:induction false} ClosureIsLeast(changed: set<string>, deps: Dependencies, s: set<string>)
    requires changed <= s && Closed(deps, s)
    ensures Closure(changed, deps) <= s
  {
    forall package | package in Closure(changed, deps) ensures package in s {
      var chain :| ChainTo(deps, changed, package, chain);
      ChainWithin(deps, s, chain);
    }
  }

  /** Distribution over union: the closure of a union is the union of the closures. */
  lemma {:induction false} ClosureOfUnion(a: set<string>, b: set<string>, deps: Dependencies)
    ensures Closure(a + b, deps) == Closure(a, deps) + Closure(b, deps)
  {
    forall package ensures package in Closure(a + b, deps) <==> package in Closure(a, deps) + Closure(b, deps) {
      if package in Closure(a + b, deps) {
        var chain :| ChainTo(deps, a + b, package, chain);
        assert ChainTo(deps, if chain[|chain| - 1] in a then a else b, package, chain);
        assert |chain| == 1 || DependsDirectly(deps, package, chain[1]);
      }
      if package in Closure(a, deps) {
        var chain :| ChainTo(deps, a, package, chain);
        assert ChainTo(deps, a + b, package, chain);
      }
      if package in Closure(b, deps) {
        var chain :| ChainTo(deps, b, package, chain);
        assert ChainTo(deps, a + b, package, chain);
      }
    }
  }

  lemma {:induction false} ClosureIsIdempotent(changed: set<string>, deps: Dependencies)
    ensures Closure(Closure(changed, deps), deps) == Closure(changed, deps)
  {
    var closure := Closure(changed, deps);
    ClosureIsClosed(changed, deps);
    ClosureOfClosed(closure, deps);
  }

  lemma {:induction false} ClosureOfClosed(s: set<string>, deps: Dependencies)
    requires Closed(deps, s)
    ensures Closure(s, deps) == s
  {
    ClosureIsLeast(s, deps, s);
    forall package | package in s ensures package in Closure(s, deps) {
      ObservesItself(deps, s, package);
    }
  }

  /** More dependencies, more observers. */
  lemma {:induction false} ClosureIsMonotone(changed: set<string>, deps: Dependencies, deps': Dependencies)
    requires forall package, dependency ::
               DependsDirectly(deps, package, dependency) ==> DependsDirectly(deps', package, dependency)
    ensures Closure(changed, deps) <= Closure(changed, deps')
  {
    ClosureIsClosed(changed, deps');
    ClosureIsLeast(changed, deps, Closure(changed, deps'));
  }

  // ------------------------------------------------------------- the algorithm

  function At(reverse: map<string, set<string>>, dependency: string): set<string> {
    if dependency in reverse then reverse[dependency] else {}
  }

  /** The edges of the packages in `from`, turned round. */
  ghost predicate Inverts(deps: Dependencies, from: set<string>, reverse: map<string, set<string>>) {
    forall dependency, package ::
      package in At(reverse, dependency) <==> package in from && DependsDirectly(deps, package, dependency)
  }

  ghost predicate EntersUnder(reverse: map<string, set<string>>, package: string, edges: set<string>,
                              reverse': map<string, set<string>>) {
    forall dependency, x ::
      x in At(reverse', dependency) <==> x in At(reverse, dependency) || (x == package && dependency in edges)
  }

  /** Enters `package` under each of its dependencies. */
  method AddEdges(reverse: map<string, set<string>>, package: string, edges: set<string>)
    returns (reverse': map<string, set<string>>)
    ensures EntersUnder(reverse, package, edges, reverse')
  {
    reverse' := reverse;
    var left := edges;
    while left != {}
      invariant left <= edges && EntersUnder(reverse, package, edges - left, reverse')
      decreases |left|
    {
      var dependency :| dependency in left;
      EnterOne(reverse, package, edges - left, reverse', dependency);
      assert edges - (left - {dependency}) == edges - left + {dependency};
      reverse' := reverse'[dependency := At(reverse', dependency) + {package}];
      left := left - {dependency};
    }
    assert edges - left == edges;
  }

  lemma {:induction false} EnterOne(reverse: map<string, set<string>>, package: string, edges: set<string>,
                                    reverse': map<string, set<string>>, dependency: string)
    requires EntersUnder(reverse, package, edges, reverse')
    ensures EntersUnder(reverse, package, edges + {dependency},
                        reverse'[dependency := At(reverse', dependency) + {package}])
  {
    var next := reverse'[dependency := At(reverse', dependency) + {package}];
    forall d, x
      ensures x in At(next, d) <==> x in At(reverse, d) || (x == package && d in edges + {dependency})
    {
      assert At(next, d) == if d == dependency then At(reverse', d) + {package} else At(reverse', d);
    }
  }

  lemma {:induction false} InvertsMore(deps: Dependencies, from: set<string>, reverse: map<string, set<string>>,
                                       package: string, reverse': map<string, set<string>>)
    requires Inverts(deps, from, reverse) && package in deps
    requires EntersUnder(reverse, package, deps[package], reverse')
    ensures Inverts(deps, from + {package}, reverse')
  {
  }

  method Invert(deps: Dependencies) returns (reverse: map<string, set<string>>)
    ensures Inverts(deps, deps.Keys, reverse)
  {
    reverse := map[];
    var left := deps.Keys;
    while left != {}
      invariant left <= deps.Keys && Inverts(deps, deps.Keys - left, reverse)
      decreases |left|
    {
      var package :| package in left;
      var more := AddEdges(reverse, package, deps[package]);
      InvertsMore(deps, deps.Keys - left, reverse, package, more);
      assert deps.Keys - (left - {package}) == deps.Keys - left + {package};
      reverse, left := more, left - {package};
    }
    assert deps.Keys - left == deps.Keys;
  }

  /** What the worklist has established so far, within any closed set that holds the changed packages. */
  ghost predicate Searching(deps: Dependencies, changed: set<string>, bound: set<string>, affected: set<string>,
                            queue: seq<string>) {
    && changed <= affected <= bound
    && (forall x :: x in queue ==> x in affected)
    && forall package, dependency ::
         DependsDirectly(deps, package, dependency) && dependency in affected && dependency !in queue ==>
             package in affected
  }

  /** One turn of the worklist keeps that, and leaves fewer packages to find or fewer to process. */
  lemma {:induction false} SearchStep(deps: Dependencies, changed: set<string>, bound: set<string>,
                                      affected: set<string>, queue: seq<string>, dependents: set<string>,
                                      appended: seq<string>)
    requires Closed(deps, bound) && Searching(deps, changed, bound, affected, queue) && queue != []
    requires forall package :: package in dependents <==> DependsDirectly(deps, package, queue[0])
    requires (forall x :: x in appended <==> x in dependents - affected) && |appended| == |dependents - affected|
    ensures Searching(deps, changed, bound, affected + dependents, queue[1..] + appended)
    ensures || |deps.Keys - (affected + dependents)| < |deps.Keys - affected|
            || (|deps.Keys - (affected + dependents)| == |deps.Keys - affected| && appended == [])
  {
    assert queue == [queue[0]] + queue[1..];
    forall x | x in dependents ensures x in bound && x in deps {
      assert DependsDirectly(deps, x, queue[0]);
    }
    SubsetCount(deps.Keys - (affected + dependents), deps.Keys - affected);
    if dependents - affected == {} {
      assert affected + dependents == affected;
    } else {
      var x :| x in dependents - affected;
      assert x in deps.Keys - affected;
    }
  }

  /** The worklist loop: every package enters the queue at most once, so it ends on every graph. */
  method Search(changed: set<string>, deps: Dependencies, reverse: map<string, set<string>>, ghost bound: set<string>)
    returns (affected: set<string>)
    requires Inverts(deps, deps.Keys, reverse) && changed <= bound && Closed(deps, bound)
    ensures changed <= affected <= bound && Closed(deps, affected)
  {
    affected := changed;
    var queue := Enqueue(changed);
    while queue != []
      invariant Searching(deps, changed, bound, affected, queue)
      decreases |deps.Keys - affected|, |queue|
    {
      var dependents := At(reverse, queue[0]);
      var appended := Enqueue(dependents - affected);
      SearchStep(deps, changed, bound, affected, queue, dependents, appended);
      affected := affected + dependents;
      queue := queue[1..] + appended;
    }
  }

  /**
   * `reverse_closure`: on every graph, cycles included, exactly the packages with a dependency path to
   * a changed one. The order in which packages are queued is left open.
   */
  method ReverseClosure(changed: set<string>, deps: Dependencies) returns (affected: set<string>)
    ensures affected == Closure(changed, deps)
  {
    var reverse := Invert(deps);
    ClosureIsClosed(changed, deps);
    affected := Search(changed, deps, reverse, Closure(changed, deps));
    ClosureIsLeast(changed, deps, affected);
  }

  /** The elements of a set, each once, in some order. */
  method Enqueue(s: set<string>) returns (q: seq<string>)
    ensures forall x :: x in q <==> x in s
    ensures |q| == |s|
  {
    q := [];
    var left := s;
    while left != {}
      invariant left <= s && |q| + |left| == |s| && forall x :: x in q <==> x in s - left
      decreases |left|
    {
      var x :| x in left;
      q, left := q + [x], left - {x};
    }
  }
}
