/**
 * The packaging of a throwable graph into ThrowableProxy snapshots: the eager
 * constructors for causes and suppressed throwables, cycle-safe through visited sets,
 * the lazily initialised proxy for the top throwable, and proxy equality.
 */
module ThrowableProxies {
  import opened Wrappers
  import opened Text
  import opened Throwables
  import opened StackResolution

  /** A fully initialised ThrowableProxy, as a value. */
  datatype Proxy = Proxy(
    throwable: Id,
    name: string,
    message: Option<string>,
    localizedMessage: Option<string>,
    stackTrace: seq<Frame>,
    extendedStackTrace: seq<ExtendedFrame>,
    commonElementCount: nat,
    causeProxy: Option<Proxy>,
    suppressedProxies: seq<Proxy>)

  /**
   * The snapshot mirrors the graph: a proxy carries its throwable's name, messages and
   * trace, one extended frame per frame not shared with the root trace, and its cause
   * and suppressed proxies stand for that throwable's cause and suppressed throwables.
   */
  ghost predicate Mirrors(g: Graph, p: Proxy)
    decreases p
  {
    p.throwable < |g| &&
    var n := g[p.throwable];
    p.name == n.className && p.message == n.message && p.localizedMessage == n.localizedMessage &&
    p.stackTrace == n.stackTrace &&
    |p.extendedStackTrace| + p.commonElementCount == |n.stackTrace| &&
    (forall i :: 0 <= i < |p.extendedStackTrace| ==> p.extendedStackTrace[i].frame == n.stackTrace[i]) &&
    (p.causeProxy.Some? ==> n.cause == Some(p.causeProxy.value.throwable) && Mirrors(g, p.causeProxy.value)) &&
    (forall k :: 0 <= k < |p.suppressedProxies| ==>
       p.suppressedProxies[k].throwable in n.suppressed && Mirrors(g, p.suppressedProxies[k]))
  }

  /** A visited set that may be null, as the source passes it. */
  type Visited = Option<set<Id>>

  /** A shared visited set only grows and stays inside the graph; a null one stays null. */
  ghost predicate Grows(g: Graph, before: Visited, after: Visited) {
    before.Some? == after.Some? && (before.Some? ==> before.value <= after.value <= Ids(g))
  }

  ghost predicate InGraph(g: Graph, v: Visited) {
    v.Some? ==> v.value <= Ids(g)
  }

  const NoIds: set<Id> := {}

  /**
   * `new ThrowableProxy(throwable, visited, contextClassLoader)`, the constructor for a
   * suppressed throwable `t` that the caller has just added to `visited`: a fresh caller
   * stack and cache, no root trace, then its cause chain and its suppressed list, both
   * sharing `visited`.
   */
  function SuppressedProxy(env: ClassEnv, contextLoader: Option<LoaderId>, g: Graph, t: Id, visited: set<Id>)
    : (res: (Proxy, set<Id>))
    requires ValidGraph(g) && t < |g| && visited <= Ids(g)
    ensures visited <= res.1 <= Ids(g)
    ensures res.0.throwable == t && res.0.commonElementCount == 0 && Mirrors(g, res.0)
    ensures g[t].cause.None? ==> res.0.causeProxy.None?
    ensures g[t].cause.Some? ==>
              res.0.causeProxy.Some? && CauseIds(res.0.causeProxy.value) == CauseChain(g, g[t].cause.value, {})
    decreases Ids(g) - visited, 3, NoIds, 0
  {
    var n := g[t];
    var (ext, common, stack, cache) := ExtendedTrace(env, contextLoader, env.currentStack, map[], None, n.stackTrace);
    var (cause, v1) :=
      if n.cause.None? then (None, visited)
      else
        var r := CauseProxy(env, contextLoader, g, t, n.cause.value, stack, cache, Some(visited), {});
        (Some(r.0), r.1.GetOr(visited));
    var (suppressed, v2) := SuppressedList(env, contextLoader, g, n.suppressed, Some(v1));
    (Proxy(t, n.className, n.message, n.localizedMessage, n.stackTrace, ext, common, cause, suppressed),
     v2.GetOr(v1))
  }

  /**
   * The constructor for a throwable `c` met on the cause chain of `root`: adds `c` to
   * `causeVisited`, counts the frames `c` shares with the ROOT's trace (the source passes
   * the original parent down the whole chain), continues with `c`'s cause unless that is
   * absent or already visited, then snapshots `c`'s suppressed throwables.
   */
  function CauseProxy(env: ClassEnv, contextLoader: Option<LoaderId>, g: Graph, root: Id, c: Id,
                      stack: seq<ClassRef>, cache: ClassCache, suppressedVisited: Visited, causeVisited: set<Id>)
    : (res: (Proxy, Visited))
    requires ValidGraph(g) && root < |g| && c < |g|
    requires c !in causeVisited && causeVisited <= Ids(g) && InGraph(g, suppressedVisited)
    ensures Grows(g, suppressedVisited, res.1)
    ensures res.0.throwable == c && Mirrors(g, res.0)
    ensures res.0.commonElementCount == CommonSuffixLength(g[root].stackTrace, g[c].stackTrace)
    ensures CauseIds(res.0) == CauseChain(g, c, causeVisited)
    decreases Ids(g) - suppressedVisited.GetOr({}), 2, Ids(g) - causeVisited, 0
  {
    var visitedNow := causeVisited + {c};
    var n := g[c];
    var (ext, common, stack1, cache1) :=
      ExtendedTrace(env, contextLoader, stack, cache, Some(g[root].stackTrace), n.stackTrace);
    var (cause, v1) :=
      if n.cause.None? || n.cause.value in visitedNow then (None, suppressedVisited)
      else
        var r := CauseProxy(env, contextLoader, g, root, n.cause.value, stack1, cache1, suppressedVisited, visitedNow);
        (Some(r.0), r.1);
    var (suppressed, v2) := SuppressedList(env, contextLoader, g, n.suppressed, v1);
    (Proxy(c, n.className, n.message, n.localizedMessage, n.stackTrace, ext, common, cause, suppressed), v2)
  }

  /**
   * `toSuppressedProxies`: the empty array when there is nothing suppressed; otherwise
   * the loop over the candidates with the shared visited set, or with a fresh one when
   * the caller passed null (the fresh set is then local to this call).
   */
  function SuppressedList(env: ClassEnv, contextLoader: Option<LoaderId>, g: Graph, candidates: seq<Id>,
                          suppressedVisited: Visited)
    : (res: (seq<Proxy>, Visited))
    requires ValidGraph(g) && InGraph(g, suppressedVisited)
    requires forall j :: 0 <= j < |candidates| ==> candidates[j] < |g|
    ensures Grows(g, suppressedVisited, res.1)
    ensures candidates == [] ==> res == ([], suppressedVisited)
    ensures forall k :: 0 <= k < |res.0| ==> res.0[k].throwable in candidates && Mirrors(g, res.0[k])
    decreases Ids(g) - suppressedVisited.GetOr({}), 1, NoIds, |candidates| + 1
  {
    if |candidates| == 0 then ([], suppressedVisited)
    else
      var (proxies, visited) := SuppressedLoop(env, contextLoader, g, candidates, 0, suppressedVisited.GetOr({}));
      (proxies, if suppressedVisited.Some? then Some(visited) else None)
  }

  /**
   * The loop of `toSuppressedProxies` from candidate `i` on, yielding the proxies it
   * adds: a candidate gets a proxy exactly when `visited.add(candidate)` succeeds, i.e.
   * when it is not yet visited; its subtree then extends the shared set.
   */
  function SuppressedLoop(env: ClassEnv, contextLoader: Option<LoaderId>, g: Graph, candidates: seq<Id>, i: nat,
                          visited: set<Id>)
    : (res: (seq<Proxy>, set<Id>))
    requires ValidGraph(g) && visited <= Ids(g) && i <= |candidates|
    requires forall j :: 0 <= j < |candidates| ==> candidates[j] < |g|
    ensures visited <= res.1 <= Ids(g)
    ensures forall k :: 0 <= k < |res.0| ==> res.0[k].throwable in candidates && Mirrors(g, res.0[k])
    decreases Ids(g) - visited, 1, NoIds, |candidates| - i
  {
    if i == |candidates| then ([], visited)
    else if candidates[i] in visited then
      SuppressedLoop(env, contextLoader, g, candidates, i + 1, visited)
    else
      var c := candidates[i];
      assert c in Ids(g) - visited && c !in Ids(g) - (visited + {c});
      var (p, visited1) := SuppressedProxy(env, contextLoader, g, c, visited + {c});
      var (rest, visited2) := SuppressedLoop(env, contextLoader, g, candidates, i + 1, visited1);
      ConsMirrors(g, candidates, p, rest);
      ([p] + rest, visited2)
  }

  /** A mirroring proxy in front of mirroring proxies, all standing for candidates. */
  lemma ConsMirrors(g: Graph, candidates: seq<Id>, p: Proxy, rest: seq<Proxy>)
    requires p.throwable in candidates && Mirrors(g, p)
    requires forall k :: 0 <= k < |rest| ==> rest[k].throwable in candidates && Mirrors(g, rest[k])
    ensures forall k :: 0 <= k < |[p] + rest| ==>
              ([p] + rest)[k].throwable in candidates && Mirrors(g, ([p] + rest)[k])
  {
    forall k | 0 <= k < |[p] + rest|
      ensures ([p] + rest)[k].throwable in candidates && Mirrors(g, ([p] + rest)[k])
    {
      if k > 0 { assert ([p] + rest)[k] == rest[k - 1]; }
    }
  }

  /** The throwables of a cause chain, from the proxy down through its cause proxies. */
  function CauseIds(p: Proxy): (ids: seq<Id>)
    ensures |ids| >= 1 && ids[0] == p.throwable
    decreases p
  {
    [p.throwable] + if p.causeProxy.Some? then CauseIds(p.causeProxy.value) else []
  }

  predicate NoDuplicates<T(==)>(s: seq<T>) {
    forall i, j :: 0 <= i < j < |s| ==> s[i] != s[j]
  }

  /**
   * The throwables the cause constructor visits from `c`: `c` itself, then its cause
   * unless that is absent or already in the visited set (which now holds `c`).
   */
  ghost function CauseChain(g: Graph, c: Id, causeVisited: set<Id>): (ids: seq<Id>)
    requires ValidGraph(g) && c < |g| && c !in causeVisited && causeVisited <= Ids(g)
    decreases Ids(g) - causeVisited
  {
    var visitedNow := causeVisited + {c};
    var next := g[c].cause;
    [c] + if next.None? || next.value in visitedNow then [] else CauseChain(g, next.value, visitedNow)
  }

  /**
   * The cause chain built from `c` is simple and cut at the first repetition: its
   * throwables are distinct, none was in `causeVisited`, so there are at most as many as
   * unvisited throwables; each one is the cause of the one before; and the last one has
   * no cause, or its cause is already visited (in `causeVisited` or on the chain itself).
   * This holds on cyclic graphs too.
   */
  lemma {:induction false} CauseChainIsSimple(g: Graph, c: Id, causeVisited: set<Id>)
    requires ValidGraph(g) && c < |g| && c !in causeVisited && causeVisited <= Ids(g)
    ensures var ids := CauseChain(g, c, causeVisited);
      ids[0] == c && NoDuplicates(ids) && |ids| <= |Ids(g) - causeVisited| &&
      (forall k :: 0 <= k < |ids| ==> ids[k] < |g| && ids[k] !in causeVisited) &&
      (forall k :: 0 <= k < |ids| - 1 ==> g[ids[k]].cause == Some(ids[k + 1])) &&
      (var last := g[ids[|ids| - 1]].cause; last.None? || last.value in causeVisited || last.value in ids)
    decreases Ids(g) - causeVisited
  {
    var visitedNow := causeVisited + {c};
    var next := g[c].cause;
    assert c in Ids(g) - causeVisited;
    assert (Ids(g) - causeVisited) - {c} == Ids(g) - visitedNow;
    if !(next.None? || next.value in visitedNow) {
      CauseChainIsSimple(g, next.value, visitedNow);
      var rest := CauseChain(g, next.value, visitedNow);
      assert CauseChain(g, c, causeVisited) == [c] + rest;
    }
  }

  /** On a finite snapshot the chain below any throwable is never longer than the graph. */
  lemma CauseChainIsBounded(env: ClassEnv, contextLoader: Option<LoaderId>, g: Graph, root: Id, c: Id,
                            stack: seq<ClassRef>, cache: ClassCache, suppressedVisited: Visited)
    requires ValidGraph(g) && root < |g| && c < |g| && InGraph(g, suppressedVisited)
    ensures |CauseIds(CauseProxy(env, contextLoader, g, root, c, stack, cache, suppressedVisited, {}).0)| <= |g|
  {
    CauseChainIsSimple(g, c, {});
    RangeSize(|g|);
    assert Ids(g) - {} == Ids(g);
  }

  /** The throwables the proxies stand for, in order. */
  function ThrowablesOf(ps: seq<Proxy>): (ids: seq<Id>)
    ensures |ids| == |ps| && forall k :: 0 <= k < |ps| ==> ids[k] == ps[k].throwable
  {
    seq(|ps|, k requires 0 <= k < |ps| => ps[k].throwable)
  }

  /** `a` is `b` with some elements removed, the rest kept in their order. */
  predicate IsSubsequence<T(==)>(a: seq<T>, b: seq<T>)
    decreases |b|
  {
    if b == [] then a == []
    else (a != [] && a[0] == b[0] && IsSubsequence(a[1..], b[1..])) || IsSubsequence(a, b[1..])
  }

  /**
   * The loop of `toSuppressedProxies` from candidate `i` on: the throwables it adds keep
   * the candidates' order, are pairwise distinct (a repeated candidate is dropped) and
   * were all unvisited.
   */
  lemma {:induction false} SuppressedLoopFacts(env: ClassEnv, contextLoader: Option<LoaderId>, g: Graph,
                                               candidates: seq<Id>, i: nat, visited: set<Id>)
    requires ValidGraph(g) && visited <= Ids(g) && i <= |candidates|
    requires forall j :: 0 <= j < |candidates| ==> candidates[j] < |g|
    ensures var added := ThrowablesOf(SuppressedLoop(env, contextLoader, g, candidates, i, visited).0);
      IsSubsequence(added, candidates[i..]) && NoDuplicates(added) &&
      (forall k :: 0 <= k < |added| ==> added[k] !in visited)
    decreases |candidates| - i
  {
    if i < |candidates| {
      var c := candidates[i];
      assert candidates[i..][1..] == candidates[i + 1..];
      if c in visited {
        SuppressedLoopFacts(env, contextLoader, g, candidates, i + 1, visited);
      } else {
        var (p, visited1) := SuppressedProxy(env, contextLoader, g, c, visited + {c});
        SuppressedLoopFacts(env, contextLoader, g, candidates, i + 1, visited1);
        var rest := SuppressedLoop(env, contextLoader, g, candidates, i + 1, visited1).0;
        AddedFacts(p, rest, candidates[i + 1..], visited, visited1);
        assert candidates[i..] == [c] + candidates[i + 1..];
      }
    }
  }

  /** One added proxy in front of the rest keeps the facts of `SuppressedLoopFacts`. */
  lemma AddedFacts(p: Proxy, rest: seq<Proxy>, restCandidates: seq<Id>, visited: set<Id>, visited1: set<Id>)
    requires p.throwable !in visited && visited + {p.throwable} <= visited1
    requires var ids := ThrowablesOf(rest);
      IsSubsequence(ids, restCandidates) && NoDuplicates(ids) && forall k :: 0 <= k < |ids| ==> ids[k] !in visited1
    ensures var ids := ThrowablesOf([p] + rest);
      IsSubsequence(ids, [p.throwable] + restCandidates) && NoDuplicates(ids) &&
      forall k :: 0 <= k < |ids| ==> ids[k] !in visited
  {
    var ids := ThrowablesOf([p] + rest);
    assert ids == [p.throwable] + ThrowablesOf(rest);
    assert ids[1..] == ThrowablesOf(rest);
  }

  /** The loop of `toSuppressedProxies` leaves every candidate from `i` on in the visited set. */
  lemma {:induction false} SuppressedLoopCovers(env: ClassEnv, contextLoader: Option<LoaderId>, g: Graph,
                                                candidates: seq<Id>, i: nat, visited: set<Id>)
    requires ValidGraph(g) && visited <= Ids(g) && i <= |candidates|
    requires forall j :: 0 <= j < |candidates| ==> candidates[j] < |g|
    ensures forall k :: i <= k < |candidates| ==>
              candidates[k] in SuppressedLoop(env, contextLoader, g, candidates, i, visited).1
    decreases |candidates| - i
  {
    if i < |candidates| {
      var c := candidates[i];
      var v := if c in visited then visited else SuppressedProxy(env, contextLoader, g, c, visited + {c}).1;
      if c in visited {
        SuppressedLoopSkip(env, contextLoader, g, candidates, i, visited);
      } else {
        SuppressedLoopTake(env, contextLoader, g, candidates, i, visited);
      }
      var rest := SuppressedLoop(env, contextLoader, g, candidates, i + 1, v);
      assert SuppressedLoop(env, contextLoader, g, candidates, i, visited).1 == rest.1;
      assert c in v && v <= rest.1;
      SuppressedLoopCovers(env, contextLoader, g, candidates, i + 1, v);
    }
  }

  /**
   * `toSuppressedProxies` on a throwable: the proxies stand for a duplicate-free
   * subsequence of its suppressed array, none of them already visited by the caller, and
   * when the caller shares its visited set every suppressed throwable is in it afterwards.
   */
  lemma SuppressedListFacts(env: ClassEnv, contextLoader: Option<LoaderId>, g: Graph, candidates: seq<Id>,
                            suppressedVisited: Visited)
    requires ValidGraph(g) && InGraph(g, suppressedVisited)
    requires forall j :: 0 <= j < |candidates| ==> candidates[j] < |g|
    ensures var res := SuppressedList(env, contextLoader, g, candidates, suppressedVisited);
      var ids := ThrowablesOf(res.0);
      IsSubsequence(ids, candidates) && NoDuplicates(ids) &&
      (forall k :: 0 <= k < |ids| ==> ids[k] !in suppressedVisited.GetOr({})) &&
      (res.1.Some? ==> forall j :: 0 <= j < |candidates| ==> candidates[j] in res.1.value)
  {
    if |candidates| > 0 {
      SuppressedLoopFacts(env, contextLoader, g, candidates, 0, suppressedVisited.GetOr({}));
      SuppressedLoopCovers(env, contextLoader, g, candidates, 0, suppressedVisited.GetOr({}));
      assert candidates[0..] == candidates;
    }
  }

  /**
   * The suppressed list of a proxy built for a suppressed throwable: its proxies stand for
   * a duplicate-free subsequence of the throwable's suppressed array, none of them in the
   * visited set the caller passed, and every suppressed throwable is in the visited set
   * the constructor hands back.
   */
  lemma SuppressedProxyLists(env: ClassEnv, contextLoader: Option<LoaderId>, g: Graph, t: Id, visited: set<Id>)
    requires ValidGraph(g) && t < |g| && visited <= Ids(g)
    ensures var res := SuppressedProxy(env, contextLoader, g, t, visited);
      var ids := ThrowablesOf(res.0.suppressedProxies);
      IsSubsequence(ids, g[t].suppressed) && NoDuplicates(ids) &&
      (forall k :: 0 <= k < |ids| ==> ids[k] !in visited) &&
      (forall j :: 0 <= j < |g[t].suppressed| ==> g[t].suppressed[j] in res.1)
  {
    var n := g[t];
    var (ext, common, stack, cache) := ExtendedTrace(env, contextLoader, env.currentStack, map[], None, n.stackTrace);
    var v1 :=
      if n.cause.None? then visited
      else CauseProxy(env, contextLoader, g, t, n.cause.value, stack, cache, Some(visited), {}).1.GetOr(visited);
    SuppressedListFacts(env, contextLoader, g, n.suppressed, Some(v1));
  }

  /**
   * `toSuppressedProxies` as the loop it is: one pass over the suppressed array, adding
   * each candidate to the visited set and building its proxy when it was not there yet.
   */
  method ToSuppressedProxies(env: ClassEnv, contextLoader: Option<LoaderId>, g: Graph, thrown: Id,
                             suppressedVisited: Visited)
    returns (proxies: seq<Proxy>, visitedAfter: Visited)
    requires ValidGraph(g) && thrown < |g| && InGraph(g, suppressedVisited)
    ensures (proxies, visitedAfter) == SuppressedList(env, contextLoader, g, g[thrown].suppressed, suppressedVisited)
  {
    var suppressed := g[thrown].suppressed;
    if |suppressed| == 0 {
      assert SuppressedList(env, contextLoader, g, suppressed, suppressedVisited) == ([], suppressedVisited);
      return [], suppressedVisited;
    }
    var loop := VisitCandidates(env, contextLoader, g, suppressed, suppressedVisited.GetOr({}));
    proxies := loop.0;
    visitedAfter := if suppressedVisited.Some? then Some(loop.1) else None;
  }

  /**
   * The invariant of the loop of `toSuppressedProxies` before candidate `i`: the proxies
   * built so far followed by those the loop builds from `i` on are all the loop's
   * proxies, and the visited set it ends with is the loop's.
   */
  ghost predicate LoopAt(env: ClassEnv, contextLoader: Option<LoaderId>, g: Graph, candidates: seq<Id>, i: nat,
                         proxies: seq<Proxy>, visited: set<Id>, all: (seq<Proxy>, set<Id>))
  {
    ValidGraph(g) && visited <= Ids(g) && i <= |candidates| &&
    (forall j :: 0 <= j < |candidates| ==> candidates[j] < |g|) &&
    var rest := SuppressedLoop(env, contextLoader, g, candidates, i, visited);
    all == (proxies + rest.0, rest.1)
  }

  /** The loop of `toSuppressedProxies` over the candidates, sharing one visited set. */
  method VisitCandidates(env: ClassEnv, contextLoader: Option<LoaderId>, g: Graph, candidates: seq<Id>,
                         visited0: set<Id>)
    returns (res: (seq<Proxy>, set<Id>))
    requires ValidGraph(g) && visited0 <= Ids(g)
    requires forall j :: 0 <= j < |candidates| ==> candidates[j] < |g|
    ensures res == SuppressedLoop(env, contextLoader, g, candidates, 0, visited0)
  {
    ghost var all := SuppressedLoop(env, contextLoader, g, candidates, 0, visited0);
    var proxies, visited := [], visited0;
    assert [] + all.0 == all.0;
    var i := 0;
    while i < |candidates|
      invariant i <= |candidates|
      invariant LoopAt(env, contextLoader, g, candidates, i, proxies, visited, all)
    {
      proxies, visited := VisitCandidate(env, contextLoader, g, candidates, i, proxies, visited, all);
      i := i + 1;
    }
    assert proxies + [] == proxies;
    res := (proxies, visited);
  }

  /**
   * The body of the loop of `toSuppressedProxies` for candidate `i`: `visited.add` and,
   * when it succeeds, a new proxy appended to the result; it keeps the loop invariant.
   */
  method VisitCandidate(env: ClassEnv, contextLoader: Option<LoaderId>, g: Graph, candidates: seq<Id>, i: nat,
                        proxies: seq<Proxy>, visited: set<Id>, ghost all: (seq<Proxy>, set<Id>))
    returns (proxies': seq<Proxy>, visited': set<Id>)
    requires i < |candidates| && LoopAt(env, contextLoader, g, candidates, i, proxies, visited, all)
    ensures LoopAt(env, contextLoader, g, candidates, i + 1, proxies', visited', all)
  {
    var candidate := candidates[i];
    if candidate in visited {
      SuppressedLoopSkip(env, contextLoader, g, candidates, i, visited);
      return proxies, visited;
    }
    var r := SuppressedProxy(env, contextLoader, g, candidate, visited + {candidate});
    SuppressedLoopTake(env, contextLoader, g, candidates, i, visited);
    assert (proxies + [r.0]) + SuppressedLoop(env, contextLoader, g, candidates, i + 1, r.1).0 ==
           proxies + ([r.0] + SuppressedLoop(env, contextLoader, g, candidates, i + 1, r.1).0);
    proxies', visited' := proxies + [r.0], r.1;
  }

  /** An iteration of the loop of `toSuppressedProxies` whose candidate was already visited. */
  lemma SuppressedLoopSkip(env: ClassEnv, contextLoader: Option<LoaderId>, g: Graph, candidates: seq<Id>, i: nat,
                           visited: set<Id>)
    requires ValidGraph(g) && visited <= Ids(g) && i < |candidates| && candidates[i] in visited
    requires forall j :: 0 <= j < |candidates| ==> candidates[j] < |g|
    ensures SuppressedLoop(env, contextLoader, g, candidates, i, visited) ==
            SuppressedLoop(env, contextLoader, g, candidates, i + 1, visited)
  {
  }

  /** An iteration of the loop of `toSuppressedProxies` that builds a proxy for its candidate. */
  lemma SuppressedLoopTake(env: ClassEnv, contextLoader: Option<LoaderId>, g: Graph, candidates: seq<Id>, i: nat,
                           visited: set<Id>)
    requires ValidGraph(g) && visited <= Ids(g) && i < |candidates| && candidates[i] !in visited
    requires forall j :: 0 <= j < |candidates| ==> candidates[j] < |g|
    ensures var r := SuppressedProxy(env, contextLoader, g, candidates[i], visited + {candidates[i]});
            var rest := SuppressedLoop(env, contextLoader, g, candidates, i + 1, r.1);
            SuppressedLoop(env, contextLoader, g, candidates, i, visited) == ([r.0] + rest.0, rest.1)
  {
  }

  /** `toString()` and `renderOn(...)`: the name, then ": " and the message when there is one. */
  function Describe(name: string, message: Option<string>): (r: string)
    ensures StartsWith(r, name)
    ensures message.None? <==> |r| == |name|
    ensures message.Some? ==> r[|name|..] == ": " + message.value
  {
    if message.Some? then name + ": " + message.value else name
  }

  /** `ignoreElement`: whether the class name starts with one of the packages (none when null). */
  function IgnoreElement(className: string, ignorePackages: Option<seq<string>>): (r: bool)
    ensures r <==> ignorePackages.Some? &&
                   exists k :: 0 <= k < |ignorePackages.value| && StartsWith(className, ignorePackages.value[k])
  {
    ignorePackages.Some? && StartsWithAny(className, ignorePackages.value)
  }

  function StartsWithAny(className: string, packages: seq<string>): (r: bool)
    ensures r <==> exists k :: 0 <= k < |packages| && StartsWith(className, packages[k])
  {
    if packages == [] then false
    else StartsWith(className, packages[0]) || StartsWithAny(className, packages[1..])
  }

  /**
   * `equals`: the cause proxies (both absent or equal), the common element count, the
   * name, the extended traces and the suppressed proxies pairwise; the messages, the
   * throwable itself and its plain trace are not compared.
   */
  predicate ProxyEquals(a: Proxy, b: Proxy)
    decreases a
  {
    (if a.causeProxy.None? then b.causeProxy.None?
     else b.causeProxy.Some? && ProxyEquals(a.causeProxy.value, b.causeProxy.value)) &&
    a.commonElementCount == b.commonElementCount &&
    a.name == b.name &&
    a.extendedStackTrace == b.extendedStackTrace &&
    |a.suppressedProxies| == |b.suppressedProxies| &&
    forall i :: 0 <= i < |a.suppressedProxies| ==> ProxyEquals(a.suppressedProxies[i], b.suppressedProxies[i])
  }

  /** The part of a proxy that `equals` looks at. */
  datatype Shape = Shape(name: string, extendedStackTrace: seq<ExtendedFrame>, commonElementCount: nat,
                         cause: Option<Shape>, suppressed: seq<Shape>)

  function ShapeOf(p: Proxy): Shape
    decreases p
  {
    Shape(p.name, p.extendedStackTrace, p.commonElementCount,
          if p.causeProxy.Some? then Some(ShapeOf(p.causeProxy.value)) else None,
          seq(|p.suppressedProxies|, i requires 0 <= i < |p.suppressedProxies| => ShapeOf(p.suppressedProxies[i])))
  }

  /** Two proxies are equal exactly when their shapes are identical. */
  lemma {:induction false} EqualsIsSameShape(a: Proxy, b: Proxy)
    ensures ProxyEquals(a, b) <==> ShapeOf(a) == ShapeOf(b)
    decreases a
  {
    if a.causeProxy.Some? && b.causeProxy.Some? {
      EqualsIsSameShape(a.causeProxy.value, b.causeProxy.value);
    }
    var xs, ys := a.suppressedProxies, b.suppressedProxies;
    if |xs| == |ys| {
      forall i | 0 <= i < |xs|
        ensures ProxyEquals(xs[i], ys[i]) <==> ShapeOf(xs[i]) == ShapeOf(ys[i])
      {
        EqualsIsSameShape(xs[i], ys[i]);
      }
      if ShapeOf(a).suppressed == ShapeOf(b).suppressed {
        forall i | 0 <= i < |xs| ensures ShapeOf(xs[i]) == ShapeOf(ys[i]) {
          assert ShapeOf(a).suppressed[i] == ShapeOf(b).suppressed[i];
        }
      }
    } else {
      assert |ShapeOf(a).suppressed| != |ShapeOf(b).suppressed|;
    }
  }

  /** `equals` is an equivalence relation and ignores messages and the wrapped throwable. */
  lemma EqualsIsEquivalence(a: Proxy, b: Proxy, c: Proxy, message: Option<string>, localizedMessage: Option<string>,
                            throwable: Id)
    ensures ProxyEquals(a, a)
    ensures ProxyEquals(a, b) ==> ProxyEquals(b, a)
    ensures ProxyEquals(a, b) && ProxyEquals(b, c) ==> ProxyEquals(a, c)
    ensures ProxyEquals(a, a.(message := message, localizedMessage := localizedMessage, throwable := throwable))
  {
    EqualsIsSameShape(a, a);
    EqualsIsSameShape(a, b);
    EqualsIsSameShape(b, a);
    EqualsIsSameShape(b, c);
    EqualsIsSameShape(a, c);
    var a' := a.(message := message, localizedMessage := localizedMessage, throwable := throwable);
    EqualsIsSameShape(a, a');
    assert ShapeOf(a) == ShapeOf(a');
  }

  /** What the lazy proxy keeps for its one-shot initialisation. */
  datatype InitializationData = InitializationData(stack: seq<ClassRef>, cache: ClassCache,
                                                   contextLoader: Option<LoaderId>)

  /**
   * The snapshot `initialize()` produces for the top throwable: its extended trace from
   * the captured caller stack and cache with no root trace, its cause chain with a fresh
   * `causeVisited` and no shared suppressed set, and its suppressed list with none either.
   */
  function TopProxy(env: ClassEnv, t: ThrowableRef, data: InitializationData): (p: Proxy)
    requires t.Valid()
    ensures p.throwable == t.id && p.commonElementCount == 0 && Mirrors(t.graph, p)
    ensures t.graph[t.id].cause.None? ==> p.causeProxy.None?
    ensures t.graph[t.id].cause.Some? ==>
              p.causeProxy.Some? && CauseIds(p.causeProxy.value) == CauseChain(t.graph, t.graph[t.id].cause.value, {})
    ensures var ids := ThrowablesOf(p.suppressedProxies);
              IsSubsequence(ids, t.graph[t.id].suppressed) && NoDuplicates(ids)
  {
    var g := t.graph;
    var n := g[t.id];
    var (ext, common, stack1, cache1) := ExtendedTrace(env, data.contextLoader, data.stack, data.cache, None, n.stackTrace);
    var cause :=
      if n.cause.None? then None
      else Some(CauseProxy(env, data.contextLoader, g, t.id, n.cause.value, stack1, cache1, None, {}).0);
    SuppressedListFacts(env, data.contextLoader, g, n.suppressed, None);
    var suppressed := SuppressedList(env, data.contextLoader, g, n.suppressed, None).0;
    Proxy(t.id, n.className, n.message, n.localizedMessage, n.stackTrace, ext, common, cause, suppressed)
  }

  /** The public ThrowableProxy: captured eagerly, packaged lazily on first use. */
  class ThrowableProxy {
    const throwable: ThrowableRef
    const name: string
    const message: Option<string>
    const localizedMessage: Option<string>
    var extendedStackTrace: Option<seq<ExtendedFrame>>
    var commonElementCount: nat
    var causeProxy: Option<Proxy>
    var suppressedProxies: Option<seq<Proxy>>
    var initializationData: Option<InitializationData>

    /**
     * The name and messages are the throwable's, initialisation data is present exactly
     * until the snapshot exists, and the snapshot mirrors the throwable graph.
     */
    ghost predicate Valid()
      reads this
    {
      throwable.Valid() &&
      name == throwable.graph[throwable.id].className &&
      message == throwable.graph[throwable.id].message &&
      localizedMessage == throwable.graph[throwable.id].localizedMessage &&
      (initializationData.None? <==> Initialized()) &&
      (Initialized() ==> Mirrors(throwable.graph, Snapshot()))
    }

    predicate Initialized()
      reads this
    {
      extendedStackTrace.Some? && suppressedProxies.Some?
    }

    function Snapshot(): Proxy
      requires throwable.Valid() && Initialized()
      reads this
    {
      Proxy(throwable.id, name, message, localizedMessage, throwable.graph[throwable.id].stackTrace,
            extendedStackTrace.value, commonElementCount, causeProxy, suppressedProxies.value)
    }

    /**
     * `new ThrowableProxy(throwable)`: takes the name and messages now, and keeps the
     * caller stack, an empty cache and the context loader for later.
     */
    constructor(t: ThrowableRef, callerStack: seq<ClassRef>, contextLoader: Option<LoaderId>)
      requires t.Valid()
      ensures Valid() && !Initialized() && throwable == t
      ensures name == t.graph[t.id].className && message == t.graph[t.id].message
      ensures localizedMessage == t.graph[t.id].localizedMessage
      ensures initializationData == Some(InitializationData(callerStack, map[], contextLoader))
      ensures extendedStackTrace.None? && suppressedProxies.None? && causeProxy.None? && commonElementCount == 0
    {
      throwable := t;
      var n := t.graph[t.id];
      name := n.className;
      message := n.message;
      localizedMessage := n.localizedMessage;
      extendedStackTrace := None;
      commonElementCount := 0;
      causeProxy := None;
      suppressedProxies := None;
      initializationData := Some(InitializationData(callerStack, map[], contextLoader));
    }

    /** After a getter: initialised, by this call from the captured data or earlier. */
    twostate predicate InitializedBy(env: ClassEnv)
      reads this
    {
      Valid() && Initialized() &&
      (old(initializationData).None? ==> unchanged(this)) &&
      (old(initializationData).Some? ==>
         initializationData.None? && Snapshot() == TopProxy(env, throwable, old(initializationData).value))
    }

    /**
     * `initialize()`: the first call consumes the initialisation data and builds the
     * snapshot; every later call changes nothing.
     */
    method Initialize(env: ClassEnv)
      requires Valid()
      modifies this
      ensures InitializedBy(env)
    {
      var data := initializationData;
      if data.Some? {
        initializationData := None;
        var g := throwable.graph;
        var n := g[throwable.id];
        var ccl := data.value.contextLoader;
        var ext, common, stack, cache := ToExtendedStackTrace(env, ccl, data.value.stack, data.value.cache, None, n.stackTrace);
        extendedStackTrace := Some(ext);
        commonElementCount := common;
        if n.cause.None? {
          causeProxy := None;
        } else {
          causeProxy := Some(CauseProxy(env, ccl, g, throwable.id, n.cause.value, stack, cache, None, {}).0);
        }
        var suppressed, _ := ToSuppressedProxies(env, ccl, g, throwable.id, None);
        suppressedProxies := Some(suppressed);
        ghost var top := TopProxy(env, throwable, data.value);
        assert top.extendedStackTrace == ext && top.commonElementCount == common;
        assert top.causeProxy == causeProxy && top.suppressedProxies == suppressed;
      }
    }

    method GetCauseProxy(env: ClassEnv) returns (r: Option<Proxy>)
      requires Valid()
      modifies this
      ensures InitializedBy(env) && r == causeProxy
    {
      Initialize(env);
      r := causeProxy;
    }

    method GetCommonElementCount(env: ClassEnv) returns (r: nat)
      requires Valid()
      modifies this
      ensures InitializedBy(env) && r == commonElementCount
    {
      Initialize(env);
      r := commonElementCount;
    }

    method GetExtendedStackTrace(env: ClassEnv) returns (r: seq<ExtendedFrame>)
      requires Valid()
      modifies this
      ensures InitializedBy(env) && r == extendedStackTrace.value
    {
      Initialize(env);
      r := extendedStackTrace.value;
    }

    method GetSuppressedProxies(env: ClassEnv) returns (r: seq<Proxy>)
      requires Valid()
      modifies this
      ensures InitializedBy(env) && r == suppressedProxies.value
    {
      Initialize(env);
      r := suppressedProxies.value;
    }

    /**
     * `equals(obj)`: the same object is equal without initialising; null and an object of
     * another class are unequal, also without initialising; for another proxy both are
     * initialised and their snapshots compared.
     */
    method Equals(obj: object?, env: ClassEnv) returns (b: bool)
      requires Valid()
      requires obj is ThrowableProxy ==> (obj as ThrowableProxy).Valid()
      modifies this, obj
      ensures this == obj ==> b && unchanged(this)
      ensures obj == null || !(obj is ThrowableProxy) ==> !b && unchanged(this)
      ensures obj != null && !(obj is ThrowableProxy) ==> unchanged(obj)
      ensures this != obj && obj is ThrowableProxy ==>
                var other := obj as ThrowableProxy;
                InitializedBy(env) && other.InitializedBy(env) && b == ProxyEquals(Snapshot(), other.Snapshot())
    {
      if this == obj {
        return true;
      }
      if obj == null || !(obj is ThrowableProxy) {
        return false;
      }
      var other := obj as ThrowableProxy;
      Initialize(env);
      other.Initialize(env);
      b := ProxyEquals(Snapshot(), other.Snapshot());
    }
  }
}
