/**
 * `ThrowableProxy.toExtendedStackTrace` and `toCacheEntry`: the frames a throwable does
 * not share with the root trace, each decorated with the jar location and version of
 * its class, found through the caller class stack or a per-snapshot class cache.
 */
module StackResolution {
  import opened Wrappers
  import opened Text
  import opened Throwables

  /** `ExtendedClassInfo`: whether the class came from the caller stack, its location and version. */
  datatype ExtendedClassInfo = ExtendedClassInfo(exact: bool, location: string, version: string)

  /** `ExtendedStackTraceElement`: a frame and its packaging information. */
  datatype ExtendedFrame = ExtendedFrame(frame: Frame, info: ExtendedClassInfo)

  /** `ThrowableProxy.CacheEntry`. */
  datatype CacheEntry = CacheEntry(info: ExtendedClassInfo, loader: Option<LoaderId>)

  type ClassCache = map<string, CacheEntry>

  // ---------------------------------------------------------------- common frames

  /** The number of trailing elements `root` and `trace` have in common. */
  function CommonSuffixLength<T(==)>(root: seq<T>, trace: seq<T>): (n: nat)
    ensures n <= |root| && n <= |trace|
  {
    if |root| > 0 && |trace| > 0 && root[|root| - 1] == trace[|trace| - 1] then
      1 + CommonSuffixLength(root[..|root| - 1], trace[..|trace| - 1])
    else 0
  }

  /** The `j`-th elements counted from the end agree. */
  ghost predicate SameFromEnd<T>(a: seq<T>, b: seq<T>, j: nat)
    requires j < |a| && j < |b|
  {
    a[|a| - 1 - j] == b[|b| - 1 - j]
  }

  /** The counted elements are a common suffix, and the elements just before it differ. */
  lemma {:induction false} CommonSuffixIsCommon<T>(root: seq<T>, trace: seq<T>)
    ensures var n := CommonSuffixLength(root, trace);
      (forall j :: 0 <= j < n ==> SameFromEnd(root, trace, j)) &&
      (n < |root| && n < |trace| ==> !SameFromEnd(root, trace, n))
  {
    if |root| > 0 && |trace| > 0 && root[|root| - 1] == trace[|trace| - 1] {
      var r', t' := root[..|root| - 1], trace[..|trace| - 1];
      CommonSuffixIsCommon(r', t');
      var n := CommonSuffixLength(root, trace);
      forall j | 0 <= j < n ensures SameFromEnd(root, trace, j) {
        if j > 0 { assert SameFromEnd(r', t', j - 1); }
      }
      if n < |root| && n < |trace| { assert !SameFromEnd(r', t', n - 1); }
    }
  }

  /** No longer common suffix exists: `CommonSuffixLength` is the longest one. */
  lemma {:induction false} CommonSuffixIsLongest<T>(root: seq<T>, trace: seq<T>, m: nat)
    requires m <= |root| && m <= |trace|
    requires forall j :: 0 <= j < m ==> SameFromEnd(root, trace, j)
    ensures m <= CommonSuffixLength(root, trace)
  {
    if m > 0 {
      assert SameFromEnd(root, trace, 0);
      var r', t' := root[..|root| - 1], trace[..|trace| - 1];
      forall j | 0 <= j < m - 1 ensures SameFromEnd(r', t', j) {
        assert SameFromEnd(root, trace, j + 1);
      }
      CommonSuffixIsLongest(r', t', m - 1);
    }
  }

  // ---------------------------------------------------------------- toCacheEntry

  /** Whether `c` occurs in `s`. */
  predicate HasChar(s: string, c: char) {
    exists i :: 0 <= i < |s| && s[i] == c
  }

  /**
   * The last path segment of a slash-separated string, keeping the trailing slash of
   * a directory: everything after the last '/', or after the one before it when the
   * string ends in '/'.
   */
  function LastSegment(str: string): (r: string)
    ensures |r| <= |str| && r == str[|str| - |r|..]
    ensures |r| == |str| || str[|str| - |r| - 1] == '/'
    ensures str != [] && str[|str| - 1] == '/' ==> r != [] && r[|r| - 1] == '/' && !HasChar(r[..|r| - 1], '/')
    ensures str == [] || str[|str| - 1] != '/' ==> !HasChar(r, '/')
  {
    var index := LastIndexOf(str, '/');
    if index >= 0 && index == |str| - 1 then
      var index2 := LastIndexOfFrom(str, '/', index - 1);
      str[index2 + 1..]
    else
      str[index + 1..]
  }

  /** The location shown for a code-source URL: backslashes become slashes, then its last segment. */
  function LocationOf(url: string): string {
    LastSegment(ReplaceChar(url, '\\', '/'))
  }

  /**
   * `toCacheEntry`: packaging information for a class, "?" where it is unknown.
   * The exceptions the code-source lookup may throw are not modelled.
   */
  function ToCacheEntry(callerClass: Option<ClassRef>, exact: bool): (e: CacheEntry)
    ensures e.info.exact == exact
    ensures callerClass.None? ==> e == CacheEntry(ExtendedClassInfo(exact, "?", "?"), None)
    ensures callerClass.Some? ==> e.loader == callerClass.value.loader
    ensures callerClass.Some? && callerClass.value.codeLocation.Some? ==>
      e.info.location == LocationOf(callerClass.value.codeLocation.value)
    ensures callerClass.Some? && callerClass.value.codeLocation.None? ==> e.info.location == "?"
    ensures callerClass.Some? ==> e.info.version == callerClass.value.implementationVersion.GetOr("?")
  {
    match callerClass
    case None => CacheEntry(ExtendedClassInfo(exact, "?", "?"), None)
    case Some(c) =>
      var location := if c.codeLocation.Some? then LocationOf(c.codeLocation.value) else "?";
      CacheEntry(ExtendedClassInfo(exact, location, c.implementationVersion.GetOr("?")), c.loader)
  }

  // ---------------------------------------------------------------- per-frame resolution

  /** The state the frame loop of `toExtendedStackTrace` carries from frame to frame. */
  datatype ResolveState = ResolveState(stack: seq<ClassRef>, cache: ClassCache, lastLoader: Option<LoaderId>)

  /** `stack.isEmpty() ? null : stack.peek()`. */
  function Top(stack: seq<ClassRef>): Option<ClassRef> {
    if stack == [] then None else Some(stack[|stack| - 1])
  }

  /** Whether frame `f` is resolved through the top of the caller class stack. */
  predicate MatchesTop(stack: seq<ClassRef>, f: Frame) {
    stack != [] && f.className == stack[|stack| - 1].name
  }

  /** The packaging information of one frame and the state after it. */
  function Step(env: ClassEnv, contextLoader: Option<LoaderId>, st: ResolveState, f: Frame)
    : (ExtendedClassInfo, ResolveState)
  {
    if MatchesTop(st.stack, f) then
      var entry := ToCacheEntry(Top(st.stack), true);
      (entry.info, ResolveState(st.stack[..|st.stack| - 1], st.cache, entry.loader))
    else if f.className in st.cache then
      var entry := st.cache[f.className];
      (entry.info, st.(lastLoader := if entry.loader.Some? then entry.loader else st.lastLoader))
    else
      var entry := ToCacheEntry(env.loadClass(st.lastLoader, contextLoader, f.className), false);
      (entry.info, ResolveState(st.stack, st.cache[f.className := entry],
                                if entry.loader.Some? then entry.loader else st.lastLoader))
  }

  /** What one frame does to the caller stack and the class cache. */
  lemma StepFacts(env: ClassEnv, contextLoader: Option<LoaderId>, st: ResolveState, f: Frame)
    ensures var res := Step(env, contextLoader, st, f);
      // a frame of the class on top of the caller stack pops exactly that class
      (MatchesTop(st.stack, f) ==>
         res.1.stack == st.stack[..|st.stack| - 1] && res.1.cache == st.cache && res.0.exact) &&
      // any other frame leaves the stack alone and finds its class in the cache afterwards
      (!MatchesTop(st.stack, f) ==>
         res.1.stack == st.stack && f.className in res.1.cache && res.0 == res.1.cache[f.className].info) &&
      // a cached class is reused, not resolved again
      (!MatchesTop(st.stack, f) && f.className in st.cache ==>
         res.1.cache == st.cache && res.0 == st.cache[f.className].info) &&
      // a class missing from the cache is stored, and nothing else in the cache changes
      res.1.cache.Keys <= st.cache.Keys + {f.className} &&
      (forall k :: k in st.cache ==> k in res.1.cache && res.1.cache[k] == st.cache[k])
  {
  }

  /**
   * Resolves `trace[k-1]`, `trace[k-2]`, ..., `trace[0]` in that order (the source
   * walks the frames from the outermost caller inwards), prepending each frame's
   * information to `acc`; so `res.0[i]` belongs to `trace[i]` for `i < k`.
   */
  function ResolveDown(env: ClassEnv, contextLoader: Option<LoaderId>, trace: seq<Frame>, k: nat,
                       st: ResolveState, acc: seq<ExtendedClassInfo>)
    : (res: (seq<ExtendedClassInfo>, ResolveState))
    requires k <= |trace|
    ensures |res.0| == k + |acc| && res.0[k..] == acc
  {
    if k == 0 then (acc, st)
    else
      var (info, st1) := Step(env, contextLoader, st, trace[k - 1]);
      ResolveDown(env, contextLoader, trace, k - 1, st1, [info] + acc)
  }

  /**
   * Over a whole trace the caller stack is only ever popped, at most once per frame,
   * and cached entries are never replaced.
   */
  lemma {:induction false} ResolveDownFacts(env: ClassEnv, contextLoader: Option<LoaderId>, trace: seq<Frame>,
                                           k: nat, st: ResolveState, acc: seq<ExtendedClassInfo>)
    requires k <= |trace|
    ensures var res := ResolveDown(env, contextLoader, trace, k, st, acc);
      |st.stack| - k <= |res.1.stack| <= |st.stack| && res.1.stack == st.stack[..|res.1.stack|] &&
      forall c :: c in st.cache ==> c in res.1.cache && res.1.cache[c] == st.cache[c]
  {
    if k > 0 {
      var (info, st1) := Step(env, contextLoader, st, trace[k - 1]);
      StepFacts(env, contextLoader, st, trace[k - 1]);
      ResolveDownFacts(env, contextLoader, trace, k - 1, st1, [info] + acc);
    }
  }

  /**
   * What `toExtendedStackTrace` computes: the common-frame count against the root
   * trace (0 without one), the extended frames for the rest, and the caller stack and
   * class cache it leaves behind for the next throwable of the same snapshot.
   */
  function ExtendedTrace(env: ClassEnv, contextLoader: Option<LoaderId>, stack: seq<ClassRef>,
                         cache: ClassCache, rootTrace: Option<seq<Frame>>, stackTrace: seq<Frame>)
    : (res: (seq<ExtendedFrame>, nat, seq<ClassRef>, ClassCache))
    ensures rootTrace.None? ==> res.1 == 0
    ensures rootTrace.Some? ==> res.1 == CommonSuffixLength(rootTrace.value, stackTrace)
    ensures res.1 <= |stackTrace| && |res.0| == |stackTrace| - res.1
    ensures forall i :: 0 <= i < |res.0| ==> res.0[i].frame == stackTrace[i]
    ensures |res.2| <= |stack| && res.2 == stack[..|res.2|]
    ensures forall c :: c in cache ==> c in res.3 && res.3[c] == cache[c]
  {
    var common := if rootTrace.Some? then CommonSuffixLength(rootTrace.value, stackTrace) else 0;
    var stackLength := |stackTrace| - common;
    ResolveDownFacts(env, contextLoader, stackTrace, stackLength, ResolveState(stack, cache, None), []);
    var (infos, st) := ResolveDown(env, contextLoader, stackTrace, stackLength, ResolveState(stack, cache, None), []);
    (ExtendedFrames(stackTrace, infos, stackLength), common, st.stack, st.cache)
  }

  /** The first `n` frames of a trace, each paired with the class information found for it. */
  function ExtendedFrames(stackTrace: seq<Frame>, infos: seq<ExtendedClassInfo>, n: nat): (r: seq<ExtendedFrame>)
    requires n <= |stackTrace| && n <= |infos|
    ensures |r| == n && forall i :: 0 <= i < n ==> r[i].frame == stackTrace[i] && r[i].info == infos[i]
  {
    seq(n, i requires 0 <= i < n => ExtendedFrame(stackTrace[i], infos[i]))
  }

  /**
   * Slots `i` onwards of the extended trace array hold each frame of `stackTrace`
   * paired with the class information at the same offset in `infos`.
   */
  ghost predicate Filled(a: array<ExtendedFrame>, stackTrace: seq<Frame>, infos: seq<ExtendedClassInfo>, i: nat)
    reads a
  {
    i <= a.Length <= |stackTrace| && |infos| == a.Length - i &&
    forall j :: i <= j < a.Length ==> a[j] == ExtendedFrame(stackTrace[j], infos[j - i])
  }

  /** A fully filled array holds exactly `ExtendedFrames`. */
  lemma FilledIsExtendedFrames(a: array<ExtendedFrame>, stackTrace: seq<Frame>, infos: seq<ExtendedClassInfo>)
    requires Filled(a, stackTrace, infos, 0)
    ensures a[..] == ExtendedFrames(stackTrace, infos, a.Length)
  {
  }

  const Unresolved := ExtendedFrame(Frame("", "", None, 0), ExtendedClassInfo(false, "?", "?"))

  /**
   * The first loop of `toExtendedStackTrace`: walks both traces backwards while their
   * elements agree and returns the index of the last frame of `trace` not in common.
   */
  method LastUncommonIndex<T(==)>(root: seq<T>, trace: seq<T>) returns (stackIndex: int)
    ensures stackIndex == |trace| - 1 - CommonSuffixLength(root, trace)
  {
    var rootIndex := |root| - 1;
    stackIndex := |trace| - 1;
    assert root[..rootIndex + 1] == root && trace[..stackIndex + 1] == trace;
    while rootIndex >= 0 && stackIndex >= 0 && root[rootIndex] == trace[stackIndex]
      invariant -1 <= rootIndex < |root| && -1 <= stackIndex < |trace|
      invariant |root| - rootIndex == |trace| - stackIndex
      invariant CommonSuffixLength(root, trace) ==
        |trace| - 1 - stackIndex + CommonSuffixLength(root[..rootIndex + 1], trace[..stackIndex + 1])
    {
      assert root[..rootIndex + 1][..rootIndex] == root[..rootIndex];
      assert trace[..stackIndex + 1][..stackIndex] == trace[..stackIndex];
      rootIndex := rootIndex - 1;
      stackIndex := stackIndex - 1;
    }
  }

  /** The body of the second loop of `toExtendedStackTrace`, for one frame. */
  method ResolveFrame(env: ClassEnv, contextLoader: Option<LoaderId>, stackTraceElement: Frame,
                      clazz0: Option<ClassRef>, stack0: seq<ClassRef>, cache0: ClassCache, lastLoader0: Option<LoaderId>)
    returns (extClassInfo: ExtendedClassInfo, stack: seq<ClassRef>, cache: ClassCache,
             lastLoader: Option<LoaderId>, clazz: Option<ClassRef>)
    requires clazz0 == Top(stack0)
    ensures clazz == Top(stack)
    ensures (extClassInfo, ResolveState(stack, cache, lastLoader)) ==
      Step(env, contextLoader, ResolveState(stack0, cache0, lastLoader0), stackTraceElement)
  {
    stack, cache, lastLoader, clazz := stack0, cache0, lastLoader0, clazz0;
    var className := stackTraceElement.className;
    if clazz.Some? && className == clazz.value.name {
      var entry := ToCacheEntry(clazz, true);
      extClassInfo := entry.info;
      lastLoader := entry.loader;
      stack := stack[..|stack| - 1];
      clazz := Top(stack);
    } else if className in cache {
      var entry := cache[className];
      extClassInfo := entry.info;
      if entry.loader.Some? {
        lastLoader := entry.loader;
      }
    } else {
      var entry := ToCacheEntry(env.loadClass(lastLoader, contextLoader, className), false);
      extClassInfo := entry.info;
      cache := cache[className := entry];
      if entry.loader.Some? {
        lastLoader := entry.loader;
      }
    }
  }

  /** One iteration of the resolve loop: resolves frame `i` and stores it at index `i`. */
  method ResolveInto(env: ClassEnv, contextLoader: Option<LoaderId>, stackTrace: seq<Frame>,
                     extStackTrace: array<ExtendedFrame>, i: nat, stack0: seq<ClassRef>, cache0: ClassCache,
                     lastLoader0: Option<LoaderId>, clazz0: Option<ClassRef>, ghost infos0: seq<ExtendedClassInfo>)
    returns (stack: seq<ClassRef>, cache: ClassCache, lastLoader: Option<LoaderId>, clazz: Option<ClassRef>,
             ghost infos: seq<ExtendedClassInfo>)
    requires i < extStackTrace.Length <= |stackTrace|
    requires clazz0 == Top(stack0)
    requires Filled(extStackTrace, stackTrace, infos0, i + 1)
    modifies extStackTrace
    ensures clazz == Top(stack)
    ensures Filled(extStackTrace, stackTrace, infos, i)
    ensures ResolveDown(env, contextLoader, stackTrace, i, ResolveState(stack, cache, lastLoader), infos) ==
            ResolveDown(env, contextLoader, stackTrace, i + 1, ResolveState(stack0, cache0, lastLoader0), infos0)
  {
    var extClassInfo;
    extClassInfo, stack, cache, lastLoader, clazz :=
      ResolveFrame(env, contextLoader, stackTrace[i], clazz0, stack0, cache0, lastLoader0);
    extStackTrace[i] := ExtendedFrame(stackTrace[i], extClassInfo);
    infos := [extClassInfo] + infos0;
  }

  /**
   * The second loop of `toExtendedStackTrace`: resolves frames `stackLength-1` down to 0,
   * popping the caller stack on a match and filling the class cache on a miss, and
   * stores each frame with its class information in the extended trace array.
   */
  method ResolveFrames(env: ClassEnv, contextLoader: Option<LoaderId>, stack0: seq<ClassRef>,
                       cache0: ClassCache, stackTrace: seq<Frame>, extStackTrace: array<ExtendedFrame>)
    returns (stack: seq<ClassRef>, cache: ClassCache)
    requires extStackTrace.Length <= |stackTrace|
    modifies extStackTrace
    ensures var r := ResolveDown(env, contextLoader, stackTrace, extStackTrace.Length, ResolveState(stack0, cache0, None), []);
      extStackTrace[..] == ExtendedFrames(stackTrace, r.0, extStackTrace.Length) &&
      stack == r.1.stack && cache == r.1.cache
  {
    var stackLength := extStackTrace.Length;
    stack, cache := stack0, cache0;
    var clazz := Top(stack);
    var lastLoader: Option<LoaderId> := None;
    ghost var infos := [];
    ghost var all := ResolveDown(env, contextLoader, stackTrace, stackLength, ResolveState(stack0, cache0, None), []);
    var i: nat := stackLength;
    while i > 0
      invariant i <= stackLength
      invariant clazz == Top(stack)
      invariant all == ResolveDown(env, contextLoader, stackTrace, i, ResolveState(stack, cache, lastLoader), infos)
      invariant Filled(extStackTrace, stackTrace, infos, i)
    {
      stack, cache, lastLoader, clazz, infos :=
        ResolveInto(env, contextLoader, stackTrace, extStackTrace, i - 1, stack, cache, lastLoader, clazz, infos);
      i := i - 1;
    }
    FilledIsExtendedFrames(extStackTrace, stackTrace, infos);
  }

  /**
   * `toExtendedStackTrace`: the common-frame count against the root trace, then the
   * extended frames of the rest, filled into a fresh array from the last one down.
   */
  method ToExtendedStackTrace(env: ClassEnv, contextLoader: Option<LoaderId>, stack0: seq<ClassRef>,
                              cache0: ClassCache, rootTrace: Option<seq<Frame>>, stackTrace: seq<Frame>)
    returns (ext: seq<ExtendedFrame>, commonElementCount: nat, stack: seq<ClassRef>, cache: ClassCache)
    ensures (ext, commonElementCount, stack, cache) ==
      ExtendedTrace(env, contextLoader, stack0, cache0, rootTrace, stackTrace)
  {
    var stackLength: nat;
    if rootTrace.Some? {
      var stackIndex := LastUncommonIndex(rootTrace.value, stackTrace);
      commonElementCount := |stackTrace| - 1 - stackIndex;
      stackLength := stackIndex + 1;
    } else {
      commonElementCount := 0;
      stackLength := |stackTrace|;
    }
    var extStackTrace := new ExtendedFrame[stackLength](_ => Unresolved);
    stack, cache := ResolveFrames(env, contextLoader, stack0, cache0, stackTrace, extStackTrace);
    ext := extStackTrace[..];
    ghost var spec := ExtendedTrace(env, contextLoader, stack0, cache0, rootTrace, stackTrace);
    assert commonElementCount == spec.1;
    assert ext == spec.0;
  }
}
