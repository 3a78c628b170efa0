/**
 * The routing policy of an asynchronous logger configuration: which sinks see an event
 * on the calling thread, when the event is handed to the background queue, and what
 * happens when the queue is full, decided by two per-thread flags and the recursion
 * depth. Plus the configuration factories and their attribute defaults.
 */
module AsyncLoggerConfigs {
  import opened Wrappers
  import opened Text
  import opened Levels

  /** A logger configuration, as far as routing and the factories are concerned. */
  datatype LoggerConfig = LoggerConfig(
    name: string, appenderRefs: seq<string>, level: Level, additive: bool,
    includeLocation: bool, isAsync: bool)

  /**
   * The predicates `LoggerConfig.log` selects configurations by: the two fixed ones, and
   * one supplied by the caller, known here by an identifier.
   */
  datatype LogPredicate = IsAsyncConfig | NotAsyncConfig | Supplied(id: nat)

  /** Whether predicate `p` admits configuration `c`; `supplied` gives the caller's verdicts. */
  predicate Allows(p: LogPredicate, c: LoggerConfig, supplied: nat -> LoggerConfig -> bool)
    decreases if p.NotAsyncConfig? then 1 else 0
    ensures p.IsAsyncConfig? ==> (Allows(p, c, supplied) <==> c.isAsync)
    ensures p.NotAsyncConfig? ==> (Allows(p, c, supplied) <==> !c.isAsync)
    ensures p.Supplied? ==> (Allows(p, c, supplied) <==> supplied(p.id)(c))
  {
    match p
    case IsAsyncConfig => c.isAsync
    case NotAsyncConfig => !Allows(IsAsyncConfig, c, supplied)
    case Supplied(id) => supplied(id)(c)
  }

  /** The two fixed predicates are exact complements: every configuration is admitted by exactly one. */
  lemma PredicatesAreComplements(c: LoggerConfig, supplied: nat -> LoggerConfig -> bool)
    ensures Allows(NotAsyncConfig, c, supplied) <==> !Allows(IsAsyncConfig, c, supplied)
    ensures Allows(IsAsyncConfig, c, supplied) != Allows(NotAsyncConfig, c, supplied)
  {
  }

  /** A log event, as far as routing is concerned. */
  datatype LogEvent = LogEvent(level: Level, message: string)

  /** The policy the queue applies to an event it cannot take right away. */
  datatype EventRoute = Enqueue | Synchronous | Discard

  /**
   * The effects routing has, recorded in order: `LoggerConfig.log` on the calling
   * thread with a predicate, the capture of the event's lazily computed fields, an
   * attempt to enqueue, and handing an event to the queue-full route.
   */
  datatype Action =
    | Dispatch(event: LogEvent, logPredicate: LogPredicate)
    | PopulateLazyFields(event: LogEvent)
    | TryEnqueue(event: LogEvent)
    | RouteQueueFull(event: LogEvent, route: EventRoute)

  /**
   * What a configuration's surroundings answer: its filter, whether the queue accepts an
   * event, the queue-full route per level, the rewrite of a message logged out of order,
   * and which recorded effects end by throwing (an appender's exception out of
   * `super.log`, say), so that the call they belong to is left abruptly.
   */
  datatype Environment = Environment(
    isFiltered: LogEvent -> bool, tryEnqueue: LogEvent -> bool,
    eventRoute: Level -> EventRoute, transform: string -> string,
    throws: Action -> bool)

  /** The per-thread state: the consumer flag, the entered flag and the logging recursion depth. */
  datatype Flags = Flags(asyncOnCurrentThread: bool, asyncLoggerEntered: bool, recursionDepth: nat)

  /** Effect `a`, followed by `rest` unless `a` throws. */
  function Then(env: Environment, a: Action, rest: seq<Action>): seq<Action> {
    [a] + if env.throws(a) then [] else rest
  }

  /** A call left abruptly: its last effect threw. */
  predicate EndsAbruptly(env: Environment, t: seq<Action>) {
    |t| > 0 && env.throws(t[|t| - 1])
  }

  /** An effect in front of others ends the call abruptly when it throws, else when they do. */
  lemma ThenEndsAbruptly(env: Environment, a: Action, rest: seq<Action>)
    ensures EndsAbruptly(env, Then(env, a, rest)) == (env.throws(a) || EndsAbruptly(env, rest))
  {
    if !env.throws(a) && rest != [] {
      assert Then(env, a, rest)[|Then(env, a, rest)| - 1] == rest[|rest| - 1];
    }
  }

  /** The effects of `log(event, logPredicate)` on a thread in state `f`. */
  function LogTrace(f: Flags, e: LogEvent, logPredicate: Option<LogPredicate>, env: Environment): (t: seq<Action>)
    ensures |t| > 0
    decreases if f.asyncOnCurrentThread then 0 else 4
  {
    if f.asyncOnCurrentThread then
      [Dispatch(e, logPredicate.GetOr(IsAsyncConfig))]
    else if !f.asyncLoggerEntered then
      Then(env, Dispatch(e, logPredicate.GetOr(NotAsyncConfig)),
           if env.isFiltered(e) then [] else EnqueueTrace(f.(asyncLoggerEntered := true), e, env))
    else
      [Dispatch(e, logPredicate.GetOr(NotAsyncConfig))]
  }

  /**
   * The effects of `log` on first entry after the synchronous part, for an unfiltered
   * event, with the entered flag set: the capture of the lazy fields, the enqueue
   * attempt, and the queue-full handling when the queue refuses.
   */
  function EnqueueTrace(f: Flags, e: LogEvent, env: Environment): (t: seq<Action>)
    ensures |t| > 0
    decreases 3
  {
    Then(env, PopulateLazyFields(e),
         Then(env, TryEnqueue(e), if env.tryEnqueue(e) then [] else QueueFullTrace(f, e, env)))
  }

  /** The effects of `handleQueueFull(event)`. */
  function QueueFullTrace(f: Flags, e: LogEvent, env: Environment): (t: seq<Action>)
    ensures |t| > 0
    decreases 2
  {
    if f.recursionDepth > 1 then AsyncLogTrace(f, e.(message := env.transform(e.message)), env)
    else [RouteQueueFull(e, env.eventRoute(e.level))]
  }

  /** The effects of `asyncLog(event)`. */
  function AsyncLogTrace(f: Flags, e: LogEvent, env: Environment): (t: seq<Action>)
    ensures |t| > 0
    decreases 1
  {
    if f.asyncOnCurrentThread then LogTrace(f, e, Some(IsAsyncConfig), env)
    else LogTrace(f.(asyncOnCurrentThread := true), e, Some(IsAsyncConfig), env)
  }

  /** The thread-local flags and the recorded effects of one thread. */
  class ThreadState {
    var asyncOnCurrentThread: bool
    var asyncLoggerEntered: bool
    var recursionDepth: nat
    var trace: seq<Action>

    function State(): Flags
      reads this
    {
      Flags(asyncOnCurrentThread, asyncLoggerEntered, recursionDepth)
    }

    constructor(recursionDepth: nat)
      ensures State() == Flags(false, false, recursionDepth) && trace == []
    {
      asyncOnCurrentThread := false;
      asyncLoggerEntered := false;
      this.recursionDepth := recursionDepth;
      trace := [];
    }
  }

  class AsyncLoggerConfig {
    const config: LoggerConfig
    const env: Environment

    constructor(config: LoggerConfig, env: Environment)
      ensures this.config == config && this.env == env
    {
      this.config := config;
      this.env := env;
    }

    /** One effect, recorded; `abrupt` says whether it threw. */
    method Perform(thread: ThreadState, a: Action) returns (abrupt: bool)
      modifies thread
      ensures abrupt == env.throws(a)
      ensures thread.State() == old(thread.State())
      ensures thread.trace == old(thread.trace) + [a]
    {
      thread.trace := thread.trace + [a];
      abrupt := env.throws(a);
    }

    /** `super.log(event, logPredicate)`: the synchronous part, recorded. */
    method SuperLog(thread: ThreadState, event: LogEvent, logPredicate: LogPredicate) returns (abrupt: bool)
      modifies thread
      ensures abrupt == env.throws(Dispatch(event, logPredicate))
      ensures thread.State() == old(thread.State())
      ensures thread.trace == old(thread.trace) + [Dispatch(event, logPredicate)]
    {
      abrupt := Perform(thread, Dispatch(event, logPredicate));
    }

    /** `delegate.tryEnqueue(event, this)`: recorded, answered by the environment. */
    method DelegateTryEnqueue(thread: ThreadState, event: LogEvent) returns (abrupt: bool, accepted: bool)
      modifies thread
      ensures abrupt == env.throws(TryEnqueue(event)) && accepted == env.tryEnqueue(event)
      ensures thread.State() == old(thread.State())
      ensures thread.trace == old(thread.trace) + [TryEnqueue(event)]
    {
      abrupt := Perform(thread, TryEnqueue(event));
      accepted := env.tryEnqueue(event);
    }

    /**
     * `log(event, logPredicate)`: on the consumer thread only the synchronous part runs; on
     * first entry the entered flag is set, the non-asynchronous configurations are called,
     * and an unfiltered event is enqueued (or handed to the queue-full handling); the
     * `finally` removes the flag again, also when a step throws; a nested entry only calls
     * the non-asynchronous configurations. Both flags end as they started, whether the
     * call returns or is left by an exception (`abrupt`).
     */
    method Log(thread: ThreadState, event: LogEvent, logPredicate: Option<LogPredicate>) returns (abrupt: bool)
      modifies thread
      decreases if thread.asyncOnCurrentThread then 0 else 4
      ensures thread.State() == old(thread.State())
      ensures thread.trace == old(thread.trace) + LogTrace(old(thread.State()), event, logPredicate, env)
      ensures abrupt == EndsAbruptly(env, LogTrace(old(thread.State()), event, logPredicate, env))
    {
      if thread.asyncOnCurrentThread {
        abrupt := SuperLog(thread, event, logPredicate.GetOr(IsAsyncConfig));
      } else if !thread.asyncLoggerEntered {
        thread.asyncLoggerEntered := true;
        abrupt := FirstEntry(thread, event, logPredicate.GetOr(NotAsyncConfig));
        thread.asyncLoggerEntered := false;
      } else {
        abrupt := SuperLog(thread, event, logPredicate.GetOr(NotAsyncConfig));
      }
    }

    /**
     * The `try` block of `log` on first entry, run with the entered flag set: an
     * exception from `super.log` skips the rest.
     */
    method FirstEntry(thread: ThreadState, event: LogEvent, p: LogPredicate) returns (abrupt: bool)
      modifies thread
      decreases 3, 1
      ensures thread.State() == old(thread.State())
      ensures thread.trace == old(thread.trace) +
                Then(env, Dispatch(event, p), if env.isFiltered(event) then [] else EnqueueTrace(old(thread.State()), event, env))
      ensures abrupt == EndsAbruptly(env, Then(env, Dispatch(event, p),
                          if env.isFiltered(event) then [] else EnqueueTrace(old(thread.State()), event, env)))
    {
      abrupt := SuperLog(thread, event, p);
      if !abrupt && !env.isFiltered(event) {
        ghost var f := thread.State();
        abrupt := Enqueue(thread, event);
        ThenEndsAbruptly(env, Dispatch(event, p), EnqueueTrace(f, event, env));
      }
    }

    /**
     * The rest of the `try` block: capture the lazy fields, try the queue, and hand a
     * refused event to the queue-full handling; an exception from a step skips the rest.
     */
    method Enqueue(thread: ThreadState, event: LogEvent) returns (abrupt: bool)
      modifies thread
      decreases 3, 0
      ensures thread.State() == old(thread.State())
      ensures thread.trace == old(thread.trace) + EnqueueTrace(old(thread.State()), event, env)
      ensures abrupt == EndsAbruptly(env, EnqueueTrace(old(thread.State()), event, env))
    {
      ghost var f := thread.State();
      ghost var t0 := thread.trace;
      ghost var q := if env.tryEnqueue(event) then [] else QueueFullTrace(f, event, env);
      abrupt := Perform(thread, PopulateLazyFields(event));
      if !abrupt {
        var accepted;
        abrupt, accepted := DelegateTryEnqueue(thread, event);
        if !abrupt && !accepted {
          abrupt := HandleQueueFull(thread, event);
          ThenEndsAbruptly(env, TryEnqueue(event), q);
        }
        ThenEndsAbruptly(env, PopulateLazyFields(event), Then(env, TryEnqueue(event), q));
        assert thread.trace == t0 + [PopulateLazyFields(event)] + Then(env, TryEnqueue(event), q);
      }
    }

    /**
     * `handleQueueFull(event)`: inside a recursive logging call the event, with its
     * message rewritten, is logged directly on this thread; otherwise it goes to the
     * route chosen for its level.
     */
    method HandleQueueFull(thread: ThreadState, event: LogEvent) returns (abrupt: bool)
      modifies thread
      decreases 2
      ensures thread.State() == old(thread.State())
      ensures thread.trace == old(thread.trace) + QueueFullTrace(old(thread.State()), event, env)
      ensures abrupt == EndsAbruptly(env, QueueFullTrace(old(thread.State()), event, env))
    {
      if thread.recursionDepth > 1 {
        abrupt := AsyncLog(thread, event.(message := env.transform(event.message)));
      } else {
        var route := env.eventRoute(event.level);
        abrupt := Perform(thread, RouteQueueFull(event, route));
      }
    }

    /**
     * `asyncLog(event)`: logs to the asynchronous configurations with the consumer flag
     * set, setting it only when it was unset and removing it in the `finally`, so it ends
     * as it started whether `log` returns or throws.
     */
    method AsyncLog(thread: ThreadState, event: LogEvent) returns (abrupt: bool)
      modifies thread
      decreases 1
      ensures thread.State() == old(thread.State())
      ensures thread.trace == old(thread.trace) + AsyncLogTrace(old(thread.State()), event, env)
      ensures abrupt == EndsAbruptly(env, AsyncLogTrace(old(thread.State()), event, env))
    {
      if thread.asyncOnCurrentThread {
        abrupt := Log(thread, event, Some(IsAsyncConfig));
      } else {
        thread.asyncOnCurrentThread := true;
        abrupt := Log(thread, event, Some(IsAsyncConfig));
        thread.asyncOnCurrentThread := false;
      }
    }
  }

  /** The number of enqueue attempts in a trace. */
  function EnqueueAttempts(t: seq<Action>): nat {
    if t == [] then 0 else (if t[0].TryEnqueue? then 1 else 0) + EnqueueAttempts(t[1..])
  }

  lemma {:induction false} EnqueueAttemptsAppend(a: seq<Action>, b: seq<Action>)
    ensures EnqueueAttempts(a + b) == EnqueueAttempts(a) + EnqueueAttempts(b)
  {
    if a != [] {
      assert (a + b)[0] == a[0];
      assert (a + b)[1..] == a[1..] + b;
      EnqueueAttemptsAppend(a[1..], b);
    } else {
      assert a + b == b;
    }
  }

  /** On the consumer thread `log` only calls the asynchronous configurations (or the given predicate's). */
  lemma ConsumerThreadOnlyDispatches(f: Flags, e: LogEvent, logPredicate: Option<LogPredicate>, env: Environment)
    requires f.asyncOnCurrentThread
    ensures LogTrace(f, e, logPredicate, env) == [Dispatch(e, logPredicate.GetOr(IsAsyncConfig))]
    ensures EnqueueAttempts(LogTrace(f, e, logPredicate, env)) == 0
  {
  }

  /** A nested entry only calls the non-asynchronous configurations (or the given predicate's). */
  lemma NestedEntryOnlyDispatches(f: Flags, e: LogEvent, logPredicate: Option<LogPredicate>, env: Environment)
    requires !f.asyncOnCurrentThread && f.asyncLoggerEntered
    ensures LogTrace(f, e, logPredicate, env) == [Dispatch(e, logPredicate.GetOr(NotAsyncConfig))]
    ensures EnqueueAttempts(LogTrace(f, e, logPredicate, env)) == 0
  {
  }

  /** The queue-full handling never tries the queue again: at depth above one it runs on the consumer path. */
  lemma {:induction false} QueueFullNeverEnqueues(f: Flags, e: LogEvent, env: Environment)
    ensures EnqueueAttempts(QueueFullTrace(f, e, env)) == 0
    ensures f.recursionDepth > 1 ==>
              QueueFullTrace(f, e, env) == [Dispatch(e.(message := env.transform(e.message)), IsAsyncConfig)]
    ensures f.recursionDepth <= 1 ==> QueueFullTrace(f, e, env) == [RouteQueueFull(e, env.eventRoute(e.level))]
  {
    if f.recursionDepth > 1 {
      var e' := e.(message := env.transform(e.message));
      var g := if f.asyncOnCurrentThread then f else f.(asyncOnCurrentThread := true);
      assert AsyncLogTrace(f, e', env) == LogTrace(g, e', Some(IsAsyncConfig), env);
      ConsumerThreadOnlyDispatches(g, e', Some(IsAsyncConfig), env);
    } else {
      assert EnqueueAttempts([RouteQueueFull(e, env.eventRoute(e.level))]) == 0;
    }
  }

  /**
   * The first asynchronous entry: the synchronous part comes first; unless it throws,
   * the lazily computed fields are captured exactly when the event is not filtered; the
   * queue is tried (once) unless that capture throws; the queue-full handling follows
   * exactly when the queue answers and refuses; at depth above one that is the rewritten
   * event logged on the consumer path and the route is never consulted, otherwise it is
   * the route for the event's level.
   */
  lemma {:induction false} FirstEntryRouting(f: Flags, e: LogEvent, logPredicate: Option<LogPredicate>, env: Environment)
    requires !f.asyncOnCurrentThread && !f.asyncLoggerEntered
    ensures var t := LogTrace(f, e, logPredicate, env);
      var d := Dispatch(e, logPredicate.GetOr(NotAsyncConfig));
      var passes := !env.throws(d) && !env.isFiltered(e);
      var tries := passes && !env.throws(PopulateLazyFields(e));
      var refused := tries && !env.throws(TryEnqueue(e)) && !env.tryEnqueue(e);
      t[0] == d &&
      (!passes ==> t == [d]) &&
      (passes ==> |t| >= 2 && t[1] == PopulateLazyFields(e)) &&
      (passes && !tries ==> |t| == 2) &&
      (tries ==> |t| >= 3 && t[2] == TryEnqueue(e)) &&
      (tries && !refused ==> |t| == 3) &&
      (refused && f.recursionDepth > 1 ==> t[3..] == [Dispatch(e.(message := env.transform(e.message)), IsAsyncConfig)]) &&
      (refused && f.recursionDepth <= 1 ==> t[3..] == [RouteQueueFull(e, env.eventRoute(e.level))]) &&
      EnqueueAttempts(t) == (if tries then 1 else 0)
  {
    var t := LogTrace(f, e, logPredicate, env);
    var d := Dispatch(e, logPredicate.GetOr(NotAsyncConfig));
    var head := [d];
    assert EnqueueAttempts(head) == 0;
    if env.throws(d) || env.isFiltered(e) {
      assert t == head;
    } else if env.throws(PopulateLazyFields(e)) {
      assert t == head + EnqueueTrace(f.(asyncLoggerEntered := true), e, env);
      assert t == head + [PopulateLazyFields(e)];
      assert EnqueueAttempts([PopulateLazyFields(e)]) == 0;
      EnqueueAttemptsAppend(head, [PopulateLazyFields(e)]);
    } else {
      var g := f.(asyncLoggerEntered := true);
      var rest := if env.throws(TryEnqueue(e)) || env.tryEnqueue(e) then [] else QueueFullTrace(g, e, env);
      var mid := [PopulateLazyFields(e), TryEnqueue(e)];
      assert t == head + EnqueueTrace(g, e, env);
      assert t == head + mid + rest;
      assert t[3..] == rest;
      QueueFullNeverEnqueues(g, e, env);
      assert EnqueueAttempts(rest) == 0;
      assert EnqueueAttempts(mid) == 1 by {
        assert mid[1..] == [TryEnqueue(e)];
        assert mid[1..][1..] == [];
      }
      EnqueueAttemptsAppend(head, mid);
      EnqueueAttemptsAppend(head + mid, rest);
    }
  }

  /**
   * Whatever the thread state, one `log` call tries the queue at most once, and does so
   * exactly on first entry with an unfiltered event when neither earlier step throws.
   */
  lemma {:induction false} LogEnqueuesAtMostOnce(f: Flags, e: LogEvent, logPredicate: Option<LogPredicate>, env: Environment)
    ensures EnqueueAttempts(LogTrace(f, e, logPredicate, env)) <= 1
    ensures EnqueueAttempts(LogTrace(f, e, logPredicate, env)) == 1 <==>
              !f.asyncOnCurrentThread && !f.asyncLoggerEntered && !env.isFiltered(e) &&
              !env.throws(Dispatch(e, logPredicate.GetOr(NotAsyncConfig))) && !env.throws(PopulateLazyFields(e))
  {
    if f.asyncOnCurrentThread {
      ConsumerThreadOnlyDispatches(f, e, logPredicate, env);
    } else if f.asyncLoggerEntered {
      NestedEntryOnlyDispatches(f, e, logPredicate, env);
    } else {
      FirstEntryRouting(f, e, logPredicate, env);
    }
  }

  /** No effect of a trace throws except possibly its last one. */
  ghost predicate OnlyLastThrows(env: Environment, t: seq<Action>) {
    forall k :: 0 <= k < |t| - 1 ==> !env.throws(t[k])
  }

  /** An effect in front of a trace whose only possible exception is last. */
  lemma ThenKeepsOnlyLastThrows(env: Environment, a: Action, rest: seq<Action>)
    requires OnlyLastThrows(env, rest)
    ensures OnlyLastThrows(env, Then(env, a, rest))
  {
    var t := Then(env, a, rest);
    forall k | 0 <= k < |t| - 1 ensures !env.throws(t[k]) {
      if k > 0 { assert t[k] == rest[k - 1]; }
    }
  }

  /**
   * An exception ends the call: in the effects of `log`, nothing follows an effect that
   * throws, so the call is left abruptly exactly when its last effect throws, and the
   * enclosing `finally` blocks run right after it.
   */
  lemma {:induction false} AnExceptionEndsTheCall(f: Flags, e: LogEvent, logPredicate: Option<LogPredicate>,
                                                  env: Environment)
    ensures OnlyLastThrows(env, LogTrace(f, e, logPredicate, env))
    ensures EndsAbruptly(env, LogTrace(f, e, logPredicate, env)) <==>
              exists k :: 0 <= k < |LogTrace(f, e, logPredicate, env)| && env.throws(LogTrace(f, e, logPredicate, env)[k])
  {
    var t := LogTrace(f, e, logPredicate, env);
    if !f.asyncOnCurrentThread && !f.asyncLoggerEntered {
      var g := f.(asyncLoggerEntered := true);
      var q := QueueFullTrace(g, e, env);
      QueueFullNeverEnqueues(g, e, env);
      assert |q| == 1;
      var afterTry: seq<Action> := if env.tryEnqueue(e) then [] else q;
      ThenKeepsOnlyLastThrows(env, TryEnqueue(e), afterTry);
      ThenKeepsOnlyLastThrows(env, PopulateLazyFields(e), Then(env, TryEnqueue(e), afterTry));
      var afterDispatch: seq<Action> :=
        if env.isFiltered(e) then [] else Then(env, PopulateLazyFields(e), Then(env, TryEnqueue(e), afterTry));
      ThenKeepsOnlyLastThrows(env, Dispatch(e, logPredicate.GetOr(NotAsyncConfig)), afterDispatch);
    }
    if exists k :: 0 <= k < |t| && env.throws(t[k]) {
      var k :| 0 <= k < |t| && env.throws(t[k]);
      assert k == |t| - 1;
    }
  }

  /** `LoggerConfig.ROOT`, the configured name of the root logger. */
  const RootConfigName: string := "root"

  /** `LogManager.ROOT_LOGGER_NAME`, the root logger's actual name. */
  const RootLoggerName: string := ""

  /**
   * `Booleans.parseBoolean(s, defaultValue)`: "true" in any case gives true; otherwise
   * the default, except that "false" in any case overrides a true default.
   */
  predicate ParseBooleanOr(s: Option<string>, defaultValue: bool)
    ensures s.None? ==> ParseBooleanOr(s, defaultValue) == defaultValue
    ensures !defaultValue ==> (ParseBooleanOr(s, defaultValue) <==> s.Some? && EqualsIgnoreCase(s.value, "true"))
  {
    (s.Some? && EqualsIgnoreCase(s.value, "true")) ||
    (defaultValue && !(s.Some? && EqualsIgnoreCase(s.value, "false")))
  }

  /** `includeLocation(value)`, i.e. `Boolean.parseBoolean(value)`. */
  predicate IncludeLocation(s: Option<string>)
    ensures s.None? ==> !IncludeLocation(s)
  {
    s.Some? && EqualsIgnoreCase(s.value, "true")
  }

  /** `createLogger`: no configuration without a name; `root` names the root logger. */
  function CreateLogger(additivity: Option<string>, levelName: Option<string>, loggerName: Option<string>,
                        includeLocation: Option<string>, refs: seq<string>): (r: Option<LoggerConfig>)
    ensures r.None? <==> loggerName.None?
    ensures r.Some? ==> r.value.isAsync && r.value.appenderRefs == refs
  {
    if loggerName.None? then None
    else
      var name := if loggerName.value == RootConfigName then RootLoggerName else loggerName.value;
      Some(LoggerConfig(name, refs, ToLevel(levelName, ERROR), ParseBooleanOr(additivity, true),
                        IncludeLocation(includeLocation), true))
  }

  /** `RootLogger.createLogger`: the same attributes, always the root logger's name. */
  function CreateRootLogger(additivity: Option<string>, levelName: Option<string>,
                            includeLocation: Option<string>, refs: seq<string>): (r: LoggerConfig)
    ensures r.isAsync && r.name == RootLoggerName && r.appenderRefs == refs
  {
    LoggerConfig(RootLoggerName, refs, ToLevel(levelName, ERROR), ParseBooleanOr(additivity, true),
                 IncludeLocation(includeLocation), true)
  }

  lemma {:induction false} UpperLengthsDiffer(a: string, b: string)
    requires |a| != |b|
    ensures !EqualsIgnoreCase(a, b)
  {
    assert |ToUpperAscii(a)| == |a| && |ToUpperAscii(b)| == |b|;
  }

  /** An additivity attribute turns additivity off exactly when it reads "false" in some case. */
  lemma AdditivityIsOnUnlessFalse(s: Option<string>)
    ensures ParseBooleanOr(s, true) <==> !(s.Some? && EqualsIgnoreCase(s.value, "false"))
  {
    if s.Some? && EqualsIgnoreCase(s.value, "true") {
      assert |ToUpperAscii(s.value)| == |s.value|;
      assert |s.value| == 4;
      UpperLengthsDiffer(s.value, "false");
    }
  }

  /**
   * The factory defaults: a missing or unknown level is ERROR, a named one is that level;
   * a missing additivity is true; a missing include-location flag is false; and the
   * configured name `root` becomes the root logger's name while any other name is kept.
   */
  lemma CreateLoggerDefaults(additivity: Option<string>, levelName: Option<string>, loggerName: string,
                             includeLocation: Option<string>, refs: seq<string>)
    ensures var c := CreateLogger(additivity, levelName, Some(loggerName), includeLocation, refs).value;
      (levelName.None? ==> c.level == ERROR) &&
      (levelName.Some? && (forall l: Level :: Name(l) != ToUpperAscii(Trim(levelName.value))) ==> c.level == ERROR) &&
      (forall l: Level :: levelName.Some? && ToUpperAscii(Trim(levelName.value)) == Name(l) ==> c.level == l) &&
      (additivity.None? ==> c.additive) &&
      (includeLocation.None? ==> !c.includeLocation) &&
      (loggerName == RootConfigName ==> c.name == RootLoggerName) &&
      (loggerName != RootConfigName ==> c.name == loggerName)
  {
    forall l: Level | levelName == Some(Name(l)) ensures ToLevel(levelName, ERROR) == l {
      ToLevelOfName(l, ERROR);
    }
  }

  /** The root factory builds what the named factory builds for the name `root`. */
  lemma RootFactoryIsNamedRoot(additivity: Option<string>, levelName: Option<string>,
                               includeLocation: Option<string>, refs: seq<string>)
    ensures CreateLogger(additivity, levelName, Some(RootConfigName), includeLocation, refs) ==
            Some(CreateRootLogger(additivity, levelName, includeLocation, refs))
  {
  }

  /** Both factories build asynchronous configurations, which the asynchronous predicate admits. */
  lemma FactoriesBuildAsyncConfigs(additivity: Option<string>, levelName: Option<string>, loggerName: string,
                                   includeLocation: Option<string>, refs: seq<string>,
                                   supplied: nat -> LoggerConfig -> bool)
    ensures Allows(IsAsyncConfig, CreateLogger(additivity, levelName, Some(loggerName), includeLocation, refs).value, supplied)
    ensures Allows(IsAsyncConfig, CreateRootLogger(additivity, levelName, includeLocation, refs), supplied)
  {
  }

  /**
   * `includeLocation` is `Booleans.parseBoolean` with a false default: location is
   * included exactly for an attribute whose upper-cased form is "TRUE", so the attribute
   * is read without regard to case, and a missing attribute or any other text gives false.
   */
  lemma IncludeLocationIsParseBoolean(s: Option<string>)
    ensures IncludeLocation(s) == ParseBooleanOr(s, false)
    ensures IncludeLocation(s) <==> s.Some? && ToUpperAscii(s.value) == "TRUE"
    ensures s.Some? ==> IncludeLocation(s) == IncludeLocation(Some(ToUpperAscii(s.value)))
  {
    assert ToUpperAscii("true") == "TRUE";
    if s.Some? {
      UpperIsIdempotent(s.value);
    }
  }

  /** Upper-casing twice is upper-casing once. */
  lemma UpperIsIdempotent(s: string)
    ensures ToUpperAscii(ToUpperAscii(s)) == ToUpperAscii(s)
  {
    var u := ToUpperAscii(s);
    var uu := ToUpperAscii(u);
    forall k | 0 <= k < |s| ensures uu[k] == u[k] {
      assert u[k] == AsciiUpper(s[k]);
    }
  }
}
