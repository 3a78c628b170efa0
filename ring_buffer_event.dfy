/**
 * The reusable event slot of the asynchronous logger's ring buffer: a mutable record
 * that a producer refills (`setValues`), a consumer reads, and the handler empties
 * (`clear`) before the slot is reused.
 */
module RingBufferEvents {
  import opened Wrappers
  import opened Levels
  import opened Throwables
  import opened ThrowableProxies

  /** A marker, known here by its name only. */
  datatype Marker = Marker(name: string)

  /** The immutable messages a slot can hold. */
  datatype Message =
    | SimpleMessage(formattedMessage: string)
    | MementoMessage(formattedMessage: string, format: Option<string>, parameters: Option<seq<object?>>)
    | OtherMessage(formattedMessage: string, format: Option<string>, parameters: Option<seq<object?>>)

  /** The shared empty message handed out when a slot has neither message nor text. */
  const Empty: Message := SimpleMessage("")

  /** What `getMessage` hands out: a stored message, or the slot itself as a reusable message. */
  datatype MessageView = Stored(message: Message) | ThisEvent

  /**
   * A reusable (mutable, garbage-free) message: its formatted text, format string and
   * parameter array, of which the first `parameterCount` entries are in use.
   */
  class ReusableMessage {
    var formatted: string
    var format: Option<string>
    var parameters: array?<object?>
    var parameterCount: nat

    constructor(formatted: string, format: Option<string>, parameters: array?<object?>, parameterCount: nat)
      ensures this.formatted == formatted && this.format == format
      ensures this.parameters == parameters && this.parameterCount == parameterCount
    {
      this.formatted := formatted;
      this.format := format;
      this.parameters := parameters;
      this.parameterCount := parameterCount;
    }

    /** Installs the replacement array and hands back the one held so far. */
    method SwapParameters(emptyReplacement: array?<object?>) returns (previous: array?<object?>)
      modifies this
      ensures previous == old(parameters) && parameters == emptyReplacement
      ensures formatted == old(formatted) && format == old(format) && parameterCount == old(parameterCount)
    {
      previous := parameters;
      parameters := emptyReplacement;
    }
  }

  /** The message handed to `setValues`: reusable messages are copied, others kept; it may be null. */
  datatype Incoming = Reusable(reusable: ReusableMessage) | Plain(message: Message) | NullMessage

  function Footprint(msg: Incoming): set<object> {
    if msg.Reusable? then {msg.reusable} else {}
  }

  /** Mutable context data; a frozen map came from a copy-on-write thread context. */
  class StringMap {
    var entries: map<string, string>
    var frozen: bool

    constructor()
      ensures entries == map[] && !frozen
    {
      entries := map[];
      frozen := false;
    }

    method Clear()
      requires !frozen
      modifies this
      ensures entries == map[] && !frozen
    {
      entries := map[];
    }
  }

  /** `Arrays.copyOf(s, n)`: the first `n` entries, padded with nulls past the end. */
  function CopyOf(s: seq<object?>, n: nat): (r: seq<object?>)
    ensures |r| == n
    ensures forall i :: 0 <= i < n && i < |s| ==> r[i] == s[i]
    ensures forall i :: |s| <= i < n ==> r[i] == null
  {
    if n <= |s| then s[..n] else s + seq(n - |s|, _ => null)
  }

  /** A snapshot of the message handed to `setValues`, taken before the call. */
  datatype MessageInput =
    | ReusableInput(formatted: string, format: Option<string>, parameters: array?<object?>, parameterCount: nat)
    | PlainInput(message: Message)
    | NullInput

  function InputOf(msg: Incoming): (r: MessageInput)
    reads Footprint(msg)
    ensures r.ReusableInput? <==> msg.Reusable?
  {
    match msg
    case Reusable(r) => ReusableInput(r.formatted, r.format, r.parameters, r.parameterCount)
    case Plain(m) => PlainInput(m)
    case NullMessage => NullInput
  }

  /** Sets every entry of the array to null, keeping the array. */
  method NullOut(a: array<object?>)
    modifies a
    ensures forall k :: 0 <= k < a.Length ==> a[k] == null
  {
    var i := 0;
    while i < a.Length
      invariant 0 <= i <= a.Length
      invariant forall k :: 0 <= k < i ==> a[k] == null
    {
      a[i] := null;
      i := i + 1;
    }
  }

  /** Every field of a slot, so that a method can state its whole new state at once. */
  datatype EventFields = EventFields(
    threadPriority: int, threadId: int, nanoTime: int, parameterCount: nat,
    includeLocation: bool, endOfBatch: bool, level: Option<Level>,
    threadName: Option<string>, loggerName: Option<string>, message: Option<Message>,
    messageFormat: Option<string>, messageText: Option<string>, parameters: array?<object?>,
    thrown: Option<ThrowableRef>, thrownProxy: ThrowableProxy?, contextData: StringMap?,
    marker: Option<Marker>, fqcn: Option<string>, location: Option<Frame>,
    contextStack: Option<seq<string>>, asyncLogger: object?)

  /**
   * The fields `setMessage` leaves behind: a reusable message resets the text to its own
   * and takes over its format, and its array and count when the slot has an array; any
   * other message replaces the stored message by its immutable form; a null message
   * leaves no stored message (`makeMessageImmutable(null)` is null).
   */
  function WithMessage(f: EventFields, input: MessageInput, makeImmutable: Message -> Message): (r: EventFields)
    ensures input.ReusableInput? ==> r.messageText == Some(input.formatted) && r.messageFormat == input.format
    ensures input.ReusableInput? ==> r.message == f.message
    ensures input.ReusableInput? && f.parameters != null ==>
              r.parameters == input.parameters && r.parameterCount == input.parameterCount
    ensures input.ReusableInput? && f.parameters == null ==> r.parameters == null && r.parameterCount == f.parameterCount
    ensures input.PlainInput? ==> r == f.(message := Some(makeImmutable(input.message)))
    ensures input.NullInput? ==> r == f.(message := None)
  {
    match input
    case PlainInput(m) => f.(message := Some(makeImmutable(m)))
    case NullInput => f.(message := None)
    case ReusableInput(text, format, ps, count) => WithReusable(f, text, format, ps, count)
  }

  /** The reusable-message case of `WithMessage`. */
  function WithReusable(f: EventFields, text: string, format: Option<string>, ps: array?<object?>, count: nat): EventFields {
    var g := f.(messageText := Some(text), messageFormat := format);
    if f.parameters == null then g else g.(parameters := ps, parameterCount := count)
  }

  class RingBufferLogEvent {
    var threadPriority: int
    var threadId: int
    var nanoTime: int
    var parameterCount: nat
    var includeLocation: bool
    var endOfBatch: bool
    var level: Option<Level>
    var threadName: Option<string>
    var loggerName: Option<string>
    var message: Option<Message>
    var messageFormat: Option<string>
    /** The reusable text buffer; absent when thread-local reuse is off. */
    var messageText: Option<string>
    var parameters: array?<object?>
    var thrown: Option<ThrowableRef>
    var thrownProxy: ThrowableProxy?
    var contextData: StringMap?
    var marker: Option<Marker>
    var fqcn: Option<string>
    var location: Option<Frame>
    var contextStack: Option<seq<string>>
    /** The logger that will process the slot, an opaque reference here. */
    var asyncLogger: object?

    function Fields(): EventFields
      reads this
    {
      EventFields(threadPriority, threadId, nanoTime, parameterCount, includeLocation, endOfBatch,
                  level, threadName, loggerName, message, messageFormat, messageText, parameters,
                  thrown, thrownProxy, contextData, marker, fqcn, location, contextStack, asyncLogger)
    }

    /**
     * The throwable is a valid reference, and a cached proxy is always a proxy of the
     * slot's current throwable: no proxy of an earlier event survives a refill.
     */
    ghost predicate Valid()
      reads this
    {
      (thrown.Some? ==> thrown.value.Valid()) &&
      (thrownProxy != null ==>
         thrownProxy.throwable.Valid() && (thrown.Some? ==> thrownProxy.throwable == thrown.value))
    }

    /**
     * `Factory.newInstance()`: an empty slot; with thread-local reuse on it gets an
     * empty text buffer and a ten-entry parameter array.
     */
    constructor(enableThreadLocals: bool)
      ensures Valid()
      ensures enableThreadLocals ==>
                messageText == Some("") && parameters != null && fresh(parameters) && parameters.Length == 10 &&
                forall k :: 0 <= k < parameters.Length ==> parameters[k] == null
      ensures !enableThreadLocals ==> messageText.None? && parameters == null
      ensures contextData != null && fresh(contextData) && contextData.entries == map[] && !contextData.frozen
      ensures Fields() == EventFields(0, 0, 0, 0, false, false, None, None, None, None, None, messageText,
                                      parameters, None, null, contextData, None, None, None, None, null)
    {
      threadPriority := 0;
      threadId := 0;
      nanoTime := 0;
      parameterCount := 0;
      includeLocation := false;
      endOfBatch := false;
      level := None;
      threadName := None;
      loggerName := None;
      message := None;
      messageFormat := None;
      thrown := None;
      thrownProxy := null;
      contextData := new StringMap();
      marker := None;
      fqcn := None;
      location := None;
      contextStack := None;
      asyncLogger := null;
      if enableThreadLocals {
        messageText := Some("");
        parameters := new object?[10](_ => null);
      } else {
        messageText := None;
        parameters := null;
      }
    }

    /** The text buffer, created if missing and emptied, ready for a reusable message to write into. */
    method GetMessageTextForWriting() returns (buffer: string)
      modifies this`messageText
      ensures buffer == "" && messageText == Some("")
    {
      messageText := Some("");
      buffer := messageText.value;
    }

    /**
     * `setMessage`: a reusable message is copied into the slot (its text into the emptied
     * buffer, its format, and, when the slot has a parameter array, the arrays are
     * exchanged and the count taken over); any other message is stored as its immutable form.
     */
    method SetMessage(msg: Incoming, makeImmutable: Message -> Message)
      modifies this`message, this`messageFormat, this`messageText, this`parameters, this`parameterCount
      modifies Footprint(msg)
      ensures Fields() == WithMessage(old(Fields()), old(InputOf(msg)), makeImmutable)
      ensures msg.Reusable? && old(parameters) == null ==> unchanged(msg.reusable)
      ensures msg.Reusable? && old(parameters) != null ==>
                InputOf(msg) == old(InputOf(msg)).(parameters := old(parameters))
    {
      match msg
      case Reusable(reusable) => CopyReusable(reusable);
      case Plain(m) => message := Some(makeImmutable(m));
      case NullMessage => message := None;
    }

    /**
     * The reusable branch of `setMessage`: the message formats itself into the emptied
     * buffer, and exchanges arrays with the slot when the slot has one.
     */
    method CopyReusable(reusable: ReusableMessage)
      modifies this`messageFormat, this`messageText, this`parameters, this`parameterCount, reusable
      ensures messageText == Some(old(reusable.formatted)) && messageFormat == old(reusable.format)
      ensures old(parameters) == null ==>
                parameters == null && parameterCount == old(parameterCount) && unchanged(reusable)
      ensures old(parameters) != null ==>
                parameters == old(reusable.parameters) && parameterCount == old(reusable.parameterCount) &&
                reusable.parameters == old(parameters) && reusable.formatted == old(reusable.formatted) &&
                reusable.format == old(reusable.format) && reusable.parameterCount == old(reusable.parameterCount)
    {
      var buffer := GetMessageTextForWriting();
      assert buffer + reusable.formatted == reusable.formatted;
      messageText := Some(buffer + reusable.formatted);
      messageFormat := reusable.format;
      if parameters != null {
        parameters := reusable.SwapParameters(parameters);
        parameterCount := reusable.parameterCount;
      }
    }

    /**
     * `setValues`: refills every field of the slot for a new event and drops any cached
     * throwable proxy. The clocks are not part of this model; the nano time is an input.
     */
    method SetValues(anAsyncLogger: object?, aLoggerName: Option<string>, aMarker: Option<Marker>,
                     theFqcn: Option<string>, aLevel: Option<Level>, msg: Incoming,
                     aThrowable: Option<ThrowableRef>, mutableContextData: StringMap?,
                     aContextStack: Option<seq<string>>, aThreadId: int, aThreadName: Option<string>,
                     aThreadPriority: int, aLocation: Option<Frame>, nanoClockTime: int,
                     makeImmutable: Message -> Message)
      requires aThrowable.Some? ==> aThrowable.value.Valid()
      modifies this, Footprint(msg)
      ensures Valid()
      ensures Fields() == WithMessage(
                old(Fields()).(threadPriority := aThreadPriority, threadId := aThreadId, level := aLevel,
                               threadName := aThreadName, loggerName := aLoggerName),
                old(InputOf(msg)), makeImmutable).(
                nanoTime := nanoClockTime, thrown := aThrowable, thrownProxy := null, marker := aMarker,
                fqcn := theFqcn, location := aLocation, contextData := mutableContextData,
                contextStack := aContextStack, asyncLogger := anAsyncLogger)
      ensures msg.Reusable? && old(parameters) == null ==> unchanged(msg.reusable)
      ensures msg.Reusable? && old(parameters) != null ==>
                InputOf(msg) == old(InputOf(msg)).(parameters := old(parameters))
    {
      SetOrigin(aThreadPriority, aThreadId, aLevel, aThreadName, aLoggerName);
      SetMessage(msg, makeImmutable);
      SetPayload(nanoClockTime, aThrowable, aMarker, theFqcn, aLocation, mutableContextData, aContextStack,
                 anAsyncLogger);
    }

    /** The first step of `setValues`: the thread, the level and the logger's name. */
    method SetOrigin(aThreadPriority: int, aThreadId: int, aLevel: Option<Level>, aThreadName: Option<string>,
                     aLoggerName: Option<string>)
      modifies this
      ensures Fields() == old(Fields()).(threadPriority := aThreadPriority, threadId := aThreadId, level := aLevel,
                                         threadName := aThreadName, loggerName := aLoggerName)
    {
      AssignOrigin(aThreadPriority, aThreadId, aLevel, aThreadName, aLoggerName);
    }

    method AssignOrigin(aThreadPriority: int, aThreadId: int, aLevel: Option<Level>, aThreadName: Option<string>,
                        aLoggerName: Option<string>)
      modifies this`threadPriority, this`threadId, this`level, this`threadName, this`loggerName
      ensures threadPriority == aThreadPriority && threadId == aThreadId && level == aLevel
      ensures threadName == aThreadName && loggerName == aLoggerName
    {
      threadPriority := aThreadPriority;
      threadId := aThreadId;
      level := aLevel;
      threadName := aThreadName;
      loggerName := aLoggerName;
    }

    /**
     * The steps of `setValues` after the message: the time, the throwable (its old proxy
     * dropped), marker, fqcn, location, context data and stack, and the processing logger.
     */
    method SetPayload(nanoClockTime: int, aThrowable: Option<ThrowableRef>, aMarker: Option<Marker>,
                      theFqcn: Option<string>, aLocation: Option<Frame>, mutableContextData: StringMap?,
                      aContextStack: Option<seq<string>>, anAsyncLogger: object?)
      modifies this
      ensures Fields() == old(Fields()).(
                nanoTime := nanoClockTime, thrown := aThrowable, thrownProxy := null, marker := aMarker,
                fqcn := theFqcn, location := aLocation, contextData := mutableContextData,
                contextStack := aContextStack, asyncLogger := anAsyncLogger)
    {
      AssignPayload(nanoClockTime, aThrowable, aMarker, theFqcn, aLocation, mutableContextData, aContextStack,
                    anAsyncLogger);
    }

    method AssignPayload(nanoClockTime: int, aThrowable: Option<ThrowableRef>, aMarker: Option<Marker>,
                         theFqcn: Option<string>, aLocation: Option<Frame>, mutableContextData: StringMap?,
                         aContextStack: Option<seq<string>>, anAsyncLogger: object?)
      modifies this`nanoTime, this`thrown, this`thrownProxy, this`marker, this`fqcn
      modifies this`location, this`contextData, this`contextStack, this`asyncLogger
      ensures nanoTime == nanoClockTime && thrown == aThrowable && thrownProxy == null
      ensures marker == aMarker && fqcn == theFqcn && location == aLocation
      ensures contextData == mutableContextData && contextStack == aContextStack && asyncLogger == anAsyncLogger
    {
      nanoTime := nanoClockTime;
      thrown := aThrowable;
      thrownProxy := null;
      marker := aMarker;
      fqcn := theFqcn;
      location := aLocation;
      contextData := mutableContextData;
      contextStack := aContextStack;
      asyncLogger := anAsyncLogger;
    }

    /** The slot as a reusable message: hands back its array and installs the replacement. */
    method SwapParameters(emptyReplacement: array?<object?>) returns (result: array?<object?>)
      modifies this
      ensures result == old(parameters)
      ensures Fields() == old(Fields()).(parameters := emptyReplacement)
    {
      result := parameters;
      parameters := emptyReplacement;
    }

    /** The parameters in use, as `getParameters` exposes them. */
    ghost function ParametersView(): Option<seq<object?>>
      reads this, parameters
    {
      if parameters == null then None else Some(CopyOf(parameters[..], parameterCount))
    }

    /**
     * `getParameters`: null without an array, otherwise a fresh copy of the first
     * `parameterCount` entries, so writing to the copy cannot reach the slot.
     */
    method GetParameters() returns (r: array?<object?>)
      ensures r == null <==> parameters == null
      ensures r != null ==> fresh(r) && r[..] == ParametersView().value
    {
      if parameters == null {
        return null;
      }
      var ps := parameters;
      var n := parameterCount;
      r := new object?[n];
      var i := 0;
      while i < n
        invariant 0 <= i <= n
        invariant forall k :: 0 <= k < i ==> r[k] == (if k < ps.Length then ps[k] else null)
      {
        r[i] := if i < ps.Length then ps[i] else null;
        i := i + 1;
      }
      assert r[..] == CopyOf(ps[..], n);
    }

    /**
     * `forEachParameter`: the calls made to the consumer, in order; each gets the
     * parameter and its index, for the indices `0 .. parameterCount - 1`.
     */
    method ForEachParameter() returns (visits: seq<(object?, nat)>)
      requires parameters != null ==> parameterCount <= parameters.Length
      ensures parameters == null ==> visits == []
      ensures parameters != null ==>
                |visits| == parameterCount &&
                forall i :: 0 <= i < |visits| ==> visits[i] == (parameters[i], i)
    {
      visits := [];
      if parameters != null {
        var i := 0;
        while i < parameterCount
          invariant 0 <= i <= parameterCount
          invariant |visits| == i
          invariant forall k :: 0 <= k < i ==> visits[k] == (parameters[k], k)
        {
          visits := visits + [(parameters[i], i)];
          i := i + 1;
        }
      }
    }

    /** `getLevel`: never absent; a missing level becomes OFF and is stored. */
    method GetLevel() returns (l: Level)
      modifies this
      ensures l == old(level).GetOr(OFF)
      ensures Fields() == old(Fields()).(level := Some(l))
    {
      if level.None? {
        level := Some(OFF);
      }
      l := level.value;
    }

    /** `getMessage`: the stored message wins; the slot answers for itself only while it holds text. */
    function GetMessage(): (v: MessageView)
      reads this
      ensures message.Some? ==> v == Stored(message.value)
      ensures v == ThisEvent <==> message.None? && messageText.Some?
      ensures message.None? && messageText.None? ==> v == Stored(Empty)
    {
      MessageOf(Fields())
    }

    /** `getFormattedMessage`: the text buffer wins over the stored message; absent only when both are. */
    function GetFormattedMessage(): (s: Option<string>)
      reads this
      ensures messageText.Some? ==> s == messageText
      ensures messageText.None? && message.Some? ==> s == Some(message.value.formattedMessage)
      ensures s.None? <==> messageText.None? && message.None?
    {
      FormattedOf(Fields())
    }

    /**
     * `memento()`: with no stored message, builds one from the text (the string "null"
     * when there is no buffer), the format and the exposed parameters, and stores it;
     * a stored message is returned as it is, so repeated calls give the same message.
     */
    method Memento() returns (m: Message)
      modifies this
      ensures old(message).Some? ==> m == old(message).value && unchanged(this)
      ensures old(message).None? ==>
                m == MementoMessage(old(messageText).GetOr("null"), old(messageFormat), old(ParametersView())) &&
                Fields() == old(Fields()).(message := Some(m))
    {
      if message.None? {
        var ps := GetParameters();
        var exposed := if ps == null then None else Some(ps[..]);
        var text := if messageText.None? then "null" else messageText.value;
        message := Some(MementoMessage(text, messageFormat, exposed));
      }
      m := message.value;
    }

    /** `getThrown`: the throwable, recovered from the cached proxy (and stored) when missing. */
    method GetThrown() returns (t: Option<ThrowableRef>)
      requires Valid()
      modifies this
      ensures Valid()
      ensures old(thrown).Some? ==> t == old(thrown)
      ensures old(thrown).None? && thrownProxy != null ==> t == Some(thrownProxy.throwable)
      ensures old(thrown).None? && thrownProxy == null ==> t.None?
      ensures Fields() == old(Fields()).(thrown := t)
    {
      if thrown.None? && thrownProxy != null {
        thrown := Some(thrownProxy.throwable);
      }
      t := thrown;
    }

    /**
     * `getThrownProxy`: creates the proxy of the throwable on first use and only when
     * there is a throwable; afterwards the same proxy is handed out. A new proxy
     * captures the caller stack and context class loader, both inputs here.
     */
    method GetThrownProxy(callerStack: seq<ClassRef>, contextLoader: Option<LoaderId>) returns (p: ThrowableProxy?)
      requires Valid()
      modifies this
      ensures Valid()
      ensures old(thrownProxy) != null ==> p == old(thrownProxy)
      ensures old(thrownProxy) == null && thrown.None? ==> p == null
      ensures old(thrownProxy) == null && thrown.Some? ==>
                p != null && fresh(p) && p.Valid() && !p.Initialized() && p.throwable == thrown.value &&
                p.initializationData == Some(InitializationData(callerStack, map[], contextLoader))
      ensures Fields() == old(Fields()).(thrownProxy := p)
    {
      if thrownProxy == null && thrown.Some? {
        thrownProxy := new ThrowableProxy(thrown.value, callerStack, contextLoader);
      }
      p := thrownProxy;
    }

    /**
     * `clear()`: releases every reference the slot holds, drops frozen context data and
     * empties unfrozen context data in place, and nulls every entry of the parameter
     * array, which stays the same array of the same length.
     */
    method Clear()
      modifies this, parameters, contextData
      ensures Valid()
      ensures Fields() == old(Fields()).(
                asyncLogger := null, loggerName := None, marker := None, fqcn := None, level := None,
                message := None, messageFormat := None, thrown := None, thrownProxy := null,
                contextStack := None, location := None,
                contextData := if old(contextData != null && contextData.frozen) then null else old(contextData))
      ensures old(contextData != null && !contextData.frozen) ==> contextData.entries == map[] && !contextData.frozen
      ensures old(contextData != null && contextData.frozen) ==> unchanged(old(contextData))
      ensures parameters != null ==> forall k :: 0 <= k < parameters.Length ==> parameters[k] == null
    {
      ReleaseReferences();
      ReleaseContextData();
      if parameters != null {
        NullOut(parameters);
      }
    }

    /**
     * The first step of `clear()`: the logger, its name, the marker, the fqcn, the level,
     * the message and its format, the throwable and its proxy, the context stack and the location.
     */
    method ReleaseReferences()
      modifies this
      ensures Fields() == old(Fields()).(
                asyncLogger := null, loggerName := None, marker := None, fqcn := None, level := None,
                message := None, messageFormat := None, thrown := None, thrownProxy := null,
                contextStack := None, location := None)
    {
      NullReferences();
    }

    method NullReferences()
      modifies this`asyncLogger, this`loggerName, this`marker, this`fqcn, this`level
      modifies this`message, this`messageFormat, this`thrown, this`thrownProxy, this`contextStack, this`location
      ensures asyncLogger == null && loggerName == None && marker == None && fqcn == None && level == None
      ensures message == None && messageFormat == None && thrown == None && thrownProxy == null
      ensures contextStack == None && location == None
    {
      asyncLogger := null;
      loggerName := None;
      marker := None;
      fqcn := None;
      level := None;
      message := None;
      messageFormat := None;
      thrown := None;
      thrownProxy := null;
      contextStack := None;
      location := None;
    }

    /** The context-data step of `clear()`: frozen data is dropped, unfrozen data emptied in place. */
    method ReleaseContextData()
      modifies this, contextData
      ensures Fields() == old(Fields()).(
                contextData := if old(contextData != null && contextData.frozen) then null else old(contextData))
      ensures old(contextData != null && !contextData.frozen) ==> contextData.entries == map[] && !contextData.frozen
      ensures old(contextData != null && contextData.frozen) ==> unchanged(old(contextData))
    {
      if contextData != null {
        if contextData.frozen {
          contextData := null;
        } else {
          contextData.Clear();
        }
      }
    }
  }

  /** `getMessage`: the stored message, else the slot itself when it has text, else the empty message. */
  function MessageOf(f: EventFields): (v: MessageView)
    ensures f.message.Some? ==> v == Stored(f.message.value)
    ensures v == ThisEvent <==> f.message.None? && f.messageText.Some?
    ensures f.message.None? && f.messageText.None? ==> v == Stored(Empty)
  {
    if f.message.Some? then Stored(f.message.value)
    else if f.messageText.Some? then ThisEvent
    else Stored(Empty)
  }

  /** `getFormattedMessage`: the text buffer when there is one, else the stored message's text. */
  function FormattedOf(f: EventFields): (s: Option<string>)
    ensures f.messageText.Some? ==> s == f.messageText
    ensures f.messageText.None? && f.message.Some? ==> s == Some(f.message.value.formattedMessage)
    ensures s.None? <==> f.messageText.None? && f.message.None?
  {
    if f.messageText.Some? then f.messageText
    else if f.message.Some? then Some(f.message.value.formattedMessage)
    else None
  }

  /** What a consumer reads through `getMessage().getFormattedMessage()`. */
  function ConsumerText(f: EventFields): Option<string> {
    match MessageOf(f)
    case Stored(m) => Some(m.formattedMessage)
    case ThisEvent => FormattedOf(f)
  }

  /**
   * A consumer always reads some text: the stored message's when there is one, else the
   * buffer's, else the empty string; and when the slot stands for its own message, its
   * formatted text is the buffer.
   */
  lemma ConsumerTextIsNeverNull(f: EventFields)
    ensures ConsumerText(f).Some?
    ensures f.message.Some? ==> ConsumerText(f) == Some(f.message.value.formattedMessage)
    ensures f.message.None? ==> ConsumerText(f) == Some(f.messageText.GetOr(""))
    ensures MessageOf(f) == ThisEvent ==> f.messageText.Some? && FormattedOf(f) == f.messageText
  {
  }

  /**
   * A slot emptied by `clear()` (no stored message) and refilled with a message shows
   * that message and nothing of the previous one: a reusable message is read through the
   * slot and yields exactly its own text; any other message is stored and read as its
   * immutable form.
   */
  lemma RefillShowsOnlyTheNewMessage(f: EventFields, input: MessageInput, makeImmutable: Message -> Message)
    requires f.message.None?
    ensures input.ReusableInput? ==>
              MessageOf(WithMessage(f, input, makeImmutable)) == ThisEvent &&
              ConsumerText(WithMessage(f, input, makeImmutable)) == Some(input.formatted) &&
              WithMessage(f, input, makeImmutable).messageFormat == input.format
    ensures input.PlainInput? ==>
              MessageOf(WithMessage(f, input, makeImmutable)) == Stored(makeImmutable(input.message)) &&
              ConsumerText(WithMessage(f, input, makeImmutable)) == Some(makeImmutable(input.message).formattedMessage)
  {
  }

  /**
   * A null message refills nothing: a consumer of a slot with a text buffer is handed the
   * slot itself and reads whatever the buffer still holds from an earlier reusable
   * message (`clear()` does not empty it); a slot without a buffer yields the empty message.
   */
  lemma NullMessageShowsStaleText(f: EventFields, makeImmutable: Message -> Message)
    ensures var r := WithMessage(f, NullInput, makeImmutable);
      r.messageText == f.messageText && r.messageFormat == f.messageFormat &&
      (f.messageText.Some? ==> MessageOf(r) == ThisEvent && ConsumerText(r) == f.messageText) &&
      (f.messageText.None? ==> MessageOf(r) == Stored(Empty) && ConsumerText(r) == Some(""))
  {
  }
}
