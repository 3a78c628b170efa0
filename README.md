# log4j-core asynchronous logging core, modelled in Dafny

This project models three classes on log4j-core's asynchronous logging path and proves
properties of the model.

- **`ThrowableProxy`** (`throwables.dfy`, `stack_resolution.dfy`, `throwable_proxy.dfy`,
  `proxy_format.dfy`) is the serialisable snapshot of an exception graph.
  - Throwables are nodes of a finite graph: class name, messages, stack trace, optional
    cause, suppressed list.
  - The proxy tree is built by mutually recursive functions that thread the visited sets.
    They stand for the constructors, `toSuppressedProxies` and `initialize()`.
  - `toExtendedStackTrace` is a method with both of its loops. It fills the extended trace
    array from the last frame down, keeps a caller-class stack, and fills a class cache.
  - The lazy, one-shot `initialize()` is a method on a `ThrowableProxy` class.
  - The plain-text renderings are methods that append to a string, each proved equal to a
    text function. These are `formatElements` (runs of ignored frames collapsed), the
    "... N more" line, `formatSuppressed`, `formatThrowableProxy`, `formatWrapper`,
    `getCauseStackTraceAsString` and `formatExtendedStackTraceTo`.
- **`RingBufferLogEvent`** (`ring_buffer_event.dfy`) is the reusable ring-buffer slot. It is
  a class with the source's fields and the methods that refill it (`setValues`,
  `setMessage`), read it (`getParameters`, `forEachParameter`, `getLevel`, `memento`,
  `getThrown`, `getThrownProxy`) and empty it (`clear`).
- **`AsyncLoggerConfig`** (`async_logger_config.dfy`) is the routing policy.
  - A `ThreadState` object holds the two thread-local flags and the recursion depth.
  - Its methods `Log`, `AsyncLog` and `HandleQueueFull` record their effects in a trace.
    Those effects are `super.log` with a predicate, the capture of lazy fields, an enqueue
    attempt, and a hand-off to the queue-full route.
  - The routing lemmas are proved on that trace.
  - The two configuration factories and `includeLocation` are pure functions.

Supporting modules: `wrappers.dfy` holds `Option`; `text.dfy` holds the string helpers
(`lastIndexOf`, `replace`, `startsWith`, `trim`, ASCII upper case, `Integer.toString`);
`levels.dfy` holds the standard levels and `Level.toLevel`.

## Model

| member | source | states |
|---|---|---|
| StackResolution.CommonSuffixLength | log4j-core/src/main/java/org/apache/logging/log4j/core/impl/ThrowableProxy.java:768-774 | the common-frame count never exceeds the length of either trace |
| StackResolution.CommonSuffixIsCommon | log4j-core/src/main/java/org/apache/logging/log4j/core/impl/ThrowableProxy.java:767-779 | the last `n` frames of the parent trace and of this trace agree pairwise, and when both traces are longer than `n` the next pair from the end differs |
| StackResolution.CommonSuffixIsLongest | log4j-core/src/main/java/org/apache/logging/log4j/core/impl/ThrowableProxy.java:767-779 | any number of trailing frames the two traces share is at most the common-frame count, so the count is the longest common suffix |
| StackResolution.LastUncommonIndex | log4j-core/src/main/java/org/apache/logging/log4j/core/impl/ThrowableProxy.java:767-779 | the loop that walks both traces backwards stops at index `length - 1 - commonElementCount` |
| StackResolution.LastSegment | log4j-core/src/main/java/org/apache/logging/log4j/core/impl/ThrowableProxy.java:723-730 | the location is a suffix of the URL string that starts just after a '/' (or is the whole string); it contains no '/' unless the string ends in '/', in which case it is the last directory with its trailing '/' |
| StackResolution.ToCacheEntry | log4j-core/src/main/java/org/apache/logging/log4j/core/impl/ThrowableProxy.java:713-750 | keeps the exactness flag; with no class, location and version are "?" and there is no loader; otherwise the loader is the class's, the version is the package implementation version or "?", the location is "?" without a code source and otherwise the last segment of its URL with backslashes turned into slashes |
| StackResolution.StepFacts | log4j-core/src/main/java/org/apache/logging/log4j/core/impl/ThrowableProxy.java:784-811 | a frame whose class is on top of the caller stack pops exactly that entry and is exact; any other frame leaves the stack alone; a cached class is reused without resolving it again; a missing class is stored; no other cache entry changes |
| StackResolution.ResolveDown | log4j-core/src/main/java/org/apache/logging/log4j/core/impl/ThrowableProxy.java:780-814 | resolving `k` frames from the last one down yields one class-info record per frame, in front of those already resolved |
| StackResolution.ResolveDownFacts | log4j-core/src/main/java/org/apache/logging/log4j/core/impl/ThrowableProxy.java:780-814 | over a whole trace the caller stack only loses entries from its top, at most one per frame, and cached entries are never replaced |
| StackResolution.ExtendedTrace | log4j-core/src/main/java/org/apache/logging/log4j/core/impl/ThrowableProxy.java:761-816 | with no parent trace the count is 0; with one it is the longest common suffix; the extended trace has `length - count` elements, and element `i` wraps exactly `stackTrace[i]`; the caller stack after the call is a prefix of the one before; no cached entry changes |
| StackResolution.ExtendedFrames | log4j-core/src/main/java/org/apache/logging/log4j/core/impl/ThrowableProxy.java:812 | element `i` pairs frame `i` with the class information resolved for it |
| StackResolution.ResolveFrame | log4j-core/src/main/java/org/apache/logging/log4j/core/impl/ThrowableProxy.java:784-811 | one iteration of the resolve loop computes the per-frame step: its class information, and the new stack, cache and last loader |
| StackResolution.ResolveInto | log4j-core/src/main/java/org/apache/logging/log4j/core/impl/ThrowableProxy.java:784-812 | slot `i` of the array receives frame `i` with its class information; the slots above keep theirs; the remaining resolution is unchanged |
| StackResolution.ResolveFrames | log4j-core/src/main/java/org/apache/logging/log4j/core/impl/ThrowableProxy.java:780-814 | the downward loop leaves the array holding every frame with the class information of the step-by-step resolution, and returns that resolution's stack and cache |
| StackResolution.ToExtendedStackTrace | log4j-core/src/main/java/org/apache/logging/log4j/core/impl/ThrowableProxy.java:761-816 | the two-loop method returns exactly the extended trace, common count, stack and cache of `ExtendedTrace` |
| ThrowableProxies.SuppressedProxy | log4j-core/src/main/java/org/apache/logging/log4j/core/impl/ThrowableProxy.java:140-154 | the suppressed-exception constructor: the proxy mirrors its throwable (name, messages, trace), has common count 0, has a cause proxy exactly when the throwable has a cause and then its chain of causes is `CauseChain` from a fresh set, and only grows the shared visited set |
| ThrowableProxies.SuppressedProxyLists | log4j-core/src/main/java/org/apache/logging/log4j/core/impl/ThrowableProxy.java:140-154 | the suppressed proxies of that constructor stand for a duplicate-free subsequence of the throwable's suppressed array, none of them visited before, and every suppressed throwable is in the visited set afterwards |
| ThrowableProxies.CauseProxy | log4j-core/src/main/java/org/apache/logging/log4j/core/impl/ThrowableProxy.java:166-180 | the cause constructor: the proxy mirrors its throwable, its common count is the longest common suffix with the top throwable's trace, and its chain of causes is `CauseChain` |
| ThrowableProxies.CauseChainIsSimple | log4j-core/src/main/java/org/apache/logging/log4j/core/impl/ThrowableProxy.java:169-178 | the chain of causes starts at the cause, follows `getCause` links, never repeats a throwable or revisits one already visited, is no longer than the number of unvisited throwables, and stops exactly at a missing cause or at a cause already seen |
| ThrowableProxies.CauseChainIsBounded | log4j-core/src/main/java/org/apache/logging/log4j/core/impl/ThrowableProxy.java:166-193 | the cause chain built from a fresh visited set has at most as many proxies as the graph has throwables, so construction terminates even on a cyclic cause graph |
| ThrowableProxies.SuppressedList | log4j-core/src/main/java/org/apache/logging/log4j/core/impl/ThrowableProxy.java:824-846 | an empty suppressed array gives no proxies and leaves the visited set alone; every proxy is of one of the candidates and mirrors it; the visited set only grows |
| ThrowableProxies.SuppressedLoop | log4j-core/src/main/java/org/apache/logging/log4j/core/impl/ThrowableProxy.java:834-839 | the loop over the candidates from index `i` only grows the visited set and yields proxies of candidates that mirror them |
| ThrowableProxies.SuppressedLoopFacts | log4j-core/src/main/java/org/apache/logging/log4j/core/impl/ThrowableProxy.java:834-839 | the candidates that get a proxy appear in their original order, each at most once, and none of them was visited before |
| ThrowableProxies.SuppressedLoopCovers | log4j-core/src/main/java/org/apache/logging/log4j/core/impl/ThrowableProxy.java:834-839 | every candidate is in the visited set afterwards, so a duplicate later in the array is dropped |
| ThrowableProxies.SuppressedLoopSkip | log4j-core/src/main/java/org/apache/logging/log4j/core/impl/ThrowableProxy.java:836-838 | a candidate already in the visited set adds nothing |
| ThrowableProxies.SuppressedLoopTake | log4j-core/src/main/java/org/apache/logging/log4j/core/impl/ThrowableProxy.java:836-838 | a new candidate is added to the visited set, gets a proxy built with that set, and the proxy comes before those of later candidates |
| ThrowableProxies.SuppressedListFacts | log4j-core/src/main/java/org/apache/logging/log4j/core/impl/ThrowableProxy.java:824-846 | the proxies are of distinct candidates, in order, not previously visited; with a shared set every candidate is in it afterwards |
| ThrowableProxies.ToSuppressedProxies | log4j-core/src/main/java/org/apache/logging/log4j/core/impl/ThrowableProxy.java:824-846 | the method with its loop returns exactly `SuppressedList`: the proxies and the visited set a shared set ends with (no set when none was passed) |
| ThrowableProxies.VisitCandidates | log4j-core/src/main/java/org/apache/logging/log4j/core/impl/ThrowableProxy.java:834-839 | the loop over the candidates computes the proxies and visited set of `SuppressedLoop` |
| ThrowableProxies.VisitCandidate | log4j-core/src/main/java/org/apache/logging/log4j/core/impl/ThrowableProxy.java:835-838 | one iteration preserves the loop invariant: the proxies so far followed by those `SuppressedLoop` gives for the remaining candidates, with its final visited set, stay the same |
| ThrowableProxies.Describe | log4j-core/src/main/java/org/apache/logging/log4j/core/impl/ThrowableProxy.java:819-822 | `toString`: the name, followed by ": " and the message exactly when there is a message |
| ThrowableProxies.IgnoreElement | log4j-core/src/main/java/org/apache/logging/log4j/core/impl/ThrowableProxy.java:648-658 | true iff there is a package list and the class name starts with one of its packages |
| ThrowableProxies.EqualsIsSameShape | log4j-core/src/main/java/org/apache/logging/log4j/core/impl/ThrowableProxy.java:210-245 | two proxies are equal iff they agree on the cause (recursively), common count, name, extended trace and suppressed proxies (recursively) |
| ThrowableProxies.EqualsIsEquivalence | log4j-core/src/main/java/org/apache/logging/log4j/core/impl/ThrowableProxy.java:210-245 | equality is reflexive, symmetric and transitive, and ignores the message, localized message and throwable |
| ThrowableProxies.TopProxy | log4j-core/src/main/java/org/apache/logging/log4j/core/impl/ThrowableProxy.java:182-193 | the snapshot `initialize()` builds has common count 0, mirrors the throwable, has a cause proxy exactly when the throwable has a cause with `CauseChain` as its chain, and its suppressed proxies are a duplicate-free subsequence of the suppressed array |
| ThrowableProxies.ThrowableProxy.constructor | log4j-core/src/main/java/org/apache/logging/log4j/core/impl/ThrowableProxy.java:124-132 | takes the name and messages now, keeps the caller stack, an empty cache and the context loader for later, and builds nothing else |
| ThrowableProxies.ThrowableProxy.Initialize | log4j-core/src/main/java/org/apache/logging/log4j/core/impl/ThrowableProxy.java:182-193 | the first call consumes the initialisation data and installs the snapshot `TopProxy` builds from it; a later call changes nothing |
| ThrowableProxies.ThrowableProxy.GetCauseProxy | log4j-core/src/main/java/org/apache/logging/log4j/core/impl/ThrowableProxy.java:414-417 | initialises, then returns the cause proxy |
| ThrowableProxies.ThrowableProxy.GetCommonElementCount | log4j-core/src/main/java/org/apache/logging/log4j/core/impl/ThrowableProxy.java:483-486 | initialises, then returns the common-frame count |
| ThrowableProxies.ThrowableProxy.GetExtendedStackTrace | log4j-core/src/main/java/org/apache/logging/log4j/core/impl/ThrowableProxy.java:493-496 | initialises, then returns the extended trace |
| ThrowableProxies.ThrowableProxy.GetSuppressedProxies | log4j-core/src/main/java/org/apache/logging/log4j/core/impl/ThrowableProxy.java:603-606 | initialises, then returns the suppressed proxies |
| ThrowableProxies.ThrowableProxy.Equals | log4j-core/src/main/java/org/apache/logging/log4j/core/impl/ThrowableProxy.java:210-245 | the same object is equal without initialising; null or an object of another class is unequal, and neither this proxy nor that object changes; otherwise both proxies are initialised and the answer is structural equality of their snapshots |
| ProxyFormat.RenderSuffix | log4j-core/src/main/java/org/apache/logging/log4j/core/impl/ThrowableProxy.java:323-328 | an empty suffix renders as nothing; any other suffix as a space followed by it |
| ProxyFormat.EntryText | log4j-core/src/main/java/org/apache/logging/log4j/core/impl/ThrowableProxy.java:344-351 | `formatEntry`: the line starts with the prefix and "\tat ", then holds exactly the frame's rendering, and ends with the suffix and the separator |
| ProxyFormat.SuppressedCountText | log4j-core/src/main/java/org/apache/logging/log4j/core/impl/ThrowableProxy.java:330-342 | `appendSuppressedCount`: a run of one frame is the prefix and "\t... " followed directly by the line end; a longer run reads "\t... suppressed ", digits that read back as the count, " lines" and the line end |
| ProxyFormat.MoreText | log4j-core/src/main/java/org/apache/logging/log4j/core/impl/ThrowableProxy.java:313-320 | the closing line is the prefix, "\t... ", digits that read back as the common count, " more" and the line end |
| ProxyFormat.LineTextShape | log4j-core/src/main/java/org/apache/logging/log4j/core/impl/ThrowableProxy.java:313-351 | entry lines have "a" after the tab and count lines "."; the lengths of the count lines and the character after "\t... " tell a single-frame run, a longer run and the "more" line apart |
| ProxyFormat.LineTextDeterminesLine | log4j-core/src/main/java/org/apache/logging/log4j/core/impl/ThrowableProxy.java:313-351 | the text of a line gives the line back: entry and count lines never render alike, two entries render alike only when their frames do, and a count line's text fixes its kind and count |
| ProxyFormat.Marks | log4j-core/src/main/java/org/apache/logging/log4j/core/impl/ThrowableProxy.java:297-309 | each extended frame is marked as kept or ignored by its own frame's class name |
| ProxyFormat.GroupSnoc | log4j-core/src/main/java/org/apache/logging/log4j/core/impl/ThrowableProxy.java:297-309 | grouping one more frame extends the grouped lines by one step: a kept frame adds an entry, an ignored one lengthens the trailing run or starts one |
| ProxyFormat.PushIsLossless | log4j-core/src/main/java/org/apache/logging/log4j/core/impl/ThrowableProxy.java:297-309 | one grouping step adds exactly that frame's mark to what the lines stand for |
| ProxyFormat.GroupIsLossless | log4j-core/src/main/java/org/apache/logging/log4j/core/impl/ThrowableProxy.java:297-313 | expanding the grouped lines gives back the marks: every kept frame appears once, in order, and every ignored frame is counted in a run |
| ProxyFormat.PushIsCanonical | log4j-core/src/main/java/org/apache/logging/log4j/core/impl/ThrowableProxy.java:297-309 | a grouping step keeps the lines canonical: runs have positive length and no two runs are adjacent |
| ProxyFormat.GroupIsCanonical | log4j-core/src/main/java/org/apache/logging/log4j/core/impl/ThrowableProxy.java:297-313 | the grouped lines are canonical, so each maximal run of ignored frames becomes exactly one marker line |
| ProxyFormat.PopThenPush | log4j-core/src/main/java/org/apache/logging/log4j/core/impl/ThrowableProxy.java:297-313 | removing the last frame from canonical lines and grouping it again gives the same lines |
| ProxyFormat.PopIsCanonical | log4j-core/src/main/java/org/apache/logging/log4j/core/impl/ThrowableProxy.java:297-313 | removing the last frame from canonical lines leaves canonical lines |
| ProxyFormat.GroupIsUnique | log4j-core/src/main/java/org/apache/logging/log4j/core/impl/ThrowableProxy.java:297-313 | any canonical line sequence that stands for the marks is the grouping, so the grouping is the only faithful rendering |
| ProxyFormat.Drops | log4j-core/src/main/java/org/apache/logging/log4j/core/impl/ThrowableProxy.java:307-313 | a run of `n` ignored frames stands for `n` ignored marks |
| ProxyFormat.ExpandSnoc | log4j-core/src/main/java/org/apache/logging/log4j/core/impl/ThrowableProxy.java:297-313 | what a line sequence stands for is additive over appended lines |
| ProxyFormat.MirrorsIsConsistent | log4j-core/src/main/java/org/apache/logging/log4j/core/impl/ThrowableProxy.java:252-267 | a proxy that mirrors its throwable has extended traces no longer than the traces they annotate, at every level, so rendering never indexes past a trace |
| ProxyFormat.Entries | log4j-core/src/main/java/org/apache/logging/log4j/core/impl/ThrowableProxy.java:292-296 | without ignore packages there is one entry line per extended frame, in order |
| ProxyFormat.ElementLinesFacts | log4j-core/src/main/java/org/apache/logging/log4j/core/impl/ThrowableProxy.java:289-321 | the lines before any "more" line are the canonical grouping of the frames (every frame in order when nothing is filtered), and a final "... N more" line is present iff the common count is not 0 |
| ProxyFormat.EntriesAreUnfilteredGroup | log4j-core/src/main/java/org/apache/logging/log4j/core/impl/ThrowableProxy.java:292-296 | the unfiltered branch agrees with the filtered one when no frame is ignored |
| ProxyFormat.ExpandEntries | log4j-core/src/main/java/org/apache/logging/log4j/core/impl/ThrowableProxy.java:292-296 | entry lines stand for every frame kept, in order |
| ProxyFormat.RenderLinesSnoc | log4j-core/src/main/java/org/apache/logging/log4j/core/impl/ThrowableProxy.java:330-351 | the text of lines is the concatenation of the texts of the lines |
| ProxyFormat.WriteLine | log4j-core/src/main/java/org/apache/logging/log4j/core/impl/ThrowableProxy.java:330-351 | appending one line's text (`formatEntry`, `appendSuppressedCount` or the "more" line) extends the rendering by that line |
| ProxyFormat.FormatEntries | log4j-core/src/main/java/org/apache/logging/log4j/core/impl/ThrowableProxy.java:292-296 | the unfiltered loop appends exactly the rendering of one entry line per frame |
| ProxyFormat.GroupStep | log4j-core/src/main/java/org/apache/logging/log4j/core/impl/ThrowableProxy.java:298-307 | the run counter of the filtered loop: after frame `i` the emitted lines with the pending run flushed are the grouping of the first `i + 1` frames |
| ProxyFormat.ScanIsGroup | log4j-core/src/main/java/org/apache/logging/log4j/core/impl/ThrowableProxy.java:297-313 | the loop with its run counter, run to the end and flushed, produces exactly the grouping |
| ProxyFormat.FlushRun | log4j-core/src/main/java/org/apache/logging/log4j/core/impl/ThrowableProxy.java:300-303 | a pending run is written as one suppressed-count line and the counter is reset; no run writes nothing |
| ProxyFormat.FormatFiltered | log4j-core/src/main/java/org/apache/logging/log4j/core/impl/ThrowableProxy.java:297-313 | the filtered loop appends exactly the rendering of the grouped lines |
| ProxyFormat.FilterStep | log4j-core/src/main/java/org/apache/logging/log4j/core/impl/ThrowableProxy.java:298-307 | one iteration of the filtered loop keeps the text equal to the rendering of the lines emitted so far, and advances the scan by one frame |
| ProxyFormat.FormatElements | log4j-core/src/main/java/org/apache/logging/log4j/core/impl/ThrowableProxy.java:289-321 | appends exactly the element text: the entries or grouped lines, then the "... N more" line when the common count is not 0 |
| ProxyFormat.FormatThrowableProxy | log4j-core/src/main/java/org/apache/logging/log4j/core/impl/ThrowableProxy.java:247-277 | appends the header (prefix, label, `renderOn`, suffix, separator), the elements with the proxy's own count, the suppressed proxies one tab deeper, then the cause labelled "Caused by: " |
| ProxyFormat.SuppressedTextStep | log4j-core/src/main/java/org/apache/logging/log4j/core/impl/ThrowableProxy.java:279-287 | the suppressed text is the first suppressed proxy's section followed by the rest |
| ProxyFormat.FormatSuppressed | log4j-core/src/main/java/org/apache/logging/log4j/core/impl/ThrowableProxy.java:279-287 | appends each suppressed proxy's section in order, labelled "Suppressed: " |
| ProxyFormat.FormatWrapper | log4j-core/src/main/java/org/apache/logging/log4j/core/impl/ThrowableProxy.java:399-412 | appends the cause's wrapper layout and "Wrapped by: " when there is a cause, then this proxy's name line and elements |
| ProxyFormat.ChainOf | log4j-core/src/main/java/org/apache/logging/log4j/core/impl/ThrowableProxy.java:399-417 | the chain of cause proxies starts at the proxy itself |
| ProxyFormat.ChainIsConsistent | log4j-core/src/main/java/org/apache/logging/log4j/core/impl/ThrowableProxy.java:399-412 | every proxy on the cause chain of a well-formed proxy is well formed |
| ProxyFormat.WrapperListsDeepestCauseFirst | log4j-core/src/main/java/org/apache/logging/log4j/core/impl/ThrowableProxy.java:399-412 | the wrapper layout is the sections of the cause chain in reverse order, deepest cause first, joined by "Wrapped by: " |
| ProxyFormat.Reverse | log4j-core/src/main/java/org/apache/logging/log4j/core/impl/ThrowableProxy.java:399-412 | element `i` of the reversal is element `n-1-i` of the chain |
| ProxyFormat.GetCauseStackTraceAsString | log4j-core/src/main/java/org/apache/logging/log4j/core/impl/ThrowableProxy.java:461-475 | initialises, then returns the wrapper layout of the proxy itself with no common frames |
| ProxyFormat.FormatExtendedStackTraceTo | log4j-core/src/main/java/org/apache/logging/log4j/core/impl/ThrowableProxy.java:564-575 | initialises, then appends the proxy's section with no prefix, no label, no common frames, ": " always written and a null message written as "null" |
| ProxyFormat.FormatTopProxy | log4j-core/src/main/java/org/apache/logging/log4j/core/impl/ThrowableProxy.java:566-574 | the formatting half of the above, on the initialised snapshot |
| RingBufferEvents.ReusableMessage.SwapParameters | log4j-core/src/main/java/org/apache/logging/log4j/core/async/RingBufferLogEvent.java:138 | the reusable message hands back its array and installs the replacement; nothing else changes |
| RingBufferEvents.StringMap.Clear | log4j-core/src/main/java/org/apache/logging/log4j/core/async/RingBufferLogEvent.java:416 | unfrozen context data is emptied in place |
| RingBufferEvents.CopyOf | log4j-core/src/main/java/org/apache/logging/log4j/core/async/RingBufferLogEvent.java:245 | `Arrays.copyOf`: exactly `n` entries, the array's own where it has them and null past its end |
| RingBufferEvents.NullOut | log4j-core/src/main/java/org/apache/logging/log4j/core/async/RingBufferLogEvent.java:423-427 | every entry of the array is null afterwards; the array and its length are kept |
| RingBufferEvents.WithMessage | log4j-core/src/main/java/org/apache/logging/log4j/core/async/RingBufferLogEvent.java:132-144 | a reusable message sets the text to its own and the format to its own, keeps the stored message, and takes over its array and count only when the slot has an array; a null message leaves no stored message and nothing else changes; any other message is stored as its immutable form and nothing else changes |
| RingBufferEvents.RingBufferLogEvent.constructor | log4j-core/src/main/java/org/apache/logging/log4j/core/async/RingBufferLogEvent.java:62-69 | an empty slot; with thread-local reuse on it gets an empty text buffer and a fresh ten-entry null array |
| RingBufferEvents.RingBufferLogEvent.GetMessageTextForWriting | log4j-core/src/main/java/org/apache/logging/log4j/core/async/RingBufferLogEvent.java:146-154 | the buffer exists and is empty afterwards, whether or not it existed before |
| RingBufferEvents.RingBufferLogEvent.SetMessage | log4j-core/src/main/java/org/apache/logging/log4j/core/async/RingBufferLogEvent.java:132-144 | for any message, null included, the slot's fields become `WithMessage` of the old fields and the message; a reusable message receives the slot's old array, or is untouched when the slot has none |
| RingBufferEvents.RingBufferLogEvent.CopyReusable | log4j-core/src/main/java/org/apache/logging/log4j/core/async/RingBufferLogEvent.java:133-140 | the text becomes exactly the message's text, the format its format, and the arrays are exchanged only when the slot has one |
| RingBufferEvents.RingBufferLogEvent.SetValues | log4j-core/src/main/java/org/apache/logging/log4j/core/async/RingBufferLogEvent.java:96-117 | for any message, null included, every field is refilled from the arguments and the message, the cached throwable proxy is dropped, and the slot is valid: no proxy of an earlier event survives |
| RingBufferEvents.RingBufferLogEvent.SetOrigin | log4j-core/src/main/java/org/apache/logging/log4j/core/async/RingBufferLogEvent.java:101-105 | sets the thread priority, id and name, the level and the logger name, and nothing else |
| RingBufferEvents.RingBufferLogEvent.SetPayload | log4j-core/src/main/java/org/apache/logging/log4j/core/async/RingBufferLogEvent.java:108-116 | sets the time, throwable, marker, fqcn, location, context data, context stack and logger, drops the proxy, and nothing else |
| RingBufferEvents.RingBufferLogEvent.SwapParameters | log4j-core/src/main/java/org/apache/logging/log4j/core/async/RingBufferLogEvent.java:271-275 | returns the previous array and installs the replacement; nothing else changes |
| RingBufferEvents.RingBufferLogEvent.GetParameters | log4j-core/src/main/java/org/apache/logging/log4j/core/async/RingBufferLogEvent.java:244-246 | null iff the slot has no array; otherwise a fresh array (so writes to it cannot reach the slot) holding `Arrays.copyOf(parameters, parameterCount)` |
| RingBufferEvents.RingBufferLogEvent.ForEachParameter | log4j-core/src/main/java/org/apache/logging/log4j/core/async/RingBufferLogEvent.java:286-292 | no call without an array; otherwise one call per index `0 .. parameterCount-1`, in order, with that parameter and its index |
| RingBufferEvents.RingBufferLogEvent.GetLevel | log4j-core/src/main/java/org/apache/logging/log4j/core/async/RingBufferLogEvent.java:207-212 | returns the level, or OFF when there is none, and that level is stored |
| RingBufferEvents.RingBufferLogEvent.GetMessage | log4j-core/src/main/java/org/apache/logging/log4j/core/async/RingBufferLogEvent.java:215-218 | the stored message when there is one; the slot itself exactly when there is no stored message but a text buffer; otherwise the empty message |
| RingBufferEvents.RingBufferLogEvent.GetFormattedMessage | log4j-core/src/main/java/org/apache/logging/log4j/core/async/RingBufferLogEvent.java:226-230 | the text buffer when there is one, else the stored message's text; absent exactly when both are |
| RingBufferEvents.MessageOf | log4j-core/src/main/java/org/apache/logging/log4j/core/async/RingBufferLogEvent.java:215-218 | `getMessage` on a slot's fields: the stored message, else the slot itself exactly when it has text, else the empty message |
| RingBufferEvents.FormattedOf | log4j-core/src/main/java/org/apache/logging/log4j/core/async/RingBufferLogEvent.java:226-230 | `getFormattedMessage` on a slot's fields: the buffer wins over the stored message; absent exactly when both are |
| RingBufferEvents.ConsumerTextIsNeverNull | log4j-core/src/main/java/org/apache/logging/log4j/core/async/RingBufferLogEvent.java:215-230 | `getMessage` returns the stored message, else the slot when it has text, else the empty message; so the text a consumer reads always exists, and when the slot stands for the message the text is the buffer |
| RingBufferEvents.RefillShowsOnlyTheNewMessage | log4j-core/src/main/java/org/apache/logging/log4j/core/async/RingBufferLogEvent.java:132-154 | after a clear and a refill with a non-null message the consumer reads exactly the new message's text and format: a reusable message through the slot's buffer, any other as its stored immutable form |
| RingBufferEvents.NullMessageShowsStaleText | log4j-core/src/main/java/org/apache/logging/log4j/core/async/RingBufferLogEvent.java:141-142 | a null message keeps the text buffer and format: a slot whose buffer still holds an earlier reusable message's text is read as itself and shows that text; a slot without a buffer yields the empty message |
| RingBufferEvents.RingBufferLogEvent.Memento | log4j-core/src/main/java/org/apache/logging/log4j/core/async/RingBufferLogEvent.java:295-300 | with no stored message, builds and stores a memento of the text ("null" without a buffer), the format and the exposed parameters; with one, returns it and changes nothing, so repeated calls return the same message |
| RingBufferEvents.RingBufferLogEvent.GetThrown | log4j-core/src/main/java/org/apache/logging/log4j/core/async/RingBufferLogEvent.java:320-328 | the throwable if present; otherwise the proxy's throwable, which is then stored; nothing when there is neither |
| RingBufferEvents.RingBufferLogEvent.GetThrownProxy | log4j-core/src/main/java/org/apache/logging/log4j/core/async/RingBufferLogEvent.java:330-339 | a cached proxy is returned as it is; otherwise a fresh, not yet initialised proxy of the throwable is created and stored, and only when there is a throwable |
| RingBufferEvents.RingBufferLogEvent.Clear | log4j-core/src/main/java/org/apache/logging/log4j/core/async/RingBufferLogEvent.java:400-428 | every reference field is released, frozen context data is dropped from the slot and left as it was (it may be shared), unfrozen data is emptied in place, and every entry of the parameter array is null while the array is kept |
| RingBufferEvents.RingBufferLogEvent.ReleaseReferences | log4j-core/src/main/java/org/apache/logging/log4j/core/async/RingBufferLogEvent.java:401-411 | the logger, logger name, marker, fqcn, level, message, format, throwable, proxy, context stack and location are released, and nothing else changes |
| RingBufferEvents.RingBufferLogEvent.ReleaseContextData | log4j-core/src/main/java/org/apache/logging/log4j/core/async/RingBufferLogEvent.java:412-418 | frozen context data is dropped from the slot and the map itself is left as it was, unfrozen data is emptied in place, no data is left alone |
| AsyncLoggerConfigs.PredicatesAreComplements | log4j-core/src/main/java/org/apache/logging/log4j/core/async/AsyncLoggerConfig.java:91-103 | every configuration is admitted by exactly one of `IS_ASYNC_CONFIG` and `NOT_ASYNC_CONFIG` |
| AsyncLoggerConfigs.Allows | log4j-core/src/main/java/org/apache/logging/log4j/core/async/AsyncLoggerConfig.java:91-103 | `IS_ASYNC_CONFIG` admits exactly the asynchronous configurations, `NOT_ASYNC_CONFIG` exactly the others, and a supplied predicate gives its own verdict |
| AsyncLoggerConfigs.ThreadState.constructor | log4j-core/src/main/java/org/apache/logging/log4j/core/async/AsyncLoggerConfig.java:76-77 | a thread starts with both flags unset and nothing recorded |
| AsyncLoggerConfigs.ThenEndsAbruptly | log4j-core/src/main/java/org/apache/logging/log4j/core/async/AsyncLoggerConfig.java:114-126 | an effect in front of others ends the call abruptly exactly when it throws or the others do |
| AsyncLoggerConfigs.AsyncLoggerConfig.Perform | log4j-core/src/main/java/org/apache/logging/log4j/core/async/AsyncLoggerConfig.java:105-148 | one effect is recorded after the earlier ones, the flags are unchanged, and the call is abrupt exactly when the effect throws |
| AsyncLoggerConfigs.AsyncLoggerConfig.SuperLog | log4j-core/src/main/java/org/apache/logging/log4j/core/async/AsyncLoggerConfig.java:107 | `super.log` records one dispatch with its predicate, leaves the flags alone, and is abrupt exactly when that dispatch throws |
| AsyncLoggerConfigs.AsyncLoggerConfig.DelegateTryEnqueue | log4j-core/src/main/java/org/apache/logging/log4j/core/async/AsyncLoggerConfig.java:120 | records one enqueue attempt, returns the queue's answer, and is abrupt exactly when the attempt throws |
| AsyncLoggerConfigs.AsyncLoggerConfig.Log | log4j-core/src/main/java/org/apache/logging/log4j/core/async/AsyncLoggerConfig.java:105-131 | records exactly the effects of `LogTrace` for the thread's state, is abrupt exactly when the last of them throws, and both flags and the depth are as they were before, whether the call returns or is left by an exception |
| AsyncLoggerConfigs.AsyncLoggerConfig.FirstEntry | log4j-core/src/main/java/org/apache/logging/log4j/core/async/AsyncLoggerConfig.java:114-124 | the `try` block: one dispatch with the predicate, then for an unfiltered event the effects of `EnqueueTrace`, skipped when the dispatch throws; the flags are restored |
| AsyncLoggerConfigs.AsyncLoggerConfig.Enqueue | log4j-core/src/main/java/org/apache/logging/log4j/core/async/AsyncLoggerConfig.java:118-123 | captures the lazy fields, attempts one enqueue and hands a refused event to the queue-full handling, each step skipped once an earlier one throws, as `EnqueueTrace` lists; the flags are restored |
| AsyncLoggerConfigs.AsyncLoggerConfig.HandleQueueFull | log4j-core/src/main/java/org/apache/logging/log4j/core/async/AsyncLoggerConfig.java:138-148 | records exactly `QueueFullTrace`, is abrupt exactly when its last effect throws, and restores the thread state |
| AsyncLoggerConfigs.AsyncLoggerConfig.AsyncLog | log4j-core/src/main/java/org/apache/logging/log4j/core/async/AsyncLoggerConfig.java:160-172 | records exactly `AsyncLogTrace`; the consumer flag is set for the call only if it was unset, and is as before afterwards, also when `log` throws |
| AsyncLoggerConfigs.EnqueueAttemptsAppend | log4j-core/src/main/java/org/apache/logging/log4j/core/async/AsyncLoggerConfig.java:105-131 | enqueue attempts add up over concatenated traces |
| AsyncLoggerConfigs.ConsumerThreadOnlyDispatches | log4j-core/src/main/java/org/apache/logging/log4j/core/async/AsyncLoggerConfig.java:106-107 | on the consumer thread `log` only dispatches, with the given predicate or `IS_ASYNC_CONFIG`, and never enqueues |
| AsyncLoggerConfigs.NestedEntryOnlyDispatches | log4j-core/src/main/java/org/apache/logging/log4j/core/async/AsyncLoggerConfig.java:127-129 | on a nested entry `log` only dispatches, with the given predicate or `NOT_ASYNC_CONFIG`, and never enqueues |
| AsyncLoggerConfigs.QueueFullNeverEnqueues | log4j-core/src/main/java/org/apache/logging/log4j/core/async/AsyncLoggerConfig.java:138-148 | a full queue never leads to another `tryEnqueue` call (an `Enqueue` route may still put the event on the queue through `enqueueEvent`, which is not an attempt): at depth > 1 the transformed event is dispatched directly to the async sinks without consulting the route; otherwise it goes to the route for the event's level |
| AsyncLoggerConfigs.FirstEntryRouting | log4j-core/src/main/java/org/apache/logging/log4j/core/async/AsyncLoggerConfig.java:112-126 | on first entry the non-async sinks are dispatched first; a filtered event or a throwing dispatch stops there; otherwise the lazy fields are captured, and unless that throws one enqueue is attempted; only a refusal that does not throw leads to the queue-full handling |
| AsyncLoggerConfigs.LogEnqueuesAtMostOnce | log4j-core/src/main/java/org/apache/logging/log4j/core/async/AsyncLoggerConfig.java:105-131 | `log` attempts at most one enqueue, and attempts one iff neither flag is set, the event is not filtered, and neither the dispatch nor the capture of the lazy fields throws |
| AsyncLoggerConfigs.ThenKeepsOnlyLastThrows | log4j-core/src/main/java/org/apache/logging/log4j/core/async/AsyncLoggerConfig.java:114-126 | putting an effect that may throw in front of a trace in which only the last effect may throw keeps that shape |
| AsyncLoggerConfigs.AnExceptionEndsTheCall | log4j-core/src/main/java/org/apache/logging/log4j/core/async/AsyncLoggerConfig.java:105-131 | no effect of `log` follows one that throws, and the call is abrupt iff some effect in its trace throws |
| AsyncLoggerConfigs.CreateLogger | log4j-core/src/main/java/org/apache/logging/log4j/core/async/AsyncLoggerConfig.java:218-247 | no configuration iff there is no name; otherwise an asynchronous configuration with the given appender references |
| AsyncLoggerConfigs.CreateRootLogger | log4j-core/src/main/java/org/apache/logging/log4j/core/async/AsyncLoggerConfig.java:261-284 | an asynchronous configuration named as the root logger, with the given appender references |
| AsyncLoggerConfigs.CreateLoggerDefaults | log4j-core/src/main/java/org/apache/logging/log4j/core/async/AsyncLoggerConfig.java:227-246 | the level defaults to ERROR when missing or unknown, and is the level whose name the trimmed attribute spells in any case otherwise (so " info " configures INFO); additivity defaults to true; location defaults to false; the name `root` becomes the root logger's empty name and any other name is kept |
| AsyncLoggerConfigs.AdditivityIsOnUnlessFalse | log4j-core/src/main/java/org/apache/logging/log4j/core/async/AsyncLoggerConfig.java:243 | additivity is on unless the attribute is "false" in any case |
| AsyncLoggerConfigs.ParseBooleanOr | log4j-core/src/main/java/org/apache/logging/log4j/core/async/AsyncLoggerConfig.java:243 | a missing attribute gives the default; with a false default the answer is true iff the attribute is "true" in any case |
| AsyncLoggerConfigs.RootFactoryIsNamedRoot | log4j-core/src/main/java/org/apache/logging/log4j/core/async/AsyncLoggerConfig.java:242 | configuring a logger named `root` gives the same configuration as the root factory |
| AsyncLoggerConfigs.FactoriesBuildAsyncConfigs | log4j-core/src/main/java/org/apache/logging/log4j/core/async/AsyncLoggerConfig.java:245-246 | both factories build configurations `IS_ASYNC_CONFIG` admits |
| AsyncLoggerConfigs.IncludeLocation | log4j-core/src/main/java/org/apache/logging/log4j/core/async/AsyncLoggerConfig.java:250-252 | true only for "true" in any case; false when absent |
| AsyncLoggerConfigs.IncludeLocationIsParseBoolean | log4j-core/src/main/java/org/apache/logging/log4j/core/async/AsyncLoggerConfig.java:250-252 | `includeLocation` is `parseBoolean` with default false: true iff the attribute upper-cases to "TRUE", so it ignores case |
| AsyncLoggerConfigs.UpperIsIdempotent | log4j-core/src/main/java/org/apache/logging/log4j/core/async/AsyncLoggerConfig.java:250-252 | upper-casing twice is upper-casing once |
| Levels.ToLevel | log4j-core/src/main/java/org/apache/logging/log4j/core/async/AsyncLoggerConfig.java:233-241 | `Level.toLevel`: no name gives the default; a level other than the default is the one whose name is the trimmed, upper-cased attribute; conversely a name that trims and upper-cases to a level's name gives that level; an unknown name gives the default |
| Levels.ToLevelOfName | log4j-core/src/main/java/org/apache/logging/log4j/core/async/AsyncLoggerConfig.java:233-241 | a level's own name parses back to that level |

## Left out

- Class loading, code sources and packages (`loadClass`, `getProtectionDomain`, `getPackage`,
  the context class loader) are foreign reflective calls. They are a `ClassEnv` parameter
  (a lookup function per loader) and fields of a class reference. Only the location
  string slicing of `toCacheEntry` is modelled as the source computes it. Exceptions
  from the code-source lookup are not modelled.
- `StackLocatorUtil.getCurrentStackTrace()` is an input, the caller stack given to the
  constructor.
- ThrowableProxies.SuppressedProxy: every suppressed-exception proxy, at every depth, uses
  the one caller stack `ClassEnv.currentStack`. The source takes the current stack afresh
  in each such constructor; the model assumes these stacks are the same.
- Each `TextRenderer` call is modelled as plain string append. How one extended frame
  renders itself (`ExtendedStackTraceElement.renderOn`) is an uninterpreted function in the
  rendering style.
- `getSuppressedStackTrace`, `getExtendedStackTraceAsString` and the other convenience
  overloads are not modelled. They delegate to the modelled methods with default arguments.
- ThrowableProxies.ToSuppressedProxies: the catch of an exception thrown by
  `getSuppressed` (which returns null after a status log) is not modelled, because a graph
  node's suppressed list always exists.
- ProxyFormat.FormatWrapper: the source checks that the cause's cause proxy has a non-null
  throwable. A proxy always has a throwable in the model, so this is modelled as "has a
  cause proxy".
- Serialisation (`writeObject` in both classes), the Jackson no-argument constructor,
  `hashCode`, `getLocalizedMessage`, `getName`, `getMessage` and `getStackTrace` are not
  modelled. The getters only return fields.
- Clocks (`initTime`, `MutableInstant`, `getTimeMillis`) are not modelled. The nano time
  `setValues` stores is an input.
- `createMemento`, `toImmutable` and `initializeBuilder` depend on `Log4jLogEvent.Builder`,
  which is not part of this model.
- `execute`, the plain getters and setters, and the `CharSequence` methods of
  `RingBufferLogEvent` are not modelled.
- `StringBuilders.trimToMaxSize` in `clear()` is not part of this model. The model
  keeps the buffer's text as it is; nothing else in `clear()` empties it.
- RingBufferEvents.RingBufferLogEvent.SetMessage: `makeMessageImmutable` is defined outside
  the three classes; a null message is modelled as staying null, and any other message
  as its immutable form.
- RingBufferEvents.NullMessageShowsStaleText records what the code does for a null
  message after a reusable one: the slot still shows the earlier text.
- `parameterCount` is a Java `short`. It is modelled as a `nat`, so a count above 32767
  does not wrap to a negative number.
- ThrowableProxies.ThrowableProxy.Equals: the class test `getClass() != obj.getClass()` is
  modelled as "is a `ThrowableProxy`", because no subclass is part of this model.
- AsyncLoggerConfigs.AsyncLoggerConfig.Log: only the recorded effects (`super.log`, the
  lazy-field capture, `tryEnqueue`, the queue-full route) may throw. The filter,
  `AsyncQueueFullMessageUtil.transform` and the event builder are taken not to throw.
- RingBufferEvents.RingBufferLogEvent.SetMessage: `makeMessageImmutable` and the
  reusable message's `formatTo` are given as the message's immutable form and its text.
  Neither is defined here.
- RingBufferEvents.RingBufferLogEvent.ForEachParameter requires `parameterCount` to be
  within the array. The source would throw an index exception otherwise, and that case
  is not modelled.
- RingBufferEvents.RingBufferLogEvent.Memento: `String.valueOf` on the buffer is the
  buffer's text, or "null" without one.
- The Disruptor queue, `delegate.tryEnqueue`, `enqueueEvent`/`logInBackgroundThread`, the
  consumer thread, and `EventRoute.logMessage` are recorded as actions. The queue's answer,
  the route per level, the filter and `AsyncQueueFullMessageUtil.transform` are functions
  of an `Environment` input.
- `start`, `stop`, `createRingBufferAdmin`, `displayName`, `callAppenders`, the
  `StatusLogger` messages and the constructor's delegate wiring are not modelled.
- A configuration has no filter, properties or configuration fields. Appender references
  are names.
- `Level.toLevel`, `Booleans.parseBoolean`, `LoggerConfig.ROOT` (`"root"`) and
  `LogManager.ROOT_LOGGER_NAME` (`""`) are defined outside the three classes. They are
  modelled from their documented behaviour.
- Levels.ToLevel: the registry holds the eight standard levels only. Custom levels
  registered with `Level.forName`, which `Level.toLevel` also finds, are not modelled.
- Text.EqualsIgnoreCase and Text.ToUpperAscii fold ASCII letters only. Java's
  `equalsIgnoreCase` and `toUpperCase` also fold other alphabets.
- The `initialize()` call at the start of `toExtendedStackTrace` is not modelled. It does
  nothing in every context the method is called from: the proxy under construction has no
  initialisation data.
- The `causeVisited` set never contains the top throwable. A cause cycle that returns to
  the top throwable therefore shows it once more as a cause before the chain stops. The
  model follows the code.
