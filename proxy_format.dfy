/**
 * The plain-text rendering of ThrowableProxy snapshots: trace lines with runs of
 * ignored frames collapsed, the "... N more" line, suppressed and cause sections, and
 * the "Wrapped by:" layout that lists the deepest cause first.
 */
module ProxyFormat {
  import opened Wrappers
  import opened Text
  import opened Throwables
  import opened StackResolution
  import opened ThrowableProxies

  /**
   * The plain text renderer's parameters: how one extended frame renders (the frame's
   * own rendering is not part of this model), the per-line suffix and the line separator.
   */
  datatype Style = Style(renderFrame: ExtendedFrame -> string, suffix: string, lineSeparator: string)

  /** `renderSuffix`: a space and the suffix, or nothing for an empty suffix. */
  function RenderSuffix(suffix: string): (r: string)
    ensures suffix == [] ==> r == []
    ensures suffix != [] ==> |r| == |suffix| + 1 && r[0] == ' ' && r[1..] == suffix
  {
    if suffix == [] then [] else " " + suffix
  }

  /** One frame as the filter sees it: kept (with its extended frame) or dropped as ignored. */
  datatype Mark = Keep(frame: ExtendedFrame) | Drop

  /** The lines `formatElements` writes. */
  datatype Line =
    | Entry(frame: ExtendedFrame)  // "\tat <frame>"
    | Skipped(count: nat)          // a run of ignored frames
    | More(count: nat)             // "\t... N more"

  /** With a null or empty package list nothing is filtered. */
  predicate NoFilter(ignorePackages: Option<seq<string>>) {
    ignorePackages.None? || ignorePackages.value == []
  }

  function MarkOf(className: string, frame: ExtendedFrame, ignorePackages: Option<seq<string>>): Mark {
    if IgnoreElement(className, ignorePackages) then Drop else Keep(frame)
  }

  /** Frame `i` is judged by the class name of the plain trace's frame `i`. */
  function Marks(causedTrace: seq<Frame>, ext: seq<ExtendedFrame>, ignorePackages: Option<seq<string>>)
    : (m: seq<Mark>)
    requires |ext| <= |causedTrace|
    ensures |m| == |ext|
  {
    seq(|ext|, i requires 0 <= i < |ext| => MarkOf(causedTrace[i].className, ext[i], ignorePackages))
  }

  /** One more frame for the lines so far: a kept frame is an entry line; a dropped frame
   * extends a run line that ends the lines, or starts a run of one. */
  function Push(lines: seq<Line>, m: Mark): seq<Line> {
    match m
    case Keep(e) => lines + [Entry(e)]
    case Drop =>
      if lines != [] && lines[|lines| - 1].Skipped? then lines[..|lines| - 1] + [Skipped(lines[|lines| - 1].count + 1)]
      else lines + [Skipped(1)]
  }

  /** The reference grouping: the frames pushed one by one. */
  function Group(marks: seq<Mark>): seq<Line>
  {
    if marks == [] then [] else Push(Group(marks[..|marks| - 1]), marks[|marks| - 1])
  }

  lemma GroupSnoc(marks: seq<Mark>, m: Mark)
    ensures Group(marks + [m]) == Push(Group(marks), m)
  {
    assert (marks + [m])[..|marks|] == marks;
  }

  function Drops(n: nat): (m: seq<Mark>)
    ensures |m| == n && forall i :: 0 <= i < n ==> m[i] == Drop
  {
    if n == 0 then [] else Drops(n - 1) + [Drop]
  }

  /** The frames one line stands for. */
  function LineMarks(line: Line): seq<Mark> {
    match line
    case Entry(e) => [Keep(e)]
    case Skipped(n) => Drops(n)
    case More(_) => []
  }

  /** The frames the lines stand for. */
  function Expand(lines: seq<Line>): seq<Mark>
  {
    if lines == [] then [] else Expand(lines[..|lines| - 1]) + LineMarks(lines[|lines| - 1])
  }

  lemma ExpandSnoc(lines: seq<Line>, line: Line)
    ensures Expand(lines + [line]) == Expand(lines) + LineMarks(line)
  {
    assert (lines + [line])[..|lines|] == lines;
  }

  /** Every run is one line of at least one frame, and no two run lines are adjacent. */
  predicate Canonical(lines: seq<Line>) {
    (forall i :: 0 <= i < |lines| ==> !lines[i].More? && (lines[i].Skipped? ==> lines[i].count >= 1)) &&
    (forall i :: 0 <= i < |lines| - 1 ==> !(lines[i].Skipped? && lines[i + 1].Skipped?))
  }

  /** Pushing a frame adds exactly that frame to what the lines stand for. */
  lemma PushIsLossless(lines: seq<Line>, m: Mark)
    ensures Expand(Push(lines, m)) == Expand(lines) + [m]
  {
    match m
    case Keep(e) =>
      ExpandSnoc(lines, Entry(e));
    case Drop =>
      if lines != [] && lines[|lines| - 1].Skipped? {
        var k := lines[|lines| - 1].count;
        var body := lines[..|lines| - 1];
        assert lines == body + [Skipped(k)];
        ExpandSnoc(body, Skipped(k));
        ExpandSnoc(body, Skipped(k + 1));
        assert Expand(body) + Drops(k + 1) == (Expand(body) + Drops(k)) + [Drop];
      } else {
        ExpandSnoc(lines, Skipped(1));
      }
  }

  /** The grouping loses nothing: expanding its lines gives back the frames. */
  lemma {:induction false} GroupIsLossless(marks: seq<Mark>)
    ensures Expand(Group(marks)) == marks
    decreases |marks|
  {
    if marks != [] {
      var front, last := marks[..|marks| - 1], marks[|marks| - 1];
      assert marks == front + [last];
      GroupIsLossless(front);
      GroupSnoc(front, last);
      PushIsLossless(Group(front), last);
    }
  }

  /** Pushing a frame onto canonical lines keeps them canonical. */
  lemma PushIsCanonical(lines: seq<Line>, m: Mark)
    requires Canonical(lines)
    ensures Canonical(Push(lines, m))
  {
    if m.Drop? && lines != [] && lines[|lines| - 1].Skipped? {
      var body := lines[..|lines| - 1];
      var r := Push(lines, m);
      assert r == body + [Skipped(lines[|lines| - 1].count + 1)];
      forall i | 0 <= i < |r| - 1
        ensures !(r[i].Skipped? && r[i + 1].Skipped?)
      {
        assert r[i] == lines[i];
        if i + 1 < |body| {
          assert r[i + 1] == lines[i + 1];
        }
      }
    }
  }

  /** The grouping collapses each maximal run of ignored frames into exactly one line. */
  lemma {:induction false} GroupIsCanonical(marks: seq<Mark>)
    ensures Canonical(Group(marks))
    decreases |marks|
  {
    if marks != [] {
      GroupIsCanonical(marks[..|marks| - 1]);
      PushIsCanonical(Group(marks[..|marks| - 1]), marks[|marks| - 1]);
    }
  }

  /** The last frame of non-empty lines and the lines for the frames before it. */
  function Pop(lines: seq<Line>): (seq<Line>, Mark)
    requires lines != []
  {
    var init := lines[..|lines| - 1];
    match lines[|lines| - 1]
    case Entry(e) => (init, Keep(e))
    case Skipped(n) => if n > 1 then (init + [Skipped(n - 1)], Drop) else (init, Drop)
    case More(_) => (init, Drop)
  }

  /** On canonical lines, pushing the popped frame back gives the lines again. */
  lemma PopThenPush(lines: seq<Line>)
    requires Canonical(lines) && lines != []
    ensures Push(Pop(lines).0, Pop(lines).1) == lines
  {
    var init, last := lines[..|lines| - 1], lines[|lines| - 1];
    assert lines == init + [last];
    if last.Skipped? && last.count > 1 {
      var shorter := init + [Skipped(last.count - 1)];
      assert shorter[..|shorter| - 1] == init;
    } else if last.Skipped? && init != [] {
      assert init[|init| - 1] == lines[|lines| - 2];
    }
  }

  /** Popping a frame off canonical lines leaves canonical lines. */
  lemma PopIsCanonical(lines: seq<Line>)
    requires Canonical(lines) && lines != []
    ensures Canonical(Pop(lines).0)
  {
    var init, last := lines[..|lines| - 1], lines[|lines| - 1];
    assert Canonical(init) by {
      forall i | 0 <= i < |init| ensures init[i] == lines[i] { }
    }
    if last.Skipped? && last.count > 1 {
      var shorter := init + [Skipped(last.count - 1)];
      forall i | 0 <= i < |shorter| - 1
        ensures !(shorter[i].Skipped? && shorter[i + 1].Skipped?)
      {
        assert shorter[i] == lines[i];
        if i + 1 < |init| {
          assert shorter[i + 1] == lines[i + 1];
        }
      }
    }
  }

  /** The grouping is the only canonical one: any lossless canonical grouping equals it. */
  lemma {:induction false} GroupIsUnique(lines: seq<Line>, marks: seq<Mark>)
    requires Canonical(lines) && Expand(lines) == marks
    ensures lines == Group(marks)
    decreases |marks|
  {
    if lines == [] {
      assert marks == [];
    } else {
      var (rest, m) := Pop(lines);
      PopThenPush(lines);
      PopIsCanonical(lines);
      PushIsLossless(rest, m);
      GroupIsUnique(rest, Expand(rest));
      GroupSnoc(Expand(rest), m);
    }
  }

  /** The proxy and all the proxies below it have an extended trace no longer than their plain trace. */
  ghost predicate Consistent(p: Proxy)
    decreases p
  {
    |p.extendedStackTrace| <= |p.stackTrace| &&
    (p.causeProxy.Some? ==> Consistent(p.causeProxy.value)) &&
    forall k :: 0 <= k < |p.suppressedProxies| ==> Consistent(p.suppressedProxies[k])
  }

  /** Snapshots built from a throwable graph are consistent. */
  lemma {:induction false} MirrorsIsConsistent(g: Graph, p: Proxy)
    requires Mirrors(g, p)
    ensures Consistent(p)
    decreases p
  {
    if p.causeProxy.Some? {
      MirrorsIsConsistent(g, p.causeProxy.value);
    }
    forall k | 0 <= k < |p.suppressedProxies|
      ensures Consistent(p.suppressedProxies[k])
    {
      assert p.suppressedProxies[k] in p.suppressedProxies;
      MirrorsIsConsistent(g, p.suppressedProxies[k]);
    }
  }

  /** The suffix and the line separator that close every trace line. */
  function LineEnd(style: Style): string {
    RenderSuffix(style.suffix) + style.lineSeparator
  }

  /** `formatEntry`: the prefix, a tab, "at ", the rendered frame, then the line end. */
  function EntryText(frame: ExtendedFrame, prefix: string, style: Style): (r: string)
    ensures StartsWith(r, prefix + "\tat ")
    ensures |r| == |prefix| + 4 + |style.renderFrame(frame)| + |LineEnd(style)|
    ensures r[|prefix| + 4 .. |r| - |LineEnd(style)|] == style.renderFrame(frame)
    ensures r[|r| - |LineEnd(style)|..] == LineEnd(style)
  {
    var r := prefix + "\tat " + style.renderFrame(frame) + LineEnd(style);
    assert r[..|prefix| + 4] == prefix + "\tat ";
    r
  }

  /**
   * `appendSuppressedCount`: a run of one ignored frame is a bare "\t... "; a longer run
   * prints "\t... suppressed N lines", whose digits read back as the run's length.
   */
  function SuppressedCountText(count: nat, prefix: string, style: Style): (r: string)
    ensures StartsWith(r, prefix + "\t... ")
    ensures count == 1 ==> r[|prefix| + 5..] == LineEnd(style)
    ensures count != 1 ==>
      var n, d := |prefix| + 16, |NatToString(count)|;
      StartsWith(r, prefix + "\t... suppressed ") && n + d <= |r| &&
      (forall i :: n <= i < n + d ==> IsDigit(r[i])) && DigitsValue(r[n..n + d]) == count &&
      r[n + d..] == " lines" + LineEnd(style)
  {
    if count == 1 then
      Slices3(prefix + "\t... ", [], LineEnd(style));
      prefix + "\t... " + [] + LineEnd(style)
    else
      var head, digits, tail := prefix + "\t... suppressed ", NatToString(count), " lines" + LineEnd(style);
      NatToStringRoundTrip(count);
      Slices3(head, digits, tail);
      assert head[..|prefix| + 5] == prefix + "\t... ";
      head + digits + tail
  }

  /** The closing "\t... N more" line of `formatElements`; its digits read back as the count. */
  function MoreText(count: nat, prefix: string, style: Style): (r: string)
    ensures StartsWith(r, prefix + "\t... ")
    ensures var n, d := |prefix| + 5, |NatToString(count)|;
      n + d <= |r| && (forall i :: n <= i < n + d ==> IsDigit(r[i])) && DigitsValue(r[n..n + d]) == count &&
      r[n + d..] == " more" + LineEnd(style)
  {
    var head, digits, tail := prefix + "\t... ", NatToString(count), " more" + LineEnd(style);
    NatToStringRoundTrip(count);
    Slices3(head, digits, tail);
    head + digits + tail
  }

  function LineText(line: Line, prefix: string, style: Style): string {
    match line
    case Entry(f) => EntryText(f, prefix, style)
    case Skipped(n) => SuppressedCountText(n, prefix, style)
    case More(n) => MoreText(n, prefix, style)
  }

  /** Where the kinds of line differ: the character after the tab, the length, the one after "\t... ". */
  lemma LineTextShape(line: Line, prefix: string, style: Style)
    ensures var r, p := LineText(line, prefix, style), |prefix|;
      p + 2 <= |r| && r[p + 1] == (if line.Entry? then 'a' else '.')
    ensures var r, p := LineText(line, prefix, style), |prefix|;
      match line
      case Entry(_) => true
      case Skipped(n) =>
        if n == 1 then |r| == p + 5 + |LineEnd(style)|
        else |r| == p + 22 + |NatToString(n)| + |LineEnd(style)| && r[p + 5] == 's'
      case More(n) => |r| == p + 10 + |NatToString(n)| + |LineEnd(style)| && IsDigit(r[p + 5])
  {
    var r, p := LineText(line, prefix, style), |prefix|;
    match line
    case Entry(_) =>
      assert r[..p + 4] == prefix + "\tat ";
      assert r[p + 1] == (prefix + "\tat ")[p + 1];
    case Skipped(n) =>
      assert r[..p + 5] == prefix + "\t... ";
      assert r[p + 1] == (prefix + "\t... ")[p + 1];
      if n != 1 {
        assert r[..p + 16] == prefix + "\t... suppressed ";
        assert r[p + 5] == (prefix + "\t... suppressed ")[p + 5];
        var d := |NatToString(n)|;
        assert |r[p + 16 + d..]| == |" lines" + LineEnd(style)|;
      } else {
        assert |r[p + 5..]| == |LineEnd(style)|;
      }
    case More(n) =>
      assert r[..p + 5] == prefix + "\t... ";
      assert r[p + 1] == (prefix + "\t... ")[p + 1];
      var d := |NatToString(n)|;
      assert IsDigit(r[p + 5]);
      assert |r[p + 5 + d..]| == |" more" + LineEnd(style)|;
  }

  /**
   * A rendered line gives its line back: an entry is told from a count line, an entry's
   * text holds its frame's rendering, and a count line's digits fix the count.
   */
  lemma LineTextDeterminesLine(a: Line, b: Line, prefix: string, style: Style)
    requires LineText(a, prefix, style) == LineText(b, prefix, style)
    ensures a.Entry? <==> b.Entry?
    ensures a.Entry? && b.Entry? ==> style.renderFrame(a.frame) == style.renderFrame(b.frame)
    ensures !a.Entry? ==> a == b
  {
    LineTextShape(a, prefix, style);
    LineTextShape(b, prefix, style);
  }

  function RenderLines(lines: seq<Line>, prefix: string, style: Style): string {
    if lines == [] then []
    else RenderLines(lines[..|lines| - 1], prefix, style) + LineText(lines[|lines| - 1], prefix, style)
  }

  function Entries(ext: seq<ExtendedFrame>): (lines: seq<Line>)
    ensures |lines| == |ext| && forall i :: 0 <= i < |ext| ==> lines[i] == Entry(ext[i])
  {
    seq(|ext|, i requires 0 <= i < |ext| => Entry(ext[i]))
  }

  /**
   * The lines of `formatElements`: every frame when nothing is filtered, the grouping of
   * kept and ignored frames otherwise, and the "... N more" line when frames were common.
   */
  function ElementLines(commonCount: nat, causedTrace: seq<Frame>, ext: seq<ExtendedFrame>,
                        ignorePackages: Option<seq<string>>): seq<Line>
    requires NoFilter(ignorePackages) || |ext| <= |causedTrace|
  {
    (if NoFilter(ignorePackages) then Entries(ext) else Group(Marks(causedTrace, ext, ignorePackages))) +
    (if commonCount != 0 then [More(commonCount)] else [])
  }

  /**
   * What `formatElements` promises: the frame lines are the canonical grouping of the
   * trace, so every kept frame appears once and in order and every maximal run of ignored
   * frames is one line; without a filter that grouping is one entry per frame; and the
   * "... N more" line is present exactly when `commonCount != 0`, as the last line.
   */
  lemma ElementLinesFacts(commonCount: nat, causedTrace: seq<Frame>, ext: seq<ExtendedFrame>,
                          ignorePackages: Option<seq<string>>)
    requires |ext| <= |causedTrace|
    ensures var lines := ElementLines(commonCount, causedTrace, ext, ignorePackages);
      var body := if commonCount != 0 then lines[..|lines| - 1] else lines;
      var marks := Marks(causedTrace, ext, ignorePackages);
      body == Group(marks) && Canonical(body) && Expand(body) == marks &&
      (NoFilter(ignorePackages) ==> body == Entries(ext)) &&
      (commonCount != 0 <==> lines != [] && lines[|lines| - 1] == More(commonCount)) &&
      (forall i :: 0 <= i < |body| ==> !body[i].More?)
  {
    var marks := Marks(causedTrace, ext, ignorePackages);
    GroupIsCanonical(marks);
    GroupIsLossless(marks);
    if NoFilter(ignorePackages) {
      EntriesAreUnfilteredGroup(causedTrace, ext, ignorePackages);
    }
    var lines := ElementLines(commonCount, causedTrace, ext, ignorePackages);
    if commonCount != 0 {
      assert lines[..|lines| - 1] == if NoFilter(ignorePackages) then Entries(ext) else Group(marks);
    } else {
      assert lines == if NoFilter(ignorePackages) then Entries(ext) else Group(marks);
    }
  }

  /** With no filter, the one-entry-per-frame path is the grouping of an all-kept trace. */
  lemma EntriesAreUnfilteredGroup(causedTrace: seq<Frame>, ext: seq<ExtendedFrame>,
                                  ignorePackages: Option<seq<string>>)
    requires |ext| <= |causedTrace| && NoFilter(ignorePackages)
    ensures Entries(ext) == Group(Marks(causedTrace, ext, ignorePackages))
  {
    var marks := Marks(causedTrace, ext, ignorePackages);
    ExpandEntries(ext);
    forall i | 0 <= i < |ext| ensures marks[i] == Keep(ext[i]) {
      assert !IgnoreElement(causedTrace[i].className, ignorePackages);
    }
    GroupIsUnique(Entries(ext), marks);
  }

  lemma {:induction false} ExpandEntries(ext: seq<ExtendedFrame>)
    ensures var m := Expand(Entries(ext)); |m| == |ext| && forall i :: 0 <= i < |ext| ==> m[i] == Keep(ext[i])
    decreases |ext|
  {
    if ext != [] {
      var front := ext[..|ext| - 1];
      ExpandEntries(front);
      assert Entries(ext)[..|ext| - 1] == Entries(front);
    }
  }

  /** The text `formatElements` appends. */
  function ElementsText(prefix: string, commonCount: nat, causedTrace: seq<Frame>, ext: seq<ExtendedFrame>,
                        ignorePackages: Option<seq<string>>, style: Style): string
    requires NoFilter(ignorePackages) || |ext| <= |causedTrace|
  {
    RenderLines(ElementLines(commonCount, causedTrace, ext, ignorePackages), prefix, style)
  }

  lemma RenderLinesSnoc(lines: seq<Line>, line: Line, prefix: string, style: Style)
    ensures RenderLines(lines + [line], prefix, style) == RenderLines(lines, prefix, style) + LineText(line, prefix, style)
  {
    assert (lines + [line])[..|lines|] == lines;
  }

  /** Appending one line to text already holding some lines. */
  lemma AppendLine(sb: string, lines: seq<Line>, line: Line, prefix: string, style: Style)
    ensures sb + RenderLines(lines, prefix, style) + LineText(line, prefix, style) ==
            sb + RenderLines(lines + [line], prefix, style)
  {
    RenderLinesSnoc(lines, line, prefix, style);
    var x, y := RenderLines(lines, prefix, style), LineText(line, prefix, style);
    assert sb + x + y == sb + (x + y);
  }

  /** Appends one rendered line (`formatEntry`, `appendSuppressedCount` or the "more" line). */
  method WriteLine(out0: string, ghost sb: string, ghost lines: seq<Line>, line: Line, prefix: string, style: Style)
    returns (out: string)
    requires out0 == sb + RenderLines(lines, prefix, style)
    ensures out == sb + RenderLines(lines + [line], prefix, style)
  {
    AppendLine(sb, lines, line, prefix, style);
    out := out0 + LineText(line, prefix, style);
  }

  /** `formatElements` without a filter: one entry line per extended frame. */
  method FormatEntries(sb: string, prefix: string, ext: seq<ExtendedFrame>, style: Style) returns (out: string)
    ensures out == sb + RenderLines(Entries(ext), prefix, style)
  {
    out := sb;
    ghost var written: seq<Line> := [];
    for i := 0 to |ext|
      invariant |written| == i && forall k :: 0 <= k < i ==> written[k] == Entry(ext[k])
      invariant out == sb + RenderLines(written, prefix, style)
    {
      out := WriteLine(out, sb, written, Entry(ext[i]), prefix, style);
      written := written + [Entry(ext[i])];
    }
    assert written == Entries(ext);
  }

  /** The lines already written plus the run still being counted. */
  function Flushed(emitted: seq<Line>, count: nat): seq<Line> {
    emitted + if count > 0 then [Skipped(count)] else []
  }

  /**
   * The filtered pass read left to right from frame `i`, with the lines written so far
   * and the length of the run of ignored frames not yet written.
   */
  function Scan(marks: seq<Mark>, i: nat, emitted: seq<Line>, count: nat): seq<Line>
    requires i <= |marks|
    decreases |marks| - i
  {
    if i == |marks| then Flushed(emitted, count)
    else match marks[i]
      case Keep(e) => Scan(marks, i + 1, Flushed(emitted, count) + [Entry(e)], 0)
      case Drop => Scan(marks, i + 1, emitted, count + 1)
  }

  /** One step of the scan, seen on the grouping of the frames read so far. */
  lemma GroupStep(marks: seq<Mark>, i: nat, emitted: seq<Line>, count: nat)
    requires i < |marks|
    requires Group(marks[..i]) == Flushed(emitted, count)
    requires emitted == [] || emitted[|emitted| - 1].Entry?
    ensures marks[i].Keep? ==> Group(marks[..i + 1]) == Flushed(emitted, count) + [Entry(marks[i].frame)]
    ensures marks[i].Drop? ==> Group(marks[..i + 1]) == Flushed(emitted, count + 1)
  {
    assert marks[..i + 1][..i] == marks[..i];
    if marks[i].Drop? && count > 0 {
      var g := emitted + [Skipped(count)];
      assert g[..|g| - 1] == emitted;
    }
  }

  /** The scan from any consistent midpoint ends in the grouping of the whole trace. */
  lemma {:induction false} ScanIsGroup(marks: seq<Mark>, i: nat, emitted: seq<Line>, count: nat)
    requires i <= |marks|
    requires Group(marks[..i]) == Flushed(emitted, count)
    requires emitted == [] || emitted[|emitted| - 1].Entry?
    ensures Scan(marks, i, emitted, count) == Group(marks)
    decreases |marks| - i
  {
    if i == |marks| {
      assert marks[..i] == marks;
    } else {
      GroupStep(marks, i, emitted, count);
      match marks[i]
      case Keep(e) =>
        var next := Flushed(emitted, count) + [Entry(e)];
        assert Flushed(next, 0) == next;
        ScanIsGroup(marks, i + 1, next, 0);
      case Drop =>
        ScanIsGroup(marks, i + 1, emitted, count + 1);
    }
  }

  /**
   * `formatElements` with a filter: a counter of ignored frames, flushed as one line
   * before the next kept frame and at the end, yields exactly the grouping.
   */
  method FormatFiltered(sb: string, prefix: string, causedTrace: seq<Frame>, ext: seq<ExtendedFrame>,
                        ignorePackages: Option<seq<string>>, style: Style)
    returns (out: string)
    requires |ext| <= |causedTrace|
    ensures out == sb + RenderLines(Group(Marks(causedTrace, ext, ignorePackages)), prefix, style)
  {
    out := sb;
    ghost var marks := Marks(causedTrace, ext, ignorePackages);
    ghost var emitted: seq<Line> := [];
    var count: nat := 0;
    assert marks[..0] == [];
    ScanIsGroup(marks, 0, [], 0);
    for i := 0 to |ext|
      invariant out == sb + RenderLines(emitted, prefix, style)
      invariant Scan(marks, i, emitted, count) == Group(marks)
    {
      out, emitted, count := FilterStep(out, sb, marks, emitted, count, i, causedTrace, ext, ignorePackages, prefix, style);
    }
    out, emitted := FlushRun(out, sb, emitted, count, prefix, style);
  }

  /**
   * One iteration of the filtered loop: a kept frame flushes the pending run and writes
   * its entry; an ignored frame lengthens the run. Either way the scan goes on unchanged.
   */
  method FilterStep(out0: string, ghost sb: string, ghost marks: seq<Mark>, ghost emitted: seq<Line>, count: nat,
                    i: nat, causedTrace: seq<Frame>, ext: seq<ExtendedFrame>, ignorePackages: Option<seq<string>>,
                    prefix: string, style: Style)
    returns (out: string, ghost emitted': seq<Line>, count': nat)
    requires i < |ext| <= |causedTrace| && marks == Marks(causedTrace, ext, ignorePackages)
    requires out0 == sb + RenderLines(emitted, prefix, style)
    ensures out == sb + RenderLines(emitted', prefix, style)
    ensures Scan(marks, i + 1, emitted', count') == Scan(marks, i, emitted, count)
  {
    var ignored := IgnoreElement(causedTrace[i].className, ignorePackages);
    assert marks[i] == if ignored then Drop else Keep(ext[i]);
    if !ignored {
      out, emitted' := FlushRun(out0, sb, emitted, count, prefix, style);
      out := WriteLine(out, sb, emitted', Entry(ext[i]), prefix, style);
      emitted', count' := emitted' + [Entry(ext[i])], 0;
    } else {
      out, emitted', count' := out0, emitted, count + 1;
    }
  }

  /** `if (count > 0) appendSuppressedCount(...)`: writes the pending run of ignored frames. */
  method FlushRun(out0: string, ghost sb: string, ghost emitted: seq<Line>, count: nat, prefix: string, style: Style)
    returns (out: string, ghost emitted': seq<Line>)
    requires out0 == sb + RenderLines(emitted, prefix, style)
    ensures emitted' == Flushed(emitted, count)
    ensures out == sb + RenderLines(emitted', prefix, style)
  {
    if count > 0 {
      out := WriteLine(out0, sb, emitted, Skipped(count), prefix, style);
      emitted' := emitted + [Skipped(count)];
    } else {
      out, emitted' := out0, emitted;
      assert Flushed(emitted, 0) == emitted;
    }
  }

  /** `formatElements`: the frame lines, then the "... N more" line when frames were common. */
  method FormatElements(sb: string, prefix: string, commonCount: nat, causedTrace: seq<Frame>,
                        ext: seq<ExtendedFrame>, ignorePackages: Option<seq<string>>, style: Style)
    returns (out: string)
    requires NoFilter(ignorePackages) || |ext| <= |causedTrace|
    ensures out == sb + ElementsText(prefix, commonCount, causedTrace, ext, ignorePackages, style)
  {
    ghost var frameLines: seq<Line>;
    if NoFilter(ignorePackages) {
      out := FormatEntries(sb, prefix, ext, style);
      frameLines := Entries(ext);
    } else {
      out := FormatFiltered(sb, prefix, causedTrace, ext, ignorePackages, style);
      frameLines := Group(Marks(causedTrace, ext, ignorePackages));
    }
    if commonCount != 0 {
      out := WriteLine(out, sb, frameLines, More(commonCount), prefix, style);
    } else {
      assert frameLines + [] == frameLines;
    }
  }

  const CausedByLabel := "Caused by: "
  const SuppressedLabel := "Suppressed: "
  const WrappedByLabel := "Wrapped by: "

  /** The first line of a section: the prefix, the causeLabel, then the proxy as `renderOn` shows it. */
  function HeaderText(prefix: string, causeLabel: string, p: Proxy, style: Style): string {
    prefix + causeLabel + Describe(p.name, p.message) + RenderSuffix(style.suffix) + style.lineSeparator
  }

  /**
   * `formatThrowableProxy`: the header, the trace with the proxy's own common frame count,
   * the suppressed proxies one tab deeper, then the cause at the same depth.
   */
  function ThrowableText(prefix: string, causeLabel: string, p: Proxy, ignorePackages: Option<seq<string>>,
                         style: Style): string
    requires Consistent(p)
    decreases p
  {
    HeaderText(prefix, causeLabel, p, style) +
    ElementsText(prefix, p.commonElementCount, p.stackTrace, p.extendedStackTrace, ignorePackages, style) +
    SuppressedText(prefix + "\t", p.suppressedProxies, ignorePackages, style) +
    if p.causeProxy.Some? then ThrowableText(prefix, CausedByLabel, p.causeProxy.value, ignorePackages, style) else []
  }

  /** `formatSuppressed`: each suppressed proxy in order, labelled "Suppressed: ". */
  function SuppressedText(prefix: string, ps: seq<Proxy>, ignorePackages: Option<seq<string>>, style: Style): string
    requires forall k :: 0 <= k < |ps| ==> Consistent(ps[k])
    decreases ps
  {
    if ps == [] then []
    else ThrowableText(prefix, SuppressedLabel, ps[0], ignorePackages, style) +
         SuppressedText(prefix, ps[1..], ignorePackages, style)
  }

  lemma Assoc<T>(a: seq<T>, b: seq<T>, c: seq<T>)
    ensures (a + b) + c == a + (b + c)
  {
  }

  /** The three parts of a concatenation, sliced back out. */
  lemma Slices3<T>(a: seq<T>, b: seq<T>, c: seq<T>)
    ensures (a + b + c)[..|a|] == a
    ensures (a + b + c)[|a|..|a| + |b|] == b
    ensures (a + b + c)[|a| + |b|..] == c
  {
  }

  method FormatThrowableProxy(sb: string, prefix: string, causeLabel: string, p: Proxy,
                              ignorePackages: Option<seq<string>>, style: Style)
    returns (out: string)
    requires Consistent(p)
    ensures out == sb + ThrowableText(prefix, causeLabel, p, ignorePackages, style)
    decreases p
  {
    ghost var header := HeaderText(prefix, causeLabel, p, style);
    ghost var elements := ElementsText(prefix, p.commonElementCount, p.stackTrace, p.extendedStackTrace,
                                       ignorePackages, style);
    ghost var suppressed := SuppressedText(prefix + "\t", p.suppressedProxies, ignorePackages, style);
    ghost var cause: string :=
      if p.causeProxy.Some? then ThrowableText(prefix, CausedByLabel, p.causeProxy.value, ignorePackages, style) else [];
    assert ThrowableText(prefix, causeLabel, p, ignorePackages, style) == header + elements + suppressed + cause;
    out := sb + HeaderText(prefix, causeLabel, p, style);
    out := FormatElements(out, prefix, p.commonElementCount, p.stackTrace, p.extendedStackTrace, ignorePackages, style);
    out := FormatSuppressed(out, prefix + "\t", p.suppressedProxies, ignorePackages, style);
    if p.causeProxy.Some? {
      out := FormatThrowableProxy(out, prefix, CausedByLabel, p.causeProxy.value, ignorePackages, style);
    } else {
      assert out + cause == out;
    }
    Assoc(sb, header, elements);
    Assoc(sb, header + elements, suppressed);
    Assoc(sb, (header + elements) + suppressed, cause);
  }

  lemma SuppressedTextStep(prefix: string, ps: seq<Proxy>, i: nat, ignorePackages: Option<seq<string>>, style: Style)
    requires i < |ps| && forall k :: 0 <= k < |ps| ==> Consistent(ps[k])
    ensures Consistent(ps[i])
    ensures SuppressedText(prefix, ps[i..], ignorePackages, style) ==
            ThrowableText(prefix, SuppressedLabel, ps[i], ignorePackages, style) +
            SuppressedText(prefix, ps[i + 1..], ignorePackages, style)
  {
    assert ps[i..][1..] == ps[i + 1..];
  }

  method FormatSuppressed(sb: string, prefix: string, ps: seq<Proxy>, ignorePackages: Option<seq<string>>,
                          style: Style)
    returns (out: string)
    requires forall k :: 0 <= k < |ps| ==> Consistent(ps[k])
    ensures out == sb + SuppressedText(prefix, ps, ignorePackages, style)
    decreases ps
  {
    out := sb;
    for i := 0 to |ps|
      invariant out + SuppressedText(prefix, ps[i..], ignorePackages, style) ==
                sb + SuppressedText(prefix, ps, ignorePackages, style)
    {
      ghost var rest := SuppressedText(prefix, ps[i + 1..], ignorePackages, style);
      ghost var one := ThrowableText(prefix, SuppressedLabel, ps[i], ignorePackages, style);
      SuppressedTextStep(prefix, ps, i, ignorePackages, style);
      ghost var before := out;
      out := FormatThrowableProxy(out, prefix, SuppressedLabel, ps[i], ignorePackages, style);
      Assoc(before, one, rest);
    }
    assert ps[|ps|..] == [];
  }

  /** One section of the wrapper layout: the proxy, then its trace with `commonCount`. */
  function BlockText(p: Proxy, commonCount: nat, ignorePackages: Option<seq<string>>, style: Style): string
    requires Consistent(p)
  {
    Describe(p.name, p.message) + RenderSuffix(style.suffix) + style.lineSeparator +
    ElementsText("", commonCount, p.stackTrace, p.extendedStackTrace, ignorePackages, style)
  }

  /** `formatWrapper`: the cause's layout first, then "Wrapped by: " and this proxy's section. */
  function WrapperText(p: Proxy, ignorePackages: Option<seq<string>>, style: Style): string
    requires Consistent(p)
    decreases p
  {
    (if p.causeProxy.Some?
     then WrapperText(p.causeProxy.value, ignorePackages, style) + WrappedByLabel + RenderSuffix(style.suffix)
     else []) +
    BlockText(p, p.commonElementCount, ignorePackages, style)
  }

  method FormatWrapper(sb: string, p: Proxy, ignorePackages: Option<seq<string>>, style: Style)
    returns (out: string)
    requires Consistent(p)
    ensures out == sb + WrapperText(p, ignorePackages, style)
    decreases p
  {
    ghost var head: string := [];
    ghost var elements := ElementsText("", p.commonElementCount, p.stackTrace, p.extendedStackTrace,
                                       ignorePackages, style);
    out := sb;
    if p.causeProxy.Some? {
      ghost var inner := WrapperText(p.causeProxy.value, ignorePackages, style);
      out := FormatWrapper(out, p.causeProxy.value, ignorePackages, style);
      out := out + WrappedByLabel + RenderSuffix(style.suffix);
      head := inner + WrappedByLabel + RenderSuffix(style.suffix);
      Assoc(sb, inner, WrappedByLabel);
      Assoc(sb, inner + WrappedByLabel, RenderSuffix(style.suffix));
    } else {
      assert sb + head == sb;
    }
    assert out == sb + head;
    var nameLine := Describe(p.name, p.message) + RenderSuffix(style.suffix) + style.lineSeparator;
    assert WrapperText(p, ignorePackages, style) == head + (nameLine + elements);
    out := out + nameLine;
    out := FormatElements(out, "", p.commonElementCount, p.stackTrace, p.extendedStackTrace, ignorePackages, style);
    Assoc(sb, head, nameLine);
    Assoc(sb, head + nameLine, elements);
    Assoc(head, nameLine, elements);
  }

  /** A proxy followed by its cause proxies, outermost first. */
  function ChainOf(p: Proxy): (chain: seq<Proxy>)
    ensures |chain| >= 1 && chain[0] == p
    decreases p
  {
    [p] + if p.causeProxy.Some? then ChainOf(p.causeProxy.value) else []
  }

  function Reverse<T>(s: seq<T>): (r: seq<T>)
    ensures |r| == |s| && forall i :: 0 <= i < |s| ==> r[i] == s[|s| - 1 - i]
  {
    if s == [] then [] else Reverse(s[1..]) + [s[0]]
  }

  /** Sections joined by "Wrapped by: " and the suffix. */
  function JoinBlocks(ps: seq<Proxy>, ignorePackages: Option<seq<string>>, style: Style): string
    requires forall k :: 0 <= k < |ps| ==> Consistent(ps[k])
    decreases |ps|
  {
    if ps == [] then []
    else if |ps| == 1 then BlockText(ps[0], ps[0].commonElementCount, ignorePackages, style)
    else JoinBlocks(ps[..|ps| - 1], ignorePackages, style) + WrappedByLabel + RenderSuffix(style.suffix) +
         BlockText(ps[|ps| - 1], ps[|ps| - 1].commonElementCount, ignorePackages, style)
  }

  lemma {:induction false} ChainIsConsistent(p: Proxy)
    requires Consistent(p)
    ensures var chain := ChainOf(p); forall k :: 0 <= k < |chain| ==> Consistent(chain[k])
    decreases p
  {
    if p.causeProxy.Some? {
      var c := p.causeProxy.value;
      ChainIsConsistent(c);
      var chain := ChainOf(p);
      forall k | 1 <= k < |chain| ensures Consistent(chain[k]) {
        assert chain[k] == ChainOf(c)[k - 1];
      }
    }
  }

  /**
   * The wrapper layout lists the cause chain innermost first: the deepest cause's section,
   * then each wrapper up to the proxy itself, separated by "Wrapped by: ".
   */
  lemma {:induction false} WrapperListsDeepestCauseFirst(p: Proxy, ignorePackages: Option<seq<string>>, style: Style)
    requires Consistent(p)
    ensures var chain := ChainOf(p); forall k :: 0 <= k < |chain| ==> Consistent(chain[k])
    ensures WrapperText(p, ignorePackages, style) == JoinBlocks(Reverse(ChainOf(p)), ignorePackages, style)
    decreases p
  {
    ChainIsConsistent(p);
    if p.causeProxy.Some? {
      var c := p.causeProxy.value;
      WrapperListsDeepestCauseFirst(c, ignorePackages, style);
      var rc := Reverse(ChainOf(c));
      assert ChainOf(p)[1..] == ChainOf(c);
      assert Reverse(ChainOf(p)) == rc + [p];
      assert (rc + [p])[..|rc|] == rc;
    } else {
      assert ChainOf(p) == [p];
      assert Reverse(ChainOf(p)) == [p];
    }
  }

  /** How the plain text renderer writes a possibly null message. */
  function MessageOrNull(message: Option<string>): string {
    message.GetOr("null")
  }

  /**
   * `getCauseStackTraceAsString`: after initialising, the wrapper layout of the proxy
   * itself with no common frames, so the deepest cause comes first and the proxy last.
   */
  method GetCauseStackTraceAsString(tp: ThrowableProxy, env: ClassEnv, ignorePackages: Option<seq<string>>,
                                    style: Style)
    returns (s: string)
    requires tp.Valid()
    modifies tp
    ensures tp.InitializedBy(env)
    ensures Consistent(tp.Snapshot())
    ensures s == WrapperText(tp.Snapshot().(commonElementCount := 0), ignorePackages, style)
  {
    tp.Initialize(env);
    var p := tp.Snapshot();
    MirrorsIsConsistent(tp.throwable.graph, p);
    ghost var top := p.(commonElementCount := 0);
    assert Consistent(top);
    ghost var head: string := [];
    ghost var elements := ElementsText("", 0, p.stackTrace, p.extendedStackTrace, ignorePackages, style);
    s := [];
    if p.causeProxy.Some? {
      ghost var inner := WrapperText(p.causeProxy.value, ignorePackages, style);
      s := FormatWrapper(s, p.causeProxy.value, ignorePackages, style);
      s := s + WrappedByLabel + RenderSuffix(style.suffix);
      head := inner + WrappedByLabel + RenderSuffix(style.suffix);
      Assoc([], inner, WrappedByLabel);
      Assoc([], inner + WrappedByLabel, RenderSuffix(style.suffix));
      assert [] + head == head;
    }
    assert s == head;
    var nameLine := Describe(p.name, p.message) + RenderSuffix(style.suffix) + style.lineSeparator;
    assert WrapperText(top, ignorePackages, style) == head + (nameLine + elements);
    s := s + nameLine;
    s := FormatElements(s, "", 0, p.stackTrace, p.extendedStackTrace, ignorePackages, style);
    Assoc(head, nameLine, elements);
  }

  /**
   * `formatExtendedStackTraceTo`: after initialising, the proxy's section with no prefix,
   * no label and no common frames, its suppressed proxies one tab in, then its causes.
   * Unlike `renderOn`, the separator ": " is always written and a null message is
   * written as "null".
   */
  method FormatExtendedStackTraceTo(tp: ThrowableProxy, env: ClassEnv, sb: string,
                                    ignorePackages: Option<seq<string>>, style: Style)
    returns (out: string)
    requires tp.Valid()
    modifies tp
    ensures tp.InitializedBy(env)
    ensures var p := tp.Snapshot().(commonElementCount := 0, message := Some(MessageOrNull(tp.message)));
      Consistent(p) && out == sb + ThrowableText("", "", p, ignorePackages, style)
  {
    tp.Initialize(env);
    var p := tp.Snapshot();
    MirrorsIsConsistent(tp.throwable.graph, p);
    out := FormatTopProxy(sb, p, ignorePackages, style);
  }

  /** The formatting half of `formatExtendedStackTraceTo`, on the initialised proxy. */
  method FormatTopProxy(sb: string, p: Proxy, ignorePackages: Option<seq<string>>, style: Style)
    returns (out: string)
    requires Consistent(p)
    ensures var q := p.(commonElementCount := 0, message := Some(MessageOrNull(p.message)));
      Consistent(q) && out == sb + ThrowableText("", "", q, ignorePackages, style)
  {
    ghost var q := p.(commonElementCount := 0, message := Some(MessageOrNull(p.message)));
    assert Consistent(q);
    var header := p.name + ": " + MessageOrNull(p.message) + RenderSuffix(style.suffix) + style.lineSeparator;
    assert header == HeaderText("", "", q, style);
    ghost var elements := ElementsText("", 0, p.stackTrace, p.extendedStackTrace, ignorePackages, style);
    ghost var suppressed := SuppressedText("\t", p.suppressedProxies, ignorePackages, style);
    ghost var cause: string :=
      if p.causeProxy.Some? then ThrowableText("", CausedByLabel, p.causeProxy.value, ignorePackages, style) else [];
    assert "" + "\t" == "\t";
    assert ThrowableText("", "", q, ignorePackages, style) == header + elements + suppressed + cause;
    out := sb + header;
    out := FormatElements(out, "", 0, p.stackTrace, p.extendedStackTrace, ignorePackages, style);
    out := FormatSuppressed(out, "\t", p.suppressedProxies, ignorePackages, style);
    if p.causeProxy.Some? {
      out := FormatThrowableProxy(out, "", CausedByLabel, p.causeProxy.value, ignorePackages, style);
    } else {
      assert out + cause == out;
    }
    Assoc(sb, header, elements);
    Assoc(sb, header + elements, suppressed);
    Assoc(sb, (header + elements) + suppressed, cause);
  }
}
