/** The diff synthesizer: one unified-diff hunk built from the common prefix
    and common suffix of two line sequences, widened by up to three lines of
    context. The removed and added runs are bounded by the context-widened
    window minus three lines, exactly as written in the source, so when the
    common prefix and suffix together are shorter than three lines some
    changed lines are not emitted. */
module Diff {
  import opened Wrappers
  import opened Text

  /** Lines of context shown before and after the changed region. */
  const ContextLines: nat := 3

  function Min(x: int, y: int): int { if x <= y then x else y }
  function Max(x: int, y: int): int { if x >= y then x else y }

  /** The line sequence of a text: `""` has no lines; otherwise the text is
      split at every line feed, so a final line feed yields a final empty line. */
  function Lines(content: string): (lines: seq<string>)
    ensures content == "" <==> lines == []
    ensures forall i :: 0 <= i < |lines| ==> '\n' !in lines[i]
    ensures content != "" ==> Join(lines, '\n') == content
    ensures content != "" ==> |lines| == CountChar(content, '\n') + 1
  {
    if content == "" then []
    else
      JoinSplit(content, '\n');
      SplitLength(content, '\n');
      Split(content, '\n')
  }

  /** Different texts have different line sequences. */
  lemma LinesInjective(x: string, y: string)
    requires Lines(x) == Lines(y)
    ensures x == y
  {
  }

  /** Number of leading lines the two sequences share. */
  function PrefixLen(a: seq<string>, b: seq<string>): (p: nat)
    ensures p <= |a| && p <= |b|
    ensures a[..p] == b[..p]
    ensures p < |a| && p < |b| ==> a[p] != b[p]
  {
    if |a| == 0 || |b| == 0 || a[0] != b[0] then 0
    else
      var p := 1 + PrefixLen(a[1..], b[1..]);
      assert a[..p] == [a[0]] + a[1..][..p - 1];
      assert b[..p] == [b[0]] + b[1..][..p - 1];
      p
  }

  /** Number of trailing lines the two sequences share, at most `bound`. */
  function SuffixLen(a: seq<string>, b: seq<string>, bound: nat): (s: nat)
    requires bound <= |a| && bound <= |b|
    ensures s <= bound
    ensures a[|a| - s..] == b[|b| - s..]
    ensures s < bound ==> a[|a| - 1 - s] != b[|b| - 1 - s]
  {
    if bound == 0 || a[|a| - 1] != b[|b| - 1] then 0
    else
      var s := 1 + SuffixLen(a[..|a| - 1], b[..|b| - 1], bound - 1);
      SuffixOfInit(a, s);
      SuffixOfInit(b, s);
      s
  }

  /** The last `k` elements are the last `k - 1` elements of all but the last
      element, followed by the last element. */
  lemma SuffixOfInit<T>(a: seq<T>, k: nat)
    requires 1 <= k <= |a|
    ensures a[|a| - k..] == a[..|a| - 1][|a| - 1 - (k - 1)..] + [a[|a| - 1]]
  {
  }

  /** The last `k + 1` elements are one more element before the last `k`. */
  lemma SuffixCons<T>(a: seq<T>, k: nat)
    requires k < |a|
    ensures a[|a| - (k + 1)..] == [a[|a| - 1 - k]] + a[|a| - k..]
  {
  }

  /** A common prefix that cannot be extended is the longest one. */
  lemma PrefixLenUnique(a: seq<string>, b: seq<string>, p: nat)
    requires p <= |a| && p <= |b| && a[..p] == b[..p]
    requires p == |a| || p == |b| || a[p] != b[p]
    ensures p == PrefixLen(a, b)
  {
    var q := PrefixLen(a, b);
    if p < q {
      assert false;
    } else if q < p {
      assert false;
    }
  }

  /** A bounded common suffix that cannot be extended is the longest one. */
  lemma SuffixLenUnique(a: seq<string>, b: seq<string>, bound: nat, s: nat)
    requires bound <= |a| && bound <= |b| && s <= bound
    requires a[|a| - s..] == b[|b| - s..]
    requires s == bound || a[|a| - 1 - s] != b[|b| - 1 - s]
    ensures s == SuffixLen(a, b, bound)
  {
    var t := SuffixLen(a, b, bound);
    if s < t {
      assert false;
    } else if t < s {
      assert false;
    }
  }

  /** The common prefix and the common suffix used for the hunk; they never
      overlap. */
  function CommonPrefix(a: seq<string>, b: seq<string>): nat
  {
    PrefixLen(a, b)
  }

  function CommonSuffix(a: seq<string>, b: seq<string>): (s: nat)
    ensures CommonPrefix(a, b) + s <= |a| && CommonPrefix(a, b) + s <= |b|
  {
    SuffixLen(a, b, Min(|a|, |b|) - PrefixLen(a, b))
  }

  datatype Tag = Context | Removed | Added

  datatype HunkLine = HunkLine(tag: Tag, text: string)

  /** One hunk: 1-based start lines, line counts, and the tagged lines. */
  datatype Hunk = Hunk(oldStart: nat, oldCount: nat, newStart: nat, newCount: nat, lines: seq<HunkLine>)

  /** Every text of `texts`, in order, as a line with `tag`. */
  function Tagged(tag: Tag, texts: seq<string>): (lines: seq<HunkLine>)
    ensures |lines| == |texts|
  {
    if texts == [] then []
    else Tagged(tag, texts[..|texts| - 1]) + [HunkLine(tag, texts[|texts| - 1])]
  }

  /** How many lines of a changed run of length `changed` are emitted: the
      loop bound falls short by three lines less the common prefix and suffix. */
  function EmittedCount(changed: int, p: int, s: int): int
  {
    Max(0, changed - Max(0, ContextLines - p - s))
  }

  /** The hunk the source emits once the common prefix `p` and common suffix
      `s` are known: the window is widened by up to three lines on each side and
      clipped, and the removed and added runs keep only their first
      EmittedCount lines. */
  function HunkOf(a: seq<string>, b: seq<string>, p: nat, s: nat): (h: Hunk)
    requires p + s <= |a| && p + s <= |b|
    ensures 1 <= h.oldStart == h.newStart <= p + 1
    ensures h.oldStart - 1 + h.oldCount <= |a| && h.newStart - 1 + h.newCount <= |b|
    ensures |a| - s <= h.oldStart - 1 + h.oldCount && |b| - s <= h.newStart - 1 + h.newCount
  {
    var start := Max(0, p - ContextLines);
    var oldEnd := Min(|a|, |a| - s + ContextLines);
    var newEnd := Min(|b|, |b| - s + ContextLines);
    Hunk(start + 1, oldEnd - start, start + 1, newEnd - start,
         HunkLines(a, b, p, s, start, p + EmittedCount(|a| - p - s, p, s),
                   p + EmittedCount(|b| - p - s, p, s), oldEnd))
  }

  /** The four runs of a hunk: leading context `a[start..p]`, removed lines
      `a[p..removedEnd]`, added lines `b[p..addedEnd]`, trailing context
      `a[|a| - s..oldEnd]`. */
  function HunkLines(a: seq<string>, b: seq<string>, p: nat, s: nat,
                     start: nat, removedEnd: nat, addedEnd: nat, oldEnd: nat): seq<HunkLine>
    requires start <= p <= removedEnd <= |a| && p <= addedEnd <= |b|
    requires s <= |a| && |a| - s <= oldEnd <= |a|
  {
    Tagged(Context, a[start..p]) + Tagged(Removed, a[p..removedEnd]) +
    Tagged(Added, b[p..addedEnd]) + Tagged(Context, a[|a| - s..oldEnd])
  }

  /** The hunk for two line sequences, or None when nothing changed. */
  function ComputeHunk(a: seq<string>, b: seq<string>): (h: Option<Hunk>)
    ensures h.None? <==> a == b
    ensures h.Some? ==> h.value.oldStart == h.value.newStart >= 1
  {
    var p := CommonPrefix(a, b);
    var s := CommonSuffix(a, b);
    assert a == b ==> p == |a|;
    if p + s == |a| && p + s == |b| then
      assert a == a[..p] + a[|a| - s..];
      assert b == b[..p] + b[|b| - s..];
      None
    else
      Some(HunkOf(a, b, p, s))
  }

  function Marker(tag: Tag): char
  {
    match tag
    case Context => ' '
    case Removed => '-'
    case Added => '+'
  }

  function RenderLine(line: HunkLine): string
  {
    [Marker(line.tag)] + line.text + "\n"
  }

  function RenderLines(lines: seq<HunkLine>): string
  {
    if lines == [] then ""
    else RenderLines(lines[..|lines| - 1]) + RenderLine(lines[|lines| - 1])
  }

  /** `@@ -oldStart,oldCount +newStart,newCount @@`. */
  function Header(h: Hunk): string
  {
    HeaderLine(h.oldStart, h.oldCount, h.newStart, h.newCount)
  }

  /** `@@ -%d,%d +%d,%d @@` followed by a line feed. */
  function HeaderLine(oldStart: nat, oldCount: nat, newStart: nat, newCount: nat): string
  {
    "@@ -" + Decimal(oldStart) + "," + Decimal(oldCount) +
    " +" + Decimal(newStart) + "," + Decimal(newCount) + " @@\n"
  }

  function Render(h: Hunk): string
  {
    Header(h) + RenderLines(h.lines)
  }

  /** The text `generateUnifiedDiffContent` returns for two line sequences. */
  function DiffText(a: seq<string>, b: seq<string>): (text: string)
    ensures text == "" <==> a == b
  {
    match ComputeHunk(a, b)
    case None => ""
    case Some(h) => Render(h)
  }

  /** The rendering of `texts`, each line prefixed with `marker`. */
  function RenderRun(marker: char, texts: seq<string>): string
  {
    if texts == [] then ""
    else RenderRun(marker, texts[..|texts| - 1]) + [marker] + texts[|texts| - 1] + "\n"
  }

  /** One more line appended to text that already ends in a run. */
  lemma RunStep(done: string, marker: char, s: seq<string>, lo: nat, i: nat)
    requires lo <= i < |s|
    ensures done + RenderRun(marker, s[lo..i + 1]) == done + RenderRun(marker, s[lo..i]) + ([marker] + s[i] + "\n")
  {
    assert s[lo..i + 1][..i - lo] == s[lo..i];
    var r := RenderRun(marker, s[lo..i]);
    assert r + [marker] + s[i] + "\n" == r + ([marker] + s[i] + "\n");
  }

  lemma ConcatFive(v: string, w: string, x: string, y: string, z: string)
    ensures v + w + x + y + z == v + (w + x + y + z)
  {
  }

  lemma {:induction false} RenderLinesAppend(xs: seq<HunkLine>, ys: seq<HunkLine>)
    ensures RenderLines(xs + ys) == RenderLines(xs) + RenderLines(ys)
    decreases |ys|
  {
    if ys == [] {
      assert xs + ys == xs;
    } else {
      var ys' := ys[..|ys| - 1];
      RenderLinesAppend(xs, ys');
      assert (xs + ys)[..|xs + ys| - 1] == xs + ys';
    }
  }

  lemma {:induction false} RenderTagged(tag: Tag, texts: seq<string>)
    ensures RenderLines(Tagged(tag, texts)) == RenderRun(Marker(tag), texts)
    decreases |texts|
  {
    if texts != [] {
      var init := texts[..|texts| - 1];
      RenderTagged(tag, init);
      var t := Tagged(tag, texts);
      assert t[..|t| - 1] == Tagged(tag, init);
    }
  }

  /** The body of a hunk is its four runs, rendered one after another. */
  lemma RenderHunkLines(h: Hunk, a: seq<string>, b: seq<string>, p: nat, s: nat,
                        start: nat, removedEnd: nat, addedEnd: nat, oldEnd: nat)
    requires p + s <= |a| && p + s <= |b| && h == HunkOf(a, b, p, s)
    requires start == Max(0, p - ContextLines) && oldEnd == Min(|a|, |a| - s + ContextLines)
    requires removedEnd == p + EmittedCount(|a| - p - s, p, s) && addedEnd == p + EmittedCount(|b| - p - s, p, s)
    ensures RenderLines(h.lines) ==
      RenderRun(' ', a[start..p]) + RenderRun('-', a[p..removedEnd]) +
      RenderRun('+', b[p..addedEnd]) + RenderRun(' ', a[|a| - s..oldEnd])
  {
    var w := Tagged(Context, a[start..p]);
    var x := Tagged(Removed, a[p..removedEnd]);
    var y := Tagged(Added, b[p..addedEnd]);
    var z := Tagged(Context, a[|a| - s..oldEnd]);
    assert h.lines == HunkLines(a, b, p, s, start, removedEnd, addedEnd, oldEnd);
    RenderLinesAppend(w + x + y, z);
    RenderLinesAppend(w + x, y);
    RenderLinesAppend(w, x);
    RenderTagged(Context, a[start..p]);
    RenderTagged(Removed, a[p..removedEnd]);
    RenderTagged(Added, b[p..addedEnd]);
    RenderTagged(Context, a[|a| - s..oldEnd]);
  }

  /** Where the removed or added loop stops: at `commonPrefix + count - 3`,
      where `count` is the widened window's length, or at the common suffix,
      whichever comes first, and never before it starts. */
  function ChangedEnd(commonPrefix: nat, count: int, commonSuffix: nat, len: nat): (e: nat)
    requires commonPrefix + commonSuffix <= len
    ensures commonPrefix <= e <= len - commonSuffix
  {
    Max(commonPrefix, Min(commonPrefix + count - ContextLines, len - commonSuffix))
  }

  /** The truncated loop bound of the source, in closed form. */
  lemma LoopBound(len: nat, p: nat, s: nat)
    requires p + s <= len
    ensures ChangedEnd(p, Min(len, len - s + ContextLines) - Max(0, p - ContextLines), s, len)
            == p + EmittedCount(len - p - s, p, s)
  {
  }

  /** The prefix loop of the source: advance while the lines agree. */
  method ScanCommonPrefix(oldLines: seq<string>, newLines: seq<string>, minLen: nat) returns (commonPrefix: nat)
    requires minLen == Min(|oldLines|, |newLines|)
    ensures commonPrefix == PrefixLen(oldLines, newLines)
  {
    commonPrefix := 0;
    while commonPrefix < minLen && oldLines[commonPrefix] == newLines[commonPrefix]
      invariant 0 <= commonPrefix <= minLen
      invariant oldLines[..commonPrefix] == newLines[..commonPrefix]
    {
      assert oldLines[..commonPrefix + 1] == oldLines[..commonPrefix] + [oldLines[commonPrefix]];
      assert newLines[..commonPrefix + 1] == newLines[..commonPrefix] + [newLines[commonPrefix]];
      commonPrefix := commonPrefix + 1;
    }
    PrefixLenUnique(oldLines, newLines, commonPrefix);
  }

  /** The suffix loop of the source: walk back from both ends while the lines
      agree, never into the common prefix. */
  method ScanCommonSuffix(oldLines: seq<string>, newLines: seq<string>, bound: nat) returns (commonSuffix: nat)
    requires bound == Min(|oldLines|, |newLines|) - PrefixLen(oldLines, newLines)
    ensures commonSuffix == CommonSuffix(oldLines, newLines)
  {
    commonSuffix := 0;
    var oldEnd := |oldLines|;
    var newEnd := |newLines|;
    assert bound <= oldEnd && bound <= newEnd;
    while commonSuffix < bound &&
          oldLines[oldEnd - 1 - commonSuffix] == newLines[newEnd - 1 - commonSuffix]
      invariant 0 <= commonSuffix <= bound <= oldEnd && bound <= newEnd
      invariant oldLines[oldEnd - commonSuffix..] == newLines[newEnd - commonSuffix..]
    {
      SuffixCons(oldLines, commonSuffix);
      SuffixCons(newLines, commonSuffix);
      commonSuffix := commonSuffix + 1;
    }
    SuffixLenUnique(oldLines, newLines, bound, commonSuffix);
    CommonSuffixIs(oldLines, newLines, bound, commonSuffix);
  }

  lemma CommonSuffixIs(a: seq<string>, b: seq<string>, bound: nat, s: nat)
    requires bound == Min(|a|, |b|) - PrefixLen(a, b)
    requires s == SuffixLen(a, b, bound)
    ensures s == CommonSuffix(a, b)
  {
  }

  /** `generateUnifiedDiffContent`: common prefix and suffix by scanning,
      window widened and clipped, then header and the four runs of lines. */
  method GenerateUnifiedDiffContent(oldContent: string, newContent: string) returns (diff: string)
    ensures diff == DiffText(Lines(oldContent), Lines(newContent))
    ensures diff == "" <==> oldContent == newContent
  {
    var oldLines := Split(oldContent, '\n');
    var newLines := Split(newContent, '\n');
    if oldContent == "" {
      oldLines := [];
    }
    if newContent == "" {
      newLines := [];
    }
    assert oldLines == Lines(oldContent) && newLines == Lines(newContent);

    var minLen := |oldLines|;
    if |newLines| < minLen {
      minLen := |newLines|;
    }
    var commonPrefix := ScanCommonPrefix(oldLines, newLines, minLen);
    var commonSuffix := ScanCommonSuffix(oldLines, newLines, minLen - commonPrefix);
    ghost var a, b := oldLines, newLines;
    ghost var p, s := commonPrefix, commonSuffix;
    assert p == CommonPrefix(a, b) && s == CommonSuffix(a, b);

    var oldCount := |oldLines| - commonPrefix - commonSuffix;
    var newCount := |newLines| - commonPrefix - commonSuffix;

    if oldCount == 0 && newCount == 0 {
      assert ComputeHunk(a, b).None?;
      diff := "";
    } else {
      assert ComputeHunk(a, b) == Some(HunkOf(a, b, p, s));
      diff := WriteHunk(oldLines, newLines, commonPrefix, commonSuffix);
    }
    if Lines(oldContent) == Lines(newContent) {
      LinesInjective(oldContent, newContent);
    }
  }

  /** The second half of `generateUnifiedDiffContent`: widen and clip the
      window, write the header, then the leading context, the removed lines,
      the added lines and the trailing context. */
  method WriteHunk(oldLines: seq<string>, newLines: seq<string>, commonPrefix: nat, commonSuffix: nat)
    returns (diff: string)
    requires commonPrefix + commonSuffix <= |oldLines| && commonPrefix + commonSuffix <= |newLines|
    ensures diff == Render(HunkOf(oldLines, newLines, commonPrefix, commonSuffix))
  {
    var oldStart, oldEnd := Window(|oldLines|, commonPrefix, commonSuffix);
    var newStart, newEnd := Window(|newLines|, commonPrefix, commonSuffix);
    var oldCount := oldEnd - oldStart;
    var newCount := newEnd - newStart;
    ghost var h := HunkOf(oldLines, newLines, commonPrefix, commonSuffix);
    WindowRender(h, oldLines, newLines, commonPrefix, commonSuffix, oldStart, newStart, oldEnd, newEnd, oldCount, newCount);

    diff := HeaderLine(oldStart + 1, oldCount, newStart + 1, newCount);
    diff := WriteContextBefore(diff, oldLines, oldStart, commonPrefix, oldEnd);
    diff := WriteChanged(diff, '-', oldLines, commonPrefix, oldCount, commonSuffix);
    diff := WriteChanged(diff, '+', newLines, commonPrefix, newCount, commonSuffix);
    diff := WriteContextAfter(diff, oldLines, commonSuffix, oldEnd);
  }

  /** The window of one side widened by three lines of context and clipped
      to the side's length: from the start of the change less three lines
      (at least 0) to its end plus three lines (at most `len`). */
  method Window(len: nat, commonPrefix: nat, commonSuffix: nat) returns (start: nat, end: nat)
    requires commonPrefix + commonSuffix <= len
    ensures start == Max(0, commonPrefix - ContextLines)
    ensures end == Min(len, commonPrefix + (len - commonPrefix - commonSuffix) + ContextLines)
  {
    var count := len - commonPrefix - commonSuffix;
    var s := commonPrefix - ContextLines;
    if s < 0 {
      s := 0;
    }
    var e := commonPrefix + count + ContextLines;
    if e > len {
      e := len;
    }
    start, end := s, e;
  }

  /** The hunk rendered from the source's window variables: the header of
      the clipped window, then the four runs with the loops' own bounds. */
  lemma WindowRender(h: Hunk, a: seq<string>, b: seq<string>, p: nat, s: nat,
                     oldStart: nat, newStart: nat, oldEnd: nat, newEnd: nat, oldCount: int, newCount: int)
    requires p + s <= |a| && p + s <= |b| && h == HunkOf(a, b, p, s)
    requires oldCount == oldEnd - oldStart && newCount == newEnd - newStart
    requires oldStart == Max(0, p - ContextLines) && newStart == oldStart
    requires oldEnd == Min(|a|, p + (|a| - p - s) + ContextLines)
    requires newEnd == Min(|b|, p + (|b| - p - s) + ContextLines)
    ensures oldStart <= p <= oldEnd && |a| - s <= oldEnd <= |a| && 0 <= oldCount && 0 <= newCount
    ensures Render(h) ==
      HeaderLine(oldStart + 1, oldCount, newStart + 1, newCount) +
      RenderRun(' ', a[oldStart..p]) +
      RenderRun('-', a[p..ChangedEnd(p, oldCount, s, |a|)]) +
      RenderRun('+', b[p..ChangedEnd(p, newCount, s, |b|)]) +
      RenderRun(' ', a[|a| - s..oldEnd])
  {
    LoopBound(|a|, p, s);
    LoopBound(|b|, p, s);
    var removedEnd, addedEnd := ChangedEnd(p, oldCount, s, |a|), ChangedEnd(p, newCount, s, |b|);
    RenderHunkLines(h, a, b, p, s, oldStart, removedEnd, addedEnd, oldEnd);
    WindowHeader(h, a, b, p, s, oldStart, newStart, oldEnd, newEnd, oldCount, newCount);
    ConcatFive(Header(h), RenderRun(' ', a[oldStart..p]), RenderRun('-', a[p..removedEnd]),
               RenderRun('+', b[p..addedEnd]), RenderRun(' ', a[|a| - s..oldEnd]));
  }

  /** The header of the hunk from the source's window variables. */
  lemma WindowHeader(h: Hunk, a: seq<string>, b: seq<string>, p: nat, s: nat,
                     oldStart: nat, newStart: nat, oldEnd: nat, newEnd: nat, oldCount: int, newCount: int)
    requires p + s <= |a| && p + s <= |b| && h == HunkOf(a, b, p, s)
    requires oldCount == oldEnd - oldStart && newCount == newEnd - newStart
    requires oldStart == Max(0, p - ContextLines) && newStart == oldStart
    requires oldEnd == Min(|a|, p + (|a| - p - s) + ContextLines)
    requires newEnd == Min(|b|, p + (|b| - p - s) + ContextLines)
    ensures Header(h) == HeaderLine(oldStart + 1, oldCount, newStart + 1, newCount)
  {
    assert h.oldStart == oldStart + 1 && h.oldCount == oldCount;
    assert h.newStart == newStart + 1 && h.newCount == newCount;
  }

  /** The loop writing the context lines before the change. */
  method WriteContextBefore(result: string, oldLines: seq<string>, oldStart: nat, commonPrefix: nat, oldEnd: nat)
    returns (out: string)
    requires oldStart <= commonPrefix <= oldEnd <= |oldLines|
    ensures out == result + RenderRun(' ', oldLines[oldStart..commonPrefix])
  {
    out := result;
    var i := oldStart;
    while i < commonPrefix && i < oldEnd
      invariant oldStart <= i <= commonPrefix
      invariant out == result + RenderRun(' ', oldLines[oldStart..i])
    {
      RunStep(result, ' ', oldLines, oldStart, i);
      out := out + (" " + oldLines[i] + "\n");
      i := i + 1;
    }
  }

  /** The loop writing the removed (marker `-`) or added (marker `+`) lines,
      with the source's bound `commonPrefix + count - 3`, where `count` is the
      widened window's length. */
  method WriteChanged(result: string, marker: char, lines: seq<string>, commonPrefix: nat, count: int, commonSuffix: nat)
    returns (out: string)
    requires commonPrefix + commonSuffix <= |lines|
    ensures out == result + RenderRun(marker, lines[commonPrefix..ChangedEnd(commonPrefix, count, commonSuffix, |lines|)])
  {
    out := result;
    var i := commonPrefix;
    ghost var hi := ChangedEnd(commonPrefix, count, commonSuffix, |lines|);
    while i < commonPrefix + count - ContextLines && i < |lines| - commonSuffix
      invariant commonPrefix <= i <= hi
      invariant out == result + RenderRun(marker, lines[commonPrefix..i])
    {
      if i < |lines| {
        RunStep(result, marker, lines, commonPrefix, i);
        out := out + ([marker] + lines[i] + "\n");
      }
      i := i + 1;
    }
  }

  /** The loop writing the context lines after the change. */
  method WriteContextAfter(result: string, oldLines: seq<string>, commonSuffix: nat, oldEnd: nat)
    returns (out: string)
    requires commonSuffix <= |oldLines| && |oldLines| - commonSuffix <= oldEnd <= |oldLines|
    ensures out == result + RenderRun(' ', oldLines[|oldLines| - commonSuffix..oldEnd])
  {
    out := result;
    var startSuffix := |oldLines| - commonSuffix;
    var i := startSuffix;
    while i < oldEnd && i < |oldLines|
      invariant startSuffix <= i <= oldEnd
      invariant out == result + RenderRun(' ', oldLines[startSuffix..i])
    {
      RunStep(result, ' ', oldLines, startSuffix, i);
      out := out + (" " + oldLines[i] + "\n");
      i := i + 1;
    }
  }
}
