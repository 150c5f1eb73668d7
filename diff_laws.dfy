/** What the synthesized hunk means as a patch. A hunk applies when its old
    side (context and removed lines) is exactly the run of old lines its
    header names and its new side (context and added lines) the run of new
    lines. Because the removed and added loops stop three lines early less
    the common prefix and suffix, the hunk applies exactly when the common
    prefix and suffix together hold at least three lines. */
module DiffLaws {
  import opened Wrappers
  import opened Text
  import opened Diff

  /** The texts of `lines` whose tag is not `omit`, in order. */
  function Side(lines: seq<HunkLine>, omit: Tag): (texts: seq<string>)
    ensures |texts| <= |lines|
  {
    if lines == [] then []
    else
      var last := lines[|lines| - 1];
      Side(lines[..|lines| - 1], omit) + (if last.tag == omit then [] else [last.text])
  }

  /** The hunk is a correct patch from `a` to `b`. */
  predicate Applies(h: Hunk, a: seq<string>, b: seq<string>)
  {
    1 <= h.oldStart && h.oldStart - 1 + h.oldCount <= |a| &&
    1 <= h.newStart && h.newStart - 1 + h.newCount <= |b| &&
    Side(h.lines, Added) == a[h.oldStart - 1..h.oldStart - 1 + h.oldCount] &&
    Side(h.lines, Removed) == b[h.newStart - 1..h.newStart - 1 + h.newCount]
  }

  lemma {:induction false} SideAppend(xs: seq<HunkLine>, ys: seq<HunkLine>, omit: Tag)
    ensures Side(xs + ys, omit) == Side(xs, omit) + Side(ys, omit)
    decreases |ys|
  {
    if ys == [] {
      assert xs + ys == xs;
    } else {
      var ys', last := ys[..|ys| - 1], ys[|ys| - 1];
      var zs := xs + ys;
      SideAppend(xs, ys', omit);
      assert zs[..|zs| - 1] == xs + ys' && zs[|zs| - 1] == last;
      var extra := if last.tag == omit then [] else [last.text];
      assert Side(zs, omit) == Side(xs, omit) + Side(ys', omit) + extra;
      assert Side(ys, omit) == Side(ys', omit) + extra;
    }
  }

  lemma {:induction false} SideTagged(tag: Tag, texts: seq<string>, omit: Tag)
    ensures Side(Tagged(tag, texts), omit) == if tag == omit then [] else texts
    decreases |texts|
  {
    if texts != [] {
      var init := texts[..|texts| - 1];
      SideTagged(tag, init, omit);
      var t := Tagged(tag, texts);
      assert t[..|t| - 1] == Tagged(tag, init);
      if tag != omit {
        assert texts == init + [texts[|texts| - 1]];
      }
    }
  }

  lemma SideOfFour(w: seq<HunkLine>, x: seq<HunkLine>, y: seq<HunkLine>, z: seq<HunkLine>, omit: Tag)
    ensures Side(w + x + y + z, omit) == Side(w, omit) + Side(x, omit) + Side(y, omit) + Side(z, omit)
  {
    SideAppend(w + x + y, z, omit);
    SideAppend(w + x, y, omit);
    SideAppend(w, x, omit);
  }

  /** The old side of a hunk's four runs leaves out the added lines. */
  lemma HunkLinesOldSide(lines: seq<HunkLine>, a: seq<string>, b: seq<string>, p: nat, s: nat,
                         start: nat, removedEnd: nat, addedEnd: nat, oldEnd: nat)
    requires start <= p <= removedEnd <= |a| && p <= addedEnd <= |b|
    requires s <= |a| && |a| - s <= oldEnd <= |a|
    requires lines == HunkLines(a, b, p, s, start, removedEnd, addedEnd, oldEnd)
    ensures Side(lines, Added) ==
            a[start..p] + a[p..removedEnd] + a[|a| - s..oldEnd]
  {
    var w := Tagged(Context, a[start..p]);
    var x := Tagged(Removed, a[p..removedEnd]);
    var y := Tagged(Added, b[p..addedEnd]);
    var z := Tagged(Context, a[|a| - s..oldEnd]);
    SideOfFour(w, x, y, z, Added);
    SideTagged(Context, a[start..p], Added);
    SideTagged(Removed, a[p..removedEnd], Added);
    SideTagged(Added, b[p..addedEnd], Added);
    SideTagged(Context, a[|a| - s..oldEnd], Added);
    DropEmptyThird(a[start..p], a[p..removedEnd], a[|a| - s..oldEnd]);
  }

  /** The new side of a hunk's four runs leaves out the removed lines. */
  lemma HunkLinesNewSide(lines: seq<HunkLine>, a: seq<string>, b: seq<string>, p: nat, s: nat,
                         start: nat, removedEnd: nat, addedEnd: nat, oldEnd: nat, newEnd: nat)
    requires start <= p <= removedEnd <= |a| && p <= addedEnd <= |b|
    requires s <= |a| && |a| - s <= oldEnd <= |a| && s <= |b| && |b| - s <= newEnd <= |b|
    requires lines == HunkLines(a, b, p, s, start, removedEnd, addedEnd, oldEnd)
    requires a[start..p] == b[start..p] && a[|a| - s..oldEnd] == b[|b| - s..newEnd]
    ensures Side(lines, Removed) ==
            b[start..p] + b[p..addedEnd] + b[|b| - s..newEnd]
  {
    var w := Tagged(Context, a[start..p]);
    var x := Tagged(Removed, a[p..removedEnd]);
    var y := Tagged(Added, b[p..addedEnd]);
    var z := Tagged(Context, a[|a| - s..oldEnd]);
    SideOfFour(w, x, y, z, Removed);
    SideTagged(Context, a[start..p], Removed);
    SideTagged(Removed, a[p..removedEnd], Removed);
    SideTagged(Added, b[p..addedEnd], Removed);
    SideTagged(Context, a[|a| - s..oldEnd], Removed);
    DropEmptySecond(a[start..p], b[p..addedEnd], a[|a| - s..oldEnd]);
  }

  lemma DropEmptyThird<T>(u: seq<T>, v: seq<T>, t: seq<T>)
    ensures u + v + [] + t == u + v + t
  {
  }

  lemma DropEmptySecond<T>(u: seq<T>, v: seq<T>, t: seq<T>)
    ensures u + [] + v + t == u + v + t
  {
  }

  lemma SliceOfPrefix<T>(a: seq<T>, p: nat, start: nat)
    requires start <= p <= |a|
    ensures a[start..p] == a[..p][start..]
  {
  }

  lemma SliceOfSuffix<T>(a: seq<T>, q: nat, end: nat)
    requires q <= end <= |a|
    ensures a[q..end] == a[q..][..end - q]
  {
  }

  /** Three consecutive slices of one sequence make the slice they span, and
      only when the middle one reaches the third. */
  lemma SlicesSpan(a: seq<string>, start: nat, p: nat, k: nat, q: nat, end: nat)
    requires start <= p <= p + k <= q <= end <= |a|
    ensures a[start..p] + a[p..p + k] + a[q..end] == a[start..end] <==> p + k == q
  {
    if p + k == q {
      assert a[start..end] == a[start..p] + a[p..q] + a[q..end];
    }
  }

  /** The fields of the emitted hunk, in terms of its window and the
      lengths of its removed and added runs. */
  lemma HunkOfShape(a: seq<string>, b: seq<string>, p: nat, s: nat,
                    start: nat, re: nat, ae: nat, oldEnd: nat, newEnd: nat)
    requires p + s <= |a| && p + s <= |b|
    requires start == Max(0, p - ContextLines)
    requires oldEnd == Min(|a|, |a| - s + ContextLines) && newEnd == Min(|b|, |b| - s + ContextLines)
    requires re == EmittedCount(|a| - p - s, p, s) && ae == EmittedCount(|b| - p - s, p, s)
    ensures start <= p && p + re <= |a| - s <= oldEnd <= |a| && p + ae <= |b| - s <= newEnd <= |b|
    ensures HunkOf(a, b, p, s) ==
            Hunk(start + 1, oldEnd - start, start + 1, newEnd - start,
                 HunkLines(a, b, p, s, start, p + re, p + ae, oldEnd))
  {
  }

  /** The context lines, taken from the old side, are also the new side's. */
  lemma SharedContext(a: seq<string>, b: seq<string>, p: nat, s: nat, start: nat, oldEnd: nat, newEnd: nat)
    requires p + s <= |a| && p + s <= |b| && start <= p
    requires a[..p] == b[..p] && a[|a| - s..] == b[|b| - s..]
    requires oldEnd == Min(|a|, |a| - s + ContextLines) && newEnd == Min(|b|, |b| - s + ContextLines)
    ensures a[start..p] == b[start..p] && a[|a| - s..oldEnd] == b[|b| - s..newEnd]
  {
    SliceOfPrefix(a, p, start);
    SliceOfPrefix(b, p, start);
    SliceOfSuffix(a, |a| - s, oldEnd);
    SliceOfSuffix(b, |b| - s, newEnd);
  }

  /** The patch condition from the shape of a hunk's two sides. */
  lemma AppliesIffCore(h: Hunk, a: seq<string>, b: seq<string>, p: nat, s: nat,
                       start: nat, re: nat, ae: nat, oldEnd: nat, newEnd: nat)
    requires p + s <= |a| && p + s <= |b| && start <= p
    requires re == EmittedCount(|a| - p - s, p, s) && ae == EmittedCount(|b| - p - s, p, s)
    requires p + re <= |a| - s <= oldEnd <= |a| && p + ae <= |b| - s <= newEnd <= |b|
    requires h.oldStart == h.newStart == start + 1 && h.oldCount == oldEnd - start && h.newCount == newEnd - start
    requires Side(h.lines, Added) == a[start..p] + a[p..p + re] + a[|a| - s..oldEnd]
    requires Side(h.lines, Removed) == b[start..p] + b[p..p + ae] + b[|b| - s..newEnd]
    requires p + s < |a| || p + s < |b|
    ensures Applies(h, a, b) <==> p + s >= ContextLines
  {
    RunsSpan(a, p, s, start, re, oldEnd);
    RunsSpan(b, p, s, start, ae, newEnd);
    AppliesBySides(h, a, b, start, oldEnd, newEnd);
  }

  /** One side of the hunk covers its whole window exactly when its changed
      run is emitted in full. */
  lemma RunsSpan(a: seq<string>, p: nat, s: nat, start: nat, k: nat, end: nat)
    requires start <= p && p + s <= |a| && k == EmittedCount(|a| - p - s, p, s)
    requires p + k <= |a| - s <= end <= |a|
    ensures a[start..p] + a[p..p + k] + a[|a| - s..end] == a[start..end] <==>
            |a| - p - s == 0 || p + s >= ContextLines
  {
    SlicesSpan(a, start, p, k, |a| - s, end);
    EmittedAll(|a| - p - s, p, s);
  }

  /** For any split of two different sequences into a shared prefix of `p`
      lines, a changed middle and a shared suffix of `s` lines, the emitted
      hunk is a correct patch exactly when `p + s >= 3`. */
  lemma HunkOfAppliesIff(a: seq<string>, b: seq<string>, p: nat, s: nat)
    requires p + s <= |a| && p + s <= |b|
    requires a[..p] == b[..p] && a[|a| - s..] == b[|b| - s..]
    requires p + s < |a| || p + s < |b|
    ensures Applies(HunkOf(a, b, p, s), a, b) <==> p + s >= ContextLines
  {
    var start := Max(0, p - ContextLines);
    var oldEnd := Min(|a|, |a| - s + ContextLines);
    var newEnd := Min(|b|, |b| - s + ContextLines);
    var re, ae := EmittedCount(|a| - p - s, p, s), EmittedCount(|b| - p - s, p, s);
    HunkOfShape(a, b, p, s, start, re, ae, oldEnd, newEnd);
    HunkSides(a, b, p, s, start, re, ae, oldEnd, newEnd);
    AppliesIffCore(HunkOf(a, b, p, s), a, b, p, s, start, re, ae, oldEnd, newEnd);
  }

  /** The two sides of the four runs a hunk is built from. */
  lemma HunkSides(a: seq<string>, b: seq<string>, p: nat, s: nat,
                  start: nat, re: nat, ae: nat, oldEnd: nat, newEnd: nat)
    requires p + s <= |a| && p + s <= |b|
    requires a[..p] == b[..p] && a[|a| - s..] == b[|b| - s..]
    requires oldEnd == Min(|a|, |a| - s + ContextLines) && newEnd == Min(|b|, |b| - s + ContextLines)
    requires start <= p && p + re <= |a| - s <= oldEnd <= |a| && p + ae <= |b| - s <= newEnd <= |b|
    ensures Side(HunkLines(a, b, p, s, start, p + re, p + ae, oldEnd), Added) ==
            a[start..p] + a[p..p + re] + a[|a| - s..oldEnd]
    ensures Side(HunkLines(a, b, p, s, start, p + re, p + ae, oldEnd), Removed) ==
            b[start..p] + b[p..p + ae] + b[|b| - s..newEnd]
  {
    var lines := HunkLines(a, b, p, s, start, p + re, p + ae, oldEnd);
    SharedContext(a, b, p, s, start, oldEnd, newEnd);
    HunkLinesOldSide(lines, a, b, p, s, start, p + re, p + ae, oldEnd);
    HunkLinesNewSide(lines, a, b, p, s, start, p + re, p + ae, oldEnd, newEnd);
  }

  /** Applies, for a hunk whose header names `a[start..oldEnd]` and
      `b[start..newEnd]`. */
  lemma AppliesBySides(h: Hunk, a: seq<string>, b: seq<string>, start: nat, oldEnd: nat, newEnd: nat)
    requires start <= oldEnd <= |a| && start <= newEnd <= |b|
    requires h.oldStart == h.newStart == start + 1
    requires h.oldCount == oldEnd - start && h.newCount == newEnd - start
    ensures Applies(h, a, b) <==> Side(h.lines, Added) == a[start..oldEnd] && Side(h.lines, Removed) == b[start..newEnd]
  {
  }

  /** A run of `changed` lines is emitted in full exactly when it is empty or
      the common prefix and suffix hold at least three lines. */
  lemma EmittedAll(changed: nat, p: nat, s: nat)
    ensures EmittedCount(changed, p, s) == changed <==> changed == 0 || p + s >= ContextLines
  {
  }

  /** A hunk of two different line sequences is a correct patch exactly when
      the common prefix and common suffix together hold at least three lines;
      otherwise some removed or added lines are missing from it. */
  lemma HunkAppliesIff(a: seq<string>, b: seq<string>)
    requires a != b
    ensures ComputeHunk(a, b).Some?
    ensures Applies(ComputeHunk(a, b).value, a, b) <==> CommonPrefix(a, b) + CommonSuffix(a, b) >= ContextLines
  {
    var p, s := CommonPrefix(a, b), CommonSuffix(a, b);
    assert ComputeHunk(a, b) == Some(HunkOf(a, b, p, s));
    HunkOfAppliesIff(a, b, p, s);
  }

  /** A file created from nothing: the hunk claims every new line, but only
      the lines before the last three are printed. */
  lemma NewFileDiff(b: seq<string>)
    requires b != []
    ensures DiffText([], b) == HeaderLine(1, 0, 1, |b|) + RenderRun('+', b[..Max(0, |b| - ContextLines)])
  {
    var a: seq<string> := [];
    assert CommonPrefix(a, b) == 0 && CommonSuffix(a, b) == 0;
    var addedEnd := EmittedCount(|b|, 0, 0);
    var h := HunkOf(a, b, 0, 0);
    assert ComputeHunk(a, b) == Some(h);
    RenderHunkLines(h, a, b, 0, 0, 0, 0, addedEnd, 0);
    assert b[0..addedEnd] == b[..Max(0, |b| - ContextLines)];
    assert a[0..0] == [] && a[|a| - 0..0] == [];
    assert RenderLines(h.lines) == RenderRun('+', b[..Max(0, |b| - ContextLines)]);
    assert h.oldStart == 1 && h.oldCount == 0 && h.newStart == 1 && h.newCount == |b|;
  }

  /** A file emptied completely: symmetrically, only the lines before the
      last three are printed as removed. */
  lemma DeletedFileDiff(a: seq<string>)
    requires a != []
    ensures DiffText(a, []) == HeaderLine(1, |a|, 1, 0) + RenderRun('-', a[..Max(0, |a| - ContextLines)])
  {
    var b: seq<string> := [];
    assert CommonPrefix(a, b) == 0 && CommonSuffix(a, b) == 0;
    var removedEnd := EmittedCount(|a|, 0, 0);
    var h := HunkOf(a, b, 0, 0);
    assert ComputeHunk(a, b) == Some(h);
    assert Min(|a|, |a| - 0 + ContextLines) == |a|;
    RenderHunkLines(h, a, b, 0, 0, 0, removedEnd, 0, |a|);
    assert a[0..removedEnd] == a[..Max(0, |a| - ContextLines)];
    assert a[0..0] == [] && b[0..0] == [] && a[|a| - 0..|a|] == [];
    assert RenderLines(h.lines) == RenderRun('-', a[..Max(0, |a| - ContextLines)]);
    assert h.oldStart == 1 && h.oldCount == |a| && h.newStart == 1 && h.newCount == 0;
  }
}

module DiffExamples {
  import opened Wrappers
  import opened Text
  import opened Diff

  lemma LinesOfOneLine(c: char)
    requires c != '\n'
    ensures Lines([c, '\n']) == [[c], ""]
  {
    assert Split([], '\n') == [""];
    assert Split(['\n'], '\n') == ["", ""] by {
      assert ['\n'][1..] == [];
    }
    assert [c, '\n'][1..] == ['\n'];
    var rest: seq<string> := ["", ""];
    assert Split([c, '\n'], '\n') == [[c] + rest[0]] + rest[1..];
    assert [c] + rest[0] == [c] && rest[1..] == [""];
  }

  /** The hunk for replacing the only line of a one-line file. */
  lemma OneLineHunk(x: string, y: string)
    requires x != y
    ensures ComputeHunk([x, ""], [y, ""]) == Some(Hunk(1, 2, 1, 2, [HunkLine(Context, "")]))
  {
    var a, b := [x, ""], [y, ""];
    assert CommonPrefix(a, b) == 0;
    assert SuffixLen(a, b, 2) == 1 by {
      assert SuffixLen(a[..1], b[..1], 1) == 0;
    }
    assert HunkOf(a, b, 0, 1).lines == [HunkLine(Context, "")] by {
      assert a[1..2] == [""];
      assert Tagged(Context, a[1..2]) == [HunkLine(Context, "")];
    }
  }

  lemma RenderOneLineHunk()
    ensures Render(Hunk(1, 2, 1, 2, [HunkLine(Context, "")])) == "@@ -1,2 +1,2 @@\n \n"
  {
    var h := Hunk(1, 2, 1, 2, [HunkLine(Context, "")]);
    assert Decimal(1) == "1" && Decimal(2) == "2";
    assert Header(h) == "@@ -1,2 +1,2 @@\n";
    assert RenderLines(h.lines) == " \n" by {
      assert h.lines[..0] == [];
    }
  }

  /** Replacing the only line of a one-line file: the common suffix is the
      empty piece after the final line feed, so the prefix and suffix hold
      one line between them, the removed and added loops stop before they
      start, and the hunk shows neither the removed nor the added line. */
  lemma OnlyLineChangedShowsNoChange()
    ensures DiffText(Lines("x\n"), Lines("y\n")) == "@@ -1,2 +1,2 @@\n \n"
  {
    LinesOfOneLine('x');
    LinesOfOneLine('y');
    OneLineHunk("x", "y");
    RenderOneLineHunk();
  }
}
