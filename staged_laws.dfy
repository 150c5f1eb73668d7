/** What the staged-changes assembly promises: which status entries reach the
    patch, when the result is empty, how the line budget decides, and how many
    lines each file header adds. */
module StagedLaws {
  import opened Wrappers
  import opened Text
  import opened Binary
  import opened Hashes
  import opened Paths
  import opened Staged
  import Diff
  import DiffLaws

  /** An entry survives the filter exactly when it is one of the status
      entries and passes the filter. */
  lemma {:induction false} FilterMembership(files: map<string, FileRead>, entries: seq<FileStatus>, entry: FileStatus)
    ensures entry in FilterStaged(files, entries) <==> entry in entries && Included(files, entry)
  {
    if entries != [] {
      var init := entries[..|entries| - 1];
      FilterMembership(files, init, entry);
      assert entries == init + [entries[|entries| - 1]];
    }
  }

  /** The filter works entry by entry: filtering a concatenation filters the
      parts. */
  lemma {:induction false} FilterAppend(files: map<string, FileRead>, xs: seq<FileStatus>, ys: seq<FileStatus>)
    ensures FilterStaged(files, xs + ys) == FilterStaged(files, xs) + FilterStaged(files, ys)
    decreases |ys|
  {
    if ys == [] {
      assert xs + ys == xs;
    } else {
      var init := ys[..|ys| - 1];
      FilterAppend(files, xs, init);
      assert (xs + ys)[..|xs + ys| - 1] == xs + init;
    }
  }

  /** An entry the filter drops can be taken out of the status without
      changing the outcome, whatever the line limit. */
  lemma DroppedEntryChangesNothing(repo: Repository, before: seq<FileStatus>, entry: FileStatus,
                                   after: seq<FileStatus>, maxLines: int)
    requires repo.status == Some(before + [entry] + after)
    requires !Included(repo.files, entry)
    ensures StagedChanges(repo, maxLines) == StagedChanges(repo.(status := Some(before + after)), maxLines)
  {
    var files := repo.files;
    FilterAppend(files, before + [entry], after);
    FilterAppend(files, before, [entry]);
    FilterAppend(files, before, after);
    assert FilterStaged(files, [entry]) == [] by {
      assert [entry][..0] == [];
    }
    SameFilterSameOutcome(repo, repo.(status := Some(before + after)), maxLines);
  }

  /** The status entries matter only through the entries that survive the
      filter. */
  lemma SameFilterSameOutcome(repo: Repository, other: Repository, maxLines: int)
    requires other == repo.(status := other.status)
    requires repo.status.Some? && other.status.Some?
    requires FilterStaged(repo.files, repo.status.value) == FilterStaged(other.files, other.status.value)
    ensures StagedChanges(repo, maxLines) == StagedChanges(other, maxLines)
  {
    assert Assemble(repo) == Assemble(other);
  }

  /** Paths under an ignored directory never influence the outcome. */
  lemma IgnoredPathChangesNothing(repo: Repository, before: seq<FileStatus>, entry: FileStatus,
                                  after: seq<FileStatus>, maxLines: int)
    requires repo.status == Some(before + [entry] + after)
    requires ShouldIgnorePath(entry.path)
    ensures StagedChanges(repo, maxLines) == StagedChanges(repo.(status := Some(before + after)), maxLines)
  {
    DroppedEntryChangesNothing(repo, before, entry, after, maxLines);
  }

  /** Entries with nothing staged (unmodified or untracked in the staging
      column) never influence the outcome. */
  lemma UnstagedEntryChangesNothing(repo: Repository, before: seq<FileStatus>, entry: FileStatus,
                                    after: seq<FileStatus>, maxLines: int)
    requires repo.status == Some(before + [entry] + after)
    requires entry.staging.Unmodified? || entry.staging.Untracked?
    ensures StagedChanges(repo, maxLines) == StagedChanges(repo.(status := Some(before + after)), maxLines)
  {
    DroppedEntryChangesNothing(repo, before, entry, after, maxLines);
  }

  /** A binary working-tree file is left out unless it is staged for
      deletion. */
  lemma BinaryFileIsDropped(files: map<string, FileRead>, entries: seq<FileStatus>, entry: FileStatus)
    requires !entry.staging.Deleted? && BinaryCheck(WorkingFile(files, entry.path)) == Success(true)
    ensures entry !in FilterStaged(files, entries)
  {
    FilterMembership(files, entries, entry);
  }

  /** A staged deletion outside the ignored directories is always kept, even
      when the working-tree file is binary or cannot be read. */
  lemma DeletedFileIsKept(files: map<string, FileRead>, entries: seq<FileStatus>, entry: FileStatus)
    requires entry in entries && entry.staging.Deleted? && !ShouldIgnorePath(entry.path)
    ensures entry in FilterStaged(files, entries)
  {
    FilterMembership(files, entries, entry);
  }

  /** A binary check that fails (the file cannot be opened or read) keeps
      the file. */
  lemma FailedBinaryCheckKeepsFile(files: map<string, FileRead>, entries: seq<FileStatus>, entry: FileStatus)
    requires entry in entries && IsStaged(entry.staging) && !ShouldIgnorePath(entry.path)
    requires BinaryCheck(WorkingFile(files, entry.path)).Failure?
    ensures entry in FilterStaged(files, entries)
  {
    FilterMembership(files, entries, entry);
  }

  /** The staged hash of a path is that of its last index entry. */
  lemma {:induction false} IndexMapLastWins(entries: seq<IndexEntry>, i: nat)
    requires i < |entries|
    requires forall j :: i < j < |entries| ==> entries[j].name != entries[i].name
    ensures entries[i].name in IndexMap(entries) && IndexMap(entries)[entries[i].name] == entries[i].hash
  {
    var init := entries[..|entries| - 1];
    if i < |entries| - 1 {
      assert init[i] == entries[i];
      assert forall j :: i < j < |init| ==> init[j] == entries[j];
      IndexMapLastWins(init, i);
      assert entries[|entries| - 1].name != entries[i].name;
    }
  }

  /** Every included file contributes a non-empty block, so the patch is
      empty exactly when no file is included. */
  lemma {:induction false} EmptyPatchIffNoFiles(tree: map<string, TreeFile>, indexMap: map<string, Hash>,
                                                 blobs: map<Hash, string>, included: seq<FileStatus>)
    ensures Patch(tree, indexMap, blobs, included) == "" <==> included == []
  {
    if included != [] {
      var last := included[|included| - 1];
      assert |FileBlock(tree, indexMap, blobs, last)| > 0;
    }
  }

  /** The status, worktree and HEAD lookups that come before the filter all
      succeeded. */
  predicate LookupsSucceed(repo: Repository)
  {
    repo.worktreeAvailable && repo.status.Some? && !repo.head.CommitMissing? && !repo.head.TreeMissing?
  }

  /** Once the lookups before the filter succeed, the result is the empty
      patch exactly when no status entry survives the filter; the index is
      not read and the limit plays no part in that case. */
  lemma EmptyResultIffNothingIncluded(repo: Repository, maxLines: int)
    requires LookupsSucceed(repo)
    ensures StagedChanges(repo, maxLines) == Success("") <==>
            forall entry :: entry in repo.status.value ==> !Included(repo.files, entry)
  {
    EmptyResultIffFilterEmpty(repo, maxLines);
    FilterEmptyIff(repo.files, repo.status.value);
  }

  lemma EmptyResultIffFilterEmpty(repo: Repository, maxLines: int)
    requires LookupsSucceed(repo)
    ensures StagedChanges(repo, maxLines) == Success("") <==> FilterStaged(repo.files, repo.status.value) == []
  {
    var included := FilterStaged(repo.files, repo.status.value);
    if included == [] {
      assert Assemble(repo) == Success("");
    } else if repo.index.Some? {
      var tree := if repo.head.Tree? then repo.head.files else map[];
      var patch := Patch(tree, IndexMap(repo.index.value), repo.blobs, included);
      EmptyPatchIffNoFiles(tree, IndexMap(repo.index.value), repo.blobs, included);
      assert Assemble(repo) == Success(patch);
      NonEmptyWithinBudget(patch, maxLines);
    } else {
      assert Assemble(repo) == Failure(IndexFailed);
    }
  }

  /** The budget never turns a non-empty patch into the empty one. */
  lemma NonEmptyWithinBudget(patch: string, maxLines: int)
    requires patch != ""
    ensures LineBudget(patch, maxLines) != Success("")
  {
  }

  /** Nothing survives the filter exactly when every entry fails it. */
  lemma FilterEmptyIff(files: map<string, FileRead>, entries: seq<FileStatus>)
    ensures FilterStaged(files, entries) == [] <==> forall entry :: entry in entries ==> !Included(files, entry)
  {
    var included := FilterStaged(files, entries);
    forall entry | entry in entries
      ensures entry in included <==> Included(files, entry)
    {
      FilterMembership(files, entries, entry);
    }
    if included != [] {
      FilterMembership(files, entries, included[0]);
    }
  }

  /** The line budget, once a patch was assembled: the call succeeds with the
      whole patch exactly when the limit is not positive or the patch has at
      most that many line feeds; otherwise it fails with both numbers and no
      text. */
  lemma LineBudgetDecides(repo: Repository, maxLines: int, patch: string)
    requires Assemble(repo) == Success(patch)
    ensures StagedChanges(repo, maxLines) == Success(patch) <==> maxLines <= 0 || CountChar(patch, '\n') <= maxLines
    ensures StagedChanges(repo, maxLines).Failure? <==> maxLines > 0 && CountChar(patch, '\n') > maxLines
    ensures StagedChanges(repo, maxLines).Failure? ==>
            StagedChanges(repo, maxLines).error == LineLimitExceeded(maxLines, CountChar(patch, '\n'))
  {
  }

  /** Raising a positive limit never turns success into failure. */
  lemma RaisingLimitKeepsSuccess(repo: Repository, maxLines: int, larger: int)
    requires StagedChanges(repo, maxLines).Success? && 0 < maxLines <= larger
    ensures StagedChanges(repo, larger) == StagedChanges(repo, maxLines)
  {
  }

  /** Failures of the lookups are reported whatever the limit. */
  lemma LookupFailureIgnoresLimit(repo: Repository, maxLines: int)
    requires Assemble(repo).Failure?
    ensures StagedChanges(repo, maxLines) == Assemble(repo)
    ensures !StagedChanges(repo, maxLines).error.LineLimitExceeded?
  {
  }

  /** Line feeds in a string assembled from parts. */
  lemma CountAppend(s: string, t: string)
    ensures CountChar(s + t, '\n') == CountChar(s, '\n') + CountChar(t, '\n')
  {
    assert multiset(s + t) == multiset(s) + multiset(t);
  }

  /** An abbreviated hash holds no line feed. */
  lemma AbbrevHasNoLineFeed(h: Hash)
    ensures CountChar(Abbrev(h), '\n') == 0
  {
    assert '\n' !in Abbrev(h);
  }

  /** A header line whose text has no line feed adds exactly one. */
  lemma LineCount(text: string)
    requires '\n' !in text
    ensures CountChar(Line(text), '\n') == 1
  {
    assert multiset(Line(text)) == multiset(text) + multiset{'\n'};
  }

  lemma NoLineFeedJoin(x: string, y: string)
    requires '\n' !in x && '\n' !in y
    ensures '\n' !in x + y
  {
  }

  /** The fixed parts of the header lines. */
  lemma FixedTextsOfAdded()
    ensures '\n' !in "diff --git a/" && '\n' !in " b/" && '\n' !in "new file mode 100644"
    ensures '\n' !in "index 0000000.." && '\n' !in "--- /dev/null" && '\n' !in "+++ b/"
  {
  }

  lemma FixedTextsOfDeleted()
    ensures '\n' !in "deleted file mode 100644" && '\n' !in "index " && '\n' !in "..0000000"
    ensures '\n' !in "--- a/" && '\n' !in "+++ /dev/null"
  {
  }

  lemma FixedTextsOfModified()
    ensures '\n' !in ".." && '\n' !in " 100644"
  {
  }

  /** Five header lines hold five line feeds. */
  lemma FiveLines(l1: string, l2: string, l3: string, l4: string, l5: string)
    requires '\n' !in l1 && '\n' !in l2 && '\n' !in l3 && '\n' !in l4 && '\n' !in l5
    ensures CountChar(Line(l1) + Line(l2) + Line(l3) + Line(l4) + Line(l5), '\n') == 5
  {
    LineCount(l1);
    LineCount(l2);
    LineCount(l3);
    LineCount(l4);
    LineCount(l5);
    var a, b, c, d, e := Line(l1), Line(l2), Line(l3), Line(l4), Line(l5);
    CountAppend(a, b);
    CountAppend(a + b, c);
    CountAppend(a + b + c, d);
    CountAppend(a + b + c + d, e);
  }

  /** Four header lines hold four line feeds. */
  lemma FourLines(l1: string, l2: string, l3: string, l4: string)
    requires '\n' !in l1 && '\n' !in l2 && '\n' !in l3 && '\n' !in l4
    ensures CountChar(Line(l1) + Line(l2) + Line(l3) + Line(l4), '\n') == 4
  {
    LineCount(l1);
    LineCount(l2);
    LineCount(l3);
    LineCount(l4);
    var a, b, c, d := Line(l1), Line(l2), Line(l3), Line(l4);
    CountAppend(a, b);
    CountAppend(a + b, c);
    CountAppend(a + b + c, d);
  }

  /** For a path without line feeds, the header of an added or deleted file
      is five lines and any other header four. */
  lemma HeaderLineCount(entry: FileStatus, headHash: Hash, stagedHash: Hash)
    requires '\n' !in entry.path
    ensures CountChar(FileHeader(entry, headHash, stagedHash), '\n') ==
            if entry.staging.Added? || entry.staging.Deleted? then 5 else 4
  {
    var path, head, staged := entry.path, Abbrev(headHash), Abbrev(stagedHash);
    assert '\n' !in head && '\n' !in staged;
    FixedTextsOfAdded();
    var gitText := "diff --git a/" + path + " b/" + path;
    NoLineFeedJoin("diff --git a/", path);
    NoLineFeedJoin("diff --git a/" + path, " b/");
    NoLineFeedJoin("diff --git a/" + path + " b/", path);
    if entry.staging.Added? {
      NoLineFeedJoin("index 0000000..", staged);
      NoLineFeedJoin("+++ b/", path);
      FiveLines(gitText, "new file mode 100644", "index 0000000.." + staged, "--- /dev/null", "+++ b/" + path);
    } else if entry.staging.Deleted? {
      FixedTextsOfDeleted();
      NoLineFeedJoin("index ", head);
      NoLineFeedJoin("index " + head, "..0000000");
      NoLineFeedJoin("--- a/", path);
      FiveLines(gitText, "deleted file mode 100644", "index " + head + "..0000000", "--- a/" + path, "+++ /dev/null");
    } else {
      FixedTextsOfDeleted();
      FixedTextsOfModified();
      NoLineFeedJoin("index ", head);
      NoLineFeedJoin("index " + head, "..");
      NoLineFeedJoin("index " + head + "..", staged);
      NoLineFeedJoin("index " + head + ".." + staged, " 100644");
      NoLineFeedJoin("--- a/", path);
      NoLineFeedJoin("+++ b/", path);
      FourLines(gitText, "index " + head + ".." + staged + " 100644", "--- a/" + path, "+++ b/" + path);
    }
  }

  /** The block of a newly added file: the index line shows seven zeros for
      the missing HEAD side, the hunk header claims every line of the staged
      content, and all but its last three lines are shown. */
  lemma AddedFileBlock(tree: map<string, TreeFile>, indexMap: map<string, Hash>, blobs: map<Hash, string>,
                       entry: FileStatus, content: string)
    requires entry.staging.Added? && entry.path in indexMap
    requires indexMap[entry.path] in blobs && content == blobs[indexMap[entry.path]] && content != ""
    ensures FileBlock(tree, indexMap, blobs, entry) ==
            FileHeader(entry, ZeroHash, indexMap[entry.path]) +
            Diff.HeaderLine(1, 0, 1, |Diff.Lines(content)|) +
            Diff.RenderRun('+', Diff.Lines(content)[..Diff.Max(0, |Diff.Lines(content)| - Diff.ContextLines)])
  {
    var hash := indexMap[entry.path];
    var lines := Diff.Lines(content);
    BlockOfSides(tree, indexMap, blobs, entry, Missing, Side(content, hash));
    assert Diff.Lines(Missing.content) == [];
    DiffLaws.NewFileDiff(lines);
    Regroup(FileBlock(tree, indexMap, blobs, entry), FileHeader(entry, ZeroHash, hash), Diff.DiffText([], lines),
            Diff.HeaderLine(1, 0, 1, |lines|), Diff.RenderRun('+', lines[..Diff.Max(0, |lines| - Diff.ContextLines)]));
  }

  /** The block of a deleted file: the index line shows seven zeros for the
      missing staged side, and all but the last three lines of the HEAD
      content are shown as removed. */
  lemma DeletedFileBlock(tree: map<string, TreeFile>, indexMap: map<string, Hash>, blobs: map<Hash, string>,
                         entry: FileStatus, content: string)
    requires entry.staging.Deleted? && entry.path in tree
    requires content == tree[entry.path].content && content != ""
    ensures FileBlock(tree, indexMap, blobs, entry) ==
            FileHeader(entry, tree[entry.path].hash, ZeroHash) +
            Diff.HeaderLine(1, |Diff.Lines(content)|, 1, 0) +
            Diff.RenderRun('-', Diff.Lines(content)[..Diff.Max(0, |Diff.Lines(content)| - Diff.ContextLines)])
  {
    var hash := tree[entry.path].hash;
    var lines := Diff.Lines(content);
    BlockOfSides(tree, indexMap, blobs, entry, Side(content, hash), Missing);
    assert Diff.Lines(Missing.content) == [];
    DiffLaws.DeletedFileDiff(lines);
    Regroup(FileBlock(tree, indexMap, blobs, entry), FileHeader(entry, hash, ZeroHash), Diff.DiffText(lines, []),
            Diff.HeaderLine(1, |lines|, 1, 0), Diff.RenderRun('-', lines[..Diff.Max(0, |lines| - Diff.ContextLines)]));
  }

  lemma Regroup(block: string, header: string, diff: string, hunkHeader: string, run: string)
    requires block == header + diff && diff == hunkHeader + run
    ensures block == header + hunkHeader + run
  {
  }

  /** A file block from its two looked-up sides. */
  lemma BlockOfSides(tree: map<string, TreeFile>, indexMap: map<string, Hash>, blobs: map<Hash, string>,
                     entry: FileStatus, head: Side, staged: Side)
    requires head == HeadSide(tree, entry) && staged == StagedSide(indexMap, blobs, entry)
    ensures FileBlock(tree, indexMap, blobs, entry) ==
            FileHeader(entry, head.hash, staged.hash) + Diff.DiffText(Diff.Lines(head.content), Diff.Lines(staged.content))
  {
  }
}
