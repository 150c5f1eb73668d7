/** Assembly of the staged-changes patch: the staged entries of the worktree
    status are filtered, each surviving file gets a git-style header and a
    single-hunk diff of its HEAD content against its index content, and the
    whole patch is refused when it has more lines than the configured limit.
    The repository is an input value: what the status, HEAD tree, index and
    object store return, including their failures. */
module Staged {
  import opened Wrappers
  import opened Text
  import opened Binary
  import opened Hashes
  import opened Paths
  import Diff

  /** go-git's status codes, as they appear in the staging column. */
  datatype StatusCode =
    | Unmodified | Untracked | Modified | Added | Deleted | Renamed | Copied | UpdatedButUnmerged

  /** The label used when logging a staged file. */
  function StagingStatusString(status: StatusCode): (name: string)
    ensures name == "Unknown" <==> status.Unmodified? || status.Untracked? || status.UpdatedButUnmerged?
  {
    match status
    case Added => "Added"
    case Modified => "Modified"
    case Deleted => "Deleted"
    case Renamed => "Renamed"
    case Copied => "Copied"
    case _ => "Unknown"
  }

  /** Reading a label back. */
  function ParseStagingStatus(name: string): (status: Option<StatusCode>)
    ensures status.Some? ==> StagingStatusString(status.value) == name
  {
    if name == "Added" then Some(Added)
    else if name == "Modified" then Some(Modified)
    else if name == "Deleted" then Some(Deleted)
    else if name == "Renamed" then Some(Renamed)
    else if name == "Copied" then Some(Copied)
    else None
  }

  /** Every status with a label of its own is recovered from that label, so
      the five labels are distinct; the rest share "Unknown". */
  lemma StagingStatusRoundTrip(status: StatusCode)
    ensures StagingStatusString(status) != "Unknown" <==> ParseStagingStatus(StagingStatusString(status)) == Some(status)
    ensures StagingStatusString(status) == "Unknown" ==> ParseStagingStatus(StagingStatusString(status)).None?
  {
  }

  /** One entry of the worktree status: a path and its staging code. */
  datatype FileStatus = FileStatus(path: string, staging: StatusCode)

  /** A file of the HEAD tree: its blob hash and the text its reader gave
      (empty when reading the blob failed). */
  datatype TreeFile = TreeFile(hash: Hash, content: string)

  /** What resolving HEAD gave: no HEAD at all (a repository without
      commits, treated as an empty tree), a HEAD whose commit or tree cannot
      be loaded, or the files of the HEAD tree. */
  datatype HeadState = NoCommits | CommitMissing | TreeMissing | Tree(files: map<string, TreeFile>)

  datatype IndexEntry = IndexEntry(name: string, hash: Hash)

  /** The repository as the patch builder sees it. `status` and `index` are
      `None` when they cannot be read; `blobs` holds the objects that can be
      loaded and read; `files` holds what reading each working-tree file
      gives (a path that is absent cannot be opened). */
  datatype Repository = Repository(
    worktreeAvailable: bool,
    status: Option<seq<FileStatus>>,
    head: HeadState,
    index: Option<seq<IndexEntry>>,
    blobs: map<Hash, string>,
    files: map<string, FileRead>)

  datatype StagedError =
    | WorktreeFailed | StatusFailed | HeadCommitFailed | HeadTreeFailed | IndexFailed
    | LineLimitExceeded(limit: int, lineCount: nat)

  /** The working-tree file the binary check opens. */
  function WorkingFile(files: map<string, FileRead>, path: string): FileRead
  {
    if path in files then files[path] else CannotOpen
  }

  /** Codes that mean the file has something staged. */
  predicate IsStaged(code: StatusCode)
  {
    !code.Unmodified? && !code.Untracked?
  }

  /** The filter: staged, not under an ignored directory, and either deleted
      or not found to be binary (a failed binary check keeps the file). */
  predicate Included(files: map<string, FileRead>, entry: FileStatus)
  {
    IsStaged(entry.staging) && !ShouldIgnorePath(entry.path) &&
    (entry.staging.Deleted? || BinaryCheck(WorkingFile(files, entry.path)) != Success(true))
  }

  /** The entries that survive the filter, in status order. */
  function FilterStaged(files: map<string, FileRead>, entries: seq<FileStatus>): (kept: seq<FileStatus>)
    ensures |kept| <= |entries|
  {
    if entries == [] then []
    else
      var last := entries[|entries| - 1];
      FilterStaged(files, entries[..|entries| - 1]) + (if Included(files, last) then [last] else [])
  }

  /** Path to staged hash; a later index entry for the same name wins. */
  function IndexMap(entries: seq<IndexEntry>): (m: map<string, Hash>)
    ensures forall name :: name in m <==> exists i :: 0 <= i < |entries| && entries[i].name == name
  {
    if entries == [] then map[]
    else
      var last := entries[|entries| - 1];
      var m := IndexMap(entries[..|entries| - 1]);
      assert forall i :: 0 <= i < |entries| - 1 ==> entries[..|entries| - 1][i] == entries[i];
      m[last.name := last.hash]
  }

  /** One side of a file's diff: its content and its blob hash. */
  datatype Side = Side(content: string, hash: Hash)

  const Missing: Side := Side("", ZeroHash)

  /** The HEAD side: not looked up for an added file; a path absent from
      the tree leaves empty content and the zero hash. */
  function HeadSide(tree: map<string, TreeFile>, entry: FileStatus): Side
  {
    if !entry.staging.Added? && entry.path in tree
    then Side(tree[entry.path].content, tree[entry.path].hash)
    else Missing
  }

  /** The staged side: not looked up for a deleted file; a path absent from
      the index leaves empty content and the zero hash, and a blob that
      cannot be loaded leaves the hash but empty content. */
  function StagedSide(indexMap: map<string, Hash>, blobs: map<Hash, string>, entry: FileStatus): Side
  {
    if !entry.staging.Deleted? && entry.path in indexMap then
      var hash := indexMap[entry.path];
      Side(if hash in blobs then blobs[hash] else "", hash)
    else Missing
  }

  /** One line of the header, as one `WriteString` call writes it. */
  function Line(text: string): string
  {
    text + "\n"
  }

  /** The git-style header of one file, by staging code. */
  function FileHeader(entry: FileStatus, headHash: Hash, stagedHash: Hash): (header: string)
    ensures |header| > 0
  {
    var path := entry.path;
    var gitLine := Line("diff --git a/" + path + " b/" + path);
    if entry.staging.Added? then
      gitLine + Line("new file mode 100644") + Line("index 0000000.." + Abbrev(stagedHash))
      + Line("--- /dev/null") + Line("+++ b/" + path)
    else if entry.staging.Deleted? then
      gitLine + Line("deleted file mode 100644") + Line("index " + Abbrev(headHash) + "..0000000")
      + Line("--- a/" + path) + Line("+++ /dev/null")
    else
      gitLine + Line("index " + Abbrev(headHash) + ".." + Abbrev(stagedHash) + " 100644")
      + Line("--- a/" + path) + Line("+++ b/" + path)
  }

  /** Header and diff of one included file. */
  function FileBlock(tree: map<string, TreeFile>, indexMap: map<string, Hash>, blobs: map<Hash, string>,
                     entry: FileStatus): string
  {
    var head := HeadSide(tree, entry);
    var staged := StagedSide(indexMap, blobs, entry);
    FileHeader(entry, head.hash, staged.hash) + Diff.DiffText(Diff.Lines(head.content), Diff.Lines(staged.content))
  }

  /** The blocks of the included files, in order. */
  function Patch(tree: map<string, TreeFile>, indexMap: map<string, Hash>, blobs: map<Hash, string>,
                 included: seq<FileStatus>): string
  {
    if included == [] then ""
    else
      Patch(tree, indexMap, blobs, included[..|included| - 1])
      + FileBlock(tree, indexMap, blobs, included[|included| - 1])
  }

  /** Everything up to, not including, the line budget: the lookups that
      fail the call, the empty result when nothing is included, the patch
      otherwise. */
  function Assemble(repo: Repository): Result<string, StagedError>
  {
    if !repo.worktreeAvailable then Failure(WorktreeFailed)
    else if repo.status.None? then Failure(StatusFailed)
    else if repo.head.CommitMissing? then Failure(HeadCommitFailed)
    else if repo.head.TreeMissing? then Failure(HeadTreeFailed)
    else
      var included := FilterStaged(repo.files, repo.status.value);
      if included == [] then Success("")
      else if repo.index.None? then Failure(IndexFailed)
      else
        var tree := if repo.head.Tree? then repo.head.files else map[];
        Success(Patch(tree, IndexMap(repo.index.value), repo.blobs, included))
  }

  /** The line budget: a positive limit refuses a patch with more line
      feeds than the limit, and reports both numbers. */
  function LineBudget(patch: string, maxLines: int): Result<string, StagedError>
  {
    var lineCount := CountChar(patch, '\n');
    if maxLines > 0 && lineCount > maxLines then Failure(LineLimitExceeded(maxLines, lineCount))
    else Success(patch)
  }

  /** The outcome of `getStagedChanges`. */
  function StagedChanges(repo: Repository, maxLines: int): Result<string, StagedError>
  {
    match Assemble(repo)
    case Failure(e) => Failure(e)
    case Success(patch) => LineBudget(patch, maxLines)
  }

  /** `getStagedChanges`: the status loop collects the files to include, the
      index loop builds the path-to-hash map, and the patch loop writes one
      block per file. */
  method GetStagedChanges(repo: Repository, maxLines: int) returns (r: Result<string, StagedError>)
    ensures r == StagedChanges(repo, maxLines)
  {
    if !repo.worktreeAvailable {
      return Failure(WorktreeFailed);
    }
    if repo.status.None? {
      return Failure(StatusFailed);
    }
    var status := repo.status.value;
    var headTree: map<string, TreeFile>;
    match repo.head {
      case NoCommits =>
        headTree := map[];
      case CommitMissing =>
        return Failure(HeadCommitFailed);
      case TreeMissing =>
        return Failure(HeadTreeFailed);
      case Tree(files) =>
        headTree := files;
    }

    var filesToInclude, stagedFileCount := CollectStaged(repo.files, status);
    if stagedFileCount == 0 {
      return Success("");
    }
    if repo.index.None? {
      return Failure(IndexFailed);
    }
    var indexMap := BuildIndexMap(repo.index.value);
    var patch := WritePatch(headTree, indexMap, repo.blobs, filesToInclude);
    var lineCount := CountChar(patch, '\n');
    if maxLines > 0 && lineCount > maxLines {
      return Failure(LineLimitExceeded(maxLines, lineCount));
    }
    return Success(patch);
  }

  /** The status loop: skip unstaged entries, ignored paths and binary files
      that are not deletions. */
  method CollectStaged(files: map<string, FileRead>, status: seq<FileStatus>)
    returns (filesToInclude: seq<FileStatus>, stagedFileCount: nat)
    ensures filesToInclude == FilterStaged(files, status)
    ensures stagedFileCount == |filesToInclude|
  {
    filesToInclude, stagedFileCount := [], 0;
    for i := 0 to |status|
      invariant filesToInclude == FilterStaged(files, status[..i])
      invariant stagedFileCount == |filesToInclude|
    {
      assert status[..i + 1][..i] == status[..i];
      var entry := status[i];
      if IsStaged(entry.staging) && !ShouldIgnorePath(entry.path) {
        var skip := false;
        if !entry.staging.Deleted? {
          var binary := IsBinary(WorkingFile(files, entry.path));
          skip := binary == Success(true);
        }
        if !skip {
          stagedFileCount := stagedFileCount + 1;
          filesToInclude := filesToInclude + [entry];
        }
      }
    }
    assert status[..|status|] == status;
  }

  /** The index loop: one map assignment per entry. */
  method BuildIndexMap(entries: seq<IndexEntry>) returns (indexMap: map<string, Hash>)
    ensures indexMap == IndexMap(entries)
  {
    indexMap := map[];
    for i := 0 to |entries|
      invariant indexMap == IndexMap(entries[..i])
    {
      assert entries[..i + 1][..i] == entries[..i];
      indexMap := indexMap[entries[i].name := entries[i].hash];
    }
    assert entries[..|entries|] == entries;
  }

  /** The patch loop: the header and the diff of each file, in order. */
  method WritePatch(headTree: map<string, TreeFile>, indexMap: map<string, Hash>, blobs: map<Hash, string>,
                    filesToInclude: seq<FileStatus>) returns (patch: string)
    ensures patch == Patch(headTree, indexMap, blobs, filesToInclude)
  {
    patch := "";
    for i := 0 to |filesToInclude|
      invariant patch == Patch(headTree, indexMap, blobs, filesToInclude[..i])
    {
      assert filesToInclude[..i + 1][..i] == filesToInclude[..i];
      var block := WriteFileBlock(headTree, indexMap, blobs, filesToInclude[i]);
      patch := patch + block;
    }
    assert filesToInclude[..|filesToInclude|] == filesToInclude;
  }

  /** One iteration of the patch loop: look up both sides, then write the
      header and the diff. */
  method WriteFileBlock(headTree: map<string, TreeFile>, indexMap: map<string, Hash>, blobs: map<Hash, string>,
                        entry: FileStatus) returns (block: string)
    ensures block == FileBlock(headTree, indexMap, blobs, entry)
  {
    var headContent, headHash := "", ZeroHash;
    if !entry.staging.Added? && entry.path in headTree {
      headContent, headHash := headTree[entry.path].content, headTree[entry.path].hash;
    }
    var stagedContent, stagedHash := "", ZeroHash;
    if !entry.staging.Deleted? && entry.path in indexMap {
      stagedHash := indexMap[entry.path];
      if stagedHash in blobs {
        stagedContent := blobs[stagedHash];
      }
    }
    assert Side(headContent, headHash) == HeadSide(headTree, entry);
    assert Side(stagedContent, stagedHash) == StagedSide(indexMap, blobs, entry);
    var header := FileHeader(entry, headHash, stagedHash);
    var diffContent := Diff.GenerateUnifiedDiffContent(headContent, stagedContent);
    block := header + diffContent;
  }
}
