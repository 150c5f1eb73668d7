# describe: the staged-changes patch, modelled in Dafny

`describe` reads the staged changes of a git repository, turns them into a
unified-diff-like patch and hands that patch to a language model for a
commit description. This project models the part that decides what that
patch is:

- **Path filter** (`Paths`): a staged path is skipped when one of its
  `/`-separated segments is exactly one of thirteen dependency, build-output,
  cache or virtual-environment directory names.
- **Binary check** (`Binary`): the first read of at most 8192 bytes of the
  working-tree file; empty means text, any NUL byte means binary, otherwise
  binary when fewer than 95% of the bytes are tab, line feed, carriage
  return or printable ASCII. An open or read error is reported as an error.
- **Diff** (`Diff`): `generateUnifiedDiffContent`, the single-hunk diff of
  two texts. It splits both texts on line feeds, scans the common prefix and
  common suffix, widens the changed window by three lines each side, clipped
  to the texts, and writes a `@@ -a,b +c,d @@` header and four runs of lines.
  These are the leading context, the removed lines, the added lines and the
  trailing context.
- **Patch assembly** (`Staged`): `getStagedChanges`. It filters the status
  entries and builds a map from path to staged hash out of the index. For
  each kept file it writes a git-style header (new file, deleted file or
  modified) with seven-digit abbreviated hashes, followed by the diff of
  its HEAD content against its staged content. It refuses the whole patch
  when a positive line limit is exceeded. `stagingStatusString` gives the
  label of a status code.
- **Hashes** (`Hashes`): the 40-digit hexadecimal form of a 20-byte object
  name and its seven-digit abbreviation.

The repository is an input value (`Staged.Repository`). It carries:
- whether the worktree could be opened;
- the status entries, or their failure;
- the HEAD state: no commits, commit missing, tree missing, or the tree's files;
- the index entries, or their failure;
- the loadable blobs;
- what reading each working-tree file gives.

A failed lookup of a HEAD file or of an index entry leaves empty content and
the zero hash, which prints as `0000000`. A blob that cannot be loaded
leaves its hash and empty content, as the source does.

The imperative parts are methods with loops, each proved equal to a
function. These are the prefix and suffix scans, the four writing loops,
the sample classification loop, the filter loop, the index loop and the
patch loop. The laws are proved about those functions (`DiffLaws`,
`StagedLaws`).

### Truncated removed and added runs

The removed and added loops (main.go:569, main.go:576) stop at
`commonPrefix + count - 3`, where `count` is the window size after widening.
So when the common prefix and common suffix together hold fewer than three
lines, the last `3 - prefix - suffix` changed lines of each side are not
written. The model keeps this behaviour:
- `DiffLaws.HunkAppliesIff` states exactly when the hunk is still a correct patch;
- `DiffExamples.OnlyLineChangedShowsNoChange` shows that `"x\n"` staged as
  `"y\n"` gives a hunk with no `-` or `+` line;
- `DiffLaws.NewFileDiff` shows that a new file loses its last three lines.

The ratio test `float64(printable)/float64(n) < 0.95` is modelled as
`20 * printable < 19 * n`. `Binary.RatioThreshold` proves this equals the
exact real comparison. For samples of at most 8192 bytes the float64
rounding cannot change the outcome. An exact ratio of 0.95 rounds to the
same double as the literal. Any other ratio is at least `1/(20n)` away from
0.95, far more than one rounding step.

## Model

| member | source | states |
|---|---|---|
| Paths.ShouldIgnorePath | main.go:69-79 | a path is ignored exactly when some segment of its `/` split is one of the listed directory names |
| Paths.MatchesAny | main.go:72-76 | the inner search succeeds exactly when the segment is in the list |
| Paths.AnyIgnored | main.go:71-78 | the outer search succeeds exactly when some segment is in the list |
| Paths.IgnoredIffSomeSegment | main.go:52-79 | for a path joined from slash-free names, ignored iff one of the names is an ignored directory |
| Paths.IgnoredUnderDirectory | main.go:69-79 | `dir/rest` is ignored iff `dir` or `rest` is |
| Paths.HasIgnoredSegmentAppend | main.go:71-77 | an ignored segment occurs in a concatenation of segment lists iff it occurs in one of them |
| Paths.NearMissIsKept | main.go:73 | the match is exact: `vendor_backup/file.go` is kept |
| Paths.PlainFileIsKept | main.go:52-79 | `main.go` at the top level is kept |
| Paths.NestedVendorIsIgnored | main.go:71-75 | an ignored name counts at any depth: `src/vendor/lib.go` is ignored |
| Binary.PrintableCount | main.go:108-113 | the printable count never exceeds the sample length |
| Binary.RatioThreshold | main.go:114-115 | `p/n < 0.95` over the reals iff `20p < 19n` |
| Binary.SampleIsBinary | main.go:97-115 | the classification of a sample: non-empty and either holding a NUL or with an exact printable ratio below 0.95 |
| Binary.BinaryCheck | main.go:82-116 | the outcome of the check: open failure, read failure, or the classification of the sample |
| Binary.ClassifySample | main.go:97-115 | the loop's verdict is the sample classification: empty is text, a NUL is binary, else the printable ratio decides |
| Binary.Sample | main.go:89-95 | the sample is the first `min(n, 8192)` bytes of the file |
| Binary.IsBinary | main.go:82-116 | the check fails exactly when the file cannot be opened or read, and otherwise classifies the sample |
| Binary.EmptyIsText | main.go:97-100 | an empty file is text |
| Binary.NulMeansBinary | main.go:102-105 | a NUL byte anywhere in the first 8192 bytes makes the file binary |
| Binary.OnlySampleMatters | main.go:89-95 | bytes beyond the first 8192 never change the verdict |
| Binary.PrintableCountAppend | main.go:108-113 | the printable count is additive over concatenation |
| Binary.TextIffMostlyPrintable | main.go:102-115 | a non-empty sample is text iff it has no NUL and at least 95% printable bytes |
| Binary.ThresholdIsInclusive | main.go:115 | 19 printable of 20 is text, 18 of 20 is binary |
| Binary.AllPrintable | main.go:110 | a sample of printable ASCII counts every byte |
| Hashes.Hex | main.go:439 | the hexadecimal form of a hash has two lower-case digits per byte |
| Hashes.HexRoundTrip | main.go:439 | decoding the hexadecimal form gives the bytes back |
| Hashes.HexPrefix | main.go:439 | the first `2k` digits encode the first `k` bytes |
| Hashes.Abbrev | main.go:439 | the abbreviation is seven hexadecimal digits |
| Hashes.AbbrevZero | main.go:409 | the zero hash of a failed lookup prints as `0000000` |
| Hashes.AbbrevOfZeroBytes | main.go:439 | any hash starting with four zero bytes prints as `0000000` |
| Hashes.AbbrevOfFirstBytes | main.go:439 | the abbreviation depends only on the first four bytes |
| Hashes.AbbrevDecodes | main.go:439 | the first six digits of the abbreviation decode to the first three bytes |
| Text.Split | main.go:491-492 | splitting yields at least one part and no part contains the separator |
| Text.JoinSplit | main.go:491-492 | joining the parts of a split gives the text back |
| Text.SplitJoin | main.go:70 | splitting a join of separator-free parts gives the parts back |
| Text.SplitAround | main.go:70 | splitting around one separator splits the two sides |
| Text.SplitLength | main.go:491 | a split has one more part than the text has separators |
| Text.Decimal | main.go:560-561 | the decimal numeral is non-empty, all digits, without a leading zero |
| Text.DecimalRoundTrip | main.go:560-561 | reading the numeral back gives the number |
| Diff.Lines | main.go:491-500 | empty text gives no lines; otherwise the lines are feed-free, join back to the text and number one more than its line feeds |
| Diff.LinesInjective | main.go:491-500 | different texts have different lines |
| Diff.PrefixLen | main.go:507-515 | the common prefix is common and cannot be extended |
| Diff.SuffixLen | main.go:517-523 | the common suffix within its bound is common and cannot be extended |
| Diff.PrefixLenUnique | main.go:513-515 | a common prefix that cannot be extended is the longest one |
| Diff.SuffixLenUnique | main.go:520-523 | a common suffix that cannot be extended within the bound is the one computed |
| Diff.CommonSuffix | main.go:520 | the common prefix and suffix never overlap on either side |
| Diff.ComputeHunk | main.go:526-534 | there is no hunk exactly when the line sequences are equal; the hunk starts on the same line on both sides |
| Diff.DiffText | main.go:531-534 | the diff is empty exactly when the line sequences are equal |
| Diff.EmittedCount | main.go:569-579 | the number of changed lines a removed or added loop writes: the run length less `max(0, 3 - prefix - suffix)`, never negative |
| Diff.ChangedEnd | main.go:569-579 | the index where a removed or added loop stops, between the common prefix and the start of the common suffix |
| Diff.HunkOf | main.go:536-586 | the hunk of a prefix/suffix split: window widened by three lines and clipped, with truncated changed runs; both sides start on the same line and the header ranges lie within the texts and reach the common suffix |
| Diff.HeaderLine | main.go:560-561 | the `@@ -%d,%d +%d,%d @@` line with its line feed |
| Diff.ScanCommonPrefix | main.go:507-515 | the prefix loop stops at the longest common prefix |
| Diff.ScanCommonSuffix | main.go:517-523 | the suffix loop stops at the longest common suffix that does not overlap the prefix |
| Diff.Window | main.go:536-557 | the window is the changed region widened by three lines each side and clipped |
| Diff.WindowRender | main.go:559-586 | the header and the four loop runs concatenate to the rendered hunk |
| Diff.LoopBound | main.go:569-579 | the removed/added loop bound writes `max(0, changed - max(0, 3 - prefix - suffix))` lines |
| Diff.WriteContextBefore | main.go:563-566 | the loop appends the leading context lines |
| Diff.WriteChanged | main.go:568-580 | the loop appends the removed or added lines up to the truncated bound |
| Diff.WriteContextAfter | main.go:582-586 | the loop appends the trailing context lines |
| Diff.WriteHunk | main.go:536-588 | the hunk written from the scanned prefix and suffix is the rendered hunk |
| Diff.GenerateUnifiedDiffContent | main.go:490-589 | the output is the diff text of the two line sequences, and it is empty exactly when the two texts are equal |
| DiffLaws.HunkAppliesIff | main.go:526-589 | the hunk applied to the old lines gives the new lines exactly when the common prefix and suffix together hold at least three lines |
| DiffLaws.HunkOfAppliesIff | main.go:536-586 | for any split into shared prefix, changed middle and shared suffix, the hunk is a correct patch iff the prefix and suffix hold at least three lines |
| DiffLaws.AppliesBySides | main.go:559-561 | a hunk applies iff its old side is the header's old range and its new side the header's new range |
| DiffLaws.EmittedAll | main.go:569-579 | a changed run is written in full iff it is empty or prefix and suffix hold at least three lines |
| DiffLaws.SideAppend | main.go:563-586 | taking one side of a hunk distributes over concatenation |
| DiffLaws.HunkSides | main.go:563-586 | the old side of the four runs is context, removed, context; the new side is context, added, context |
| DiffLaws.SharedContext | main.go:563-586 | the context lines read from the old text are also the new text's |
| DiffLaws.NewFileDiff | main.go:495-580 | a diff from nothing claims every new line in its header but prints all but the last three |
| DiffLaws.DeletedFileDiff | main.go:495-573 | a diff to nothing claims every old line but prints all but the last three as removed |
| DiffExamples.OnlyLineChangedShowsNoChange | main.go:490-589 | `"x\n"` changed to `"y\n"` gives `@@ -1,2 +1,2 @@` and a single blank context line |
| Staged.StagingStatusString | main.go:472-487 | the label is `Unknown` exactly for unmodified, untracked and unmerged codes |
| Staged.ParseStagingStatus | main.go:472-487 | a label read back names a code with that label |
| Staged.StagingStatusRoundTrip | main.go:472-487 | each of the five labelled codes is recovered from its label |
| Staged.Included | main.go:357-376 | the filter test: staged, not under an ignored directory, and deleted or not found binary |
| Staged.HeadSide | main.go:407-416 | the HEAD side: zero hash and empty content for an added file or a path absent from the tree |
| Staged.StagedSide | main.go:418-433 | the staged side: zero hash and empty content for a deleted file or a path absent from the index; the hash with empty content for a blob that cannot be loaded |
| Staged.FileBlock | main.go:435-457 | one file's header followed by the diff of its HEAD and staged contents |
| Staged.Patch | main.go:402-458 | the blocks of the kept files concatenated in order |
| Staged.Assemble | main.go:319-458 | the lookups that fail the call in source order, the empty result when nothing is kept, else the patch |
| Staged.LineBudget | main.go:460-469 | a positive limit below the patch's line-feed count fails with both numbers; otherwise the patch is returned |
| Staged.StagedChanges | main.go:319-470 | a lookup failure, or the assembled patch under the line budget |
| Staged.FilterStaged | main.go:355-381 | the filter keeps at most the status entries |
| Staged.CollectStaged | main.go:352-381 | the filter loop keeps exactly the filtered entries, and the count equals their number |
| Staged.IndexMap | main.go:394-398 | a path has a staged hash exactly when some index entry names it |
| Staged.BuildIndexMap | main.go:394-398 | the index loop builds that map |
| Staged.FileHeader | main.go:435-453 | every file header is non-empty |
| Staged.WriteFileBlock | main.go:404-457 | one loop pass writes the header and diff of the looked-up HEAD and staged sides |
| Staged.WritePatch | main.go:400-458 | the patch loop writes the blocks of the kept files in order |
| Staged.GetStagedChanges | main.go:319-470 | the result is the staged-changes outcome: lookup errors in source order, empty patch when nothing is kept, else the patch under the line budget |
| StagedLaws.FilterMembership | main.go:355-381 | an entry is kept exactly when it is a status entry that is staged, not ignored, and deleted or not binary |
| StagedLaws.FilterAppend | main.go:355-381 | filtering a concatenation filters its parts |
| StagedLaws.DroppedEntryChangesNothing | main.go:355-381 | removing an entry the filter drops leaves the outcome unchanged |
| StagedLaws.SameFilterSameOutcome | main.go:355-469 | the status influences the outcome only through the kept entries |
| StagedLaws.IgnoredPathChangesNothing | main.go:361-365 | an entry under an ignored directory never influences the outcome |
| StagedLaws.UnstagedEntryChangesNothing | main.go:356-359 | an unmodified or untracked entry never influences the outcome |
| StagedLaws.BinaryFileIsDropped | main.go:367-376 | a binary working file is dropped unless it is staged for deletion |
| StagedLaws.DeletedFileIsKept | main.go:367-368 | a staged deletion outside the ignored directories is always kept |
| StagedLaws.FailedBinaryCheckKeepsFile | main.go:369-371 | a failed binary check keeps the file |
| StagedLaws.IndexMapLastWins | main.go:396-398 | a path's staged hash is that of its last index entry |
| StagedLaws.EmptyPatchIffNoFiles | main.go:404-458 | the patch is empty exactly when no file is kept |
| StagedLaws.EmptyResultIffNothingIncluded | main.go:383-385 | once the earlier lookups succeed, the result is the empty patch exactly when no entry passes the filter |
| StagedLaws.FilterEmptyIff | main.go:383-385 | nothing is kept exactly when every entry fails the filter |
| StagedLaws.LineBudgetDecides | main.go:460-469 | the whole patch is returned iff the limit is not positive or the patch has at most that many line feeds; else the error carries both numbers |
| StagedLaws.RaisingLimitKeepsSuccess | main.go:464 | raising a positive limit never turns success into failure |
| StagedLaws.LookupFailureIgnoresLimit | main.go:319-392 | a lookup failure is reported whatever the limit |
| StagedLaws.HeaderLineCount | main.go:436-453 | for a path without line feeds, a header adds five lines for an added or deleted file and four otherwise |
| StagedLaws.AddedFileBlock | main.go:407-456 | an added file's block is its header followed by a hunk header claiming every staged line and all but the last three staged lines as added |
| StagedLaws.DeletedFileBlock | main.go:407-456 | a deleted file's block is its header followed by a hunk header claiming every HEAD line and all but the last three HEAD lines as removed |

## Left out

- Worktree, status, HEAD, commit, tree, index and blob lookups are go-git
  calls. They are inputs of the model, each with its possible failure. The
  error message texts are not modelled; an error is a constructor.
- The status is a Go map and is iterated in an unspecified order. The model
  takes the status as a sequence, so the order of the file blocks is the
  order of that sequence.
- A HEAD file's `TreeFile.content` is the text its `Contents` call gave,
  with the error ignored as in the source; `TreeFile` is an input.
- `blobs[h]` stands for whatever bytes `io.ReadAll` returned for the blob,
  which after a read error are the bytes read so far. A hash missing from
  `blobs` is a blob that `BlobObject` could not load.
- A failing `blob.Reader()` leaves a nil reader, and the source then panics
  in `io.ReadAll` or `reader.Close()` (main.go:427-429). The model has no
  such crash: every loadable blob has content.
- `os.Open`/`f.Read` are inputs: `Binary.FileRead` says whether opening
  failed, reading failed, or what the file holds. The first `Read` is taken
  to fill the 8192-byte buffer as far as the file allows; a short first read
  of a longer file is not modelled.
- The status is a Go map, so it never holds two entries for one path. The
  model's status sequence may; such inputs are outside the source's domain
  and the model's laws make no use of distinct paths.
- `filepath.ToSlash` is the identity on the `/`-separated paths go-git
  reports, so it is not modelled.
- Debug logging, configuration loading, the command line, the HTTP clients
  for the language-model providers and the prompt text are not part of this
  model.
- Object hashes are any 20-byte values. SHA-1 itself is not modelled.
- Staged.FileHeader: its ensures only says the header is non-empty. The
  three header forms (new file, deleted file, other) are its body's literal
  text, and `StagedLaws.HeaderLineCount` states their line counts; no lemma
  restates the `new file mode`, `deleted file mode` or `/dev/null` lines.
