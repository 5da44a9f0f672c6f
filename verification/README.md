# haiku-format-bot, modelled in Dafny

The model covers the core of haiku-format-bot, a bot that checks the formatting of changes on Haiku's Gerrit instance. For each file of a change it:

- decides whether the file goes to `haiku-format` and on which line ranges;
- reads the unified diffs of the patch and of the formatter's output into line segments (`formatchecker/llvm.py`);
- turns the formatter's suggestions into review comments (`formatchecker/core.py`);
- withholds comments that touch the inside of a top-level `class`/`struct` body, which is a workaround for the formatter's column layout.

The model is written in Dafny 4.11.

Modules:

- `Text` (`text.dfy`): string helpers shared by the other modules. It covers:
  - Python's `$` (end of text, or before a final line feed);
  - `str.isspace`;
  - decimal digits and `int()` on ASCII digits;
  - Python slice semantics.
- `Models` (`models.dfy`): `Segment`, `FormatSegment` and `File` from `formatchecker/models.py`, plus `Change`.
  - `FormatSegment` is a three-way datatype: insertion, modification, deletion.
  - Its constructor refuses an insertion without content. This follows the test suite (`tests/test_models.py`), which expects that shape to raise.
- `ClassFinder` (`class_finder.dfy`): `get_class_lines_in_file` as a pure scan function and as the source's loop, with its invariants.
- `ClassFinderExamples` (`class_finder_examples.dfy`): the test fixture `tests/data/test_class_finder.cpp`, line by line, and the test's expected result.
- `Llvm` (`llvm.dfy`): three parts of `formatchecker/llvm.py`:
  - `parse_diff_segments`, with its two regular expressions written out exactly;
  - `_parse_input_diff`;
  - `_split_format_segments`.
- `Review` (`review.dfy`): `_change_to_review_input`: the class-line suppression, the comment ranges and messages, and the verdict.
- `Core` (`core.dfy`): the per-file decision of `reformat_change`, including `EXTENSION_PATTERN` under `re.IGNORECASE`, and the whole pipeline over a change. The pipeline runs formatter, then `set_formatted_contents`, then splitter, then review mapper.

External programs are function parameters:

- `formatter` stands for `haiku-format`. It takes the patched lines and the ranges, and returns the formatted lines or nothing.
- `differ` stands for `difflib.unified_diff`. It takes the old and the new lines and returns the diff lines.

## Model

| member | source | states |
|---|---|---|
| Text.PySlice | formatchecker/llvm.py:148 | Python's `s[i:j]` for any integers: the ordinary subsequence when the bounds are in range, never longer than `s` |
| Text.IntToString | formatchecker/models.py:29 | `%i`: decimal digits without leading zeros, led by `-` exactly for a negative number |
| Text.CanonicalIntUnique | formatchecker/models.py:29 | a canonical decimal text that reads as `i` is the `%i` rendering of `i`: the rendering is the only such text |
| Models.Segment.FormatRange | formatchecker/models.py:23-29 | raises `ValueError` with the source's message exactly when the end is missing; otherwise the text is canonical `"%i:%i"` (no leading zeros, `-` only for a negative number) and reads back to the two numbers |
| Models.FormatRangeParses | formatchecker/models.py:29 | the `"%i:%i"` rendering of any two integers, negative ones included, is canonical and parses back to those integers |
| Models.FormatRangeUnique | formatchecker/models.py:23-29 | any canonical `"a:b"` text that reads back to a segment's start and end is exactly what `format_range` returns for it |
| Models.FormatRangeExample | tests/test_models.py:32-35 | `Segment(1, 5)` gives `"1:5"` |
| Models.NewFormatSegment | tests/test_models.py:43-68 | insertion iff no end, deletion iff no content, modification otherwise; start, end and content are kept; an insertion without content is refused with `ValueError`; a valid range gives a valid segment |
| Models.ExactlyOneClassification | formatchecker/models.py:44-66 | a segment is accepted exactly when one of `is_insert`, `is_delete`, `is_modification` holds |
| Models.NewFile | formatchecker/models.py:79-85 | a new file keeps its name and both contents, and has no formatted contents and no segments |
| Models.AddPatchSegment | formatchecker/models.py:87-90 | appends `Segment(start, end)` at the end of the patch segments; nothing else changes |
| Models.AddFormatSegment | formatchecker/models.py:92-95 | fails exactly when the segment constructor refuses; otherwise appends that segment; nothing else changes |
| Models.SetFormattedContents | formatchecker/models.py:97-101 | output equal to the patched contents changes nothing; any other output is stored; only the formatted contents can change |
| Models.SetFormattedContentsIdempotent | formatchecker/models.py:97-101 | storing the same output twice equals storing it once |
| Models.UnchangedOutputLeavesNoContents | formatchecker/models.py:79-101 | a fresh file whose formatter output equals its patched contents keeps no formatted contents |
| ClassFinder.IsDefinitionStart | formatchecker/core.py:129 | a match starts with `class ` or `struct `; every such line without a line feed matches |
| ClassFinder.IsDeclaration | formatchecker/core.py:128 | a match is also a definition start and holds a `;` |
| ClassFinder.PatternsOnRest | formatchecker/core.py:128-129 | the two class patterns hold iff the line starts with `class ` or `struct ` and the rest has no line feed before an optional final one, ending in `;` for the declaration pattern |
| ClassFinder.StepInfo | formatchecker/core.py:144-162 | one loop iteration keeps the invariant "outside a class the level is 0" and reports a line iff the scan is inside a class before and after it |
| ClassFinder.Step | formatchecker/core.py:144-162 | the same for a raw line, classified by the two patterns with the declaration pattern tried first |
| ClassFinder.StepCases | formatchecker/core.py:144-162 | case by case: declarations and non-keyword lines outside a class change nothing; a definition start enters the class at the line's brace balance; inside, the level moves by the balance, leaving at 0 |
| ClassFinder.StateAfter | formatchecker/core.py:140-162 | the state after any prefix of the lines satisfies the invariant |
| ClassFinder.ClassLinesUpToOrdered | formatchecker/core.py:143-162 | the line numbers collected so far are strictly increasing and lie in `1..k` |
| ClassFinder.ClassLinesUpToMembers | formatchecker/core.py:143-162 | a line up to `k` is collected iff the scan reports it |
| ClassFinder.ClassLines | formatchecker/core.py:132-163 | the line numbers are strictly increasing and within `1..len(contents)` |
| ClassFinder.ClassLinesProperties | formatchecker/core.py:132-163 | an empty file gives `[]`; the result is strictly increasing, within `1..len(contents)`, and holds exactly the reported lines |
| ClassFinder.ScanLine | formatchecker/core.py:144-162 | the loop body with its `continue`s computes one `Step` |
| ClassFinder.GetClassLinesInFile | formatchecker/core.py:132-163 | the loop computes `ClassLines`, with all of the properties above |
| ClassFinder.InsideBeforeAndAfter | formatchecker/core.py:156-162 | line `n` is in the result iff the scan is inside a class both before and after line `n` |
| ClassFinder.ReportedIff | formatchecker/core.py:156-162 | line `n` is in the result iff the scan was inside a class and the level after the line is not 0 |
| ClassFinder.NoKeywordNoClass | formatchecker/core.py:148-154 | a line that does not start with `class ` or `struct ` never opens a class and is never reported |
| ClassFinder.ScanAppend | formatchecker/core.py:143-162 | scanning `a + b` equals scanning `a`, then `b` from the state `a` leaves |
| ClassFinder.ScanIsClassLines | formatchecker/core.py:143-162 | the scan over the classified lines from the start state is `ClassLines` |
| ClassFinderExamples.FixtureAnyComments | tests/data/test_class_finder.cpp:1-55 | for the fixture with any comment lines, the class lines are the test's expected list |
| ClassFinderExamples.FixtureClassLines | tests/test_core.py:14-19 | the fixture's class lines are `[14, 19, 20, 21, 38, 39, 40, 41, 42, 43, 44, 45, 46, 47, 53, 54]` |
| Llvm.FilenameOf | formatchecker/llvm.py:48-50 | a match starts with `+++ ` and contains a `/`; the captured name has no whitespace |
| Llvm.HeaderOf | formatchecker/llvm.py:55 | a match starts with `@@ -` followed by a digit |
| Llvm.NonSpaceRun | formatchecker/llvm.py:48 | `(\S*)`: the longest prefix of non-whitespace, stopping at the first whitespace character |
| Llvm.NonSpaceRunOf | formatchecker/llvm.py:48 | a non-whitespace name followed by whitespace or the end reads back as that name |
| Llvm.NameAfterDirectoryRoundTrip | formatchecker/llvm.py:48-50 | after a directory without `/` or line feed, `(.*?/)(\S*)` captures exactly the name |
| Llvm.FilenameRoundTrip | formatchecker/llvm.py:48-50 | `+++ dir/name` followed by whitespace or the end is read as file `name` |
| Llvm.HeaderIsNotFilename | formatchecker/llvm.py:48-55 | a hunk header line never matches the file name pattern |
| Llvm.OptionalCountRoundTrip | formatchecker/llvm.py:55 | the optional `,count` group reads back what was rendered, absent or present |
| Llvm.NumberAndCountRoundTrip | formatchecker/llvm.py:55 | a start number with an optional count reads back to the same number and count |
| Llvm.HeaderRoundTrip | formatchecker/llvm.py:55 | a rendered `@@ -a[,n] +b[,m] @@` header reads back to its four groups, whatever follows |
| Llvm.HunkOf | formatchecker/llvm.py:56-83 | starts as written; `a_end` absent iff the old count is 0, otherwise start + count − 1 with count defaulting to 1; `b_end` absent iff the new count is written as 0, the same arithmetic otherwise |
| Llvm.HeaderExamples | tests/test_llvm.py:44-46 | `@@ -4 +3,0 @@` gives `(4, 4, 3, None)` and `@@ -42,0 +42 @@` gives `(42, None, 42, 42)`, as in the test's expectation |
| Llvm.Consume | formatchecker/llvm.py:46-52 | a file name line sets the current file name, and any other line keeps it |
| Llvm.ParseDiffSegments | formatchecker/llvm.py:30-87 | every file in the result has at least one hunk, because only a hunk header adds a key |
| Llvm.ParseDiffSegmentsSpec | formatchecker/llvm.py:30-87 | the final file name is the last one seen; a file is a key iff hunk headers follow a line naming it; its list is those hunks in order, against an independent filter |
| Llvm.NoFilenameNoHunks | formatchecker/llvm.py:44-52 | without a file name line nothing is collected |
| Llvm.RunAppend | formatchecker/llvm.py:46-86 | parsing `a + b` equals parsing `b` from the state `a` leaves |
| Llvm.IgnoredPrefix | formatchecker/llvm.py:48-52 | lines before the first file name line do not affect the result |
| Llvm.PatchSegmentsOf | formatchecker/llvm.py:100-104 | the kept hunks give segments that all have an end, no more than there are hunks |
| Llvm.ParseInputDiff | formatchecker/llvm.py:90-104 | the same file names come out; only the patch segments change, and they only grow at the end |
| Llvm.AddPatchHunksSpec | formatchecker/llvm.py:100-104 | the loop appends one `(b_start, b_end)` segment per hunk with a `b_end`, in order; nothing else changes |
| Llvm.ParseInputDiffSpec | formatchecker/llvm.py:90-104 | the same files come out; a file without hunks is unchanged; every file gets exactly its own hunks' segments appended; diff names outside `files` are ignored |
| Llvm.HunkContent | formatchecker/llvm.py:144-148 | empty when `b_end` is falsy; otherwise the formatted lines `b_start..b_end`, as many as the range has when it lies inside the file |
| Llvm.HunkSegmentCases | formatchecker/llvm.py:143-148 | a falsy `b_end` gives a deletion of `a_start..a_end`, or raises when `a_end` is absent; otherwise an insertion or a modification carrying exactly the formatted lines |
| Llvm.AddFormatHunks | formatchecker/llvm.py:143-148 | on success exactly one format segment per hunk is appended after the existing ones, and nothing else changes |
| Llvm.AddFormatHunksSucceeds | formatchecker/llvm.py:143-148 | the loop succeeds iff every hunk gives a valid segment |
| Llvm.AddFormatHunksSpec | formatchecker/llvm.py:143-148 | on success, the hunks' segments are appended in order and nothing else changes |
| Llvm.SplitFormatSegments | formatchecker/llvm.py:135-148 | no formatted contents: unchanged; otherwise succeeds iff the patched contents exist, the diff has hunks for `file` and each hunk gives a segment; the result appends those segments |
| Llvm.SplitFormatSegmentsSucceeds | formatchecker/llvm.py:140-142 | when the differ writes the two `patch/file` and `formatted/file` headers and at least one hunk, the lookup of `file` succeeds |
| Llvm.FormattedFileHeader | formatchecker/llvm.py:140-142 | the `+++ formatted/file` header names the file `file` |
| Review.LineSpan | formatchecker/core.py:92 | `set(range(start, end + 1))` holds exactly the integers from `start` to `end` |
| Review.SuppressedIff | formatchecker/core.py:92-95 | a segment is withheld iff some class line lies between its start and its effective end |
| Review.CommentOf | formatchecker/core.py:84-103 | the comment spans the segment's start to its end, or to its start for an insertion, at character 0 |
| Review.CommentCases | formatchecker/core.py:84-108 | insertion: "insert after" with the content; modification: "change" with the content; deletion: the removal message |
| Review.SuggestionQuotesContent | formatchecker/core.py:107-108 | a suggestion message is the fixed head, the joined content, and the closing fence, so the content can be read back from it |
| Review.SegmentComments | formatchecker/core.py:83-111 | never more comments than segments |
| Review.KeptPositionsIncreasing | formatchecker/core.py:83-95 | the kept segments keep their order |
| Review.KeptPositionsMembers | formatchecker/core.py:83-95 | a segment is kept iff it is not withheld |
| Review.SegmentCommentsSpec | formatchecker/core.py:83-111 | the comments are those of the kept segments, in segment order |
| Review.ClassLineSet | formatchecker/core.py:82 | the set holds exactly the lines the class finder returns |
| Review.FileComments | formatchecker/core.py:78-82 | no formatted contents or no segments: no comment; segments without patched contents: the class scan raises; otherwise the segment comments over the file's class lines |
| Review.AddComments | formatchecker/core.py:109-111 | `setdefault(...).extend(c)`: no new key for no comments; otherwise the name's list, or `[]`, is extended by `c`; other names are untouched |
| Review.CollectComments | formatchecker/core.py:77-111 | on success every key has at least one comment and is the name of a file of the change |
| Review.CollectCommentsSucceeds | formatchecker/core.py:77-111 | the loop over the files succeeds iff every file's comments do |
| Review.CollectCommentsSpec | formatchecker/core.py:77-111 | a file name is a key iff its files have comments; its value is their comments in file order, checked against an independent concatenation |
| Review.CommentsForNonEmpty | formatchecker/core.py:109-111 | a name has comments iff one of the files with that name has a comment |
| Review.NoCommentsIff | formatchecker/core.py:113 | no comments at all iff no file has a comment |
| Review.ChangeToReviewInput | formatchecker/core.py:75-125 | produced iff the comments are; the owner is notified; the only label is `Haiku-Format`, +1 with the approval message iff no comments, −1 iff some |
| Review.ChangeToReviewInputSucceeds | formatchecker/core.py:75-125 | the review is produced iff every file's comments are |
| Review.ChangeToReviewInputVerdict | formatchecker/core.py:113-125 | the owner is notified; the only label is `Haiku-Format`; +1 with the approval message iff no file has comments, −1 with the suggestions message otherwise |
| Review.ChangeToReviewInputComments | formatchecker/core.py:77-111 | the review comments on a file name iff one of its files has comments, with the comments in order |
| Review.MessagesDiffer | formatchecker/core.py:113-123 | the approval and suggestion messages differ, so the message alone tells the verdict |
| Core.IsSupportedFile | formatchecker/core.py:22-23 | an accepted name holds a `.` and at least one other character; the exact condition is `SupportedIffLastDot` |
| Core.ExtensionSpelling | formatchecker/core.py:22-23 | every alternative of the extension group is spelled with lower-case ASCII letters and `+` |
| Core.ExtensionPlain | formatchecker/core.py:22-23 | what the extension group matches under `re.IGNORECASE` consists of letters and `+`; it has no `.` and no line feed |
| Core.SupportedIffLastDot | formatchecker/core.py:22-23 | the pattern accepts a name iff, before an optional final line feed, it has no line feed, has a `.`, and the text after the last `.` matches an extension in any case |
| Core.UpperCaseExample | formatchecker/core.py:37 | `Looper.CPP` is accepted |
| Core.FinalFeedExample | formatchecker/core.py:37 | `Looper.h` followed by a final line feed is accepted |
| Core.NoDotExample | formatchecker/core.py:37 | `Jamfile` is refused |
| Core.InnerFeedExample | formatchecker/core.py:37 | a name with a line feed inside is refused |
| Core.DigitExample | formatchecker/core.py:37 | `theme.mp3` is refused |
| Core.FormatRanges | formatchecker/core.py:49-51 | one `"start:end"` per patch segment, in order, each reading back to its segment; raises the range's `ValueError` iff a segment lacks an end |
| Core.Decide | formatchecker/core.py:36-54 | unsupported name, deleted file, or modified file with only deletions: skipped; new file: no ranges; modified file: one range per patch segment |
| Core.ParsedFilesDecide | formatchecker/core.py:46-51 | after the patch diff is read, every file's decision succeeds, because diff segments always have an end |
| Core.ReformatFile | formatchecker/core.py:36-56 | a skipped file is unchanged; so is a fresh file the formatter leaves as it was; the file name and contents never change; changed output is stored and no output clears the formatted contents; the format segments gained are exactly the splitter's segments for the hunks of `file`, in order, and none when nothing is stored |
| Core.EachFile | formatchecker/core.py:36 | on success one file comes out per file; a failure is caused by some file's step failing |
| Core.EachFileSucceeds | formatchecker/core.py:36 | the loop over the files succeeds iff every file does |
| Core.EachFileSpec | formatchecker/core.py:36 | on success, the files come out in order, each as the driver leaves it |
| Core.ReformatChange | formatchecker/core.py:36-62 | raises when the driver raises on any file; otherwise the only label is `Haiku-Format`, +1 iff nothing is commented, −1 iff something is |
| Core.QuietChangeApproved | formatchecker/core.py:36-62 | a change whose fresh files are all skipped or unchanged by the formatter gets +1 and no comments |
| Core.CommentsOnlyOnReformatted | formatchecker/core.py:36-62 | for fresh files, the review only comments on a supported file that was handed to the formatter |

## Left out

- Gerrit access (`formatchecker/gerrit.py`), JSON output, `review.json`, the command line and `runner.py` are left out. They are I/O. A change is a parameter, and the result is the `ReviewInput` value.
- The runs of `haiku-format` and `difflib.unified_diff` are left out. They are external programs or a longest-common-subsequence algorithm; both are function parameters (`formatter`, `differ`).
- Logging and the `print` calls are left out. They have no effect on results.
- `__repr__` of `Segment`, `FormatSegment`, `File` and `Change` is left out. It is display only.
- `ReviewInput`, `CommentInput`, `CommentRange`, `NotifyEnum`, `ReformatType` and `strip_empty_values_from_input_dict` are modelled minimally. `core.py` imports them from a `models.py` newer than the one shown. The model keeps only the fields `_change_to_review_input` sets.
- Segment validation is a predicate (`Valid`), not a constructor error. The shown `Segment.__init__` does not validate, while `tests/test_models.py:14-30` expects `ValueError` for a start below 1, an end below 1, or an end before the start. `Models.NewFormatSegment` follows the tests only for the insertion without content.
- Core.ReformatFile: `reformat_change` (`core.py:55-56`) assigns the formatter's result directly to `formatted_contents` and never calls the splitter. As written, no file of a change ever gets format segments, `_change_to_review_input` skips every file (`core.py:79`), and every change gets +1 with the approval message. The model stores the output through `set_formatted_contents`, as `_run_clang_format` does (`llvm.py:132`), and then runs `_split_format_segments`, so that the review sees format segments. When the formatter returns nothing, the model assigns `None` as `core.py:56` does.
- The partial mutation of a file before an exception (segments appended before a later hunk raises) is not kept. A raising step returns only the error.
- `\d` and `int()` are modelled on ASCII digits only. Python also accepts other Unicode decimal digits there.
- `re.IGNORECASE` is modelled for the letters that occur in the extension pattern: ASCII case plus the four non-ASCII letters that fold to them (`İ`, `ı`, `ſ`, the Kelvin sign). No other case folding is modelled.
- The unanchored `EXTENSION_PATTERN` in `llvm.py:26-27` is left out. Nothing in the modelled code uses it.
- `run_clang_format` is left out. The shown `llvm.py` does not define it. The formatter's contract is taken from how `core.py` uses it: it returns the formatted lines or nothing.
