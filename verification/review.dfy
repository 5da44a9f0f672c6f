/**
 The review mapper of `formatchecker/core.py` (`_change_to_review_input`): the
 format segments of a change's files become review comments, one per segment
 that does not touch a line inside a class body, grouped by file name; the
 review carries a summary message, a `Haiku-Format` vote of +1 when nothing is
 suggested and -1 otherwise, and always notifies the change owner.
 */
module Review {
  import opened Text
  import opened Models
  import opened ClassFinder

  /** The line range a comment is attached to (start line and character, end line and character). */
  datatype CommentRange = CommentRange(startLine: int, startCharacter: int, endLine: int, endCharacter: int)

  /** One review comment. */
  datatype CommentInput = CommentInput(message: string, range: CommentRange)

  /** Whom the server notifies about a review. */
  datatype Notify = NotifyNone | Owner | OwnerReviewers | All

  /** A review: its message, the comments per file name, the votes per label, and whom to notify. */
  datatype ReviewInput = ReviewInput(
    message: string,
    comments: map<string, seq<CommentInput>>,
    labels: map<string, int>,
    notify: Notify)

  /** The label the review votes on. */
  const Label := "Haiku-Format"

  // ------------------------------------------------------------ one segment

  /** The last line a segment's comment covers: the insertion point itself for
      an insertion, the segment's end otherwise. The end is not moved to the
      next line. */
  function EffectiveEnd(s: FormatSegment): int {
    match s
    case Insertion(start, _) => start
    case Modification(_, end, _) => end
    case Deletion(_, end) => end
  }

  /** `set(range(start, end + 1))`: empty when `end < start`. */
  function LineSpan(start: int, end: int): (r: set<int>)
    ensures forall n :: n in r <==> start <= n <= end
  {
    var lines := seq(if end < start then 0 else end - start + 1, i => start + i);
    var r := set n | n in lines;
    forall n | start <= n <= end
      ensures n in r
    {
      assert lines[n - start] == n;
    }
    r
  }

  /** The class-overlap workaround: a segment is dropped when one of the lines
      it covers lies inside a class body. */
  predicate Suppressed(classLines: set<int>, s: FormatSegment) {
    classLines * LineSpan(s.start, EffectiveEnd(s)) != {}
  }

  /** A segment is dropped exactly when some class line lies between its start
      and its effective end. */
  lemma SuppressedIff(classLines: set<int>, s: FormatSegment)
    ensures Suppressed(classLines, s) <==> exists n :: n in classLines && s.start <= n <= EffectiveEnd(s)
  {
    if n :| n in classLines && s.start <= n <= EffectiveEnd(s) {
      assert n in classLines * LineSpan(s.start, EffectiveEnd(s));
    }
  }

  /** The comment for a deletion. */
  const DeletionMessage := "Suggestion from `haiku-format` is to remove this line/these lines."

  /** The comment for an insertion or modification: the operation, then the
      suggested lines in a C++ code block. */
  function SuggestionMessage(operation: string, content: seq<string>): string {
    "Suggestion from `haiku-format` (" + operation + "):\n```c++\n" + Join(content) + "```"
  }

  /** The comment one segment becomes. */
  function CommentOf(s: FormatSegment): (c: CommentInput)
    ensures c.range == CommentRange(s.start, 0, EffectiveEnd(s), 0)
  {
    var range := CommentRange(s.start, 0, EffectiveEnd(s), 0);
    match s
    case Insertion(_, content) => CommentInput(SuggestionMessage("insert after", content), range)
    case Modification(_, _, content) => CommentInput(SuggestionMessage("change", content), range)
    case Deletion(_, _) => CommentInput(DeletionMessage, range)
  }

  /** What a comment says and where it points, by kind of segment: an insertion
      covers its start line only, the other two run from start to end; a
      deletion gets the fixed message, the other two quote their content. */
  lemma CommentCases(s: FormatSegment)
    ensures s.Insertion? ==>
      CommentOf(s) == CommentInput(SuggestionMessage("insert after", s.content), CommentRange(s.start, 0, s.start, 0))
    ensures s.Modification? ==>
      CommentOf(s) == CommentInput(SuggestionMessage("change", s.content), CommentRange(s.start, 0, s.end, 0))
    ensures s.Deletion? ==>
      CommentOf(s) == CommentInput(DeletionMessage, CommentRange(s.start, 0, s.end, 0))
  {
  }

  /** The suggested lines can be read back from a suggestion's message. */
  lemma SuggestionQuotesContent(operation: string, content: seq<string>)
    ensures var m := SuggestionMessage(operation, content);
      var head := "Suggestion from `haiku-format` (" + operation + "):\n```c++\n";
      && StartsWith(m, head)
      && m[|head|..|m| - 3] == Join(content)
      && m[|m| - 3..] == "```"
  {
    var head := "Suggestion from `haiku-format` (" + operation + "):\n```c++\n";
    var m := SuggestionMessage(operation, content);
    assert m == head + Join(content) + "```";
    assert m[..|head|] == head;
  }

  // ------------------------------------------------------------ one file

  /** The comments for a file's segments, in segment order, leaving out the suppressed ones. */
  function SegmentComments(classLines: set<int>, segments: seq<FormatSegment>): (r: seq<CommentInput>)
    ensures |r| <= |segments|
    decreases |segments|
  {
    if |segments| == 0 then []
    else
      var s := segments[|segments| - 1];
      SegmentComments(classLines, segments[..|segments| - 1]) +
      (if Suppressed(classLines, s) then [] else [CommentOf(s)])
  }

  /** The positions of the segments that are kept, in increasing order. */
  function KeptPositions(classLines: set<int>, segments: seq<FormatSegment>): (r: seq<nat>)
    ensures forall j :: 0 <= j < |r| ==> r[j] < |segments|
    decreases |segments|
  {
    if |segments| == 0 then []
    else
      var k := |segments| - 1;
      KeptPositions(classLines, segments[..k]) + (if Suppressed(classLines, segments[k]) then [] else [k])
  }

  /** The kept positions are increasing. */
  lemma {:induction false} KeptPositionsIncreasing(classLines: set<int>, segments: seq<FormatSegment>)
    ensures forall i, j :: 0 <= i < j < |KeptPositions(classLines, segments)| ==>
      KeptPositions(classLines, segments)[i] < KeptPositions(classLines, segments)[j]
    decreases |segments|
  {
    hide Suppressed;
    if |segments| > 0 {
      var k := |segments| - 1;
      KeptPositionsIncreasing(classLines, segments[..k]);
      var pre := KeptPositions(classLines, segments[..k]);
      var p := KeptPositions(classLines, segments);
      var added: seq<nat> := if Suppressed(classLines, segments[k]) then [] else [k];
      assert p == pre + added;
      forall i, j | 0 <= i < j < |p|
        ensures p[i] < p[j]
      {
        assert p[i] == pre[i];
        if j < |pre| {
          assert p[j] == pre[j];
        } else {
          assert p[j] == k;
        }
      }
    }
  }

  /** A position is kept exactly when its segment is not suppressed. */
  lemma {:induction false} KeptPositionsMembers(classLines: set<int>, segments: seq<FormatSegment>)
    ensures forall i :: 0 <= i < |segments| ==>
      (i in KeptPositions(classLines, segments) <==> !Suppressed(classLines, segments[i]))
    decreases |segments|
  {
    hide Suppressed;
    if |segments| > 0 {
      var k := |segments| - 1;
      var pre := segments[..k];
      KeptPositionsMembers(classLines, pre);
      assert forall i :: 0 <= i < k ==> pre[i] == segments[i];
    }
  }

  /** The comments are those of the kept segments, in segment order. */
  lemma {:induction false} SegmentCommentsSpec(classLines: set<int>, segments: seq<FormatSegment>)
    ensures var p := KeptPositions(classLines, segments);
      && |SegmentComments(classLines, segments)| == |p|
      && (forall j :: 0 <= j < |p| ==> SegmentComments(classLines, segments)[j] == CommentOf(segments[p[j]]))
    decreases |segments|
  {
    hide Suppressed, CommentOf;
    if |segments| > 0 {
      var k := |segments| - 1;
      var pre := segments[..k];
      SegmentCommentsSpec(classLines, pre);
      assert forall i :: 0 <= i < k ==> pre[i] == segments[i];
    }
  }

  /** `set(get_class_lines_in_file(contents))` */
  function ClassLineSet(contents: seq<string>): (r: set<int>)
    ensures forall n :: n in r <==> n in ClassLines(contents)
  {
    set n | n in ClassLines(contents)
  }

  /** The comments for one file of the change. A file without formatted
      contents or without format segments gets none; one whose patched
      contents are absent makes the class scan raise. */
  function FileComments(f: File): (r: Result<seq<CommentInput>>)
    ensures r.Failure? <==> f.formatted.Some? && |f.formatSegments| > 0 && f.patch.None?
    ensures f.formatted.None? || |f.formatSegments| == 0 ==> r == Success([])
    ensures r.Success? && f.formatted.Some? && |f.formatSegments| > 0 ==>
      r.value == SegmentComments(ClassLineSet(f.patch.value), f.formatSegments)
  {
    if f.formatted.None? || |f.formatSegments| == 0 then Success([])
    else if f.patch.None? then Failure(TypeError("object of type 'NoneType' has no len()"))
    else Success(SegmentComments(ClassLineSet(f.patch.value), f.formatSegments))
  }

  // ------------------------------------------------------------ the change

  /** `comments.setdefault(name, []).extend(c)` for a file whose comment list
      `c` is non-empty; a file without comments adds no key. */
  function AddComments(m: map<string, seq<CommentInput>>, name: string, c: seq<CommentInput>): (r: map<string, seq<CommentInput>>)
    ensures r.Keys == (if |c| == 0 then m.Keys else m.Keys + {name})
    ensures forall k :: k in m && k != name ==> r[k] == m[k]
    ensures name in r ==> r[name] == (if name in m then m[name] else []) + c
  {
    if |c| == 0 then m else m[name := (if name in m then m[name] else []) + c]
  }

  /** The comments of all files, by file name; the first file whose comments
      raise makes the whole mapping raise. */
  function CollectComments(files: seq<File>): (r: Result<map<string, seq<CommentInput>>>)
    // every key has at least one comment, and names only files of the change
    ensures r.Success? ==> forall k :: k in r.value ==> |r.value[k]| > 0
    ensures r.Success? ==> forall k :: k in r.value ==> exists i :: 0 <= i < |files| && files[i].filename == k
    decreases |files|
  {
    if |files| == 0 then Success(map[])
    else
      var m :- CollectComments(files[..|files| - 1]);
      var f := files[|files| - 1];
      var c :- FileComments(f);
      Success(AddComments(m, f.filename, c))
  }

  /** The comments of the files named `name`, concatenated in file order. */
  function CommentsFor(files: seq<File>, name: string): seq<CommentInput>
    requires forall i :: 0 <= i < |files| ==> FileComments(files[i]).Success?
    decreases |files|
  {
    if |files| == 0 then []
    else
      var f := files[|files| - 1];
      CommentsFor(files[..|files| - 1], name) + (if f.filename == name then FileComments(f).value else [])
  }

  /** The mapping raises exactly when one file's comments do. */
  lemma {:induction false} CollectCommentsSucceeds(files: seq<File>)
    ensures CollectComments(files).Success? <==> forall i :: 0 <= i < |files| ==> FileComments(files[i]).Success?
    decreases |files|
  {
    hide FileComments, AddComments;
    if |files| > 0 {
      var pre := files[..|files| - 1];
      CollectCommentsSucceeds(pre);
      assert forall i :: 0 <= i < |pre| ==> pre[i] == files[i];
      if CollectComments(pre).Success? && FileComments(files[|files| - 1]).Success? {
        assert CollectComments(files).Success?;
      } else {
        assert CollectComments(files).Failure?;
      }
    }
  }

  /** On success a file name is a key exactly when its files have comments,
      and its comments are theirs in file order and, within a file, in segment
      order. */
  lemma {:induction false} CollectCommentsSpec(files: seq<File>)
    requires forall i :: 0 <= i < |files| ==> FileComments(files[i]).Success?
    ensures CollectComments(files).Success?
    ensures forall name :: name in CollectComments(files).value <==> |CommentsFor(files, name)| > 0
    ensures forall name :: name in CollectComments(files).value ==>
      CollectComments(files).value[name] == CommentsFor(files, name)
    decreases |files|
  {
    hide FileComments;
    CollectCommentsSucceeds(files);
    if |files| > 0 {
      var pre := files[..|files| - 1];
      assert forall i :: 0 <= i < |pre| ==> pre[i] == files[i];
      CollectCommentsSpec(pre);
    }
  }

  /** A file name is a key exactly when some file of that name has a comment. */
  lemma {:induction false} CommentsForNonEmpty(files: seq<File>, name: string)
    requires forall i :: 0 <= i < |files| ==> FileComments(files[i]).Success?
    ensures |CommentsFor(files, name)| > 0 <==>
      exists i :: 0 <= i < |files| && files[i].filename == name && |FileComments(files[i]).value| > 0
    decreases |files|
  {
    hide FileComments, CollectComments, AddComments;
    if |files| > 0 {
      var pre := files[..|files| - 1];
      var last := |files| - 1;
      assert forall i :: 0 <= i < |pre| ==> pre[i] == files[i];
      CommentsForNonEmpty(pre, name);
      if files[last].filename == name && |FileComments(files[last]).value| > 0 {
        assert |CommentsFor(files, name)| > 0;
      }
    }
  }

  /** The review message when nothing is suggested. */
  const ApprovalMessage := "Experimental `haiku-format` bot: no formatting changes suggested for this commit."

  /** The review message when something is suggested. */
  const SuggestionsMessage :=
    "Experimental `haiku-format` bot: some formatting changes suggested.\nNote that this bot is " +
    "experimental and the suggestions may not be correct. There is a known issue with changes " +
    "in header files: `haiku-format` does not yet correctly output the column layout of the contents " +
    "of classes.\n\nYou can see and apply the suggestions by running `haiku-format` in your local " +
    "repository. For example, if in your local checkout this change is applied to a local checkout, you " +
    "can use the following command to automatically reformat:\n```\ngit-haiku-format HEAD~\n```"

  /** `_change_to_review_input` */
  function ChangeToReviewInput(change: Change): (r: Result<ReviewInput>)
    ensures r.Success? <==> CollectComments(change.files).Success?
    // the owner is notified, and the only label votes +1 exactly when nothing is commented
    ensures r.Success? ==>
      && r.value.notify == Owner
      && r.value.labels.Keys == {Label}
      && (r.value.labels[Label] == 1 <==> r.value.comments == map[])
      && (r.value.labels[Label] == -1 <==> r.value.comments != map[])
      && (r.value.message == ApprovalMessage <==> r.value.comments == map[])
  {
    MessagesDiffer();
    var comments :- CollectComments(change.files);
    if |comments| == 0 then
      Success(ReviewInput(ApprovalMessage, comments, map[Label := 1], Owner))
    else
      Success(ReviewInput(SuggestionsMessage, comments, map[Label := -1], Owner))
  }

  /** The files of a change produce no comment at all exactly when no file has a comment. */
  lemma NoCommentsIff(files: seq<File>)
    requires forall i :: 0 <= i < |files| ==> FileComments(files[i]).Success?
    ensures CollectComments(files).Success?
    ensures |CollectComments(files).value| == 0 <==> forall i :: 0 <= i < |files| ==> |FileComments(files[i]).value| == 0
  {
    hide FileComments;
    CollectCommentsSpec(files);
    var comments := CollectComments(files).value;
    if i :| 0 <= i < |files| && |FileComments(files[i]).value| != 0 {
      CommentsForNonEmpty(files, files[i].filename);
      assert files[i].filename in comments;
    } else if |comments| != 0 {
      var name :| name in comments;
      CommentsForNonEmpty(files, name);
    }
  }

  /** The review raises exactly when a file's comments do. */
  lemma ChangeToReviewInputSucceeds(change: Change)
    ensures ChangeToReviewInput(change).Success? <==>
      forall i :: 0 <= i < |change.files| ==> FileComments(change.files[i]).Success?
  {
    hide ApprovalMessage, SuggestionsMessage, FileComments;
    CollectCommentsSucceeds(change.files);
  }

  /** The verdict: +1 with the approval message when no file has a comment,
      -1 with the suggestions message otherwise, and always the owner notified. */
  lemma ChangeToReviewInputVerdict(change: Change)
    requires forall i :: 0 <= i < |change.files| ==> FileComments(change.files[i]).Success?
    ensures ChangeToReviewInput(change).Success?
    ensures var r := ChangeToReviewInput(change).value;
      var quiet := forall i :: 0 <= i < |change.files| ==> |FileComments(change.files[i]).value| == 0;
      && r.notify == Owner
      && r.labels.Keys == {Label}
      && (r.labels[Label] == 1 <==> quiet)
      && (r.labels[Label] == -1 <==> !quiet)
      && (r.message == ApprovalMessage <==> quiet)
      && (!quiet ==> r.message == SuggestionsMessage)
  {
    hide ApprovalMessage, SuggestionsMessage, FileComments;
    NoCommentsIff(change.files);
    MessagesDiffer();
  }

  /** The review's comments: a file name is a key exactly when some file of
      that name has a comment, and its comments are those of its files in file
      order. */
  lemma ChangeToReviewInputComments(change: Change)
    requires forall i :: 0 <= i < |change.files| ==> FileComments(change.files[i]).Success?
    ensures ChangeToReviewInput(change).Success?
    ensures var r := ChangeToReviewInput(change).value;
      && (forall name :: name in r.comments <==>
            exists i :: 0 <= i < |change.files| && change.files[i].filename == name && |FileComments(change.files[i]).value| > 0)
      && (forall name :: name in r.comments ==> r.comments[name] == CommentsFor(change.files, name))
  {
    hide ApprovalMessage, SuggestionsMessage, FileComments;
    var files := change.files;
    CollectCommentsSpec(files);
    forall name
      ensures name in CollectComments(files).value <==>
        exists i :: 0 <= i < |files| && files[i].filename == name && |FileComments(files[i]).value| > 0
    {
      CommentsForNonEmpty(files, name);
    }
  }

  /** The two review messages are different. */
  lemma MessagesDiffer()
    ensures ApprovalMessage != SuggestionsMessage
  {
    assert ApprovalMessage[|ApprovalMessage| - 1] == '.';
    assert SuggestionsMessage[|SuggestionsMessage| - 1] == '`';
  }
}
