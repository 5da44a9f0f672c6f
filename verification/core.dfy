/**
 The per-file driver of `formatchecker/core.py` (`reformat_change`): which
 files of a change are handed to the formatter and with which line ranges,
 and the composition of formatter, splitter and review mapper over a change.
 The formatter and the line differ are external programs; they appear as
 function parameters.
 */
module Core {
  import opened Text
  import opened Models
  import opened Llvm
  import opened Review

  // ------------------------------------------------------------ file names

  /** The alternatives of the extension pattern, in its order, the trailing
      `s?vh?` spelled out as its four words: C++ sources and modules, the C
      family with its headers, other languages, Verilog. */
  const CppSources: seq<string> := ["cpp", "cc", "c++", "cxx", "cppm", "ccm", "cxxm", "c++m"]
  const CFamily: seq<string> := ["c", "cl", "h", "hh", "hpp", "hxx", "m", "mm", "inc"]
  const OtherLanguages: seq<string> := ["js", "ts", "proto", "protodevel", "java", "cs", "json"]
  const Verilog: seq<string> := ["v", "vh", "sv", "svh"]
  const Extensions: seq<string> := CppSources + CFamily + OtherLanguages + Verilog

  /** Whether the character `x` of a file name matches the pattern character `c`
      under `re.IGNORECASE`: a lower-case ASCII letter also matches its upper-case
      form and the non-ASCII letters that fold to it (`İ` and `ı` for `i`, `ſ`
      for `s`, the Kelvin sign for `k`); other characters match only themselves. */
  predicate CharMatches(x: char, c: char) {
    || x == c
    || ('a' <= c <= 'z' && x as int == c as int - 32)
    || (c == 'i' && (x == '\U{130}' || x == '\U{131}'))
    || (c == 's' && x == '\U{17f}')
    || (c == 'k' && x == '\U{212a}')
  }

  /** Whether `ext` matches the listed extension `e` character by character. */
  predicate WordMatches(ext: string, e: string) {
    |ext| == |e| && forall i :: 0 <= i < |e| ==> CharMatches(ext[i], e[i])
  }

  /** Whether `ext` matches one of the alternatives of the extension group. */
  predicate ExtensionMatches(ext: string) {
    exists e :: e in Extensions && WordMatches(ext, e)
  }

  /** `re.match(EXTENSION_PATTERN, name, re.IGNORECASE)`: the pattern
      `^.*\.(?:…)$`. `.*` cannot cross a line feed, and `$` matches at the end
      of the name or before a final line feed; so some `.` of the name must be
      followed, up to that point, by one of the extensions. */
  predicate IsSupportedFile(name: string)
    ensures IsSupportedFile(name) ==> '.' in name && |name| >= 2
  {
    var body := StripFinalNewline(name);
    exists i :: 0 <= i < |body| && body[i] == '.' && NoNewline(body[..i]) && ExtensionMatches(body[i + 1..])
  }

  /** Index of the last `.` of `s`. */
  function LastDot(s: string): (k: nat)
    requires '.' in s
    ensures k < |s| && s[k] == '.' && '.' !in s[k + 1..]
    decreases |s|
  {
    if s[|s| - 1] == '.' then |s| - 1
    else
      assert '.' in s[..|s| - 1] by {
        var j :| 0 <= j < |s| && s[j] == '.';
        assert s[..|s| - 1][j] == '.';
      }
      var k := LastDot(s[..|s| - 1]);
      assert s[k + 1..] == s[..|s| - 1][k + 1..] + [s[|s| - 1]];
      k
  }

  /** The characters the pattern's alternatives are spelled with. */
  predicate PatternChar(c: char) {
    'a' <= c <= 'z' || c == '+'
  }

  /** The characters of a file name that can match a pattern character: ASCII
      letters, `+`, and the four non-ASCII letters that fold to ASCII ones. */
  predicate MatchableChar(x: char) {
    || 'a' <= x <= 'z' || 'A' <= x <= 'Z' || x == '+'
    || x == '\U{130}' || x == '\U{131}' || x == '\U{17f}' || x == '\U{212a}'
  }

  predicate PatternWord(e: string) {
    forall i :: 0 <= i < |e| ==> PatternChar(e[i])
  }

  lemma CppSourcesSpelling(e: string)
    requires e in CppSources
    ensures PatternWord(e)
  {
  }

  lemma CFamilySpelling(e: string)
    requires e in CFamily
    ensures PatternWord(e)
  {
  }

  lemma OtherLanguagesSpelling(e: string)
    requires e in OtherLanguages
    ensures PatternWord(e)
  {
  }

  lemma VerilogSpelling(e: string)
    requires e in Verilog
    ensures PatternWord(e)
  {
  }

  /** Every alternative is spelled with lower-case ASCII letters and `+`. */
  lemma ExtensionSpelling(e: string)
    requires e in Extensions
    ensures PatternWord(e)
  {
    hide CppSources, CFamily, OtherLanguages, Verilog, PatternWord;
    if e in CppSources {
      CppSourcesSpelling(e);
    } else if e in CFamily {
      CFamilySpelling(e);
    } else if e in OtherLanguages {
      OtherLanguagesSpelling(e);
    } else {
      VerilogSpelling(e);
    }
  }

  /** What the extension group matches consists of matchable characters only,
      so it holds no `.` and no line feed. */
  lemma ExtensionPlain(ext: string)
    requires ExtensionMatches(ext)
    ensures forall i :: 0 <= i < |ext| ==> MatchableChar(ext[i])
    ensures '.' !in ext && '\n' !in ext
  {
    hide Extensions;
    var e :| e in Extensions && WordMatches(ext, e);
    ExtensionSpelling(e);
    forall i | 0 <= i < |ext|
      ensures MatchableChar(ext[i])
    {
      assert CharMatches(ext[i], e[i]) && PatternChar(e[i]);
    }
  }

  /** The pattern accepts a name exactly when, before an optional final line
      feed, the name has no line feed and what follows its last `.` is one of
      the extensions, in any case. */
  lemma SupportedIffLastDot(name: string)
    ensures var body := StripFinalNewline(name);
      IsSupportedFile(name) <==> NoNewline(body) && '.' in body && ExtensionMatches(body[LastDot(body) + 1..])
  {
    hide Extensions, ExtensionMatches;
    var body := StripFinalNewline(name);
    if IsSupportedFile(name) {
      var i :| 0 <= i < |body| && body[i] == '.' && NoNewline(body[..i]) && ExtensionMatches(body[i + 1..]);
      ExtensionPlain(body[i + 1..]);
      assert body == body[..i] + [body[i]] + body[i + 1..];
    }
  }

  /** An upper-case extension is accepted. */
  lemma UpperCaseExample()
    ensures IsSupportedFile("Looper.CPP")
  {
    hide CFamily, OtherLanguages, Verilog;
    var name := "Looper.CPP";
    assert StripFinalNewline(name) == name;
    assert name[6] == '.' && NoNewline(name[..6]) && name[7..] == "CPP";
    assert CppSources[0] == "cpp" && WordMatches("CPP", "cpp");
    assert ExtensionMatches(name[6 + 1..]);
  }

  /** `$` also matches before a final line feed. */
  lemma FinalFeedExample()
    ensures IsSupportedFile("Looper.h\n")
  {
    hide CppSources, OtherLanguages, Verilog;
    var body := StripFinalNewline("Looper.h\n");
    assert body == "Looper.h";
    assert body[6] == '.' && NoNewline(body[..6]) && body[7..] == "h";
    assert CFamily[2] == "h" && WordMatches("h", "h");
    assert ExtensionMatches(body[6 + 1..]);
  }

  /** A name without a `.` is refused. */
  lemma NoDotExample()
    ensures !IsSupportedFile("Jamfile")
  {
    hide Extensions, ExtensionMatches;
    SupportedIffLastDot("Jamfile");
    assert '.' !in "Jamfile";
  }

  /** `.*` does not cross a line feed inside the name. */
  lemma InnerFeedExample()
    ensures !IsSupportedFile("Looper.h\nx")
  {
    hide Extensions, ExtensionMatches, LastDot;
    var name := "Looper.h\nx";
    SupportedIffLastDot(name);
    assert StripFinalNewline(name) == name && name[8] == '\n';
  }

  /** An extension with a digit is refused. */
  lemma DigitExample()
    ensures !IsSupportedFile("theme.mp3")
  {
    hide Extensions, ExtensionMatches;
    var name := "theme.mp3";
    SupportedIffLastDot(name);
    assert StripFinalNewline(name) == name;
    assert LastDot(name) == 5 && name[6..] == "mp3";
    assert !MatchableChar("mp3"[2]);
    if ExtensionMatches("mp3") {
      ExtensionPlain("mp3");
    }
  }

  // ------------------------------------------------------------ the decision

  /** What the driver does with one file of the change. */
  datatype Decision =
    | Unsupported
    | Deleted
    | OnlyDeletions
    | Reformat(ranges: seq<string>)

  /** The `"start:end"` ranges of the patch segments, in order; a segment
      without an end makes the loop raise the range's `ValueError`. */
  function FormatRanges(segments: seq<Segment>): (r: Result<seq<string>>)
    ensures r.Success? <==> forall i :: 0 <= i < |segments| ==> segments[i].end.Some?
    ensures r.Failure? ==> r.error == ValueError(NoEndpointMessage)
    ensures r.Success? ==> |r.value| == |segments|
    ensures r.Success? ==> forall i :: 0 <= i < |segments| ==>
      ParseRange(r.value[i]) == Some((segments[i].start, segments[i].end.value))
  {
    if exists i :: 0 <= i < |segments| && segments[i].end.None? then
      Failure(ValueError(NoEndpointMessage))
    else
      Success(seq(|segments|, i requires 0 <= i < |segments| => segments[i].FormatRange().value))
  }

  /** The checks of `reformat_change` for one file: an unsupported extension,
      a file the patch deletes, and a modified file whose patch only deletes
      lines are skipped; a modified file is formatted on the ranges of its
      patch segments, a new file in its entirety (no ranges). */
  function Decide(f: File): (r: Result<Decision>)
    ensures !IsSupportedFile(f.filename) ==> r == Success(Unsupported)
    ensures IsSupportedFile(f.filename) && f.patch.None? ==> r == Success(Deleted)
    ensures IsSupportedFile(f.filename) && f.patch.Some? && f.base.Some? && |f.patchSegments| == 0 ==>
      r == Success(OnlyDeletions)
    // a new file is formatted in its entirety
    ensures IsSupportedFile(f.filename) && f.patch.Some? && f.base.None? ==> r == Success(Reformat([]))
    // a modified file is formatted on one range per patch segment, in order
    ensures IsSupportedFile(f.filename) && f.patch.Some? && f.base.Some? && |f.patchSegments| > 0 ==>
      && (r.Success? <==> forall i :: 0 <= i < |f.patchSegments| ==> f.patchSegments[i].end.Some?)
      && (r.Success? ==>
            && r.value.Reformat?
            && |r.value.ranges| == |f.patchSegments|
            && forall i :: 0 <= i < |f.patchSegments| ==>
                 ParseRange(r.value.ranges[i]) == Some((f.patchSegments[i].start, f.patchSegments[i].end.value)))
    // only a file handed to the formatter can raise
    ensures r.Failure? ==> r.error == ValueError(NoEndpointMessage)
  {
    if !IsSupportedFile(f.filename) then Success(Unsupported)
    else if f.patch.None? then Success(Deleted)
    else if f.base.Some? then
      if |f.patchSegments| == 0 then Success(OnlyDeletions)
      else
        var ranges :- FormatRanges(f.patchSegments);
        Success(Reformat(ranges))
    else Success(Reformat([]))
  }

  /** The files of a change after the patch has been read never make the
      decision raise: every patch segment taken from a diff has an end. */
  lemma ParsedFilesDecide(files: map<string, File>, diff: seq<string>, name: string)
    requires name in files
    requires forall i :: 0 <= i < |files[name].patchSegments| ==> files[name].patchSegments[i].end.Some?
    ensures name in ParseInputDiff(files, diff)
    ensures Decide(ParseInputDiff(files, diff)[name]).Success?
  {
    ParseInputDiffSpec(files, diff);
    var f := files[name];
    var g := ParseInputDiff(files, diff)[name];
    var added := PatchSegmentsOf(HunksFor(diff, name));
    assert g.patchSegments == f.patchSegments + added;
    forall i | 0 <= i < |g.patchSegments|
      ensures g.patchSegments[i].end.Some?
    {
      if i >= |f.patchSegments| {
        assert g.patchSegments[i] == added[i - |f.patchSegments|];
      }
    }
  }

  // ------------------------------------------------------------ the pipeline

  /** One file through the driver. A skipped file is left as it is. Otherwise
      `formatter` stands for the formatter run on the patched contents and
      the ranges, returning the formatted lines or nothing. A run that
      returns nothing clears the formatted contents, as `reformat_change`
      does; lines are stored only if they differ from the patched contents,
      and the splitter then derives the format segments from them through
      `differ`. */
  function ReformatFile(f: File,
                        formatter: (seq<string>, seq<string>) -> Option<seq<string>>,
                        differ: (seq<string>, seq<string>) -> seq<string>): (r: Result<File>)
    // a file whose decision raises raises
    ensures r.Success? ==> Decide(f).Success?
    // a skipped file comes out unchanged
    ensures Decide(f).Success? && !Decide(f).value.Reformat? ==> r == Success(f)
    // a fresh file the formatter leaves as it was comes out unchanged
    ensures
      && f.formatted.None? && Decide(f).Success? && Decide(f).value.Reformat?
      && formatter(f.patch.value, Decide(f).value.ranges) in {None, f.patch}
      ==> r == Success(f)
    // only the formatted contents and the format segments change, and the
    // format segments only grow
    ensures r.Success? ==>
      && r.value.(formatted := f.formatted, formatSegments := f.formatSegments) == f
      && |f.formatSegments| <= |r.value.formatSegments|
      && r.value.formatSegments[..|f.formatSegments|] == f.formatSegments
    // a reformatted file holds the formatter's output unless it equals the patched contents
    ensures r.Success? && Decide(f).Success? && Decide(f).value.Reformat? ==>
      match formatter(f.patch.value, Decide(f).value.ranges)
      case Some(contents) => contents != f.patch.value ==> r.value.formatted == Some(contents)
      case None => r.value.formatted.None?
    // the format segments gained are the splitter's hunks of the stored output, in order
    ensures r.Success? && Decide(f).Success? && Decide(f).value.Reformat? ==>
      && (r.value.formatted.None? ==> r.value.formatSegments == f.formatSegments)
      && (r.value.formatted.Some? ==>
        && "file" in ParseDiffSegments(differ(f.patch.value, r.value.formatted.value))
        && var hunks := ParseDiffSegments(differ(f.patch.value, r.value.formatted.value))["file"];
           && (forall i :: 0 <= i < |hunks| ==> HunkSegment(hunks[i], r.value.formatted.value).Success?)
           && r.value.formatSegments == f.formatSegments + HunkSegments(hunks, r.value.formatted.value))
  {
    hide Decide, IsSupportedFile, SplitFormatSegments, ParseDiffSegments, HunkSegments;
    var decision :- Decide(f);
    match decision
    case Reformat(ranges) =>
      var g := match formatter(f.patch.value, ranges)
        case None => f.(formatted := None)
        case Some(contents) => SetFormattedContents(f, contents);
      var r := SplitFormatSegments(g, differ);
      assert r.Success? ==> r.value.formatSegments[..|f.formatSegments|] == f.formatSegments by {
        if r.Success? && g.formatted.Some? {
          var hunks := ParseDiffSegments(differ(g.patch.value, g.formatted.value))["file"];
          assert r.value.formatSegments == f.formatSegments + HunkSegments(hunks, g.formatted.value);
        }
      }
      r
    case _ => Success(f)
  }

  /** Every file of the change through `step`, in order; the first file that
      raises makes the whole loop raise. */
  function EachFile(files: seq<File>, step: File -> Result<File>): (r: Result<seq<File>>)
    ensures r.Success? ==> |r.value| == |files|
    ensures r.Failure? ==> exists i :: 0 <= i < |files| && step(files[i]).Failure?
    decreases |files|
  {
    if |files| == 0 then Success([])
    else
      var done :- EachFile(files[..|files| - 1], step);
      var f :- step(files[|files| - 1]);
      Success(done + [f])
  }

  /** The loop succeeds exactly when every file goes through. */
  lemma {:induction false} EachFileSucceeds(files: seq<File>, step: File -> Result<File>)
    ensures EachFile(files, step).Success? <==> forall i :: 0 <= i < |files| ==> step(files[i]).Success?
    decreases |files|
  {
    if |files| > 0 {
      var pre := files[..|files| - 1];
      EachFileSucceeds(pre, step);
      assert EachFile(files, step).Success? <==> EachFile(pre, step).Success? && step(files[|files| - 1]).Success?;
      assert forall i :: 0 <= i < |pre| ==> pre[i] == files[i];
    }
  }

  /** On success the files come out in order, each as `step` leaves it. */
  lemma {:induction false} EachFileSpec(files: seq<File>, step: File -> Result<File>)
    requires forall i :: 0 <= i < |files| ==> step(files[i]).Success?
    ensures EachFile(files, step).Success?
    ensures |EachFile(files, step).value| == |files|
    ensures forall i :: 0 <= i < |files| ==> EachFile(files, step).value[i] == step(files[i]).value
    decreases |files|
  {
    if |files| > 0 {
      var pre := files[..|files| - 1];
      assert forall i :: 0 <= i < |pre| ==> pre[i] == files[i];
      EachFileSpec(pre, step);
      var done := EachFile(pre, step).value;
      assert EachFile(files, step).value == done + [step(files[|files| - 1]).value];
    }
  }

  /** `reformat_change` without its I/O: every file through the driver, then
      the review of the resulting change. */
  function ReformatChange(change: Change,
                          formatter: (seq<string>, seq<string>) -> Option<seq<string>>,
                          differ: (seq<string>, seq<string>) -> seq<string>): (r: Result<ReviewInput>)
    // a file the driver cannot handle makes the whole run raise
    ensures (exists i :: 0 <= i < |change.files| && ReformatFile(change.files[i], formatter, differ).Failure?) ==> r.Failure?
    // the verdict: +1 with no comments, or -1 with some
    ensures r.Success? ==>
      && r.value.labels.Keys == {Label}
      && (r.value.labels[Label] == 1 <==> r.value.comments == map[])
      && (r.value.labels[Label] == -1 <==> r.value.comments != map[])
  {
    EachFileSucceeds(change.files, f => ReformatFile(f, formatter, differ));
    var files :- EachFile(change.files, f => ReformatFile(f, formatter, differ));
    ChangeToReviewInput(Change(change.changeId, files))
  }

  /** A change of fresh files that are all skipped or left as they were by the
      formatter is approved: it votes +1 and comments nothing. */
  lemma QuietChangeApproved(change: Change,
                            formatter: (seq<string>, seq<string>) -> Option<seq<string>>,
                            differ: (seq<string>, seq<string>) -> seq<string>)
    requires forall i :: 0 <= i < |change.files| ==>
      var f := change.files[i];
      && f.formatted.None?
      && Decide(f).Success?
      && (Decide(f).value.Reformat? ==> formatter(f.patch.value, Decide(f).value.ranges) in {None, f.patch})
    ensures ReformatChange(change, formatter, differ).Success?
    ensures ReformatChange(change, formatter, differ).value.labels[Label] == 1
    ensures ReformatChange(change, formatter, differ).value.comments == map[]
  {
    var files := change.files;
    var step := f => ReformatFile(f, formatter, differ);
    EachFileSpec(files, step);
    var done := EachFile(files, step).value;
    assert done == files;
    var c := Change(change.changeId, done);
    ChangeToReviewInputVerdict(c);
    NoCommentsIff(done);
  }

  /** Of a change of fresh files, the review comments only on files that were
      handed to the formatter: never on an unsupported, deleted or
      deletion-only file. */
  lemma CommentsOnlyOnReformatted(change: Change,
                                  formatter: (seq<string>, seq<string>) -> Option<seq<string>>,
                                  differ: (seq<string>, seq<string>) -> seq<string>,
                                  name: string)
    requires forall i :: 0 <= i < |change.files| ==> change.files[i].formatted.None?
    requires ReformatChange(change, formatter, differ).Success?
    requires name in ReformatChange(change, formatter, differ).value.comments
    ensures IsSupportedFile(name)
    ensures exists i ::
      && 0 <= i < |change.files|
      && change.files[i].filename == name
      && Decide(change.files[i]).Success?
      && Decide(change.files[i]).value.Reformat?
  {
    hide ChangeToReviewInput, ApprovalMessage, SuggestionsMessage, FileComments, Decide, IsSupportedFile, ReformatFile;
    var files := change.files;
    var step := f => ReformatFile(f, formatter, differ);
    EachFileSucceeds(files, step);
    EachFileSpec(files, step);
    var done := EachFile(files, step).value;
    var c := Change(change.changeId, done);
    ChangeToReviewInputSucceeds(c);
    ChangeToReviewInputComments(c);
    var i :| 0 <= i < |done| && done[i].filename == name && |FileComments(done[i]).value| > 0;
    var r := ReformatFile(files[i], formatter, differ);
    assert r.Success? && done[i] == r.value;
    assert done[i].formatted.Some?;
    assert Decide(files[i]).Success? && Decide(files[i]).value.Reformat?;
    assert files[i].filename == name;
  }
}
