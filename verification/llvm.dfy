/**
 The diff handling of `formatchecker/llvm.py`: the unified-diff parser that
 collects hunk tuples per file, the step that turns the hunks of a change's
 diff into patch segments, and the step that turns the hunks between a file's
 patched and formatted contents into format segments. The diff itself is
 produced elsewhere (by the code review server or by Python's `difflib`); here
 it is just a sequence of lines.
 */
module Llvm {
  import opened Text
  import opened Models

  /** One hunk tuple `(a_start, a_end, b_start, b_end)`: the old-side start and
      end, and the new-side start and end. An absent old-side end marks a hunk
      that only adds lines; an absent new-side end one that only removes lines. */
  datatype Hunk = Hunk(aStart: int, aEnd: Option<int>, bStart: int, bEnd: Option<int>)

  // ------------------------------------------------------------ file headers

  /** The longest prefix of `s` without whitespace (what `\S*` consumes). */
  function NonSpaceRun(s: string): (r: string)
    ensures StartsWith(s, r)
    ensures forall i :: 0 <= i < |r| ==> !IsSpace(r[i])
    ensures |r| < |s| ==> IsSpace(s[|r|])
  {
    if |s| > 0 && !IsSpace(s[0]) then [s[0]] + NonSpaceRun(s[1..]) else []
  }

  /** The pattern `^\+\+\+ (.*?/){1}(\S*)` and its second group: after `+++ `,
      the lazy `.*?/` stops at the first slash (and cannot reach past a line
      feed), and the file name is the run of non-whitespace that follows. */
  function FilenameOf(line: string): (r: Option<string>)
    ensures r.Some? ==> StartsWith(line, "+++ ") && '/' in line
    ensures r.Some? ==> forall i :: 0 <= i < |r.value| ==> !IsSpace(r.value[i])
  {
    if !StartsWith(line, "+++ ") then None else NameAfterDirectory(line[4..])
  }

  /** The part of the pattern after `+++ `: up to the first slash, which no
      line feed may precede, then the run of non-whitespace. */
  function NameAfterDirectory(rest: string): (r: Option<string>)
    ensures r.Some? ==> '/' in rest
    ensures r.Some? ==> forall i :: 0 <= i < |r.value| ==> !IsSpace(r.value[i])
  {
    if '/' !in rest then None
    else
      var k := IndexOf(rest, '/');
      if '\n' in rest[..k] then None else Some(NonSpaceRun(rest[k + 1..]))
  }

  /** A directory part followed by a name is read back to the name. */
  lemma {:induction false} NameAfterDirectoryRoundTrip(dir: string, name: string, tail: string)
    requires '/' !in dir && '\n' !in dir
    requires forall i :: 0 <= i < |name| ==> !IsSpace(name[i])
    requires |tail| == 0 || IsSpace(tail[0])
    ensures NameAfterDirectory(dir + "/" + name + tail) == Some(name)
  {
    hide NonSpaceRun, IsSpace;
    var rest := dir + "/" + name + tail;
    assert rest[|dir|] == '/';
    var k := IndexOf(rest, '/');
    assert k == |dir|;
    assert rest[..k] == dir;
    assert rest[k + 1..] == name + tail;
    NonSpaceRunOf(name, tail);
  }

  /** A `+++ ` header with a directory part is read back to the name after it. */
  lemma FilenameRoundTrip(dir: string, name: string, tail: string)
    requires '/' !in dir && '\n' !in dir
    requires forall i :: 0 <= i < |name| ==> !IsSpace(name[i])
    requires |tail| == 0 || IsSpace(tail[0])
    ensures FilenameOf("+++ " + (dir + "/" + name + tail)) == Some(name)
  {
    hide NameAfterDirectory, IsSpace;
    var rest := dir + "/" + name + tail;
    assert ("+++ " + rest)[4..] == rest;
    NameAfterDirectoryRoundTrip(dir, name, tail);
  }

  /** `\S*` stops exactly at the end of a run of non-whitespace followed by whitespace. */
  lemma {:induction false} NonSpaceRunOf(name: string, tail: string)
    requires forall i :: 0 <= i < |name| ==> !IsSpace(name[i])
    requires |tail| == 0 || IsSpace(tail[0])
    ensures NonSpaceRun(name + tail) == name
  {
    if |name| > 0 {
      assert (name + tail)[1..] == name[1..] + tail;
      NonSpaceRunOf(name[1..], tail);
    } else {
      assert name + tail == tail;
    }
  }

  // ------------------------------------------------------------ hunk headers

  /** The four groups of the hunk pattern `^@@ -(\d+)(?:,(\d+))? \+(\d+)(?:,(\d+))?`,
      already converted by `int()`. */
  datatype HeaderGroups = HeaderGroups(a: nat, n: Option<nat>, b: nat, m: Option<nat>)

  /** The optional group `(?:,(\d+))?` at the front of `s`: its number, if it
      matches, and the text after it. */
  function OptionalCount(s: string): (r: (Option<nat>, string))
    ensures |r.1| <= |s|
  {
    if |s| > 0 && s[0] == ',' && |DigitRun(s[1..])| > 0 then
      var d := DigitRun(s[1..]);
      (Some(DigitsToNat(d)), s[1 + |d|..])
    else (None, s)
  }

  /** `(\d+)(?:,(\d+))?` at the front of `s`: the number, the optional count,
      and the text after them. `\d+` takes the longest digit run: neither `,`
      nor ` ` is a digit, so no shorter run lets the rest of the pattern match. */
  function NumberAndCount(s: string): (r: Option<(nat, Option<nat>, string)>)
    ensures r.Some? ==> |r.value.2| < |s|
  {
    var d := DigitRun(s);
    if |d| == 0 then None
    else
      var (n, t) := OptionalCount(s[|d|..]);
      Some((DigitsToNat(d), n, t))
  }

  /** The hunk pattern; a `,` not followed by digits leaves an optional group unmatched. */
  function HeaderOf(line: string): (r: Option<HeaderGroups>)
    ensures r.Some? ==> StartsWith(line, "@@ -") && |line| > 4 && IsDigit(line[4])
  {
    if !StartsWith(line, "@@ -") then None
    else
      match NumberAndCount(line[4..])
      case None => None
      case Some((a, n, s1)) =>
        if !StartsWith(s1, " +") then None
        else
          match NumberAndCount(s1[2..])
          case None => None
          case Some((b, m, _)) => Some(HeaderGroups(a, n, b, m))
  }

  /** A header and a file name line never look alike. */
  lemma HeaderIsNotFilename(line: string)
    requires HeaderOf(line).Some?
    ensures FilenameOf(line).None?
  {
    assert line[..4][0] == line[0];
  }

  /** The `,count` part of a header, as a diff writer renders it. */
  function RenderCount(n: Option<nat>): string {
    match n
    case None => ""
    case Some(k) => "," + NatToDigits(k)
  }

  /** A hunk header line as a diff writer renders it. */
  function RenderHeader(g: HeaderGroups): string {
    "@@ -" + NatToDigits(g.a) + RenderCount(g.n) + " +" + NatToDigits(g.b) + RenderCount(g.m) + " @@"
  }

  /** `OptionalCount` reads back a rendered count followed by a space. */
  lemma OptionalCountRoundTrip(n: Option<nat>, tail: string)
    requires |tail| > 0 && tail[0] == ' '
    ensures OptionalCount(RenderCount(n) + tail) == (n, tail)
  {
    var s := RenderCount(n) + tail;
    match n
    case None =>
      assert s == tail;
    case Some(k) =>
      var d := NatToDigits(k);
      assert s[1..] == d + tail;
      DigitRunOfDigits(d, tail);
      DigitsRoundTrip(k);
      assert s[1 + |d|..] == tail;
  }

  /** `NumberAndCount` reads back a rendered number and count followed by a space. */
  lemma NumberAndCountRoundTrip(k: nat, n: Option<nat>, tail: string)
    requires |tail| > 0 && tail[0] == ' '
    ensures NumberAndCount(NatToDigits(k) + RenderCount(n) + tail) == Some((k, n, tail))
  {
    hide DigitRun, DigitsToNat, OptionalCount;
    var d := NatToDigits(k);
    var t := RenderCount(n) + tail;
    assert d + RenderCount(n) + tail == d + t;
    assert t[0] == ',' || t[0] == ' ';
    DigitRunOfDigits(d, t);
    DigitsRoundTrip(k);
    assert (d + t)[|d|..] == t;
    OptionalCountRoundTrip(n, tail);
  }

  /** Parsing a rendered header gives back its groups, whatever follows it. */
  lemma HeaderRoundTrip(g: HeaderGroups, tail: string)
    ensures HeaderOf(RenderHeader(g) + tail) == Some(g)
  {
    hide NumberAndCount, NatToDigits, RenderCount;
    var line := RenderHeader(g) + tail;
    var second := NatToDigits(g.b) + RenderCount(g.m) + (" @@" + tail);
    var first := NatToDigits(g.a) + RenderCount(g.n) + (" +" + second);
    assert line == "@@ -" + first;
    assert line[..4] == "@@ -";
    assert line[4..] == first;
    NumberAndCountRoundTrip(g.a, g.n, " +" + second);
    assert (" +" + second)[..2] == " +";
    assert (" +" + second)[2..] == second;
    NumberAndCountRoundTrip(g.b, g.m, " @@" + tail);
  }

  /** The hunk tuple computed from the header groups. The old-side count
      defaults to one, and a count of zero leaves the old-side end absent. The
      new-side end is absent only for an explicit count of zero; otherwise it
      is the start plus the count (default one) minus one. */
  function HunkOf(g: HeaderGroups): (h: Hunk)
    ensures h.aStart == g.a && h.bStart == g.b
    ensures h.aEnd.None? <==> g.n == Some(0)
    ensures h.aEnd.Some? ==> h.aEnd.value - h.aStart + 1 == g.n.GetOr(1)
    ensures h.bEnd.None? <==> g.m == Some(0)
    ensures h.bEnd.Some? ==> h.bEnd.value - h.bStart + 1 == g.m.GetOr(1)
  {
    var aCount := if g.n.Some? then g.n.value else 1;
    var aEnd := if aCount != 0 then Some(g.a + aCount - 1) else None;
    var bCount := if g.m.Some? then g.m.value else 1;
    var bEnd := if g.m.Some? && bCount == 0 then None else Some(g.b + bCount - 1);
    Hunk(g.a, aEnd, g.b, bEnd)
  }

  /** The two headers of the parser's test: `@@ -4 +3,0 @@` and `@@ -42,0 +42 @@`. */
  lemma HeaderExamples()
    ensures HeaderOf("@@ -4 +3,0 @@\n").Some?
    ensures HunkOf(HeaderOf("@@ -4 +3,0 @@\n").value) == Hunk(4, Some(4), 3, None)
    ensures HeaderOf("@@ -42,0 +42 @@\n").Some?
    ensures HunkOf(HeaderOf("@@ -42,0 +42 @@\n").value) == Hunk(42, None, 42, Some(42))
  {
    var g1 := HeaderGroups(4, None, 3, Some(0));
    var g2 := HeaderGroups(42, Some(0), 42, None);
    assert NatToDigits(42) == "42";
    assert RenderHeader(g1) + "\n" == "@@ -4 +3,0 @@\n";
    assert RenderHeader(g2) + "\n" == "@@ -42,0 +42 @@\n";
    HeaderRoundTrip(g1, "\n");
    HeaderRoundTrip(g2, "\n");
  }

  // ------------------------------------------------------------ the parser

  /** What the parser carries from line to line: the current file name, and
      the hunks found so far per file name. */
  datatype DiffState = DiffState(filename: Option<string>, hunks: map<string, seq<Hunk>>)

  /** `lines_by_file.setdefault(k, []).extend([h])` */
  function Extend(m: map<string, seq<Hunk>>, k: string, h: Hunk): (r: map<string, seq<Hunk>>)
    ensures r.Keys == m.Keys + {k}
    ensures r[k] == (if k in m then m[k] else []) + [h]
    ensures forall j :: j in m && j != k ==> r[j] == m[j]
  {
    m[k := (if k in m then m[k] else []) + [h]]
  }

  /** One iteration of the parser. A file name line switches the current file,
      whatever the line's role in the diff; lines before the first one are
      ignored; a hunk header adds its hunk to the current file. */
  function Consume(st: DiffState, line: string): (r: DiffState)
    ensures FilenameOf(line).Some? ==> r.filename == FilenameOf(line)
    ensures FilenameOf(line).None? ==> r.filename == st.filename
    ensures NoEmptyList(st.hunks) ==> NoEmptyList(r.hunks)
  {
    var filename := if FilenameOf(line).Some? then FilenameOf(line) else st.filename;
    if filename.None? then st
    else
      match HeaderOf(line)
      case None => st.(filename := filename)
      case Some(g) => DiffState(filename, Extend(st.hunks, filename.value, HunkOf(g)))
  }

  /** Every file name in the map carries at least one hunk. */
  predicate NoEmptyList(m: map<string, seq<Hunk>>) {
    forall k :: k in m ==> |m[k]| > 0
  }

  /** The parser state after `lines`, starting from `st`. */
  function Run(st: DiffState, lines: seq<string>): (r: DiffState)
    ensures NoEmptyList(st.hunks) ==> NoEmptyList(r.hunks)
    decreases |lines|
  {
    if |lines| == 0 then st
    else Consume(Run(st, lines[..|lines| - 1]), lines[|lines| - 1])
  }

  /** `parse_diff_segments`: the hunk tuples of each file of a unified diff, in input order. */
  function ParseDiffSegments(lines: seq<string>): (r: map<string, seq<Hunk>>)
    // a file name line alone adds no key: every file has at least one hunk
    ensures forall k :: k in r ==> |r[k]| > 0
  {
    Run(DiffState(None, map[]), lines).hunks
  }

  /** The file name of the last file name line among `lines`, if any. */
  function LastFilename(lines: seq<string>): Option<string>
    decreases |lines|
  {
    if |lines| == 0 then None
    else if FilenameOf(lines[|lines| - 1]).Some? then FilenameOf(lines[|lines| - 1])
    else LastFilename(lines[..|lines| - 1])
  }

  /** The hunk headers among `lines` that follow a file name line naming `k`,
      in order: a reference definition of what the parser collects for `k`. */
  function HunksFor(lines: seq<string>, k: string): seq<Hunk>
    decreases |lines|
  {
    if |lines| == 0 then []
    else
      var last := lines[|lines| - 1];
      HunksFor(lines[..|lines| - 1], k) +
      (if HeaderOf(last).Some? && LastFilename(lines) == Some(k) then [HunkOf(HeaderOf(last).value)] else [])
  }

  /** The parser's result, file by file: a file is a key exactly when some hunk
      header follows a line naming it, and its hunks are those headers in input
      order. */
  lemma {:induction false} ParseDiffSegmentsSpec(lines: seq<string>)
    ensures Run(DiffState(None, map[]), lines).filename == LastFilename(lines)
    ensures forall k :: k in ParseDiffSegments(lines) <==> |HunksFor(lines, k)| > 0
    ensures forall k :: k in ParseDiffSegments(lines) ==> ParseDiffSegments(lines)[k] == HunksFor(lines, k)
    decreases |lines|
  {
    if |lines| > 0 {
      var prefix := lines[..|lines| - 1];
      var last := lines[|lines| - 1];
      ParseDiffSegmentsSpec(prefix);
      if HeaderOf(last).Some? {
        HeaderIsNotFilename(last);
      }
    }
  }

  /** A diff without any file name line yields an empty result. */
  lemma NoFilenameNoHunks(lines: seq<string>)
    requires forall i :: 0 <= i < |lines| ==> FilenameOf(lines[i]).None?
    ensures ParseDiffSegments(lines) == map[]
  {
    NoFilenameRun(lines);
  }

  lemma {:induction false} NoFilenameRun(lines: seq<string>)
    requires forall i :: 0 <= i < |lines| ==> FilenameOf(lines[i]).None?
    ensures Run(DiffState(None, map[]), lines) == DiffState(None, map[])
    decreases |lines|
  {
    if |lines| > 0 {
      NoFilenameRun(lines[..|lines| - 1]);
    }
  }

  /** Running the parser over two pieces is running it over the first, then the second. */
  lemma {:induction false} RunAppend(st: DiffState, a: seq<string>, b: seq<string>)
    ensures Run(st, a + b) == Run(Run(st, a), b)
    decreases |b|
  {
    if |b| == 0 {
      assert a + b == a;
    } else {
      assert (a + b)[..|a + b| - 1] == a + b[..|b| - 1];
      RunAppend(st, a, b[..|b| - 1]);
    }
  }

  /** Lines before the first file name line are ignored. */
  lemma IgnoredPrefix(pre: seq<string>, rest: seq<string>)
    requires forall i :: 0 <= i < |pre| ==> FilenameOf(pre[i]).None?
    ensures ParseDiffSegments(pre + rest) == ParseDiffSegments(rest)
  {
    RunAppend(DiffState(None, map[]), pre, rest);
    NoFilenameRun(pre);
  }

  // ------------------------------------------------------------ patch segments

  /** The patch segments a file's hunks contribute: one `Segment(b_start, b_end)`
      per hunk that has new-side lines, in order. */
  function PatchSegmentsOf(hunks: seq<Hunk>): (r: seq<Segment>)
    ensures forall i :: 0 <= i < |r| ==> r[i].end.Some?
    ensures |r| <= |hunks|
  {
    if |hunks| == 0 then []
    else
      var h := hunks[|hunks| - 1];
      PatchSegmentsOf(hunks[..|hunks| - 1]) + (if h.bEnd.None? then [] else [Segment(h.bStart, h.bEnd)])
  }

  /** The loop of `_parse_input_diff` over one file's hunks. */
  function AddPatchHunks(f: File, hunks: seq<Hunk>): (r: File)
    ensures r.(patchSegments := f.patchSegments) == f
    ensures |f.patchSegments| <= |r.patchSegments| <= |f.patchSegments| + |hunks|
    ensures r.patchSegments[..|f.patchSegments|] == f.patchSegments
    decreases |hunks|
  {
    if |hunks| == 0 then f
    else
      var g := AddPatchHunks(f, hunks[..|hunks| - 1]);
      var h := hunks[|hunks| - 1];
      if h.bEnd.None? then g else AddPatchSegment(g, h.bStart, h.bEnd.value)
  }

  /** The loop appends exactly the patch segments of the hunks and changes nothing else. */
  lemma {:induction false} AddPatchHunksSpec(f: File, hunks: seq<Hunk>)
    ensures AddPatchHunks(f, hunks) == f.(patchSegments := f.patchSegments + PatchSegmentsOf(hunks))
    decreases |hunks|
  {
    if |hunks| > 0 {
      AddPatchHunksSpec(f, hunks[..|hunks| - 1]);
      var pre := PatchSegmentsOf(hunks[..|hunks| - 1]);
      var h := hunks[|hunks| - 1];
      if h.bEnd.Some? {
        assert f.patchSegments + pre + [Segment(h.bStart, h.bEnd)] == f.patchSegments + (pre + [Segment(h.bStart, h.bEnd)]);
      } else {
        assert pre + [] == pre;
      }
    }
  }

  /** `_parse_input_diff`: each file of `files` named in the diff gets the patch
      segments of its hunks; files the diff does not name are left alone, and
      names that are not in `files` are skipped. */
  function ParseInputDiff(files: map<string, File>, diff: seq<string>): (r: map<string, File>)
    ensures r.Keys == files.Keys
    // only the patch segments change, and they only grow
    ensures forall k :: k in r ==>
      && r[k].(patchSegments := files[k].patchSegments) == files[k]
      && |files[k].patchSegments| <= |r[k].patchSegments|
      && r[k].patchSegments[..|files[k].patchSegments|] == files[k].patchSegments
  {
    var segments := ParseDiffSegments(diff);
    map k | k in files :: if k in segments then AddPatchHunks(files[k], segments[k]) else files[k]
  }

  /** What `_parse_input_diff` does to each file. */
  lemma ParseInputDiffSpec(files: map<string, File>, diff: seq<string>)
    ensures ParseInputDiff(files, diff).Keys == files.Keys
    ensures forall k :: k in files && |HunksFor(diff, k)| == 0 ==> ParseInputDiff(files, diff)[k] == files[k]
    ensures forall k :: k in files ==>
      ParseInputDiff(files, diff)[k] ==
        files[k].(patchSegments := files[k].patchSegments + PatchSegmentsOf(HunksFor(diff, k)))
  {
    var r := ParseInputDiff(files, diff);
    var segments := ParseDiffSegments(diff);
    ParseDiffSegmentsSpec(diff);
    forall k | k in files
      ensures r[k] == files[k].(patchSegments := files[k].patchSegments + PatchSegmentsOf(HunksFor(diff, k)))
    {
      if k in segments {
        AddPatchHunksSpec(files[k], segments[k]);
      } else {
        assert HunksFor(diff, k) == [];
        assert files[k].patchSegments + [] == files[k].patchSegments;
      }
    }
  }

  // ------------------------------------------------------------ format segments

  /** `not b_end`: an absent new-side end, or an end of zero. */
  predicate Falsy(end: Option<int>) {
    end.None? || end.value == 0
  }

  /** The formatted lines a hunk carries: none for a hunk whose new-side end is
      falsy, otherwise `formatted[b_start-1:b_end]`. */
  function HunkContent(h: Hunk, formatted: seq<string>): (r: seq<string>)
    ensures Falsy(h.bEnd) ==> r == []
    ensures !Falsy(h.bEnd) && 1 <= h.bStart <= h.bEnd.value <= |formatted| ==>
      r == formatted[h.bStart - 1..h.bEnd.value] && |r| == h.bEnd.value - h.bStart + 1
  {
    if Falsy(h.bEnd) then [] else PySlice(formatted, h.bStart - 1, h.bEnd.value)
  }

  /** The format segment one hunk becomes, or the error its construction raises. */
  function HunkSegment(h: Hunk, formatted: seq<string>): Result<FormatSegment> {
    NewFormatSegment(h.aStart, h.aEnd, HunkContent(h, formatted))
  }

  /** How a hunk between the patched and the formatted contents is classified. */
  lemma HunkSegmentCases(h: Hunk, formatted: seq<string>)
    // a hunk without new-side lines deletes the old-side range, and cannot be an insertion
    ensures Falsy(h.bEnd) && h.aEnd.Some? ==> HunkSegment(h, formatted) == Success(Deletion(h.aStart, h.aEnd.value))
    ensures Falsy(h.bEnd) && h.aEnd.None? ==> HunkSegment(h, formatted).Failure?
    // a hunk with new-side lines in range carries exactly those lines
    ensures !Falsy(h.bEnd) && 1 <= h.bStart <= h.bEnd.value <= |formatted| ==>
      && HunkSegment(h, formatted).Success?
      && HunkSegment(h, formatted).value.Content() == formatted[h.bStart - 1..h.bEnd.value]
      && (h.aEnd.None? ==> HunkSegment(h, formatted).value == Insertion(h.aStart, formatted[h.bStart - 1..h.bEnd.value]))
      && (h.aEnd.Some? ==>
            HunkSegment(h, formatted).value == Modification(h.aStart, h.aEnd.value, formatted[h.bStart - 1..h.bEnd.value]))
  {
  }

  /** The loop of `_split_format_segments` over the hunks; the first segment
      the constructor refuses raises its error. */
  function AddFormatHunks(f: File, hunks: seq<Hunk>, formatted: seq<string>): (r: Result<File>)
    // one format segment per hunk is appended; nothing else changes
    ensures r.Success? ==>
      && r.value.(formatSegments := f.formatSegments) == f
      && |r.value.formatSegments| == |f.formatSegments| + |hunks|
      && r.value.formatSegments[..|f.formatSegments|] == f.formatSegments
    decreases |hunks|
  {
    if |hunks| == 0 then Success(f)
    else
      var g :- AddFormatHunks(f, hunks[..|hunks| - 1], formatted);
      var h := hunks[|hunks| - 1];
      AddFormatSegment(g, h.aStart, h.aEnd, HunkContent(h, formatted))
  }

  /** The loop succeeds exactly when every hunk yields a segment. */
  lemma {:induction false} AddFormatHunksSucceeds(f: File, hunks: seq<Hunk>, formatted: seq<string>)
    ensures AddFormatHunks(f, hunks, formatted).Success? <==>
      forall i :: 0 <= i < |hunks| ==> HunkSegment(hunks[i], formatted).Success?
    decreases |hunks|
  {
    hide NewFormatSegment, HunkContent;
    if |hunks| > 0 {
      var pre := hunks[..|hunks| - 1];
      AddFormatHunksSucceeds(f, pre, formatted);
      assert forall i :: 0 <= i < |pre| ==> pre[i] == hunks[i];
    }
  }

  /** The segments of hunks that all yield one, in hunk order. */
  function HunkSegments(hunks: seq<Hunk>, formatted: seq<string>): (r: seq<FormatSegment>)
    requires forall i :: 0 <= i < |hunks| ==> HunkSegment(hunks[i], formatted).Success?
    ensures |r| == |hunks|
  {
    seq(|hunks|, i requires 0 <= i < |hunks| => HunkSegment(hunks[i], formatted).value)
  }

  /** On success the loop appends the hunks' segments in hunk order and changes nothing else. */
  lemma {:induction false} AddFormatHunksSpec(f: File, hunks: seq<Hunk>, formatted: seq<string>)
    requires forall i :: 0 <= i < |hunks| ==> HunkSegment(hunks[i], formatted).Success?
    ensures AddFormatHunks(f, hunks, formatted) ==
      Success(f.(formatSegments := f.formatSegments + HunkSegments(hunks, formatted)))
    decreases |hunks|
  {
    hide NewFormatSegment, HunkContent;
    if |hunks| == 0 {
      assert f.formatSegments + [] == f.formatSegments;
    } else {
      var pre := hunks[..|hunks| - 1];
      var h := hunks[|hunks| - 1];
      assert forall i :: 0 <= i < |pre| ==> pre[i] == hunks[i];
      AddFormatHunksSpec(f, pre, formatted);
      var segments := HunkSegments(pre, formatted);
      assert HunkSegments(hunks, formatted) == segments + [HunkSegment(h, formatted).value];
      assert f.formatSegments + segments + [HunkSegment(h, formatted).value] ==
        f.formatSegments + (segments + [HunkSegment(h, formatted).value]);
    }
  }

  /** `_split_format_segments`. A file without formatted contents is left alone.
      Otherwise `differ` stands for `difflib.unified_diff` between the patched
      and the formatted lines with headers `patch/file` and `formatted/file`;
      the hunks of `file` become format segments. A file without patched
      contents makes the differ raise, and a diff without hunks makes the
      lookup of `file` raise. */
  function SplitFormatSegments(f: File, differ: (seq<string>, seq<string>) -> seq<string>): (r: Result<File>)
    ensures f.formatted.None? ==> r == Success(f)
    ensures f.formatted.Some? ==>
      (r.Success? <==>
        && f.patch.Some?
        && "file" in ParseDiffSegments(differ(f.patch.value, f.formatted.value))
        && var hunks := ParseDiffSegments(differ(f.patch.value, f.formatted.value))["file"];
           forall i :: 0 <= i < |hunks| ==> HunkSegment(hunks[i], f.formatted.value).Success?)
    ensures f.formatted.Some? && r.Success? ==>
      && f.patch.Some?
      && "file" in ParseDiffSegments(differ(f.patch.value, f.formatted.value))
      && var hunks := ParseDiffSegments(differ(f.patch.value, f.formatted.value))["file"];
         && (forall i :: 0 <= i < |hunks| ==> HunkSegment(hunks[i], f.formatted.value).Success?)
         && r.value == f.(formatSegments := f.formatSegments + HunkSegments(hunks, f.formatted.value))
  {
    if f.formatted.None? then Success(f)
    else if f.patch.None? then Failure(TypeError("object of type 'NoneType' has no len()"))
    else
      var segments := ParseDiffSegments(differ(f.patch.value, f.formatted.value));
      if "file" !in segments then Failure(KeyError("file"))
      else
        var hunks := segments["file"];
        AddFormatHunksSucceeds(f, hunks, f.formatted.value);
        if forall i :: 0 <= i < |hunks| ==> HunkSegment(hunks[i], f.formatted.value).Success? then
          AddFormatHunksSpec(f, hunks, f.formatted.value);
          AddFormatHunks(f, hunks, f.formatted.value)
        else AddFormatHunks(f, hunks, f.formatted.value)
  }

  /** When the differ's output starts with the two file headers and holds a
      hunk header after them, the lookup of `file` succeeds, and the splitter
      fails only if one of the hunks does. */
  lemma SplitFormatSegmentsSucceeds(f: File, differ: (seq<string>, seq<string>) -> seq<string>, body: seq<string>)
    requires f.formatted.Some? && f.patch.Some?
    requires differ(f.patch.value, f.formatted.value) == ["--- patch/file\n", "+++ formatted/file\n"] + body
    requires forall i :: 0 <= i < |body| ==> FilenameOf(body[i]).None?
    requires exists i :: 0 <= i < |body| && HeaderOf(body[i]).Some?
    ensures SplitFormatSegments(f, differ).Success? <==>
      forall i :: 0 <= i < |HunksFor(["+++ formatted/file\n"] + body, "file")| ==>
        HunkSegment(HunksFor(["+++ formatted/file\n"] + body, "file")[i], f.formatted.value).Success?
  {
    var lines := differ(f.patch.value, f.formatted.value);
    var rest := ["+++ formatted/file\n"] + body;
    assert lines == ["--- patch/file\n"] + rest;
    assert FilenameOf("--- patch/file\n").None? by {
      assert "--- patch/file\n"[..4][0] == '-';
    }
    IgnoredPrefix(["--- patch/file\n"], rest);
    FormattedFileHeader();
    var j :| 0 <= j < |body| && HeaderOf(body[j]).Some?;
    HeadedHunks(body, j);
    ParseDiffSegmentsSpec(rest);
    AddFormatHunksSucceeds(f, HunksFor(rest, "file"), f.formatted.value);
  }

  /** The formatted side's header names the file `file`. */
  lemma FormattedFileHeader()
    ensures FilenameOf("+++ formatted/file\n") == Some("file")
  {
    assert "+++ formatted/file\n" == "+++ " + ("formatted" + "/" + "file" + "\n");
    FilenameRoundTrip("formatted", "file", "\n");
  }

  /** After the `formatted/file` header, with no other file name line, every hunk
      header of the body belongs to `file`. */
  lemma {:induction false} HeadedHunks(body: seq<string>, j: nat)
    requires forall i :: 0 <= i < |body| ==> FilenameOf(body[i]).None?
    requires j < |body| && HeaderOf(body[j]).Some?
    ensures |HunksFor(["+++ formatted/file\n"] + body, "file")| > 0
    decreases |body|
  {
    hide HeaderOf, FilenameOf;
    var lines := ["+++ formatted/file\n"] + body;
    assert lines[..|lines| - 1] == ["+++ formatted/file\n"] + body[..|body| - 1];
    assert lines[|lines| - 1] == body[|body| - 1];
    HeadedFilename(body);
    if j < |body| - 1 {
      HeadedHunks(body[..|body| - 1], j);
    }
  }

  /** After the `formatted/file` header, with no other file name line, the current file is `file`. */
  lemma {:induction false} HeadedFilename(body: seq<string>)
    requires forall i :: 0 <= i < |body| ==> FilenameOf(body[i]).None?
    ensures LastFilename(["+++ formatted/file\n"] + body) == Some("file")
    decreases |body|
  {
    hide FilenameOf;
    var lines := ["+++ formatted/file\n"] + body;
    if |body| > 0 {
      assert lines[..|lines| - 1] == ["+++ formatted/file\n"] + body[..|body| - 1];
      HeadedFilename(body[..|body| - 1]);
    } else {
      FormattedFileHeader();
    }
  }
}
