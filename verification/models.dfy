/**
 The value types shared by the format checker: a line range of a file
 (`Segment`), a reformat suggestion classified as insertion, modification or
 deletion (`FormatSegment`), and a file of a change with its base, patched and
 formatted contents (`File`). Python mutates `File` objects in place; here each
 mutator returns the updated value.
 */
module Models {
  import opened Text

  /** A 1-based, inclusive line range; an absent end marks an insertion point at `start`. */
  datatype Segment = Segment(start: int, end: Option<int>) {

    /** What the segment constructor is expected to accept: a positive start,
        and an end, when present, that is positive and not before the start. */
    predicate Valid() {
      start >= 1 && (end.Some? ==> end.value >= 1 && end.value >= start)
    }

    /** The `"start:end"` range that the formatter's `-lines` option takes; a
        segment without an end is an insertion point and has no range. */
    function FormatRange(): (r: Result<string>)
      ensures r.Failure? <==> end.None?
      ensures r.Failure? ==> r.error == ValueError(NoEndpointMessage)
      ensures r.Success? ==> ParseRange(r.value) == Some((start, end.value))
      ensures r.Success? ==> CanonicalRange(r.value)
    {
      match end
      case None => Failure(ValueError(NoEndpointMessage))
      case Some(e) =>
        var s := IntToString(start) + ":" + IntToString(e);
        FormatRangeParses(start, e);
        Success(s)
    }
  }

  /** The message of the error a segment without an end raises for its range. */
  const NoEndpointMessage := "Segment does not have an endpoint and is not a range"

  /** Reads a `"start:end"` range back: the two decimal integers on either side
      of the first colon. */
  function ParseRange(s: string): Option<(int, int)> {
    if ':' !in s then None
    else
      var k := IndexOf(s, ':');
      match (ParseInt(s[..k]), ParseInt(s[k + 1..]))
      case (Some(a), Some(b)) => Some((a, b))
      case _ => None
  }

  /** A `"%i:%i"` text: two canonical integers around the first colon. */
  predicate CanonicalRange(s: string) {
    ':' in s && CanonicalInt(s[..IndexOf(s, ':')]) && CanonicalInt(s[IndexOf(s, ':') + 1..])
  }

  /** The rendered range reads back to its two numbers, in `"%i:%i"` form. */
  lemma FormatRangeParses(a: int, b: int)
    ensures ParseRange(IntToString(a) + ":" + IntToString(b)) == Some((a, b))
    ensures CanonicalRange(IntToString(a) + ":" + IntToString(b))
  {
    var x, y := IntToString(a), IntToString(b);
    var s := x + ":" + y;
    assert s[|x|] == ':';
    var k := IndexOf(s, ':');
    assert s[..k] == x;
    assert s[k + 1..] == y;
    IntRoundTrip(a);
    IntRoundTrip(b);
  }

  /** The range text is determined by the segment: any `"%i:%i"` text that
      reads back to the segment's start and end is exactly its range. */
  lemma FormatRangeUnique(seg: Segment, t: string)
    requires seg.end.Some?
    requires CanonicalRange(t) && ParseRange(t) == Some((seg.start, seg.end.value))
    ensures seg.FormatRange() == Success(t)
  {
    var k := IndexOf(t, ':');
    CanonicalIntUnique(t[..k], seg.start);
    CanonicalIntUnique(t[k + 1..], seg.end.value);
    assert t == t[..k] + ":" + t[k + 1..];
  }

  /** `test_format_range`: lines 1 to 5 give `"1:5"`. */
  lemma FormatRangeExample()
    ensures Segment(1, Some(5)).FormatRange() == Success("1:5")
  {
    var t := "1:5";
    assert t[1] == ':' && t[..1] == "1" && t[2..] == "5";
    assert IndexOf(t, ':') == 1;
    FormatRangeUnique(Segment(1, Some(5)), t);
  }

  // ------------------------------------------------------------ format segments

  /** A reformat suggestion. `Insertion` adds `content` after line `start`;
      `Modification` replaces lines `start..end` by `content`; `Deletion`
      removes lines `start..end`. */
  datatype FormatSegment =
    | Insertion(start: int, content: seq<string>)
    | Modification(start: int, end: int, content: seq<string>)
    | Deletion(start: int, end: int)
  {
    /** The optional end as the untyped segment stores it. */
    function End(): Option<int> {
      match this
      case Insertion(_, _) => None
      case Modification(_, e, _) => Some(e)
      case Deletion(_, e) => Some(e)
    }

    /** The replacement lines as the untyped segment stores them. */
    function Content(): seq<string> {
      match this
      case Insertion(_, c) => c
      case Modification(_, _, c) => c
      case Deletion(_, _) => []
    }

    /** Range constraints on the start and end, plus non-empty replacement
        content for the two variants that carry content. */
    predicate Valid() {
      && Segment(start, End()).Valid()
      && (!Deletion? ==> |Content()| > 0)
    }
  }

  /** `is_insert`: the segment has no end. */
  predicate IsInsert(end: Option<int>) {
    end.None?
  }

  /** `is_delete`: the segment has no replacement content. */
  predicate IsDelete(content: seq<string>) {
    |content| == 0
  }

  /** `is_modification`: neither of the above. */
  predicate IsModification(end: Option<int>, content: seq<string>) {
    !IsInsert(end) && !IsDelete(content)
  }

  /** The format segment constructor: classifies `(start, end, content)` by
      the three predicates above and refuses the one shape two of them claim,
      an insertion with nothing to insert. */
  function NewFormatSegment(start: int, end: Option<int>, content: seq<string>): (r: Result<FormatSegment>)
    ensures r.Success? <==> !(IsInsert(end) && IsDelete(content))
    ensures r.Success? ==>
      && r.value.start == start && r.value.End() == end && r.value.Content() == content
      && (r.value.Insertion? <==> IsInsert(end))
      && (r.value.Deletion? <==> IsDelete(content))
      && (r.value.Modification? <==> IsModification(end, content))
    ensures r.Success? && Segment(start, end).Valid() ==> r.value.Valid()
  {
    match end
    case None =>
      if |content| == 0 then Failure(ValueError("An insertion needs content"))
      else Success(Insertion(start, content))
    case Some(e) =>
      if |content| == 0 then Success(Deletion(start, e))
      else Success(Modification(start, e, content))
  }

  /** Exactly one of the three classification predicates holds of
      `(end, content)` precisely when the constructor accepts it. */
  lemma ExactlyOneClassification(start: int, end: Option<int>, content: seq<string>)
    ensures NewFormatSegment(start, end, content).Success? <==>
      || (IsInsert(end) && !IsDelete(content) && !IsModification(end, content))
      || (!IsInsert(end) && IsDelete(content) && !IsModification(end, content))
      || (!IsInsert(end) && !IsDelete(content) && IsModification(end, content))
  {
  }

  // ------------------------------------------------------------------ files

  /** One file of a change. `base` is absent for an added file and `patch` is
      absent for a deleted one. */
  datatype File = File(
    filename: string,
    base: Option<seq<string>>,
    patch: Option<seq<string>>,
    formatted: Option<seq<string>>,
    patchSegments: seq<Segment>,
    formatSegments: seq<FormatSegment>)

  /** The file constructor: no formatted contents and no segments yet. */
  function NewFile(filename: string, base: Option<seq<string>>, patch: Option<seq<string>>): (f: File)
    ensures f.filename == filename && f.base == base && f.patch == patch
    ensures f.formatted.None? && f.patchSegments == [] && f.formatSegments == []
  {
    File(filename, base, patch, None, [], [])
  }

  /** Records that lines `start..end` of the patched contents were touched by the patch. */
  function AddPatchSegment(f: File, start: int, end: int): (r: File)
    ensures |r.patchSegments| == |f.patchSegments| + 1
    ensures r.patchSegments[..|f.patchSegments|] == f.patchSegments
    ensures r.patchSegments[|f.patchSegments|] == Segment(start, Some(end))
    ensures r.(patchSegments := f.patchSegments) == f
  {
    f.(patchSegments := f.patchSegments + [Segment(start, Some(end))])
  }

  /** Records one reformat suggestion, raising what the segment constructor raises. */
  function AddFormatSegment(f: File, start: int, end: Option<int>, content: seq<string>): (r: Result<File>)
    ensures r.Success? <==> NewFormatSegment(start, end, content).Success?
    ensures r.Success? ==>
      && |r.value.formatSegments| == |f.formatSegments| + 1
      && r.value.formatSegments[..|f.formatSegments|] == f.formatSegments
      && r.value.formatSegments[|f.formatSegments|] == NewFormatSegment(start, end, content).value
      && r.value.(formatSegments := f.formatSegments) == f
  {
    var s :- NewFormatSegment(start, end, content);
    Success(f.(formatSegments := f.formatSegments + [s]))
  }

  /** Stores the formatter's output, but only when it differs from the patched
      contents: identical output leaves the formatted contents as they were. */
  function SetFormattedContents(f: File, contents: seq<string>): (r: File)
    ensures f.patch == Some(contents) ==> r == f
    ensures f.patch != Some(contents) ==> r.formatted == Some(contents)
    ensures r.(formatted := f.formatted) == f
  {
    if f.patch != Some(contents) then f.(formatted := Some(contents)) else f
  }

  /** Storing the same output twice is the same as storing it once. */
  lemma SetFormattedContentsIdempotent(f: File, contents: seq<string>)
    ensures SetFormattedContents(SetFormattedContents(f, contents), contents) == SetFormattedContents(f, contents)
  {
  }

  /** A fresh file whose formatter output equals its patched contents keeps no formatted contents. */
  lemma UnchangedOutputLeavesNoContents(name: string, base: Option<seq<string>>, patch: seq<string>)
    ensures SetFormattedContents(NewFile(name, base, Some(patch)), patch).formatted.None?
  {
  }

  /** A change of the code review server: its identifier and its files. */
  datatype Change = Change(changeId: string, files: seq<File>)
}
