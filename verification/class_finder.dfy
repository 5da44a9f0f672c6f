/**
 The class-region detector of `formatchecker/core.py`: a single forward scan
 over a file's lines that carries whether it is inside a top-level
 `class`/`struct` body and the current brace level, and reports the 1-based
 numbers of the lines inside such bodies. The scanner is deliberately lexical:
 braces are counted character by character, without regard to comments or
 strings, and only keywords at column 0 open a class.
 */
module ClassFinder {
  import opened Text

  /** What follows `class ` or `struct ` when the line starts with one of them. */
  function KeywordRest(line: string): Option<string> {
    if |line| >= 6 && StartsWith(line, "class ") then Some(line[6..])
    else if |line| >= 7 && StartsWith(line, "struct ") then Some(line[7..])
    else None
  }

  /** The pattern `^(?:class|struct) .*$`: a line opening with the keyword
      and holding no line feed before its end. `.` refuses line feeds, and
      `$` matches at the end or before one final line feed. */
  predicate IsDefinitionStart(line: string)
    ensures IsDefinitionStart(line) ==> StartsWith(line, "class ") || StartsWith(line, "struct ")
    ensures (StartsWith(line, "class ") || StartsWith(line, "struct ")) && '\n' !in line ==> IsDefinitionStart(line)
  {
    KeywordRest(line).Some? && NoNewline(StripFinalNewline(line))
  }

  /** The pattern `^(?:class|struct) .*;$`: such a line whose last character
      before the optional final line feed is `;` (a forward declaration or
      an empty one-line definition). */
  predicate IsDeclaration(line: string)
    ensures IsDeclaration(line) ==> IsDefinitionStart(line) && ';' in line
  {
    IsDefinitionStart(line) &&
    var body := StripFinalNewline(line);
    |body| > 0 && body[|body| - 1] == ';'
  }

  /** The two patterns read as the regular expressions are written: the
      keyword, then `.*` over the rest of the line up to `$`, ending in `;`
      for a declaration. */
  lemma PatternsOnRest(line: string)
    ensures IsDefinitionStart(line) <==>
      match KeywordRest(line)
      case None => false
      case Some(rest) => NoNewline(StripFinalNewline(rest))
    ensures IsDeclaration(line) <==>
      match KeywordRest(line)
      case None => false
      case Some(rest) =>
        var body := StripFinalNewline(rest);
        NoNewline(body) && |body| > 0 && body[|body| - 1] == ';'
  {
    match KeywordRest(line)
    case None =>
    case Some(rest) =>
      var k := |line| - |rest|;
      assert line[..k] == "class " || line[..k] == "struct ";
      assert line[k..] == rest;
      AfterKeyword(line, k);
  }

  /** The end-of-line tests see through a keyword prefix of `k` characters
      that holds no line feed and does not end in `;`. */
  lemma AfterKeyword(line: string, k: nat)
    requires 0 < k <= |line|
    requires '\n' !in line[..k] && line[k - 1] != ';'
    ensures NoNewline(StripFinalNewline(line)) <==> NoNewline(StripFinalNewline(line[k..]))
    ensures var b := StripFinalNewline(line); var c := StripFinalNewline(line[k..]);
      (|b| > 0 && b[|b| - 1] == ';') <==> (|c| > 0 && c[|c| - 1] == ';')
  {
    var rest := line[k..];
    assert line == line[..k] + rest;
    if |rest| > 0 && rest[|rest| - 1] == '\n' {
      assert StripFinalNewline(line) == line[..k] + StripFinalNewline(rest);
    } else {
      assert StripFinalNewline(line) == line[..k] + rest;
    }
  }

  /** How much a line changes the brace level: its `{` count minus its `}` count. */
  function Delta(line: string): int {
    Count(line, '{') - Count(line, '}')
  }

  /** The state the scan carries from line to line. */
  datatype ScanState = ScanState(inClass: bool, level: int) {
    /** The scan invariant: outside a class the brace level is zero. */
    predicate Wf() {
      !inClass ==> level == 0
    }
  }

  /** What the scan needs to know about a line: which of the two patterns it
      matches, and its brace delta. */
  datatype LineKind = Other | Declaration | Opening
  datatype LineInfo = LineInfo(kind: LineKind, delta: int)

  /** The classification of one line; the declaration pattern is tried first. */
  function Classify(line: string): LineInfo {
    var kind :=
      if IsDeclaration(line) then Declaration
      else if IsDefinitionStart(line) then Opening
      else Other;
    LineInfo(kind, Delta(line))
  }

  /** One iteration of the scan on a classified line. */
  function StepInfo(st: ScanState, info: LineInfo): (r: (ScanState, bool))
    ensures st.Wf() ==> r.0.Wf()
    ensures r.1 <==> st.inClass && r.0.inClass
  {
    if !st.inClass then
      if info.kind == Opening then (ScanState(true, st.level + info.delta), false)
      else (st, false)
    else
      var level := st.level + info.delta;
      if level == 0 then (ScanState(false, level), false)
      else (ScanState(true, level), true)
  }

  /** One iteration of the scan: the state after `line`, and whether `line` is reported. */
  function Step(st: ScanState, line: string): (r: (ScanState, bool))
    ensures st.Wf() ==> r.0.Wf()
    ensures r.1 <==> st.inClass && r.0.inClass
  {
    StepInfo(st, Classify(line))
  }

  /** What one line does to the scan, case by case. */
  lemma StepCases(st: ScanState, line: string)
    // outside a class, only a keyword line that is not a declaration changes the state
    ensures !st.inClass && !(IsDefinitionStart(line) && !IsDeclaration(line)) ==> Step(st, line) == (st, false)
    ensures !st.inClass && KeywordRest(line).None? ==> Step(st, line) == (st, false)
    // such a line opens a class, taking its braces into account, and is not reported
    ensures !st.inClass && IsDefinitionStart(line) && !IsDeclaration(line) ==>
      Step(st, line) == (ScanState(true, st.level + Delta(line)), false)
    // inside a class, the line is reported iff the updated level is non-zero
    ensures st.inClass && st.level + Delta(line) != 0 ==>
      Step(st, line) == (ScanState(true, st.level + Delta(line)), true)
    // and the line that brings the level to zero closes the class, unreported
    ensures st.inClass && st.level + Delta(line) == 0 ==> Step(st, line) == (ScanState(false, 0), false)
  {
  }

  /** The state after the first `k` lines. */
  function StateAfter(contents: seq<string>, k: nat): (st: ScanState)
    requires k <= |contents|
    ensures st.Wf()
  {
    if k == 0 then ScanState(false, 0)
    else Step(StateAfter(contents, k - 1), contents[k - 1]).0
  }

  /** Whether line `n` (1-based) is reported. */
  predicate Reported(contents: seq<string>, n: int)
    requires 1 <= n <= |contents|
  {
    Step(StateAfter(contents, n - 1), contents[n - 1]).1
  }

  predicate StrictlyIncreasing(s: seq<int>) {
    forall i, j :: 0 <= i < j < |s| ==> s[i] < s[j]
  }

  /** The reported line numbers among the first `k` lines, in scan order. */
  function ClassLinesUpTo(contents: seq<string>, k: nat): seq<int>
    requires k <= |contents|
  {
    if k == 0 then []
    else ClassLinesUpTo(contents, k - 1) + (if Reported(contents, k) then [k] else [])
  }

  /** The prefix results are increasing and lie in `1..k`. */
  lemma {:induction false} ClassLinesUpToOrdered(contents: seq<string>, k: nat)
    requires k <= |contents|
    ensures StrictlyIncreasing(ClassLinesUpTo(contents, k))
    ensures forall i :: 0 <= i < |ClassLinesUpTo(contents, k)| ==> 1 <= ClassLinesUpTo(contents, k)[i] <= k
  {
    if k > 0 {
      ClassLinesUpToOrdered(contents, k - 1);
      var prev := ClassLinesUpTo(contents, k - 1);
      var added: seq<int> := if Reported(contents, k) then [k] else [];
      assert ClassLinesUpTo(contents, k) == prev + added;
    }
  }

  /** The prefix results hold exactly the reported lines. */
  lemma {:induction false} ClassLinesUpToMembers(contents: seq<string>, k: nat)
    requires k <= |contents|
    ensures forall n :: 1 <= n <= k ==> (n in ClassLinesUpTo(contents, k) <==> Reported(contents, n))
  {
    hide Step, StateAfter;
    if k > 0 {
      ClassLinesUpToMembers(contents, k - 1);
      ClassLinesUpToOrdered(contents, k - 1);
      var prev := ClassLinesUpTo(contents, k - 1);
      var added: seq<int> := if Reported(contents, k) then [k] else [];
      assert ClassLinesUpTo(contents, k) == prev + added;
      assert k !in prev;
      forall n | 1 <= n <= k
        ensures n in ClassLinesUpTo(contents, k) <==> Reported(contents, n)
      {
        if n < k {
          assert n in added <==> false;
        }
      }
    }
  }

  /** `get_class_lines_in_file` as a function: the reported lines of the whole file. */
  function ClassLines(contents: seq<string>): (r: seq<int>)
    ensures StrictlyIncreasing(r)
    ensures forall i :: 0 <= i < |r| ==> 1 <= r[i] <= |contents|
  {
    ClassLinesUpToOrdered(contents, |contents|);
    ClassLinesUpTo(contents, |contents|)
  }

  /** What `get_class_lines_in_file` promises: nothing for an empty file,
      line numbers in increasing order and in range, and exactly the lines
      the scan reports. */
  lemma ClassLinesProperties(contents: seq<string>)
    ensures |contents| == 0 ==> ClassLines(contents) == []
    ensures StrictlyIncreasing(ClassLines(contents))
    ensures forall i :: 0 <= i < |ClassLines(contents)| ==> 1 <= ClassLines(contents)[i] <= |contents|
    ensures forall n :: 1 <= n <= |contents| ==> (n in ClassLines(contents) <==> Reported(contents, n))
  {
    ClassLinesUpToOrdered(contents, |contents|);
    ClassLinesUpToMembers(contents, |contents|);
  }

  /** One pass of the loop body of `get_class_lines_in_file`: the updated
      `in_class` and `level`, and whether the line is appended to the result. */
  method ScanLine(inClass: bool, level: int, line: string) returns (inClass': bool, level': int, report: bool)
    ensures (ScanState(inClass', level'), report) == Step(ScanState(inClass, level), line)
  {
    inClass', level', report := inClass, level, false;
    if !inClass' {
      // try to skip declarations (or empty single-line class definitions)
      if IsDeclaration(line) {
        return;
      }
      // a keyword at column 0 opens a class; that first line itself is not reported
      if IsDefinitionStart(line) {
        inClass' := true;
        level' := level' + Count(line, '{');
        level' := level' - Count(line, '}');
      }
      return;
    }
    level' := level' + Count(line, '{');
    level' := level' - Count(line, '}');
    if level' == 0 {
      inClass' := false;
      return;
    }
    report := true;
  }

  /** `get_class_lines_in_file` as the source writes it: a loop over the lines
      carrying `in_class` and `level`. */
  method GetClassLinesInFile(contents: seq<string>) returns (skip: seq<int>)
    ensures skip == ClassLines(contents)
    ensures |contents| == 0 ==> skip == []
    ensures StrictlyIncreasing(skip)
    ensures forall i :: 0 <= i < |skip| ==> 1 <= skip[i] <= |contents|
    ensures forall n :: 1 <= n <= |contents| ==>
      (n in skip <==> StateAfter(contents, n - 1).inClass && StateAfter(contents, n).inClass)
  {
    if |contents| == 0 {
      return [];
    }
    skip := [];
    var inClass := false;
    var level := 0;
    var lineno := 1;
    while lineno <= |contents|
      invariant 1 <= lineno <= |contents| + 1
      invariant ScanState(inClass, level) == StateAfter(contents, lineno - 1)
      invariant skip == ClassLinesUpTo(contents, lineno - 1)
    {
      StepUnfolds(contents, lineno - 1);
      var report;
      inClass, level, report := ScanLine(inClass, level, contents[lineno - 1]);
      if report {
        skip := skip + [lineno];
      }
      lineno := lineno + 1;
    }
    ClassLinesProperties(contents);
    ClassLinesInside(contents);
  }

  /** One more line advances the scan by one `Step`. */
  lemma StepUnfolds(contents: seq<string>, k: nat)
    requires k < |contents|
    ensures StateAfter(contents, k + 1) == Step(StateAfter(contents, k), contents[k]).0
    ensures Step(StateAfter(contents, k), contents[k]).1 ==>
      ClassLinesUpTo(contents, k + 1) == ClassLinesUpTo(contents, k) + [k + 1]
    ensures !Step(StateAfter(contents, k), contents[k]).1 ==>
      ClassLinesUpTo(contents, k + 1) == ClassLinesUpTo(contents, k)
  {
    if !Step(StateAfter(contents, k), contents[k]).1 {
      assert ClassLinesUpTo(contents, k) + [] == ClassLinesUpTo(contents, k);
    }
  }

  /** `InsideBeforeAndAfter` for every line of the file. */
  lemma ClassLinesInside(contents: seq<string>)
    ensures forall n :: 1 <= n <= |contents| ==>
      (n in ClassLines(contents) <==> StateAfter(contents, n - 1).inClass && StateAfter(contents, n).inClass)
  {
    hide ClassLines, StateAfter, Step;
    forall n | 1 <= n <= |contents|
      ensures n in ClassLines(contents) <==> StateAfter(contents, n - 1).inClass && StateAfter(contents, n).inClass
    {
      InsideBeforeAndAfter(contents, n);
    }
  }

  /** A line is reported iff the scan is inside a class both before and after it. */
  lemma InsideBeforeAndAfter(contents: seq<string>, n: int)
    requires 1 <= n <= |contents|
    ensures n in ClassLines(contents) <==> StateAfter(contents, n - 1).inClass && StateAfter(contents, n).inClass
  {
    ClassLinesProperties(contents);
    assert StateAfter(contents, n) == Step(StateAfter(contents, n - 1), contents[n - 1]).0;
  }

  /** Inside a class a line is reported iff the level after it is non-zero;
      outside a class (which includes the line that opens one) nothing is. */
  lemma ReportedIff(contents: seq<string>, n: int)
    requires 1 <= n <= |contents|
    ensures n in ClassLines(contents) <==>
      StateAfter(contents, n - 1).inClass && StateAfter(contents, n - 1).level + Delta(contents[n - 1]) != 0
  {
    ClassLinesProperties(contents);
  }

  // ------------------------------------------------------- scanning in pieces

  /** The classifications of `lines`, one per line. */
  function Classified(lines: seq<string>): (r: seq<LineInfo>)
    ensures |r| == |lines|
  {
    seq(|lines|, i requires 0 <= i < |lines| => Classify(lines[i]))
  }

  /** Classification is per line, so it distributes over concatenation. */
  lemma ClassifiedAppend(a: seq<string>, b: seq<string>)
    ensures Classified(a + b) == Classified(a) + Classified(b)
  {
  }

  /** The scan of the classified `lines`, which follow `before` other lines of
      the file, started in state `st`: the state after the last line, and the
      1-based file positions of the reported lines. */
  function Scan(st: ScanState, lines: seq<LineInfo>, before: int): (ScanState, seq<int>)
    decreases |lines|
  {
    if |lines| == 0 then (st, [])
    else
      var first := StepInfo(st, lines[0]);
      var rest := Scan(first.0, lines[1..], before + 1);
      (rest.0, (if first.1 then [before + 1] else []) + rest.1)
  }

  lemma AppendAssoc(a: seq<int>, b: seq<int>, c: seq<int>)
    ensures a + b + c == a + (b + c)
  {
  }

  /** Scanning a whole classified file from the start is `ClassLines`. */
  lemma ScanIsClassLines(contents: seq<string>)
    ensures Scan(ScanState(false, 0), Classified(contents), 0).1 == ClassLines(contents)
  {
    ScanSuffix(contents, 0);
    assert Classified(contents)[0..] == Classified(contents);
    assert ClassLinesUpTo(contents, 0) == [];
  }

  /** Scanning the lines after the first `k` from the state they lead to
      reports the rest of the class lines. */
  lemma {:induction false} ScanSuffix(contents: seq<string>, k: nat)
    requires k <= |contents|
    ensures ClassLinesUpTo(contents, |contents|) ==
      ClassLinesUpTo(contents, k) + Scan(StateAfter(contents, k), Classified(contents)[k..], k).1
    decreases |contents| - k
  {
    var infos := Classified(contents);
    if k == |contents| {
      assert infos[k..] == [];
      assert ClassLinesUpTo(contents, k) + [] == ClassLinesUpTo(contents, k);
    } else {
      var lines := infos[k..];
      assert lines[0] == Classify(contents[k]);
      assert lines[1..] == infos[k + 1..];
      var st := StateAfter(contents, k);
      var first := Step(st, contents[k]);
      var head: seq<int> := if first.1 then [k + 1] else [];
      StepUnfolds(contents, k);
      var rest := Scan(StateAfter(contents, k + 1), infos[k + 1..], k + 1);
      assert Scan(st, lines, k).1 == head + rest.1;
      ScanSuffix(contents, k + 1);
      assert ClassLinesUpTo(contents, k + 1) == ClassLinesUpTo(contents, k) + head;
      AppendAssoc(ClassLinesUpTo(contents, k), head, rest.1);
    }
  }

  /** Scanning is a fold, so it composes over concatenation: scanning `a + b`
      scans `a`, then `b` from where `a` left off. */
  lemma {:induction false} ScanAppend(st: ScanState, a: seq<LineInfo>, b: seq<LineInfo>, before: int)
    ensures Scan(st, a + b, before).0 == Scan(Scan(st, a, before).0, b, before + |a|).0
    ensures Scan(st, a + b, before).1 == Scan(st, a, before).1 + Scan(Scan(st, a, before).0, b, before + |a|).1
    decreases |a|
  {
    if |a| == 0 {
      assert a + b == b;
    } else {
      assert (a + b)[0] == a[0];
      assert (a + b)[1..] == a[1..] + b;
      var first := StepInfo(st, a[0]);
      var head: seq<int> := if first.1 then [before + 1] else [];
      var ra := Scan(first.0, a[1..], before + 1);
      var rb := Scan(ra.0, b, before + |a|);
      var rab := Scan(first.0, a[1..] + b, before + 1);
      assert Scan(st, a, before) == (ra.0, head + ra.1);
      assert Scan(st, a + b, before) == (rab.0, head + rab.1);
      ScanAppend(first.0, a[1..], b, before + 1);
      AppendAssoc(head, ra.1, rb.1);
    }
  }

  /** A line that does not start with `class ` or `struct ` never opens a class. */
  lemma NoKeywordNoClass(contents: seq<string>, n: int)
    requires 1 <= n <= |contents|
    requires !StateAfter(contents, n - 1).inClass
    requires KeywordRest(contents[n - 1]).None?
    ensures !StateAfter(contents, n).inClass
    ensures n !in ClassLines(contents)
  {
    ClassLinesProperties(contents);
  }
}
