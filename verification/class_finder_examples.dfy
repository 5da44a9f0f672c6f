/**
 The class-region detector on the test suite's fixture file
 `tests/data/test_class_finder.cpp`. The fixture is cut into its
 blank-line separated sections. Each line is classified on its own; each
 section's classified lines are scanned on their own; and `ScanAppend`
 joins the sections' scans.
 */
module ClassFinderExamples {
  import opened Text
  import opened ClassFinder

  /** A line comment. */
  predicate IsComment(line: string) {
    StartsWith(line, "//")
  }

  /** Lines 1-4 of the fixture: forward declarations, at column 0 and indented. */
  function DeclarationLines(comment: string): seq<string> {
    [
      comment,
      "class Declaration;\n",
      "    class Declaration;\n",
      "\n"
    ]
  }

  /** Lines 5-7 of the fixture: an empty one-line definition, which the declaration pattern also matches. */
  function EmptyClassLines(comment: string): seq<string> {
    [
      comment,
      "class Empty {};\n",
      "\n"
    ]
  }

  /** Lines 8-11 of the fixture: an empty definition whose `;` is on the next line. */
  function EmptyClassSplitLines(comment: string): seq<string> {
    [
      comment,
      "class Empty{}\n",
      ";\n",
      "\n"
    ]
  }

  /** Lines 12-16 of the fixture: a class whose `{` is on the keyword line. */
  function BraceOnKeywordLines(comment: string): seq<string> {
    [
      comment,
      "class Class {\n",
      "    int i;\n",
      "};\n",
      "\n"
    ]
  }

  /** Lines 17-24 of the fixture: a class whose `{` is on the line after the keyword. */
  function BraceBelowKeywordLines(comment: string): seq<string> {
    [
      comment,
      "class Class\n",
      "{\n",
      "    int i;\n",
      "    int j;\n",
      "}\n",
      ";\n",
      "\n"
    ]
  }

  /** Lines 25-28 of the fixture: a keyword not followed by a space. */
  function KeywordWithoutSpaceLines(comment: string): seq<string> {
    [
      comment,
      "class\n",
      "Class{};\n",
      "\n"
    ]
  }

  /** Lines 29-31 of the fixture: a keyword line followed by a blank line, which closes the class at level zero. */
  function BlankAfterKeywordLines(comment: string): seq<string> {
    [
      comment,
      "class Class\n",
      "\n"
    ]
  }

  /** Lines 32-35 of the fixture: the body that follows it, seen outside any class. */
  function OrphanBodyLines(): seq<string> {
    [
      "{\n",
      "    int i;\n",
      "};\n",
      "\n"
    ]
  }

  /** Lines 36-49 of the fixture: nested blocks inside a class. */
  function NestedBlockLines(comment: string): seq<string> {
    [
      comment,
      "class NestedBlocks {\n",
      "public:\n",
      "    NestedBlocks() {}\n",
      "    bool IsNested() {\n",
      "        if (true) {\n",
      "            function_call();\n",
      "            int i = {\n",
      "                0\n",
      "            };\n",
      "        }\n",
      "    }\n",
      "};\n",
      "\n"
    ]
  }

  /** Lines 50-55 of the fixture: a struct declaration and a struct definition. */
  function StructLines(comment: string): seq<string> {
    [
      comment,
      "struct SkippedDeclaration;\n",
      "struct Struct : public Class {\n",
      "    int i;\n",
      "    int j;\n",
      "};\n"
    ]
  }

  /** The fixture as `readlines()` returns it, with its nine comment lines
      left as a parameter. */
  function Fixture(comments: seq<string>): seq<string>
    requires |comments| == 9
  {
    DeclarationLines(comments[0]) +
    EmptyClassLines(comments[1]) +
    EmptyClassSplitLines(comments[2]) +
    BraceOnKeywordLines(comments[3]) +
    BraceBelowKeywordLines(comments[4]) +
    KeywordWithoutSpaceLines(comments[5]) +
    BlankAfterKeywordLines(comments[6]) +
    OrphanBodyLines() +
    NestedBlockLines(comments[7]) +
    StructLines(comments[8])
  }

  /** A line comment holding `text`, as `readlines()` returns it. */
  function Comment(text: string): (r: string)
    ensures IsComment(r)
  {
    "// " + text + "\n"
  }

  // The comment lines of the fixture, one constant each.
  const CommentLine1 := Comment("These declarations can all be reformatted")
  const CommentLine5 := Comment("Empty classes should also be reformatted")
  const CommentLine8 := Comment("The following should also not be skipped (even though it is not in line with Haiku style")
  const CommentLine12 := Comment("The following should be picked up as a class, with line 14 being skipped")
  const CommentLine17 := Comment("The following should be picked up as class, lines 19, 20 and 21")
  const CommentLine25 := Comment("The following is valid C++, but the simple parser will not pick it up because it matches on the keyword plus a space")
  const CommentLine29 := Comment("The following is valid C++, but our simple parser will not pick it up")
  const CommentLine36 := Comment("The following test validates whether the parser keeps track of the levels of parenthesis, lines 38-47")
  const CommentLine50 := Comment("Double check struct declarations and definitions too. Line 53 and 54 should be parsed.")

  /** The fixture's comment lines, in order. */
  function FixtureComments(): seq<string> {
    [CommentLine1, CommentLine5, CommentLine8, CommentLine12, CommentLine17,
     CommentLine25, CommentLine29, CommentLine36, CommentLine50]
  }

  /** The lines the test suite expects to be reported. */
  const FixtureExpected: seq<int> := [14, 19, 20, 21, 38, 39, 40, 41, 42, 43, 44, 45, 46, 47, 53, 54]

  // ------------------------------------------------------------ line facts

  /** A line whose `i`-th character (among the first six) differs from both
      keywords never opens a class. */
  lemma NoKeyword(line: string, i: nat)
    requires i < |line| && i < 6
    requires line[i] != "class "[i] && line[i] != "struct "[i]
    ensures KeywordRest(line).None?
  {
    if |line| >= 6 {
      assert line[..6][i] == line[i];
    }
    if |line| >= 7 {
      assert line[..7][i] == line[i];
    }
  }

  /** A comment line matches neither pattern. */
  lemma CommentInfo(line: string)
    requires IsComment(line)
    ensures Classify(line) == LineInfo(Other, Delta(line))
  {
    assert line[..2][0] == line[0];
    NoKeyword(line, 0);
  }

  /** What follows the `class ` keyword. */
  lemma ClassLine(line: string, rest: string)
    requires |line| >= 6 && line[..6] == "class " && line[6..] == rest
    ensures KeywordRest(line) == Some(rest)
  {
  }

  /** What follows the `struct ` keyword. */
  lemma StructLine(line: string, rest: string)
    requires |line| >= 7 && line[..7] == "struct " && line[7..] == rest
    ensures KeywordRest(line) == Some(rest)
  {
    assert line[..6][0] == line[..7][0];
  }

  /** A line that starts with neither keyword is classified `Other`. */
  lemma OtherLine(line: string)
    requires KeywordRest(line).None?
    ensures Classify(line) == LineInfo(Other, Delta(line))
  {
  }

  /** A line without braces leaves the level alone. */
  lemma NoBraces(line: string)
    requires '{' !in line && '}' !in line
    ensures Delta(line) == 0
  {
    CountAbsent(line, '{');
    CountAbsent(line, '}');
  }

  /** A prefix without braces does not change a line's brace delta. */
  lemma DeltaFrom(line: string, k: nat, rest: string)
    requires k <= |line| && line[k..] == rest
    requires '{' !in line[..k] && '}' !in line[..k]
    ensures Delta(line) == Delta(rest)
  {
    CountSplit(line, '{', k);
    CountSplit(line, '}', k);
    CountAbsent(line[..k], '{');
    CountAbsent(line[..k], '}');
  }

  // ------------------------------------------------------- scanning infos

  /** Scanning `infos` from `st`, after `before` lines, ends in `last` and reports `positions`. */
  predicate ScansTo(st: ScanState, infos: seq<LineInfo>, before: int, last: ScanState, positions: seq<int>) {
    Scan(st, infos, before) == (last, positions)
  }

  /** The scan of `infos[j..]` from the step on `infos[j]` and the scan of `infos[j + 1..]`. */
  lemma ScanCons(st: ScanState, infos: seq<LineInfo>, j: nat, info: LineInfo, before: int,
                 next: ScanState, reported: bool, last: ScanState, tail: seq<int>, positions: seq<int>)
    requires j < |infos| && infos[j] == info
    requires StepInfo(st, info) == (next, reported)
    requires ScansTo(next, infos[j + 1..], before + 1, last, tail)
    requires positions == (if reported then [before + 1] else []) + tail
    ensures ScansTo(st, infos[j..], before, last, positions)
  {
    assert infos[j..][0] == infos[j];
    assert infos[j..][1..] == infos[j + 1..];
  }

  /** The scan of nothing. */
  lemma ScanNil(st: ScanState, infos: seq<LineInfo>, before: int)
    ensures ScansTo(st, infos[|infos|..], before, st, [])
  {
    assert infos[|infos|..] == [];
  }

  /** Joining the scans of two consecutive pieces. */
  lemma ScanJoin(st: ScanState, a: seq<LineInfo>, b: seq<LineInfo>, before: int, n: int,
                 mid: ScanState, first: seq<int>, last: ScanState, second: seq<int>)
    requires |a| == n
    requires ScansTo(st, a, before, mid, first)
    requires ScansTo(mid, b, before + n, last, second)
    ensures ScansTo(st, a + b, before, last, first + second)
  {
    ScanAppend(st, a, b, before);
  }

  // ------------------------------------------------------- line classes

  /** The brace delta of the tail of line 6 from its first brace. */
  lemma BraceTail1()
    ensures Delta("{};\n") == 0
  {
  }

  /** The brace delta of the tail of line 9 from its first brace. */
  lemma BraceTail2()
    ensures Delta("{}\n") == 0
  {
  }

  /** The brace delta of the tail of line 13 from its first brace. */
  lemma BraceTail3()
    ensures Delta("{\n") == 1
  {
  }

  /** The brace delta of the tail of line 45 from its first brace. */
  lemma BraceTail4()
    ensures Delta("};\n") == -1
  {
  }

  /** The brace delta of the tail of line 46 from its first brace. */
  lemma BraceTail5()
    ensures Delta("}\n") == -1
  {
  }

  /** A line that differs from both keywords at position `i` and holds no
      brace: it matches neither pattern and leaves the level alone. */
  lemma ClassifyPlain(line: string, i: nat)
    requires i < |line| && i < 6 && line[i] != "class "[i] && line[i] != "struct "[i]
    requires '{' !in line && '}' !in line
    ensures Classify(line) == LineInfo(Other, 0)
  {
    hide IsDeclaration, IsDefinitionStart, KeywordRest, Delta;
    NoKeyword(line, i);
    OtherLine(line);
    NoBraces(line);
  }

  /** A line that differs from both keywords at position `i` and holds no
      brace before `tail`: it matches neither pattern and moves the level by
      the braces of `tail`. */
  lemma ClassifyBraced(line: string, i: nat, k: nat, tail: string)
    requires i < |line| && i < 6 && line[i] != "class "[i] && line[i] != "struct "[i]
    requires k <= |line| && line[k..] == tail && '{' !in line[..k] && '}' !in line[..k]
    ensures Classify(line) == LineInfo(Other, Delta(tail))
  {
    hide IsDeclaration, IsDefinitionStart, KeywordRest, Delta;
    NoKeyword(line, i);
    OtherLine(line);
    DeltaFrom(line, k, tail);
  }

  /** A line of the form `class ...` or `struct ...` ending in a line feed,
      with no other line feed and no brace before `tail`: a declaration when
      its last character before the line feed is `;`, an opening otherwise,
      and it moves the level by the braces of `tail`. */
  lemma ClassifyKeyword(line: string, n: nat, k: nat, tail: string, kind: LineKind)
    requires (n == 6 && |line| > 6 && line[..6] == "class ") || (n == 7 && |line| > 7 && line[..7] == "struct ")
    requires line[|line| - 1] == '\n' && '\n' !in line[..|line| - 1]
    requires kind == (if line[|line| - 2] == ';' then Declaration else Opening)
    requires k <= |line| && line[k..] == tail && '{' !in line[..k] && '}' !in line[..k]
    ensures Classify(line) == LineInfo(kind, Delta(tail))
  {
    hide Delta;
    var rest := line[n..];
    if n == 6 {
      ClassLine(line, rest);
    } else {
      StructLine(line, rest);
    }
    PatternsOnRest(line);
    assert StripFinalNewline(rest) == line[n..|line| - 1];
    DeltaFrom(line, k, tail);
  }

  // ------------------------------------------------------- section scans

  /** The classified lines 1-4 of the fixture scan to lines []. */
  lemma ScanDeclarationsInfos(d: int)
    ensures ScansTo(ScanState(false, 0), [LineInfo(Other, d), LineInfo(Declaration, 0), LineInfo(Other, 0), LineInfo(Other, 0)], 0, ScanState(false, 0), [])
  {
    var infos := [LineInfo(Other, d), LineInfo(Declaration, 0), LineInfo(Other, 0), LineInfo(Other, 0)];
    ScanNil(ScanState(false, 0), infos, 4);
    ScanCons(ScanState(false, 0), infos, 3, LineInfo(Other, 0), 3, ScanState(false, 0), false, ScanState(false, 0), [], []);
    ScanCons(ScanState(false, 0), infos, 2, LineInfo(Other, 0), 2, ScanState(false, 0), false, ScanState(false, 0), [], []);
    ScanCons(ScanState(false, 0), infos, 1, LineInfo(Declaration, 0), 1, ScanState(false, 0), false, ScanState(false, 0), [], []);
    ScanCons(ScanState(false, 0), infos, 0, LineInfo(Other, d), 0, ScanState(false, 0), false, ScanState(false, 0), [], []);
    assert infos[0..] == infos;
  }

  /** The scan of lines 1-4 of the fixture: forward declarations, at column 0 and indented. */
  lemma ScanDeclarations(comment: string)
    requires IsComment(comment)
    ensures ScansTo(ScanState(false, 0), Classified(DeclarationLines(comment)), 0, ScanState(false, 0), [])
  {
    hide Classify;
    CommentInfo(comment);
    assert Classify("class Declaration;\n") == LineInfo(Declaration, 0) by {
      ClassifyKeyword("class Declaration;\n", 6, 19, "", Declaration);
    }
    assert Classify("    class Declaration;\n") == LineInfo(Other, 0) by {
      ClassifyPlain("    class Declaration;\n", 0);
    }
    assert Classify("\n") == LineInfo(Other, 0) by {
      ClassifyPlain("\n", 0);
    }
    assert Classified(DeclarationLines(comment)) == [LineInfo(Other, Delta(comment)), LineInfo(Declaration, 0), LineInfo(Other, 0), LineInfo(Other, 0)];
    ScanDeclarationsInfos(Delta(comment));
  }

  /** The classified lines 5-7 of the fixture scan to lines []. */
  lemma ScanEmptyClassInfos(d: int)
    ensures ScansTo(ScanState(false, 0), [LineInfo(Other, d), LineInfo(Declaration, 0), LineInfo(Other, 0)], 4, ScanState(false, 0), [])
  {
    var infos := [LineInfo(Other, d), LineInfo(Declaration, 0), LineInfo(Other, 0)];
    ScanNil(ScanState(false, 0), infos, 7);
    ScanCons(ScanState(false, 0), infos, 2, LineInfo(Other, 0), 6, ScanState(false, 0), false, ScanState(false, 0), [], []);
    ScanCons(ScanState(false, 0), infos, 1, LineInfo(Declaration, 0), 5, ScanState(false, 0), false, ScanState(false, 0), [], []);
    ScanCons(ScanState(false, 0), infos, 0, LineInfo(Other, d), 4, ScanState(false, 0), false, ScanState(false, 0), [], []);
    assert infos[0..] == infos;
  }

  /** The scan of lines 5-7 of the fixture: an empty one-line definition, which the declaration pattern also matches. */
  lemma ScanEmptyClass(comment: string)
    requires IsComment(comment)
    ensures ScansTo(ScanState(false, 0), Classified(EmptyClassLines(comment)), 4, ScanState(false, 0), [])
  {
    hide Classify;
    CommentInfo(comment);
    assert Classify("class Empty {};\n") == LineInfo(Declaration, 0) by {
      ClassifyKeyword("class Empty {};\n", 6, 12, "{};\n", Declaration);
      BraceTail1();
    }
    assert Classify("\n") == LineInfo(Other, 0) by {
      ClassifyPlain("\n", 0);
    }
    assert Classified(EmptyClassLines(comment)) == [LineInfo(Other, Delta(comment)), LineInfo(Declaration, 0), LineInfo(Other, 0)];
    ScanEmptyClassInfos(Delta(comment));
  }

  /** The classified lines 8-11 of the fixture scan to lines []. */
  lemma ScanEmptyClassSplitInfos(d: int)
    ensures ScansTo(ScanState(false, 0), [LineInfo(Other, d), LineInfo(Opening, 0), LineInfo(Other, 0), LineInfo(Other, 0)], 7, ScanState(false, 0), [])
  {
    var infos := [LineInfo(Other, d), LineInfo(Opening, 0), LineInfo(Other, 0), LineInfo(Other, 0)];
    ScanNil(ScanState(false, 0), infos, 11);
    ScanCons(ScanState(false, 0), infos, 3, LineInfo(Other, 0), 10, ScanState(false, 0), false, ScanState(false, 0), [], []);
    ScanCons(ScanState(true, 0), infos, 2, LineInfo(Other, 0), 9, ScanState(false, 0), false, ScanState(false, 0), [], []);
    ScanCons(ScanState(false, 0), infos, 1, LineInfo(Opening, 0), 8, ScanState(true, 0), false, ScanState(false, 0), [], []);
    ScanCons(ScanState(false, 0), infos, 0, LineInfo(Other, d), 7, ScanState(false, 0), false, ScanState(false, 0), [], []);
    assert infos[0..] == infos;
  }

  /** The scan of lines 8-11 of the fixture: an empty definition whose `;` is on the next line. */
  lemma ScanEmptyClassSplit(comment: string)
    requires IsComment(comment)
    ensures ScansTo(ScanState(false, 0), Classified(EmptyClassSplitLines(comment)), 7, ScanState(false, 0), [])
  {
    hide Classify;
    CommentInfo(comment);
    assert Classify("class Empty{}\n") == LineInfo(Opening, 0) by {
      ClassifyKeyword("class Empty{}\n", 6, 11, "{}\n", Opening);
      BraceTail2();
    }
    assert Classify(";\n") == LineInfo(Other, 0) by {
      ClassifyPlain(";\n", 0);
    }
    assert Classify("\n") == LineInfo(Other, 0) by {
      ClassifyPlain("\n", 0);
    }
    assert Classified(EmptyClassSplitLines(comment)) == [LineInfo(Other, Delta(comment)), LineInfo(Opening, 0), LineInfo(Other, 0), LineInfo(Other, 0)];
    ScanEmptyClassSplitInfos(Delta(comment));
  }

  /** The classified lines 12-16 of the fixture scan to lines [14]. */
  lemma ScanBraceOnKeywordLineInfos(d: int)
    ensures ScansTo(ScanState(false, 0), [LineInfo(Other, d), LineInfo(Opening, 1), LineInfo(Other, 0), LineInfo(Other, -1), LineInfo(Other, 0)], 11, ScanState(false, 0), [14])
  {
    var infos := [LineInfo(Other, d), LineInfo(Opening, 1), LineInfo(Other, 0), LineInfo(Other, -1), LineInfo(Other, 0)];
    ScanNil(ScanState(false, 0), infos, 16);
    ScanCons(ScanState(false, 0), infos, 4, LineInfo(Other, 0), 15, ScanState(false, 0), false, ScanState(false, 0), [], []);
    ScanCons(ScanState(true, 1), infos, 3, LineInfo(Other, -1), 14, ScanState(false, 0), false, ScanState(false, 0), [], []);
    ScanCons(ScanState(true, 1), infos, 2, LineInfo(Other, 0), 13, ScanState(true, 1), true, ScanState(false, 0), [], [14]);
    ScanCons(ScanState(false, 0), infos, 1, LineInfo(Opening, 1), 12, ScanState(true, 1), false, ScanState(false, 0), [14], [14]);
    ScanCons(ScanState(false, 0), infos, 0, LineInfo(Other, d), 11, ScanState(false, 0), false, ScanState(false, 0), [14], [14]);
    assert infos[0..] == infos;
  }

  /** The scan of lines 12-16 of the fixture: a class whose `{` is on the keyword line. */
  lemma ScanBraceOnKeywordLine(comment: string)
    requires IsComment(comment)
    ensures ScansTo(ScanState(false, 0), Classified(BraceOnKeywordLines(comment)), 11, ScanState(false, 0), [14])
  {
    hide Classify;
    CommentInfo(comment);
    assert Classify("class Class {\n") == LineInfo(Opening, 1) by {
      ClassifyKeyword("class Class {\n", 6, 12, "{\n", Opening);
      BraceTail3();
    }
    assert Classify("    int i;\n") == LineInfo(Other, 0) by {
      ClassifyPlain("    int i;\n", 0);
    }
    assert Classify("};\n") == LineInfo(Other, -1) by {
      ClassifyBraced("};\n", 0, 0, "};\n");
      BraceTail4();
    }
    assert Classify("\n") == LineInfo(Other, 0) by {
      ClassifyPlain("\n", 0);
    }
    assert Classified(BraceOnKeywordLines(comment)) == [LineInfo(Other, Delta(comment)), LineInfo(Opening, 1), LineInfo(Other, 0), LineInfo(Other, -1), LineInfo(Other, 0)];
    ScanBraceOnKeywordLineInfos(Delta(comment));
  }

  /** The classified lines 17-24 of the fixture scan to lines [19, 20, 21]. */
  lemma ScanBraceBelowKeywordInfos(d: int)
    ensures ScansTo(ScanState(false, 0), [LineInfo(Other, d), LineInfo(Opening, 0), LineInfo(Other, 1), LineInfo(Other, 0), LineInfo(Other, 0), LineInfo(Other, -1), LineInfo(Other, 0), LineInfo(Other, 0)], 16, ScanState(false, 0), [19, 20, 21])
  {
    var infos := [LineInfo(Other, d), LineInfo(Opening, 0), LineInfo(Other, 1), LineInfo(Other, 0), LineInfo(Other, 0), LineInfo(Other, -1), LineInfo(Other, 0), LineInfo(Other, 0)];
    ScanNil(ScanState(false, 0), infos, 24);
    ScanCons(ScanState(false, 0), infos, 7, LineInfo(Other, 0), 23, ScanState(false, 0), false, ScanState(false, 0), [], []);
    ScanCons(ScanState(false, 0), infos, 6, LineInfo(Other, 0), 22, ScanState(false, 0), false, ScanState(false, 0), [], []);
    ScanCons(ScanState(true, 1), infos, 5, LineInfo(Other, -1), 21, ScanState(false, 0), false, ScanState(false, 0), [], []);
    ScanCons(ScanState(true, 1), infos, 4, LineInfo(Other, 0), 20, ScanState(true, 1), true, ScanState(false, 0), [], [21]);
    ScanCons(ScanState(true, 1), infos, 3, LineInfo(Other, 0), 19, ScanState(true, 1), true, ScanState(false, 0), [21], [20, 21]);
    ScanCons(ScanState(true, 0), infos, 2, LineInfo(Other, 1), 18, ScanState(true, 1), true, ScanState(false, 0), [20, 21], [19, 20, 21]);
    ScanCons(ScanState(false, 0), infos, 1, LineInfo(Opening, 0), 17, ScanState(true, 0), false, ScanState(false, 0), [19, 20, 21], [19, 20, 21]);
    ScanCons(ScanState(false, 0), infos, 0, LineInfo(Other, d), 16, ScanState(false, 0), false, ScanState(false, 0), [19, 20, 21], [19, 20, 21]);
    assert infos[0..] == infos;
  }

  /** The scan of lines 17-24 of the fixture: a class whose `{` is on the line after the keyword. */
  lemma ScanBraceBelowKeyword(comment: string)
    requires IsComment(comment)
    ensures ScansTo(ScanState(false, 0), Classified(BraceBelowKeywordLines(comment)), 16, ScanState(false, 0), [19, 20, 21])
  {
    hide Classify;
    CommentInfo(comment);
    assert Classify("class Class\n") == LineInfo(Opening, 0) by {
      ClassifyKeyword("class Class\n", 6, 12, "", Opening);
    }
    assert Classify("{\n") == LineInfo(Other, 1) by {
      ClassifyBraced("{\n", 0, 0, "{\n");
      BraceTail3();
    }
    assert Classify("    int i;\n") == LineInfo(Other, 0) by {
      ClassifyPlain("    int i;\n", 0);
    }
    assert Classify("    int j;\n") == LineInfo(Other, 0) by {
      ClassifyPlain("    int j;\n", 0);
    }
    assert Classify("}\n") == LineInfo(Other, -1) by {
      ClassifyBraced("}\n", 0, 0, "}\n");
      BraceTail5();
    }
    assert Classify(";\n") == LineInfo(Other, 0) by {
      ClassifyPlain(";\n", 0);
    }
    assert Classify("\n") == LineInfo(Other, 0) by {
      ClassifyPlain("\n", 0);
    }
    assert Classified(BraceBelowKeywordLines(comment)) == [LineInfo(Other, Delta(comment)), LineInfo(Opening, 0), LineInfo(Other, 1), LineInfo(Other, 0), LineInfo(Other, 0), LineInfo(Other, -1), LineInfo(Other, 0), LineInfo(Other, 0)];
    ScanBraceBelowKeywordInfos(Delta(comment));
  }

  /** The classified lines 25-28 of the fixture scan to lines []. */
  lemma ScanKeywordWithoutSpaceInfos(d: int)
    ensures ScansTo(ScanState(false, 0), [LineInfo(Other, d), LineInfo(Other, 0), LineInfo(Other, 0), LineInfo(Other, 0)], 24, ScanState(false, 0), [])
  {
    var infos := [LineInfo(Other, d), LineInfo(Other, 0), LineInfo(Other, 0), LineInfo(Other, 0)];
    ScanNil(ScanState(false, 0), infos, 28);
    ScanCons(ScanState(false, 0), infos, 3, LineInfo(Other, 0), 27, ScanState(false, 0), false, ScanState(false, 0), [], []);
    ScanCons(ScanState(false, 0), infos, 2, LineInfo(Other, 0), 26, ScanState(false, 0), false, ScanState(false, 0), [], []);
    ScanCons(ScanState(false, 0), infos, 1, LineInfo(Other, 0), 25, ScanState(false, 0), false, ScanState(false, 0), [], []);
    ScanCons(ScanState(false, 0), infos, 0, LineInfo(Other, d), 24, ScanState(false, 0), false, ScanState(false, 0), [], []);
    assert infos[0..] == infos;
  }

  /** The scan of lines 25-28 of the fixture: a keyword not followed by a space. */
  lemma ScanKeywordWithoutSpace(comment: string)
    requires IsComment(comment)
    ensures ScansTo(ScanState(false, 0), Classified(KeywordWithoutSpaceLines(comment)), 24, ScanState(false, 0), [])
  {
    hide Classify;
    CommentInfo(comment);
    assert Classify("class\n") == LineInfo(Other, 0) by {
      ClassifyPlain("class\n", 5);
    }
    assert Classify("Class{};\n") == LineInfo(Other, 0) by {
      ClassifyBraced("Class{};\n", 0, 5, "{};\n");
      BraceTail1();
    }
    assert Classify("\n") == LineInfo(Other, 0) by {
      ClassifyPlain("\n", 0);
    }
    assert Classified(KeywordWithoutSpaceLines(comment)) == [LineInfo(Other, Delta(comment)), LineInfo(Other, 0), LineInfo(Other, 0), LineInfo(Other, 0)];
    ScanKeywordWithoutSpaceInfos(Delta(comment));
  }

  /** The classified lines 29-31 of the fixture scan to lines []. */
  lemma ScanBlankAfterKeywordInfos(d: int)
    ensures ScansTo(ScanState(false, 0), [LineInfo(Other, d), LineInfo(Opening, 0), LineInfo(Other, 0)], 28, ScanState(false, 0), [])
  {
    var infos := [LineInfo(Other, d), LineInfo(Opening, 0), LineInfo(Other, 0)];
    ScanNil(ScanState(false, 0), infos, 31);
    ScanCons(ScanState(true, 0), infos, 2, LineInfo(Other, 0), 30, ScanState(false, 0), false, ScanState(false, 0), [], []);
    ScanCons(ScanState(false, 0), infos, 1, LineInfo(Opening, 0), 29, ScanState(true, 0), false, ScanState(false, 0), [], []);
    ScanCons(ScanState(false, 0), infos, 0, LineInfo(Other, d), 28, ScanState(false, 0), false, ScanState(false, 0), [], []);
    assert infos[0..] == infos;
  }

  /** The scan of lines 29-31 of the fixture: a keyword line followed by a blank line, which closes the class at level zero. */
  lemma ScanBlankAfterKeyword(comment: string)
    requires IsComment(comment)
    ensures ScansTo(ScanState(false, 0), Classified(BlankAfterKeywordLines(comment)), 28, ScanState(false, 0), [])
  {
    hide Classify;
    CommentInfo(comment);
    assert Classify("class Class\n") == LineInfo(Opening, 0) by {
      ClassifyKeyword("class Class\n", 6, 12, "", Opening);
    }
    assert Classify("\n") == LineInfo(Other, 0) by {
      ClassifyPlain("\n", 0);
    }
    assert Classified(BlankAfterKeywordLines(comment)) == [LineInfo(Other, Delta(comment)), LineInfo(Opening, 0), LineInfo(Other, 0)];
    ScanBlankAfterKeywordInfos(Delta(comment));
  }

  /** The classified lines 32-35 of the fixture scan to lines []. */
  lemma ScanOrphanBodyInfos()
    ensures ScansTo(ScanState(false, 0), [LineInfo(Other, 1), LineInfo(Other, 0), LineInfo(Other, -1), LineInfo(Other, 0)], 31, ScanState(false, 0), [])
  {
    var infos := [LineInfo(Other, 1), LineInfo(Other, 0), LineInfo(Other, -1), LineInfo(Other, 0)];
    ScanNil(ScanState(false, 0), infos, 35);
    ScanCons(ScanState(false, 0), infos, 3, LineInfo(Other, 0), 34, ScanState(false, 0), false, ScanState(false, 0), [], []);
    ScanCons(ScanState(false, 0), infos, 2, LineInfo(Other, -1), 33, ScanState(false, 0), false, ScanState(false, 0), [], []);
    ScanCons(ScanState(false, 0), infos, 1, LineInfo(Other, 0), 32, ScanState(false, 0), false, ScanState(false, 0), [], []);
    ScanCons(ScanState(false, 0), infos, 0, LineInfo(Other, 1), 31, ScanState(false, 0), false, ScanState(false, 0), [], []);
    assert infos[0..] == infos;
  }

  /** The scan of lines 32-35 of the fixture: the body that follows it, seen outside any class. */
  lemma ScanOrphanBody()
    ensures ScansTo(ScanState(false, 0), Classified(OrphanBodyLines()), 31, ScanState(false, 0), [])
  {
    hide Classify;
    assert Classify("{\n") == LineInfo(Other, 1) by {
      ClassifyBraced("{\n", 0, 0, "{\n");
      BraceTail3();
    }
    assert Classify("    int i;\n") == LineInfo(Other, 0) by {
      ClassifyPlain("    int i;\n", 0);
    }
    assert Classify("};\n") == LineInfo(Other, -1) by {
      ClassifyBraced("};\n", 0, 0, "};\n");
      BraceTail4();
    }
    assert Classify("\n") == LineInfo(Other, 0) by {
      ClassifyPlain("\n", 0);
    }
    assert Classified(OrphanBodyLines()) == [LineInfo(Other, 1), LineInfo(Other, 0), LineInfo(Other, -1), LineInfo(Other, 0)];
    ScanOrphanBodyInfos();
  }

  /** The classified lines 36-42 of the fixture scan to lines [38, 39, 40, 41, 42]. */
  lemma ScanNestedBlocksInfosHead(d: int)
    ensures ScansTo(ScanState(false, 0), [LineInfo(Other, d), LineInfo(Opening, 1), LineInfo(Other, 0), LineInfo(Other, 0), LineInfo(Other, 1), LineInfo(Other, 1), LineInfo(Other, 0)], 35, ScanState(true, 3), [38, 39, 40, 41, 42])
  {
    var infos := [LineInfo(Other, d), LineInfo(Opening, 1), LineInfo(Other, 0), LineInfo(Other, 0), LineInfo(Other, 1), LineInfo(Other, 1), LineInfo(Other, 0)];
    ScanNil(ScanState(true, 3), infos, 42);
    ScanCons(ScanState(true, 3), infos, 6, LineInfo(Other, 0), 41, ScanState(true, 3), true, ScanState(true, 3), [], [42]);
    ScanCons(ScanState(true, 2), infos, 5, LineInfo(Other, 1), 40, ScanState(true, 3), true, ScanState(true, 3), [42], [41, 42]);
    ScanCons(ScanState(true, 1), infos, 4, LineInfo(Other, 1), 39, ScanState(true, 2), true, ScanState(true, 3), [41, 42], [40, 41, 42]);
    ScanCons(ScanState(true, 1), infos, 3, LineInfo(Other, 0), 38, ScanState(true, 1), true, ScanState(true, 3), [40, 41, 42], [39, 40, 41, 42]);
    ScanCons(ScanState(true, 1), infos, 2, LineInfo(Other, 0), 37, ScanState(true, 1), true, ScanState(true, 3), [39, 40, 41, 42], [38, 39, 40, 41, 42]);
    ScanCons(ScanState(false, 0), infos, 1, LineInfo(Opening, 1), 36, ScanState(true, 1), false, ScanState(true, 3), [38, 39, 40, 41, 42], [38, 39, 40, 41, 42]);
    ScanCons(ScanState(false, 0), infos, 0, LineInfo(Other, d), 35, ScanState(false, 0), false, ScanState(true, 3), [38, 39, 40, 41, 42], [38, 39, 40, 41, 42]);
    assert infos[0..] == infos;
  }

  /** The classified lines 43-49 of the fixture scan to lines [43, 44, 45, 46, 47]. */
  lemma ScanNestedBlocksInfosTail()
    ensures ScansTo(ScanState(true, 3), [LineInfo(Other, 1), LineInfo(Other, 0), LineInfo(Other, -1), LineInfo(Other, -1), LineInfo(Other, -1), LineInfo(Other, -1), LineInfo(Other, 0)], 42, ScanState(false, 0), [43, 44, 45, 46, 47])
  {
    var infos := [LineInfo(Other, 1), LineInfo(Other, 0), LineInfo(Other, -1), LineInfo(Other, -1), LineInfo(Other, -1), LineInfo(Other, -1), LineInfo(Other, 0)];
    ScanNil(ScanState(false, 0), infos, 49);
    ScanCons(ScanState(false, 0), infos, 6, LineInfo(Other, 0), 48, ScanState(false, 0), false, ScanState(false, 0), [], []);
    ScanCons(ScanState(true, 1), infos, 5, LineInfo(Other, -1), 47, ScanState(false, 0), false, ScanState(false, 0), [], []);
    ScanCons(ScanState(true, 2), infos, 4, LineInfo(Other, -1), 46, ScanState(true, 1), true, ScanState(false, 0), [], [47]);
    ScanCons(ScanState(true, 3), infos, 3, LineInfo(Other, -1), 45, ScanState(true, 2), true, ScanState(false, 0), [47], [46, 47]);
    ScanCons(ScanState(true, 4), infos, 2, LineInfo(Other, -1), 44, ScanState(true, 3), true, ScanState(false, 0), [46, 47], [45, 46, 47]);
    ScanCons(ScanState(true, 4), infos, 1, LineInfo(Other, 0), 43, ScanState(true, 4), true, ScanState(false, 0), [45, 46, 47], [44, 45, 46, 47]);
    ScanCons(ScanState(true, 3), infos, 0, LineInfo(Other, 1), 42, ScanState(true, 4), true, ScanState(false, 0), [44, 45, 46, 47], [43, 44, 45, 46, 47]);
    assert infos[0..] == infos;
  }

  /** The classified lines 36-49 of the fixture scan to lines [38, 39, 40, 41, 42, 43, 44, 45, 46, 47]. */
  lemma ScanNestedBlocksInfos(d: int)
    ensures ScansTo(ScanState(false, 0), [LineInfo(Other, d), LineInfo(Opening, 1), LineInfo(Other, 0), LineInfo(Other, 0), LineInfo(Other, 1), LineInfo(Other, 1), LineInfo(Other, 0), LineInfo(Other, 1), LineInfo(Other, 0), LineInfo(Other, -1), LineInfo(Other, -1), LineInfo(Other, -1), LineInfo(Other, -1), LineInfo(Other, 0)], 35, ScanState(false, 0), [38, 39, 40, 41, 42, 43, 44, 45, 46, 47])
  {
    ScanNestedBlocksInfosHead(d);
    ScanNestedBlocksInfosTail();
    ScanJoin(ScanState(false, 0), [LineInfo(Other, d), LineInfo(Opening, 1), LineInfo(Other, 0), LineInfo(Other, 0), LineInfo(Other, 1), LineInfo(Other, 1), LineInfo(Other, 0)], [LineInfo(Other, 1), LineInfo(Other, 0), LineInfo(Other, -1), LineInfo(Other, -1), LineInfo(Other, -1), LineInfo(Other, -1), LineInfo(Other, 0)], 35, 7, ScanState(true, 3), [38, 39, 40, 41, 42], ScanState(false, 0), [43, 44, 45, 46, 47]);
    assert [LineInfo(Other, d), LineInfo(Opening, 1), LineInfo(Other, 0), LineInfo(Other, 0), LineInfo(Other, 1), LineInfo(Other, 1), LineInfo(Other, 0)] + [LineInfo(Other, 1), LineInfo(Other, 0), LineInfo(Other, -1), LineInfo(Other, -1), LineInfo(Other, -1), LineInfo(Other, -1), LineInfo(Other, 0)] == [LineInfo(Other, d), LineInfo(Opening, 1), LineInfo(Other, 0), LineInfo(Other, 0), LineInfo(Other, 1), LineInfo(Other, 1), LineInfo(Other, 0), LineInfo(Other, 1), LineInfo(Other, 0), LineInfo(Other, -1), LineInfo(Other, -1), LineInfo(Other, -1), LineInfo(Other, -1), LineInfo(Other, 0)];
    assert [38, 39, 40, 41, 42] + [43, 44, 45, 46, 47] == [38, 39, 40, 41, 42, 43, 44, 45, 46, 47];
  }

  /** Lines 38-40 of the fixture: the access label and the members. */
  lemma ClassifyNestedBlockMembers()
    ensures Classify("public:\n") == LineInfo(Other, 0)
    ensures Classify("    NestedBlocks() {}\n") == LineInfo(Other, 0)
    ensures Classify("    bool IsNested() {\n") == LineInfo(Other, 1)
  {
    hide Classify;
    ClassifyPlain("public:\n", 0);
    ClassifyBraced("    NestedBlocks() {}\n", 0, 19, "{}\n");
    BraceTail2();
    ClassifyBraced("    bool IsNested() {\n", 0, 20, "{\n");
    BraceTail3();
  }

  /** Line 41 of the fixture: a block inside a member. */
  lemma ClassifyNestedBlockIf()
    ensures Classify("        if (true) {\n") == LineInfo(Other, 1)
  {
    hide Classify;
    ClassifyBraced("        if (true) {\n", 0, 18, "{\n");
    BraceTail3();
  }

  /** Line 42 of the fixture: a call inside that block. */
  lemma ClassifyNestedBlockCall()
    ensures Classify("            function_call();\n") == LineInfo(Other, 0)
  {
    ClassifyPlain("            function_call();\n", 0);
  }

  /** Lines 43-47 of the fixture: an initializer block and the closing braces. */
  lemma ClassifyNestedBlockClosers()
    ensures Classify("            int i = {\n") == LineInfo(Other, 1)
    ensures Classify("                0\n") == LineInfo(Other, 0)
    ensures Classify("            };\n") == LineInfo(Other, -1)
    ensures Classify("        }\n") == LineInfo(Other, -1)
    ensures Classify("    }\n") == LineInfo(Other, -1)
  {
    hide Classify;
    ClassifyBraced("            int i = {\n", 0, 20, "{\n");
    BraceTail3();
    ClassifyPlain("                0\n", 0);
    ClassifyBraced("            };\n", 0, 12, "};\n");
    BraceTail4();
    ClassifyBraced("        }\n", 0, 8, "}\n");
    BraceTail5();
    ClassifyBraced("    }\n", 0, 4, "}\n");
    BraceTail5();
  }

  /** The scan of lines 36-49 of the fixture: nested blocks inside a class. */
  lemma ScanNestedBlocks(comment: string)
    requires IsComment(comment)
    ensures ScansTo(ScanState(false, 0), Classified(NestedBlockLines(comment)), 35, ScanState(false, 0), [38, 39, 40, 41, 42, 43, 44, 45, 46, 47])
  {
    hide Classify;
    CommentInfo(comment);
    assert Classify("class NestedBlocks {\n") == LineInfo(Opening, 1) by {
      ClassifyKeyword("class NestedBlocks {\n", 6, 19, "{\n", Opening);
      BraceTail3();
    }
    ClassifyNestedBlockMembers();
    ClassifyNestedBlockIf();
    ClassifyNestedBlockCall();
    ClassifyNestedBlockClosers();
    assert Classify("};\n") == LineInfo(Other, -1) by {
      ClassifyBraced("};\n", 0, 0, "};\n");
      BraceTail4();
    }
    assert Classify("\n") == LineInfo(Other, 0) by {
      ClassifyPlain("\n", 0);
    }
    assert Classified(NestedBlockLines(comment)) == [LineInfo(Other, Delta(comment)), LineInfo(Opening, 1), LineInfo(Other, 0), LineInfo(Other, 0), LineInfo(Other, 1), LineInfo(Other, 1), LineInfo(Other, 0), LineInfo(Other, 1), LineInfo(Other, 0), LineInfo(Other, -1), LineInfo(Other, -1), LineInfo(Other, -1), LineInfo(Other, -1), LineInfo(Other, 0)];
    ScanNestedBlocksInfos(Delta(comment));
  }

  /** The classified lines 50-55 of the fixture scan to lines [53, 54]. */
  lemma ScanStructsInfos(d: int)
    ensures ScansTo(ScanState(false, 0), [LineInfo(Other, d), LineInfo(Declaration, 0), LineInfo(Opening, 1), LineInfo(Other, 0), LineInfo(Other, 0), LineInfo(Other, -1)], 49, ScanState(false, 0), [53, 54])
  {
    var infos := [LineInfo(Other, d), LineInfo(Declaration, 0), LineInfo(Opening, 1), LineInfo(Other, 0), LineInfo(Other, 0), LineInfo(Other, -1)];
    ScanNil(ScanState(false, 0), infos, 55);
    ScanCons(ScanState(true, 1), infos, 5, LineInfo(Other, -1), 54, ScanState(false, 0), false, ScanState(false, 0), [], []);
    ScanCons(ScanState(true, 1), infos, 4, LineInfo(Other, 0), 53, ScanState(true, 1), true, ScanState(false, 0), [], [54]);
    ScanCons(ScanState(true, 1), infos, 3, LineInfo(Other, 0), 52, ScanState(true, 1), true, ScanState(false, 0), [54], [53, 54]);
    ScanCons(ScanState(false, 0), infos, 2, LineInfo(Opening, 1), 51, ScanState(true, 1), false, ScanState(false, 0), [53, 54], [53, 54]);
    ScanCons(ScanState(false, 0), infos, 1, LineInfo(Declaration, 0), 50, ScanState(false, 0), false, ScanState(false, 0), [53, 54], [53, 54]);
    ScanCons(ScanState(false, 0), infos, 0, LineInfo(Other, d), 49, ScanState(false, 0), false, ScanState(false, 0), [53, 54], [53, 54]);
    assert infos[0..] == infos;
  }

  /** Line 51 of the fixture: a struct declaration. */
  lemma ClassifyStructDeclaration()
    ensures Classify("struct SkippedDeclaration;\n") == LineInfo(Declaration, 0)
  {
    ClassifyKeyword("struct SkippedDeclaration;\n", 7, 27, "", Declaration);
  }

  /** Line 52 of the fixture: a struct definition with a base class. */
  lemma ClassifyStructOpening()
    ensures Classify("struct Struct : public Class {\n") == LineInfo(Opening, 1)
  {
    hide Classify;
    ClassifyKeyword("struct Struct : public Class {\n", 7, 29, "{\n", Opening);
    BraceTail3();
  }

  /** The scan of lines 50-55 of the fixture: a struct declaration and a struct definition. */
  lemma ScanStructs(comment: string)
    requires IsComment(comment)
    ensures ScansTo(ScanState(false, 0), Classified(StructLines(comment)), 49, ScanState(false, 0), [53, 54])
  {
    hide Classify;
    CommentInfo(comment);
    ClassifyStructDeclaration();
    ClassifyStructOpening();
    assert Classify("    int i;\n") == LineInfo(Other, 0) by {
      ClassifyPlain("    int i;\n", 0);
    }
    assert Classify("    int j;\n") == LineInfo(Other, 0) by {
      ClassifyPlain("    int j;\n", 0);
    }
    assert Classify("};\n") == LineInfo(Other, -1) by {
      ClassifyBraced("};\n", 0, 0, "};\n");
      BraceTail4();
    }
    assert Classified(StructLines(comment)) == [LineInfo(Other, Delta(comment)), LineInfo(Declaration, 0), LineInfo(Opening, 1), LineInfo(Other, 0), LineInfo(Other, 0), LineInfo(Other, -1)];
    ScanStructsInfos(Delta(comment));
  }

  // ------------------------------------------------------ the whole file

  /** Classified sections that each start and end outside a class scan,
      together, as the concatenation of their reports. */
  lemma ScanSections(x0: seq<LineInfo>, x1: seq<LineInfo>, x2: seq<LineInfo>, x3: seq<LineInfo>, x4: seq<LineInfo>, x5: seq<LineInfo>, x6: seq<LineInfo>, x7: seq<LineInfo>, x8: seq<LineInfo>, x9: seq<LineInfo>,
                     r0: seq<int>, r1: seq<int>, r2: seq<int>, r3: seq<int>, r4: seq<int>, r5: seq<int>, r6: seq<int>, r7: seq<int>, r8: seq<int>, r9: seq<int>)
    requires |x0| == 4 && ScansTo(ScanState(false, 0), x0, 0, ScanState(false, 0), r0)
    requires |x1| == 3 && ScansTo(ScanState(false, 0), x1, 4, ScanState(false, 0), r1)
    requires |x2| == 4 && ScansTo(ScanState(false, 0), x2, 7, ScanState(false, 0), r2)
    requires |x3| == 5 && ScansTo(ScanState(false, 0), x3, 11, ScanState(false, 0), r3)
    requires |x4| == 8 && ScansTo(ScanState(false, 0), x4, 16, ScanState(false, 0), r4)
    requires |x5| == 4 && ScansTo(ScanState(false, 0), x5, 24, ScanState(false, 0), r5)
    requires |x6| == 3 && ScansTo(ScanState(false, 0), x6, 28, ScanState(false, 0), r6)
    requires |x7| == 4 && ScansTo(ScanState(false, 0), x7, 31, ScanState(false, 0), r7)
    requires |x8| == 14 && ScansTo(ScanState(false, 0), x8, 35, ScanState(false, 0), r8)
    requires |x9| == 6 && ScansTo(ScanState(false, 0), x9, 49, ScanState(false, 0), r9)
    ensures ScansTo(ScanState(false, 0), x0 + x1 + x2 + x3 + x4 + x5 + x6 + x7 + x8 + x9, 0, ScanState(false, 0), r0 + r1 + r2 + r3 + r4 + r5 + r6 + r7 + r8 + r9)
  {
    ScanJoin(ScanState(false, 0), x0, x1, 0, 4, ScanState(false, 0), r0, ScanState(false, 0), r1);
    ScanJoin(ScanState(false, 0), x0 + x1, x2, 0, 7, ScanState(false, 0), r0 + r1, ScanState(false, 0), r2);
    ScanJoin(ScanState(false, 0), x0 + x1 + x2, x3, 0, 11, ScanState(false, 0), r0 + r1 + r2, ScanState(false, 0), r3);
    ScanJoin(ScanState(false, 0), x0 + x1 + x2 + x3, x4, 0, 16, ScanState(false, 0), r0 + r1 + r2 + r3, ScanState(false, 0), r4);
    ScanJoin(ScanState(false, 0), x0 + x1 + x2 + x3 + x4, x5, 0, 24, ScanState(false, 0), r0 + r1 + r2 + r3 + r4, ScanState(false, 0), r5);
    ScanJoin(ScanState(false, 0), x0 + x1 + x2 + x3 + x4 + x5, x6, 0, 28, ScanState(false, 0), r0 + r1 + r2 + r3 + r4 + r5, ScanState(false, 0), r6);
    ScanJoin(ScanState(false, 0), x0 + x1 + x2 + x3 + x4 + x5 + x6, x7, 0, 31, ScanState(false, 0), r0 + r1 + r2 + r3 + r4 + r5 + r6, ScanState(false, 0), r7);
    ScanJoin(ScanState(false, 0), x0 + x1 + x2 + x3 + x4 + x5 + x6 + x7, x8, 0, 35, ScanState(false, 0), r0 + r1 + r2 + r3 + r4 + r5 + r6 + r7, ScanState(false, 0), r8);
    ScanJoin(ScanState(false, 0), x0 + x1 + x2 + x3 + x4 + x5 + x6 + x7 + x8, x9, 0, 49, ScanState(false, 0), r0 + r1 + r2 + r3 + r4 + r5 + r6 + r7 + r8, ScanState(false, 0), r9);
  }

  /** Classifying the fixture classifies its sections. */
  lemma ClassifiedFixture(comments: seq<string>)
    requires |comments| == 9
    ensures Classified(Fixture(comments)) ==
      Classified(DeclarationLines(comments[0])) +
      Classified(EmptyClassLines(comments[1])) +
      Classified(EmptyClassSplitLines(comments[2])) +
      Classified(BraceOnKeywordLines(comments[3])) +
      Classified(BraceBelowKeywordLines(comments[4])) +
      Classified(KeywordWithoutSpaceLines(comments[5])) +
      Classified(BlankAfterKeywordLines(comments[6])) +
      Classified(OrphanBodyLines()) +
      Classified(NestedBlockLines(comments[7])) +
      Classified(StructLines(comments[8]))
  {
    ClassifiedAppend(DeclarationLines(comments[0]) + EmptyClassLines(comments[1]) + EmptyClassSplitLines(comments[2]) + BraceOnKeywordLines(comments[3]) + BraceBelowKeywordLines(comments[4]) + KeywordWithoutSpaceLines(comments[5]) + BlankAfterKeywordLines(comments[6]) + OrphanBodyLines() + NestedBlockLines(comments[7]), StructLines(comments[8]));
    ClassifiedAppend(DeclarationLines(comments[0]) + EmptyClassLines(comments[1]) + EmptyClassSplitLines(comments[2]) + BraceOnKeywordLines(comments[3]) + BraceBelowKeywordLines(comments[4]) + KeywordWithoutSpaceLines(comments[5]) + BlankAfterKeywordLines(comments[6]) + OrphanBodyLines(), NestedBlockLines(comments[7]));
    ClassifiedAppend(DeclarationLines(comments[0]) + EmptyClassLines(comments[1]) + EmptyClassSplitLines(comments[2]) + BraceOnKeywordLines(comments[3]) + BraceBelowKeywordLines(comments[4]) + KeywordWithoutSpaceLines(comments[5]) + BlankAfterKeywordLines(comments[6]), OrphanBodyLines());
    ClassifiedAppend(DeclarationLines(comments[0]) + EmptyClassLines(comments[1]) + EmptyClassSplitLines(comments[2]) + BraceOnKeywordLines(comments[3]) + BraceBelowKeywordLines(comments[4]) + KeywordWithoutSpaceLines(comments[5]), BlankAfterKeywordLines(comments[6]));
    ClassifiedAppend(DeclarationLines(comments[0]) + EmptyClassLines(comments[1]) + EmptyClassSplitLines(comments[2]) + BraceOnKeywordLines(comments[3]) + BraceBelowKeywordLines(comments[4]), KeywordWithoutSpaceLines(comments[5]));
    ClassifiedAppend(DeclarationLines(comments[0]) + EmptyClassLines(comments[1]) + EmptyClassSplitLines(comments[2]) + BraceOnKeywordLines(comments[3]), BraceBelowKeywordLines(comments[4]));
    ClassifiedAppend(DeclarationLines(comments[0]) + EmptyClassLines(comments[1]) + EmptyClassSplitLines(comments[2]), BraceOnKeywordLines(comments[3]));
    ClassifiedAppend(DeclarationLines(comments[0]) + EmptyClassLines(comments[1]), EmptyClassSplitLines(comments[2]));
    ClassifiedAppend(DeclarationLines(comments[0]), EmptyClassLines(comments[1]));
  }

  /** The test suite's expectation holds whatever the comment lines say. */
  lemma FixtureAnyComments(comments: seq<string>)
    requires |comments| == 9 && forall j :: 0 <= j < 9 ==> IsComment(comments[j])
    ensures ClassLines(Fixture(comments)) == FixtureExpected
  {
    hide Classify, Scan, StepInfo, Fixture, ClassLines;
    ScanDeclarations(comments[0]);
    ScanEmptyClass(comments[1]);
    ScanEmptyClassSplit(comments[2]);
    ScanBraceOnKeywordLine(comments[3]);
    ScanBraceBelowKeyword(comments[4]);
    ScanKeywordWithoutSpace(comments[5]);
    ScanBlankAfterKeyword(comments[6]);
    ScanOrphanBody();
    ScanNestedBlocks(comments[7]);
    ScanStructs(comments[8]);
    ClassifiedFixture(comments);
    ScanSections(Classified(DeclarationLines(comments[0])), Classified(EmptyClassLines(comments[1])), Classified(EmptyClassSplitLines(comments[2])), Classified(BraceOnKeywordLines(comments[3])), Classified(BraceBelowKeywordLines(comments[4])), Classified(KeywordWithoutSpaceLines(comments[5])), Classified(BlankAfterKeywordLines(comments[6])), Classified(OrphanBodyLines()), Classified(NestedBlockLines(comments[7])), Classified(StructLines(comments[8])),
                 [], [], [], [14], [19, 20, 21], [], [], [], [38, 39, 40, 41, 42, 43, 44, 45, 46, 47], [53, 54]);
    ScanIsClassLines(Fixture(comments));
  }

  /** Each of the fixture's comment lines is a comment. */
  lemma FixtureCommentsAreComments()
    ensures |FixtureComments()| == 9
    ensures forall j :: 0 <= j < 9 ==> IsComment(FixtureComments()[j])
  {
  }

  /** `test_classfinder`: the fixture yields the expected lines. */
  lemma FixtureClassLines()
    ensures ClassLines(Fixture(FixtureComments())) == FixtureExpected
  {
    FixtureCommentsAreComments();
    hide Classify, ClassLines, Fixture, FixtureComments;
    FixtureAnyComments(FixtureComments());
  }
}
