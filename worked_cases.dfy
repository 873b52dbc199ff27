/**
 * The parser and the validator on the inputs of the repository's unit tests
 * (tests/test_prompt_builder.py, tests/test_output_formatter.py), worked out
 * line by line.
 */
module WorkedCases {
  import opened Text
  import opened PromptBuilder
  import F = OutputFormatter
  import Pipeline

  // ---------------------------------------------------------------------------
  // Classifying single lines
  // ---------------------------------------------------------------------------

  /** A line with none of the characters 要, 結, 行 and ':' holds no header word:
      each header word has one of them. */
  lemma NoHeaderWord(line: string)
    requires '要' !in line && '結' !in line && '行' !in line && ':' !in line
    ensures HeaderOf(line) == NoSection
  {
    LowerLacks(line, "summary:", ':');
    LowerLacks(line, "摘要要點", '要');
    LowerLacks(line, "要點", '要');
    LowerLacks(line, "conclusion:", ':');
    LowerLacks(line, "結論", '結');
    LowerLacks(line, "action items:", ':');
    LowerLacks(line, "行動項目", '行');
    LowerLacks(line, "行動", '行');
  }

  /** Without 要 or ':', a line holds no summary word, in any case of its
      letters. */
  lemma NoSummaryWord(line: string)
    requires '要' !in line && ':' !in line
    ensures !ContainsAny(Lower(line), SummaryHeaders)
  {
    LowerLacks(line, "summary:", ':');
    LowerLacks(line, "摘要要點", '要');
    LowerLacks(line, "要點", '要');
  }

  /** A line holding 結論 anywhere, and no summary word once lower-cased, is a
      conclusion header. */
  lemma ConclusionWord(line: string)
    requires Contains(line, "結論")
    requires !ContainsAny(Lower(line), SummaryHeaders)
    ensures HeaderOf(line) == ConclusionSection
  {
    var i :| 0 <= i <= |line| - 2 && OccursAt(line, "結論", i);
    var lowered := Lower(line);
    assert lowered[i] == LowerChar(line[i]) && lowered[i + 1] == LowerChar(line[i + 1]);
    assert line[i] == line[i..i + 2][0] && line[i + 1] == line[i..i + 2][1];
    assert lowered[i..i + 2] == "結論";
    assert OccursAt(lowered, "結論", i);
    assert ContainsAny(lowered, ConclusionHeaders[1..]);
  }

  /** Header detection is a substring test, not a prefix test: the word may sit
      anywhere in the line. */
  lemma HeaderAnywhere()
    ensures HeaderOf("本次會議結論如下") == ConclusionSection
    ensures HeaderOf("摘要要點：") == SummarySection
    ensures HeaderOf("結論：") == ConclusionSection
    ensures HeaderOf("行動項目：") == ActionItemsSection
  {
    ConclusionInside("本次會議結論如下", 4);
    ConclusionInside("結論：", 0);
    SummaryLine();
    ActionLine();
  }

  lemma ConclusionInside(line: string, i: nat)
    requires '要' !in line && ':' !in line
    requires OccursAt(line, "結論", i)
    ensures HeaderOf(line) == ConclusionSection
  {
    NoSummaryWord(line);
    ConclusionWord(line);
  }

  lemma SummaryLine()
    ensures HeaderOf("摘要要點：") == SummarySection
  {
    LowerUnchanged("摘要要點：");
    assert OccursAt("摘要要點：", "摘要要點", 0);
  }

  lemma ActionLine()
    ensures HeaderOf("行動項目：") == ActionItemsSection
  {
    var a := "行動項目：";
    LowerUnchanged(a);
    LowerLacks(a, "summary:", ':');
    LowerLacks(a, "摘要要點", '要');
    LowerLacks(a, "要點", '要');
    LowerLacks(a, "conclusion:", ':');
    LowerLacks(a, "結論", '結');
    assert OccursAt(a, "行動項目", 0);
  }

  /** 結論 makes a conclusion header next to 要, a colon or capitals, as long
      as no summary word is present. */
  lemma ConclusionBesideOthers()
    ensures HeaderOf("重要結論") == ConclusionSection
    ensures HeaderOf("結論: ok") == ConclusionSection
    ensures HeaderOf("AI 結論") == ConclusionSection
  {
    ImportantConclusion();
    ColonConclusion();
    CapitalsConclusion();
  }

  lemma ImportantConclusion()
    ensures HeaderOf("重要結論") == ConclusionSection
  {
    var line := "重要結論";
    assert OccursAt(line, "結論", 2);
    LowerLacks(line, "summary:", ':');
    LowerLacks(line, "摘要要點", '點');
    LowerLacks(line, "要點", '點');
    ConclusionWord(line);
  }

  lemma ColonConclusion()
    ensures HeaderOf("結論: ok") == ConclusionSection
  {
    var line := "結論: ok";
    assert OccursAt(line, "結論", 0);
    LowerLacks(line, "摘要要點", '要');
    LowerLacks(line, "要點", '要');
    ConclusionWord(line);
  }

  lemma CapitalsConclusion()
    ensures HeaderOf("AI 結論") == ConclusionSection
  {
    var line := "AI 結論";
    assert OccursAt(line, "結論", 3);
    NoSummaryWord(line);
    ConclusionWord(line);
  }

  /** Summary words win over conclusion words, whatever the case of the
      letters. */
  lemma HeaderPriority()
    ensures HeaderOf("Summary: 結論") == SummarySection
  {
    assert Lower("Summary: 結論")[..8] == "summary:";
    assert OccursAt(Lower("Summary: 結論"), "summary:", 0);
  }

  /** A line that starts with a noise prefix but holds a header word is a
      header: it switches the section and is stored nowhere. */
  lemma NoisyHeader(st: ParseState)
    ensures IsNoise("IMPORTANT 結論")
    ensures Step(st, "IMPORTANT 結論") == st.(section := ConclusionSection)
  {
    var line := "IMPORTANT 結論";
    assert OccursAt(Lower(line), "結論", 10);
    LowerLacks(line, "summary:", ':');
    LowerLacks(line, "摘要要點", '要');
    LowerLacks(line, "要點", '要');
    assert "IMPORTANT" <= line;
  }

  // ---------------------------------------------------------------------------
  // One step on a content line
  // ---------------------------------------------------------------------------

  /** A point written `1. `, `2. ` or `3. ` before its text, with no header
      word, is stored without its marker in the summary and action-item
      sections. */
  predicate NumberedPoint(line: string) {
    && '要' !in line && '結' !in line && '行' !in line && ':' !in line
    && |line| > 3 && '1' <= line[0] <= '3' && line[1] == '.' && line[2] == ' ' && line[3] !in BulletChars
  }

  lemma StepNumbered(st: ParseState, line: string)
    requires NumberedPoint(line)
    ensures st.section == SummarySection ==> Step(st, line) == st.(summary := st.summary + [line[3..]])
    ensures st.section == ActionItemsSection ==> Step(st, line) == st.(actionItems := st.actionItems + [line[3..]])
  {
    NoHeaderWord(line);
    BulletShape(line);
    LStripCharsAt(line, BulletChars, 3);
    assert !IsNoise(line) by {
      assert !("=== Model" <= line) && !("You are" <= line) && !("Please" <= line) && !("IMPORTANT" <= line);
    }
  }

  /** A plain line with no header word and no noise prefix is the conclusion
      when the scan is in the conclusion section and has none yet. */
  lemma StepConclusion(st: ParseState, line: string)
    requires '要' !in line && '結' !in line && '行' !in line && ':' !in line
    requires line != "" && line[0] !in "=YPI"
    requires st.section == ConclusionSection && st.conclusion == ""
    ensures Step(st, line) == st.(conclusion := line)
  {
    NoHeaderWord(line);
    assert !IsNoise(line) by {
      assert !("=== Model" <= line) && !("You are" <= line) && !("Please" <= line) && !("IMPORTANT" <= line);
    }
  }

  // ---------------------------------------------------------------------------
  // The sample answer of the parser test
  // ---------------------------------------------------------------------------

  /** The three blocks of the sample answer; blank lines separate them. */
  const SampleSummaryBlock: seq<string> := ["摘要要點：", "1. 討論 DeepSeek R1 模型", "2. 主持人介紹討論主題"]
  const SampleConclusionBlock: seq<string> := ["結論：", "這是一個關於最新 AI 模型的討論。"]
  const SampleActionBlock: seq<string> := ["行動項目：", "1. 深入了解 DeepSeek R1 的功能", "2. 評估模型應用可能性"]

  /** The lines of the sample answer, blank separators included. */
  const SamplePieces: seq<string> :=
    SampleSummaryBlock + ([""] + (SampleConclusionBlock + ([""] + SampleActionBlock)))

  const SampleResponse: string := JoinLines(SamplePieces)

  /** The non-blank lines of the sample answer. */
  const SampleLines: seq<string> := SampleSummaryBlock + SampleConclusionBlock + SampleActionBlock

  lemma NonBlankCons(p: string, rest: seq<string>)
    ensures NonBlank([p] + rest) == (if Strip(p) == "" then [] else [Strip(p)]) + NonBlank(rest)
  {
    assert ([p] + rest)[1..] == rest;
  }

  /** A non-blank piece without whitespace at either end. */
  predicate Trimmed(p: string) {
    p != "" && !IsSpace(p[0]) && !IsSpace(p[|p| - 1])
  }

  /** A trimmed piece is kept as it is. */
  lemma KeepPiece(p: string, rest: seq<string>)
    requires Trimmed(p)
    ensures NonBlank([p] + rest) == [p] + NonBlank(rest)
  {
    NonBlankCons(p, rest);
    StripTrimmed(p);
  }

  predicate AllTrimmed(run: seq<string>) {
    forall k :: 0 <= k < |run| ==> Trimmed(run[k])
  }

  /** A run of trimmed pieces is kept as it is. */
  lemma {:induction false} KeepRun(run: seq<string>, rest: seq<string>)
    requires AllTrimmed(run)
    ensures NonBlank(run + rest) == run + NonBlank(rest)
    decreases |run|
  {
    if |run| == 0 {
      assert run + rest == rest;
    } else {
      KeepRun(run[1..], rest);
      KeepPiece(run[0], run[1..] + rest);
      Uncons(run, rest);
      Uncons(run, NonBlank(rest));
    }
  }

  lemma Uncons<T>(s: seq<T>, t: seq<T>)
    requires |s| > 0
    ensures s + t == [s[0]] + (s[1..] + t)
  {
  }

  /** A blank piece is dropped. */
  lemma DropBlank(rest: seq<string>)
    ensures NonBlank([""] + rest) == NonBlank(rest)
  {
    NonBlankCons("", rest);
  }

  /** The shape of the sample: three lines, a blank, two lines, a blank, three
      lines; the blanks are dropped. */
  lemma NonBlankShape(a: seq<string>, b: seq<string>, c: seq<string>)
    requires AllTrimmed(a) && AllTrimmed(b) && AllTrimmed(c)
    ensures NonBlank(a + ([""] + (b + ([""] + c)))) == a + b + c
  {
    KeepRun(c, []);
    AppendEmpty(c);
    AppendEmpty(NonBlank(c));
    DropBlank(c);
    KeepRun(b, [""] + c);
    DropBlank(b + ([""] + c));
    KeepRun(a, [""] + (b + ([""] + c)));
    Assoc(a, b, c);
  }

  lemma AppendEmpty<T>(s: seq<T>)
    ensures s + [] == s
  {
  }

  lemma EmptyAppend<T>(s: seq<T>)
    ensures [] + s == s
  {
  }

  lemma Assoc<T>(a: seq<T>, b: seq<T>, c: seq<T>)
    ensures a + (b + c) == a + b + c
  {
  }

  lemma SampleSplit()
    ensures SplitLines(SampleResponse) == SamplePieces
  {
    var P := SamplePieces;
    forall k | 0 <= k < |P| ensures '\n' !in P[k] {
    }
    SplitJoinLines(P);
  }

  lemma SampleNonBlank()
    ensures NonBlank(SamplePieces) == SampleLines
  {
    assert AllTrimmed(SampleSummaryBlock);
    assert AllTrimmed(SampleConclusionBlock);
    assert AllTrimmed(SampleActionBlock);
    NonBlankShape(SampleSummaryBlock, SampleConclusionBlock, SampleActionBlock);
  }

  /** Eight lines as a list built up one line at a time. */
  lemma Snocs<T>(a: T, b: T, c: T, d: T, e: T, f: T, g: T, h: T)
    ensures [a, b, c] + [d, e] + [f, g, h]
            == [] + [a] + [b] + [c] + [d] + [e] + [f] + [g] + [h]
  {
  }

  /** The scan of eight lines is eight steps from `Start`. */
  lemma RunEight(a: string, b: string, c: string, d: string, e: string, f: string, g: string, h: string)
    ensures Run([a, b, c] + [d, e] + [f, g, h]) ==
      Step(Step(Step(Step(Step(Step(Step(Step(Start, a), b), c), d), e), f), g), h)
  {
    Snocs(a, b, c, d, e, f, g, h);
    var p0: seq<string> := [];
    RunSnoc(p0, a);
    RunSnoc(p0 + [a], b);
    RunSnoc(p0 + [a] + [b], c);
    RunSnoc(p0 + [a] + [b] + [c], d);
    RunSnoc(p0 + [a] + [b] + [c] + [d], e);
    RunSnoc(p0 + [a] + [b] + [c] + [d] + [e], f);
    RunSnoc(p0 + [a] + [b] + [c] + [d] + [e] + [f], g);
    RunSnoc(p0 + [a] + [b] + [c] + [d] + [e] + [f] + [g], h);
  }

  /** A header line switches the section and changes nothing else. */
  lemma StepHeader(st: ParseState, line: string)
    requires HeaderOf(line) != NoSection
    ensures Step(st, line) == st.(section := HeaderOf(line))
  {
  }

  /** A summary header followed by two numbered points. */
  lemma SummaryBlockSteps(st: ParseState, header: string, x: string, y: string)
    requires HeaderOf(header) == SummarySection
    requires NumberedPoint(x) && NumberedPoint(y)
    ensures Step(Step(Step(st, header), x), y)
            == st.(section := SummarySection, summary := st.summary + [x[3..], y[3..]])
  {
    StepHeader(st, header);
    StepNumbered(Step(st, header), x);
    StepNumbered(Step(Step(st, header), x), y);
  }

  /** An action-item header followed by two numbered points. */
  lemma ActionBlockSteps(st: ParseState, header: string, x: string, y: string)
    requires HeaderOf(header) == ActionItemsSection
    requires NumberedPoint(x) && NumberedPoint(y)
    ensures Step(Step(Step(st, header), x), y)
            == st.(section := ActionItemsSection, actionItems := st.actionItems + [x[3..], y[3..]])
  {
    StepHeader(st, header);
    StepNumbered(Step(st, header), x);
    StepNumbered(Step(Step(st, header), x), y);
  }

  /** A conclusion header followed by a plain line, with no conclusion yet. */
  lemma ConclusionBlockSteps(st: ParseState, header: string, x: string)
    requires HeaderOf(header) == ConclusionSection && st.conclusion == ""
    requires '要' !in x && '結' !in x && '行' !in x && ':' !in x
    requires x != "" && x[0] !in "=YPI"
    ensures Step(Step(st, header), x) == st.(section := ConclusionSection, conclusion := x)
  {
    StepHeader(st, header);
    StepConclusion(Step(st, header), x);
  }

  /** A plain content line: no header word and no noise prefix. */
  predicate PlainLine(x: string) {
    '要' !in x && '結' !in x && '行' !in x && ':' !in x && x != "" && x[0] !in "=YPI"
  }

  /** A summary block of two numbered points, a conclusion block of one plain
      line and an action-item block of two numbered points. */
  lemma RunThreeBlocks(a: string, b: string, c: string, d: string, e: string, f: string, g: string, h: string)
    requires HeaderOf(a) == SummarySection && NumberedPoint(b) && NumberedPoint(c)
    requires HeaderOf(d) == ConclusionSection && PlainLine(e)
    requires HeaderOf(f) == ActionItemsSection && NumberedPoint(g) && NumberedPoint(h)
    ensures Run([a, b, c] + [d, e] + [f, g, h])
            == ParseState(ActionItemsSection, [b[3..], c[3..]], e, [g[3..], h[3..]])
  {
    RunEight(a, b, c, d, e, f, g, h);
    SummaryBlockSteps(Start, a, b, c);
    EmptyAppend([b[3..], c[3..]]);
    EmptyAppend([g[3..], h[3..]]);
    var s3 := Start.(section := SummarySection, summary := [b[3..], c[3..]]);
    ConclusionBlockSteps(s3, d, e);
    ActionBlockSteps(s3.(section := ConclusionSection, conclusion := e), f, g, h);
  }

  /** The first line of each block of the sample is its header. */
  lemma SampleHeaders()
    ensures HeaderOf(SampleSummaryBlock[0]) == SummarySection
    ensures HeaderOf(SampleConclusionBlock[0]) == ConclusionSection
    ensures HeaderOf(SampleActionBlock[0]) == ActionItemsSection
  {
    HeaderAnywhere();
  }

  /** The other lines of the sample are numbered points and one plain line. */
  lemma SampleContent()
    ensures NumberedPoint(SampleSummaryBlock[1]) && NumberedPoint(SampleSummaryBlock[2])
    ensures PlainLine(SampleConclusionBlock[1])
    ensures NumberedPoint(SampleActionBlock[1]) && NumberedPoint(SampleActionBlock[2])
  {
    SamplePoint1();
    SamplePoint2();
    SamplePlain();
    SamplePoint3();
    SamplePoint4();
  }

  lemma SamplePoint1() ensures NumberedPoint(SampleSummaryBlock[1]) { NoHeaderChar(SampleSummaryBlock[1]); }
  lemma SamplePoint2() ensures NumberedPoint(SampleSummaryBlock[2]) { NoHeaderChar(SampleSummaryBlock[2]); }
  lemma SamplePlain() ensures PlainLine(SampleConclusionBlock[1]) { NoHeaderChar(SampleConclusionBlock[1]); }
  lemma SamplePoint3() ensures NumberedPoint(SampleActionBlock[1]) { NoHeaderChar(SampleActionBlock[1]); }
  lemma SamplePoint4() ensures NumberedPoint(SampleActionBlock[2]) { NoHeaderChar(SampleActionBlock[2]); }

  /** None of the characters 要, 結, 行, ':' occurs in a line in which every
      character is something else. */
  lemma NoHeaderChar(line: string)
    requires forall k :: 0 <= k < |line| ==> line[k] !in "要結行:"
    ensures '要' !in line && '結' !in line && '行' !in line && ':' !in line
  {
  }

  lemma SampleLinesShape()
    ensures SampleLines == [SampleSummaryBlock[0], SampleSummaryBlock[1], SampleSummaryBlock[2]]
                         + [SampleConclusionBlock[0], SampleConclusionBlock[1]]
                         + [SampleActionBlock[0], SampleActionBlock[1], SampleActionBlock[2]]
  {
  }

  /** The point texts: each numbered line without its `1. ` or `2. `. */
  lemma SamplePointTexts()
    ensures SampleSummaryBlock[1][3..] == "討論 DeepSeek R1 模型"
    ensures SampleSummaryBlock[2][3..] == "主持人介紹討論主題"
    ensures SampleActionBlock[1][3..] == "深入了解 DeepSeek R1 的功能"
    ensures SampleActionBlock[2][3..] == "評估模型應用可能性"
  {
  }

  /** The parser test on the sample answer (tests/test_prompt_builder.py:31-59):
      two summary points, the conclusion line, two action items. */
  lemma SampleParse()
    ensures Parse(SampleResponse) == SummaryRecord(
      ["討論 DeepSeek R1 模型", "主持人介紹討論主題"],
      "這是一個關於最新 AI 模型的討論。",
      ["深入了解 DeepSeek R1 的功能", "評估模型應用可能性"])
  {
    var A, B, C := SampleSummaryBlock, SampleConclusionBlock, SampleActionBlock;
    SampleSplit();
    SampleNonBlank();
    SampleLinesShape();
    SampleHeaders();
    SampleContent();
    RunThreeBlocks(A[0], A[1], A[2], B[0], B[1], C[0], C[1], C[2]);
    SamplePointTexts();
  }

  // ---------------------------------------------------------------------------
  // The prompt test
  // ---------------------------------------------------------------------------

  /** The prompt test's check on the system prompt (tests/test_prompt_builder.py:16-29):
      its opening sentence occurs in every prompt. */
  lemma PromptOpening(transcription: string)
    ensures Contains(BuildPrompt(transcription), "你是一個專業的會議記錄摘要生成助手")
  {
    var w := "你是一個專業的會議記錄摘要生成助手";
    var p := BuildPrompt(transcription);
    var i := |SystemOpen|;
    PromptSections(transcription);
    assert w == SystemRole;
    assert SystemPrompt[..|w|] == w;
    assert p[i..i + |SystemPrompt|][..|w|] == p[i..i + |w|];
    assert OccursAt(p, w, i);
  }

  // ---------------------------------------------------------------------------
  // The other parser tests
  // ---------------------------------------------------------------------------

  /** The empty answer gives empty fields (tests/test_prompt_builder.py:61-66). */
  lemma EmptyParse()
    ensures Parse("") == SummaryRecord([], "", [])
  {
    ParseBlank("");
  }

  const ShortHeader: string := "摘要要點："
  const ShortPoint: string := "1. 討論 DeepSeek R1 模型"

  /** An answer with a summary section only (tests/test_prompt_builder.py:68-76).
      The single point is also the conclusion, by the fallback for a missing
      conclusion; the test expects an empty conclusion. */
  lemma MissingSectionsParse()
    ensures Parse(JoinLines([ShortHeader, ShortPoint])) == SummaryRecord(
      ["討論 DeepSeek R1 模型"], "討論 DeepSeek R1 模型", [])
  {
    var pieces := [ShortHeader, ShortPoint];
    assert '\n' !in ShortHeader && '\n' !in ShortPoint;
    SplitJoinLines(pieces);
    assert AllTrimmed(pieces);
    KeepRun(pieces, []);
    AppendEmpty(pieces);
    RunSnoc([], ShortHeader);
    RunSnoc([ShortHeader], ShortPoint);
    EmptyAppend([ShortHeader]);
    assert [ShortHeader] + [ShortPoint] == pieces;
    SampleHeaders();
    SamplePoint1();
    StepHeader(Start, ShortHeader);
    StepNumbered(Start.(section := SummarySection), ShortPoint);
    SamplePointTexts();
  }

  // ---------------------------------------------------------------------------
  // The validator tests
  // ---------------------------------------------------------------------------

  /** The record of tests/test_output_formatter.py:11-22. */
  const SampleRecord: SummaryRecord := SummaryRecord(
    ["討論 DeepSeek R1 模型", "主持人介紹討論主題"],
    "這是一個關於最新 AI 模型的討論。",
    ["深入了解 DeepSeek R1 的功能", "評估模型應用可能性"])

  /** The formatter test's record is what the parser makes of the parser
      test's sample answer, and as a dictionary it is valid
      (tests/test_output_formatter.py:62-64). */
  lemma SampleSummaryValid()
    ensures Parse(SampleResponse) == SampleRecord
    ensures F.ValidateSummary(Pipeline.RecordToDict(SampleRecord))
  {
    SampleParse();
  }

  /** A record without "action_items" is rejected (tests/test_output_formatter.py:66-73). */
  lemma MissingFieldRejected()
    ensures !F.ValidateSummary(map["summary" := F.List([]), "conclusion" := F.Str("")])
  {
  }

  /** A record whose fields have the wrong kinds is rejected
      (tests/test_output_formatter.py:75-82). */
  lemma WrongTypesRejected()
    ensures !F.ValidateSummary(map[
      "summary" := F.Str("Not a list"),
      "conclusion" := F.List([F.Str("Not a string")]),
      "action_items" := F.Str("Not a list")])
  {
    var m := map[
      "summary" := F.Str("Not a list"),
      "conclusion" := F.List([F.Str("Not a string")]),
      "action_items" := F.Str("Not a list")];
    assert !F.FieldOk(m, 0);
  }

  // ---------------------------------------------------------------------------
  // The file name
  // ---------------------------------------------------------------------------

  /** `%m` pads a one-digit month with a zero; `%Y` writes a four-digit year as it is. */
  lemma DigitsExamples()
    ensures F.Digits(7, 2) == "07"
    ensures F.Digits(2026, 4) == "2026"
  {
    assert F.Digits(0, 1) == "0";
    assert F.Digits(20, 2) == "20";
  }
}
