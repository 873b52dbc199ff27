/**
 * The prompt builder of the summarizer (summarizer/prompt_builder.py):
 *
 *  - `BuildPrompt` wraps a transcription, together with the fixed system
 *    prompt, into the three role sections of the ChatML convention
 *    (`<|im_start|>system`, `user`, `assistant`).
 *  - `ParseLlmResponse` turns the model's free-text answer into a
 *    `SummaryRecord` (summary points, one conclusion, action items) by a
 *    scan over its lines that remembers the current section.
 *
 * The scan is specified by the fold `Run` over the cleaned lines (one `Step`
 * per line) followed by `Finish`, the fallback for a missing conclusion;
 * `Parse` is their composition and the method is proved equal to it.
 */
module PromptBuilder {
  import opened Text
  import opened Wrappers

  // ===========================================================================
  // build_prompt
  // ===========================================================================

  /** The instructions the model receives in the system section (set in the
      constructor): the assistant's role, then the format to follow. */
  const SystemPrompt: string := SystemRole + SystemFormat
  const SystemRole: string := "你是一個專業的會議記錄摘要生成助手"
  const SystemFormat: string := "。你的任務是根據提供的會議記錄內容，生成結構化的摘要。\n請遵循以下格式生成摘要：\n1. 摘要要點：列出3-5個最重要的討論點\n2. 結論：簡要總結會議的主要結論\n3. 行動項目：列出需要跟進的具體行動項目\n\n請確保摘要：\n- 保持客觀中立\n- 突出關鍵決策和行動項目\n- 使用清晰簡潔的語言\n- 保持原始內容的準確性"

  const SystemMarker: string := "<|im_start|>system"
  const UserMarker: string := "<|im_start|>user"
  const AssistantMarker: string := "<|im_start|>assistant"
  const EndMarker: string := "<|im_end|>"

  /** The text before the system prompt. */
  const SystemOpen: string := SystemMarker + "\n"
  /** The text between the system prompt and the transcription. */
  const UserOpen: string := "\n" + EndMarker + "\n\n" + UserMarker + "\n請根據以下會議記錄生成摘要：\n\n"
  /** The text after the transcription. */
  const AssistantOpen: string := "\n" + EndMarker + "\n\n" + AssistantMarker + "\n好的，我將根據提供的會議記錄生成結構化摘要：\n\n"

  /** Everything in front of the transcription. */
  const PromptHead: string := SystemOpen + SystemPrompt + UserOpen

  /** The complete prompt for one transcription. */
  function BuildPrompt(transcription: string): (prompt: string)
    ensures |prompt| == |PromptHead| + |transcription| + |AssistantOpen|
  {
    SystemOpen + SystemPrompt + UserOpen + transcription + AssistantOpen
  }

  /** Where the transcription starts in every prompt. */
  function TranscriptionStart(): nat {
    |PromptHead|
  }

  /** Five strings laid end to end: each part, and each marker inside the
      first, third and fifth parts, occurs at its offset in the whole. */
  lemma Layout(a: string, b: string, c: string, d: string, e: string,
               ma: string, mc: string, me: string, k: nat)
    requires OccursAt(a, ma, 0) && OccursAt(c, mc, k) && OccursAt(e, me, k)
    ensures OccursAt(a + b + c + d + e, ma, 0)
    ensures OccursAt(a + b + c + d + e, b, |a|)
    ensures OccursAt(a + b + c + d + e, mc, |a| + |b| + k)
    ensures OccursAt(a + b + c + d + e, d, |a| + |b| + |c|)
    ensures OccursAt(a + b + c + d + e, me, |a| + |b| + |c| + |d| + k)
  {
    var p := a + b + c + d + e;
    var i, j, l := |a| + |b|, |a| + |b| + |c|, |a| + |b| + |c| + |d|;
    assert p[..|a|] == a;
    assert p[|a|..i] == b;
    assert p[i..j] == c;
    assert p[j..l] == d;
    assert p[l..] == e;
    OccursAtShift(p, a, 0, ma, 0);
    OccursAtShift(p, c, i, mc, k);
    OccursAtShift(p, e, l, me, k);
  }

  /** Where each role marker sits inside the fixed parts. */
  lemma MarkerOffsets()
    ensures OccursAt(SystemOpen, SystemMarker, 0) && |SystemMarker| < |SystemOpen|
    ensures OccursAt(UserOpen, UserMarker, |EndMarker| + 3)
    ensures |EndMarker| + 3 + |UserMarker| < |UserOpen|
    ensures OccursAt(AssistantOpen, AssistantMarker, |EndMarker| + 3)
  {
  }

  /** The three role markers appear in the order system, user, assistant; the
      system prompt sits in the system section and the transcription, verbatim,
      between the user marker and the assistant marker. */
  lemma PromptSections(transcription: string)
    ensures OccursAt(BuildPrompt(transcription), SystemMarker, 0)
    ensures OccursAt(BuildPrompt(transcription), SystemPrompt, |SystemOpen|)
    ensures OccursAt(BuildPrompt(transcription), UserMarker, |SystemOpen| + |SystemPrompt| + |EndMarker| + 3)
    ensures OccursAt(BuildPrompt(transcription), transcription, TranscriptionStart())
    ensures OccursAt(BuildPrompt(transcription), AssistantMarker, TranscriptionStart() + |transcription| + |EndMarker| + 3)
    ensures |SystemMarker| < |SystemOpen|
    ensures |SystemOpen| + |SystemPrompt| + |EndMarker| + 3 + |UserMarker| < TranscriptionStart()
  {
    MarkerOffsets();
    Layout(SystemOpen, SystemPrompt, UserOpen, transcription, AssistantOpen,
           SystemMarker, UserMarker, AssistantMarker, |EndMarker| + 3);
  }

  /** The tests' containment checks: the system prompt, the transcription and the
      three role markers all occur in the prompt. */
  lemma PromptContainsParts(transcription: string)
    ensures Contains(BuildPrompt(transcription), SystemPrompt)
    ensures Contains(BuildPrompt(transcription), transcription)
    ensures Contains(BuildPrompt(transcription), SystemMarker)
    ensures Contains(BuildPrompt(transcription), UserMarker)
    ensures Contains(BuildPrompt(transcription), AssistantMarker)
  {
    PromptSections(transcription);
    var p := BuildPrompt(transcription);
    assert OccursAt(p, SystemPrompt, |SystemOpen|);
    assert OccursAt(p, transcription, TranscriptionStart());
    assert OccursAt(p, SystemMarker, 0);
    assert OccursAt(p, UserMarker, |SystemOpen| + |SystemPrompt| + |EndMarker| + 3);
    assert OccursAt(p, AssistantMarker, TranscriptionStart() + |transcription| + |EndMarker| + 3);
  }

  /** Recovers the transcription from a prompt built by `BuildPrompt`. */
  function TranscriptionOf(prompt: string): (t: Option<string>)
  {
    if |prompt| >= |PromptHead| + |AssistantOpen|
       && prompt[..|PromptHead|] == PromptHead
       && prompt[|prompt| - |AssistantOpen|..] == AssistantOpen
    then Some(prompt[|PromptHead|..|prompt| - |AssistantOpen|])
    else None
  }

  /** `TranscriptionOf` inverts `BuildPrompt`, so no two transcriptions give the same prompt. */
  lemma PromptRoundTrip(transcription: string, prompt: string)
    ensures TranscriptionOf(BuildPrompt(transcription)) == Some(transcription)
    ensures TranscriptionOf(prompt) == Some(transcription) ==> BuildPrompt(transcription) == prompt
  {
    var p := BuildPrompt(transcription);
    assert p == PromptHead + transcription + AssistantOpen;
    assert p[..|PromptHead|] == PromptHead;
    assert p[|p| - |AssistantOpen|..] == AssistantOpen;
    assert p[|PromptHead|..|p| - |AssistantOpen|] == transcription;
    if TranscriptionOf(prompt) == Some(transcription) {
      assert prompt == prompt[..|PromptHead|] + prompt[|PromptHead|..|prompt| - |AssistantOpen|]
                       + prompt[|prompt| - |AssistantOpen|..];
    }
  }

  // ===========================================================================
  // parse_llm_response
  // ===========================================================================

  /** The section the scan is in; `NoSection` before the first header line. */
  datatype Section = NoSection | SummarySection | ConclusionSection | ActionItemsSection

  /** The structured summary: the dictionary with keys "summary", "conclusion"
      and "action_items". */
  datatype SummaryRecord = SummaryRecord(summary: seq<string>, conclusion: string, actionItems: seq<string>)

  /** The variables of the scan: the current section and the three fields so far. */
  datatype ParseState = ParseState(section: Section, summary: seq<string>, conclusion: string, actionItems: seq<string>)

  const SummaryHeaders: seq<string> := ["summary:", "摘要要點", "要點"]
  const ConclusionHeaders: seq<string> := ["conclusion:", "結論"]
  const ActionItemHeaders: seq<string> := ["action items:", "行動項目", "行動"]
  /** Prefixes of lines that are model banners or leaked instructions. */
  const NoisePrefixes: seq<string> := ["=== Model", "You are", "Please", "IMPORTANT"]
  /** Prefixes that mark a line as a summary point or action item. */
  const BulletMarkers: seq<string> := ["*", "-", "•", "1.", "2.", "3."]
  /** The characters removed from the front of an accepted point. */
  const BulletChars: string := "*•-123. "

  /** The section a header line switches to, or `NoSection` when the line is
      not a header. Header words are looked for anywhere in the lower-cased
      line; summary words win over conclusion words, which win over
      action-item words. */
  function HeaderOf(line: string): Section {
    var lowered := Lower(line);
    if ContainsAny(lowered, SummaryHeaders) then SummarySection
    else if ContainsAny(lowered, ConclusionHeaders) then ConclusionSection
    else if ContainsAny(lowered, ActionItemHeaders) then ActionItemsSection
    else NoSection
  }

  predicate IsNoise(line: string) {
    StartsWithAny(line, NoisePrefixes)
  }

  predicate IsBulleted(line: string) {
    StartsWithAny(line, BulletMarkers)
  }

  function StripBullet(line: string): string {
    LStripChars(line, BulletChars)
  }

  /** A line is bulleted exactly when it starts with `*`, `-` or `•`, or with
      one of the ordinals `1.`, `2.`, `3.`; `4.` and beyond are not bullets. */
  lemma BulletShape(line: string)
    ensures IsBulleted(line) <==>
      |line| > 0 && (line[0] in "*-•" || (|line| >= 2 && '1' <= line[0] <= '3' && line[1] == '.'))
  {
    if |line| >= 2 {
      assert "1." <= line <==> line[0] == '1' && line[1] == '.';
      assert "2." <= line <==> line[0] == '2' && line[1] == '.';
      assert "3." <= line <==> line[0] == '3' && line[1] == '.';
    }
  }

  /** What one line does to the scan. */
  function Step(st: ParseState, line: string): ParseState {
    var header := HeaderOf(line);
    if header != NoSection then st.(section := header)
    else if IsNoise(line) then st
    else match st.section
      case SummarySection =>
        if IsBulleted(line) then st.(summary := st.summary + [StripBullet(line)]) else st
      case ConclusionSection =>
        if st.conclusion == "" then st.(conclusion := line) else st
      case ActionItemsSection =>
        if IsBulleted(line) then st.(actionItems := st.actionItems + [StripBullet(line)]) else st
      case NoSection => st
  }

  const Start: ParseState := ParseState(NoSection, [], "", [])

  /** The scan over `lines`, from `Start`. */
  function Run(lines: seq<string>): ParseState
    decreases |lines|
  {
    if |lines| == 0 then Start else Step(Run(lines[..|lines| - 1]), lines[|lines| - 1])
  }

  /** After the scan: a missing conclusion falls back to the last summary point. */
  function Finish(st: ParseState): SummaryRecord {
    if st.conclusion == "" && |st.summary| > 0 then
      SummaryRecord(st.summary, st.summary[|st.summary| - 1], st.actionItems)
    else
      SummaryRecord(st.summary, st.conclusion, st.actionItems)
  }

  /** The stripped pieces that are not empty, in order. */
  function NonBlank(pieces: seq<string>): (lines: seq<string>)
    ensures |lines| <= |pieces|
    ensures forall k :: 0 <= k < |lines| ==> lines[k] != ""
    decreases |pieces|
  {
    if |pieces| == 0 then []
    else
      var line := Strip(pieces[0]);
      (if line == "" then [] else [line]) + NonBlank(pieces[1..])
  }

  /** Every kept line is already stripped. */
  lemma {:induction false} NonBlankStripped(pieces: seq<string>, k: nat)
    requires k < |NonBlank(pieces)|
    ensures Strip(NonBlank(pieces)[k]) == NonBlank(pieces)[k]
    decreases |pieces|
  {
    var line := Strip(pieces[0]);
    if line == "" {
      assert NonBlank(pieces) == NonBlank(pieces[1..]);
      NonBlankStripped(pieces[1..], k);
    } else if k == 0 {
      assert NonBlank(pieces)[0] == line;
      StripIdempotent(pieces[0]);
    } else {
      assert NonBlank(pieces) == [line] + NonBlank(pieces[1..]);
      NonBlankStripped(pieces[1..], k - 1);
    }
  }

  /** `[line.strip() for line in response.split('\n') if line.strip()]` */
  function CleanLines(response: string): (lines: seq<string>)
    ensures |lines| <= |SplitLines(response)|
    ensures forall k :: 0 <= k < |lines| ==> lines[k] != ""
  {
    NonBlank(SplitLines(response))
  }

  /** The record `parse_llm_response` returns for `response`. */
  function Parse(response: string): SummaryRecord {
    Finish(Run(CleanLines(response)))
  }

  /** The parser as the source runs it: one pass over the cleaned lines that
      tracks the current section and appends to the fields in place, then the
      conclusion fallback. */
  method ParseLlmResponse(response: string) returns (r: SummaryRecord)
    ensures r == Parse(response)
  {
    var lines := CleanLines(response);
    var section := NoSection;
    var points: seq<string> := [];
    var conclusion: string := "";
    var actions: seq<string> := [];
    for i := 0 to |lines|
      invariant ParseState(section, points, conclusion, actions) == Run(lines[..i])
    {
      RunPrefix(lines, i);
      NonBlankStripped(SplitLines(response), i);
      var line := Strip(lines[i]);
      if line == "" {
        continue;
      }
      section, points, conclusion, actions := ScanLine(section, points, conclusion, actions, line);
    }
    assert lines[..|lines|] == lines;
    if conclusion == "" && |points| > 0 {
      conclusion := points[|points| - 1];
    }
    r := SummaryRecord(points, conclusion, actions);
  }

  /** The body of the scan for one non-empty line: a header switches the
      section, a noise line is dropped, and any other line is stored according
      to the current section. */
  method ScanLine(section: Section, points: seq<string>, conclusion: string, actions: seq<string>, line: string)
    returns (section': Section, points': seq<string>, conclusion': string, actions': seq<string>)
    ensures ParseState(section', points', conclusion', actions')
            == Step(ParseState(section, points, conclusion, actions), line)
  {
    section', points', conclusion', actions' := section, points, conclusion, actions;
    var lowered := Lower(line);
    if ContainsAny(lowered, SummaryHeaders) {
      section' := SummarySection;
      return;
    } else if ContainsAny(lowered, ConclusionHeaders) {
      section' := ConclusionSection;
      return;
    } else if ContainsAny(lowered, ActionItemHeaders) {
      section' := ActionItemsSection;
      return;
    }
    if IsNoise(line) {
      return;
    }
    if section == SummarySection {
      if IsBulleted(line) {
        points' := points + [StripBullet(line)];
      }
    } else if section == ConclusionSection {
      if conclusion == "" {
        conclusion' := line;
      }
    } else if section == ActionItemsSection {
      if IsBulleted(line) {
        actions' := actions + [StripBullet(line)];
      }
    }
  }

  // ---------------------------------------------------------------------------
  // Properties of the scan
  // ---------------------------------------------------------------------------

  /** One more line is one more step. */
  lemma RunSnoc(p: seq<string>, x: string)
    ensures Run(p + [x]) == Step(Run(p), x)
  {
    assert (p + [x])[..|p|] == p;
  }

  /** `RunSnoc` on the prefixes of one list of lines, as the loop reads them. */
  lemma RunPrefix(lines: seq<string>, i: nat)
    requires i < |lines|
    ensures Run(lines[..i + 1]) == Step(Run(lines[..i]), lines[i])
  {
    assert lines[..i + 1] == lines[..i] + [lines[i]];
    RunSnoc(lines[..i], lines[i]);
  }

  /** The fields collected in section `sec` (summary points or action items). */
  function Items(st: ParseState, sec: Section): seq<string>
    requires sec == SummarySection || sec == ActionItemsSection
  {
    if sec == SummarySection then st.summary else st.actionItems
  }

  /** Lines only ever append: the items read from a prefix stay, in order, at the
      front of the items of the whole text; each further line adds at most one
      item; and a conclusion, once taken, is never overwritten. */
  lemma {:induction false} RunAppendOnly(a: seq<string>, b: seq<string>)
    ensures Run(a).summary <= Run(a + b).summary
    ensures Run(a).actionItems <= Run(a + b).actionItems
    ensures |Run(a + b).summary| + |Run(a + b).actionItems|
            <= |Run(a).summary| + |Run(a).actionItems| + |b|
    ensures Run(a).conclusion != "" ==> Run(a + b).conclusion == Run(a).conclusion
    decreases |b|
  {
    if |b| == 0 {
      assert a + b == a;
    } else {
      var b' := b[..|b| - 1];
      var x := b[|b| - 1];
      RunAppendOnly(a, b');
      assert a + b == (a + b') + [x];
      RunSnoc(a + b', x);
    }
  }

  /** The section named by the last header line of `lines`; `NoSection` when
      there is none. */
  function SectionAfter(lines: seq<string>): Section
    decreases |lines|
  {
    if |lines| == 0 then NoSection
    else if HeaderOf(lines[|lines| - 1]) != NoSection then HeaderOf(lines[|lines| - 1])
    else SectionAfter(lines[..|lines| - 1])
  }

  /** The scan's current section is always the one named by the last header
      line read so far. */
  lemma {:induction false} RunSection(lines: seq<string>)
    ensures Run(lines).section == SectionAfter(lines)
    decreases |lines|
  {
    if |lines| > 0 {
      RunSection(lines[..|lines| - 1]);
    }
  }

  /** In the section in force at line `i`, line `i` is a bulleted content line. */
  ghost predicate BulletLineAt(lines: seq<string>, i: int, sec: Section) {
    && 0 <= i < |lines|
    && SectionAfter(lines[..i]) == sec
    && HeaderOf(lines[i]) == NoSection
    && !IsNoise(lines[i])
    && IsBulleted(lines[i])
  }

  /** In the conclusion section in force at line `i`, line `i` is a content line. */
  ghost predicate ConclusionLineAt(lines: seq<string>, i: int) {
    && 0 <= i < |lines|
    && SectionAfter(lines[..i]) == ConclusionSection
    && HeaderOf(lines[i]) == NoSection
    && !IsNoise(lines[i])
  }

  lemma PrefixOfSnoc(p: seq<string>, x: string, i: int)
    requires 0 <= i <= |p|
    ensures (p + [x])[..i] == p[..i]
  {
  }

  /** What one line does to the items of section `sec`: it appends its
      de-bulleted text exactly when it is a bulleted content line read in `sec`. */
  lemma StepItems(st: ParseState, x: string, sec: Section)
    requires sec == SummarySection || sec == ActionItemsSection
    ensures Items(Step(st, x), sec) ==
      if st.section == sec && HeaderOf(x) == NoSection && !IsNoise(x) && IsBulleted(x)
      then Items(st, sec) + [StripBullet(x)]
      else Items(st, sec)
  {
  }

  /** Every summary point (action item) is the de-bulleted text of a bulleted
      content line read in the summary (action-item) section, so none starts
      with a bullet character. */
  lemma {:induction false} ItemsFromBulletLines(lines: seq<string>, sec: Section)
    requires sec == SummarySection || sec == ActionItemsSection
    ensures forall y :: y in Items(Run(lines), sec) ==>
              exists i :: BulletLineAt(lines, i, sec) && y == StripBullet(lines[i])
    ensures forall y :: y in Items(Run(lines), sec) ==> y == "" || y[0] !in BulletChars
    decreases |lines|
  {
    if |lines| > 0 {
      var p := lines[..|lines| - 1];
      var x := lines[|lines| - 1];
      assert lines == p + [x];
      ItemsFromBulletLines(p, sec);
      RunSnoc(p, x);
      RunSection(p);
      StepItems(Run(p), x, sec);
      var before := Items(Run(p), sec);
      forall y | y in Items(Run(lines), sec)
        ensures exists i :: BulletLineAt(lines, i, sec) && y == StripBullet(lines[i])
      {
        if y in before {
          var i :| BulletLineAt(p, i, sec) && y == StripBullet(p[i]);
          PrefixOfSnoc(p, x, i);
          assert BulletLineAt(lines, i, sec);
        } else {
          assert BulletLineAt(lines, |p|, sec);
        }
      }
    }
  }

  /** Every bulleted content line read in the summary (action-item) section
      gives a summary point (action item). */
  lemma {:induction false} BulletLinesGiveItems(lines: seq<string>, sec: Section)
    requires sec == SummarySection || sec == ActionItemsSection
    ensures forall i :: BulletLineAt(lines, i, sec) ==> StripBullet(lines[i]) in Items(Run(lines), sec)
    decreases |lines|
  {
    if |lines| > 0 {
      var p := lines[..|lines| - 1];
      var x := lines[|lines| - 1];
      assert lines == p + [x];
      BulletLinesGiveItems(p, sec);
      RunSnoc(p, x);
      RunSection(p);
      StepItems(Run(p), x, sec);
      forall i | BulletLineAt(lines, i, sec)
        ensures StripBullet(lines[i]) in Items(Run(lines), sec)
      {
        if i < |p| {
          PrefixOfSnoc(p, x, i);
          assert BulletLineAt(p, i, sec);
        }
      }
    }
  }

  /** The conclusion of the scan is the first non-empty content line read in a
      conclusion section, and it is taken whenever there is one. */
  lemma {:induction false} ConclusionIsFirst(lines: seq<string>)
    ensures Run(lines).conclusion != "" ==>
              exists i :: && ConclusionLineAt(lines, i)
                          && Run(lines).conclusion == lines[i]
                          && forall j :: 0 <= j < i && ConclusionLineAt(lines, j) ==> lines[j] == ""
    ensures forall i :: ConclusionLineAt(lines, i) && lines[i] != "" ==> Run(lines).conclusion != ""
    decreases |lines|
  {
    if |lines| > 0 {
      var p := lines[..|lines| - 1];
      var x := lines[|lines| - 1];
      assert lines == p + [x];
      ConclusionIsFirst(p);
      RunSnoc(p, x);
      RunSection(p);
      forall i | 0 <= i < |p|
        ensures ConclusionLineAt(lines, i) <==> ConclusionLineAt(p, i)
      {
        PrefixOfSnoc(p, x, i);
      }
      if Run(lines).conclusion != "" && Run(p).conclusion == "" {
        assert ConclusionLineAt(lines, |p|);
        forall j | 0 <= j < |p| && ConclusionLineAt(lines, j) ensures lines[j] == "" {
          assert ConclusionLineAt(p, j);
        }
      }
    }
  }

  /** The section after a scan is the one named by the last header line, or
      `NoSection` when there is no header line. */
  lemma {:induction false} SectionIsLastHeader(lines: seq<string>)
    ensures (forall i :: 0 <= i < |lines| ==> HeaderOf(lines[i]) == NoSection) ==>
              Run(lines).section == NoSection
    ensures forall i :: 0 <= i < |lines| && HeaderOf(lines[i]) != NoSection
                        && (forall j :: i < j < |lines| ==> HeaderOf(lines[j]) == NoSection) ==>
              Run(lines).section == HeaderOf(lines[i])
  {
    RunSection(lines);
    LastHeader(lines);
  }

  lemma {:induction false} LastHeader(lines: seq<string>)
    ensures (forall i :: 0 <= i < |lines| ==> HeaderOf(lines[i]) == NoSection) ==>
              SectionAfter(lines) == NoSection
    ensures forall i :: 0 <= i < |lines| && HeaderOf(lines[i]) != NoSection
                        && (forall j :: i < j < |lines| ==> HeaderOf(lines[j]) == NoSection) ==>
              SectionAfter(lines) == HeaderOf(lines[i])
    decreases |lines|
  {
    if |lines| > 0 {
      var p := lines[..|lines| - 1];
      var x := lines[|lines| - 1];
      LastHeader(p);
      forall i | 0 <= i < |lines| && HeaderOf(lines[i]) != NoSection
                 && (forall j :: i < j < |lines| ==> HeaderOf(lines[j]) == NoSection)
        ensures SectionAfter(lines) == HeaderOf(lines[i])
      {
        if i < |p| {
          assert HeaderOf(x) == NoSection;
          assert p[i] == lines[i];
          forall j | i < j < |p| ensures HeaderOf(p[j]) == NoSection {
            assert p[j] == lines[j];
          }
        }
      }
      if forall i :: 0 <= i < |lines| ==> HeaderOf(lines[i]) == NoSection {
        forall j | 0 <= j < |p| ensures HeaderOf(p[j]) == NoSection {
          assert p[j] == lines[j];
        }
      }
    }
  }

  /** The lines a noise prefix discards: noise lines that are not headers. */
  predicate Discarded(line: string) {
    HeaderOf(line) == NoSection && IsNoise(line)
  }

  function DropDiscarded(lines: seq<string>): (kept: seq<string>)
    ensures forall k :: 0 <= k < |kept| ==> !Discarded(kept[k])
    decreases |lines|
  {
    if |lines| == 0 then []
    else
      var p := DropDiscarded(lines[..|lines| - 1]);
      var x := lines[|lines| - 1];
      if Discarded(x) then p else p + [x]
  }

  lemma StepDiscarded(st: ParseState, x: string)
    ensures Discarded(x) ==> Step(st, x) == st
  {
  }

  /** Removing the noise lines (those that are not headers) changes nothing: a
      line starting with a noise prefix contributes to no field. */
  lemma {:induction false} NoiseIgnored(lines: seq<string>)
    ensures Run(DropDiscarded(lines)) == Run(lines)
    decreases |lines|
  {
    if |lines| > 0 {
      var p := lines[..|lines| - 1];
      var x := lines[|lines| - 1];
      assert lines == p + [x];
      NoiseIgnored(p);
      RunSnoc(p, x);
      StepDiscarded(Run(p), x);
      if !Discarded(x) {
        RunSnoc(DropDiscarded(p), x);
      }
    }
  }

  /** A suffix of a line that is no header is no header. */
  lemma SuffixNotHeader(line: string, k: nat)
    requires k <= |line|
    requires HeaderOf(line) == NoSection
    ensures HeaderOf(line[k..]) == NoSection
  {
    assert Lower(line[k..]) == Lower(line)[k..];
    if ContainsAny(Lower(line[k..]), SummaryHeaders) {
      ContainsAnyInSuffix(Lower(line), k, SummaryHeaders);
    } else if ContainsAny(Lower(line[k..]), ConclusionHeaders) {
      ContainsAnyInSuffix(Lower(line), k, ConclusionHeaders);
    } else if ContainsAny(Lower(line[k..]), ActionItemHeaders) {
      ContainsAnyInSuffix(Lower(line), k, ActionItemHeaders);
    }
  }

  /** No summary point (action item) of a scan contains a header word. */
  lemma ItemsHeaderFree(lines: seq<string>, sec: Section)
    requires sec == SummarySection || sec == ActionItemsSection
    ensures forall y :: y in Items(Run(lines), sec) ==> HeaderOf(y) == NoSection
  {
    ItemsFromBulletLines(lines, sec);
    forall y | y in Items(Run(lines), sec) ensures HeaderOf(y) == NoSection {
      var i :| BulletLineAt(lines, i, sec) && y == StripBullet(lines[i]);
      SuffixNotHeader(lines[i], |lines[i]| - |y|);
    }
  }

  /** The conclusion of a scan contains no header word. */
  lemma ConclusionHeaderFree(lines: seq<string>)
    ensures HeaderOf(Run(lines).conclusion) == NoSection
  {
    ConclusionIsFirst(lines);
    if Run(lines).conclusion == "" {
      assert Lower("") == "";
    }
  }

  /** No field of the record contains a header word: header lines are consumed,
      never stored. */
  lemma HeaderFree(response: string)
    ensures forall y :: y in Parse(response).summary ==> HeaderOf(y) == NoSection
    ensures forall y :: y in Parse(response).actionItems ==> HeaderOf(y) == NoSection
    ensures HeaderOf(Parse(response).conclusion) == NoSection
  {
    var st := Run(CleanLines(response));
    ItemsHeaderFree(CleanLines(response), SummarySection);
    ItemsHeaderFree(CleanLines(response), ActionItemsSection);
    ConclusionHeaderFree(CleanLines(response));
    if st.conclusion == "" && |st.summary| > 0 {
      assert st.summary[|st.summary| - 1] in st.summary;
    }
  }

  /** At most one item per non-blank line of the response. */
  lemma ItemCount(response: string)
    ensures |Parse(response).summary| + |Parse(response).actionItems| <= |CleanLines(response)|
    ensures |CleanLines(response)| <= |SplitLines(response)|
  {
    RunAppendOnly([], CleanLines(response));
    assert [] + CleanLines(response) == CleanLines(response);
  }

  /** Some content line is read in a conclusion section. */
  ghost predicate HasConclusionLine(lines: seq<string>) {
    exists i :: ConclusionLineAt(lines, i)
  }

  /** Over non-empty lines, the scan takes a conclusion exactly when some
      content line is read in a conclusion section. */
  lemma ConclusionTaken(lines: seq<string>)
    requires forall k :: 0 <= k < |lines| ==> lines[k] != ""
    ensures Run(lines).conclusion != "" <==> HasConclusionLine(lines)
  {
    ConclusionIsFirst(lines);
  }

  /** The record built from a scan: a conclusion taken from a conclusion line
      is kept, else the last summary point stands in. */
  lemma FinishConclusion(lines: seq<string>)
    requires forall k :: 0 <= k < |lines| ==> lines[k] != ""
    ensures HasConclusionLine(lines) ==>
              Finish(Run(lines)).conclusion == Run(lines).conclusion != ""
    ensures !HasConclusionLine(lines) ==>
              Finish(Run(lines)).conclusion ==
                if Run(lines).summary == [] then "" else Run(lines).summary[|Run(lines).summary| - 1]
    ensures Finish(Run(lines)).summary == Run(lines).summary
  {
    ConclusionTaken(lines);
  }

  /** Every piece of an all-whitespace text strips to nothing. */
  lemma {:induction false} NonBlankOfBlank(pieces: seq<string>)
    requires forall k :: 0 <= k < |pieces| ==> AllSpace(pieces[k])
    ensures NonBlank(pieces) == []
    decreases |pieces|
  {
    if |pieces| > 0 {
      NonBlankOfBlank(pieces[1..]);
    }
  }

  /** An empty or all-whitespace response gives the empty record. */
  lemma ParseBlank(response: string)
    requires AllSpace(response)
    ensures Parse(response) == SummaryRecord([], "", [])
  {
    SplitAllSpace(response);
    NonBlankOfBlank(SplitLines(response));
  }
}
