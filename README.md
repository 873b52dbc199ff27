# summary-LLM core in Dafny

summary-LLM summarises meeting transcriptions with a local language model.
This project models the two pieces of the pipeline around the model call:

- **The prompt builder** (`summarizer/prompt_builder.py`).
  - `build_prompt` wraps a transcription in the three ChatML role sections
    (`<|im_start|>system`, `user`, `assistant`), with a fixed Chinese system
    prompt.
  - `parse_llm_response` scans the model's answer line by line. It keeps track
    of the current section (summary points, conclusion, action items). Header
    lines switch the section, lines with a noise prefix are dropped, and a
    bulleted line becomes a point or action item once its bullet is stripped.
    Only the first conclusion line is kept. When there is no conclusion, the
    last summary point stands in for it.
- **The output formatter** (`summarizer/output_formatter.py`).
  - `validate_summary` checks that the three fields are present and have the
    right JSON kinds.
  - `format_summary` wraps a summary with its metadata.
  - `save_summary` builds the file path `<output_dir>/summary_<YYYYmmdd_HHMMSS>.json`.

The modules are:

- `Text` states the Python string operations the parser relies on, on `seq<char>`:
  - `split('\n')`
  - `strip()`, using Python's whitespace set
  - `lower()`
  - `lstrip(chars)`
  - `in`
  - `startswith(tuple)`
- `PromptBuilder` holds the prompt and the parser.
  - The scan is specified by the fold `Run`, one `Step` per cleaned line, followed by `Finish` (the conclusion fallback).
  - `ParseLlmResponse` is the imperative loop the source runs. It is proved equal to that specification.
- `OutputFormatter` models Python values as a JSON `Value` datatype. It covers:
  - validation;
  - formatting, with the timestamp as a parameter;
  - the save path, with the moment `datetime.now()` returns as a parameter.
- `Pipeline` covers the hand-over in `main.py`: the parsed record, seen as a dictionary, always passes validation.
- `WorkedCases` works out the repository's unit-test inputs, line by line.

## Model

| member | source | states |
|---|---|---|
| Text.SplitLines | summarizer/prompt_builder.py:73 | `response.split('\n')`: at least one piece, and no piece holds a newline |
| Text.JoinSplitLines | summarizer/prompt_builder.py:73 | joining the pieces of a text with newlines gives the text back |
| Text.SplitJoinLines | summarizer/prompt_builder.py:73 | splitting newline-free pieces joined by newlines gives the pieces back |
| Text.TrimStart | summarizer/prompt_builder.py:73 | the result is a suffix of the text; only whitespace was cut, and the result does not start with whitespace |
| Text.TrimEnd | summarizer/prompt_builder.py:73 | the result is a prefix of the text; only whitespace was cut, and the result does not end with whitespace |
| Text.Strip | summarizer/prompt_builder.py:73 | `line.strip()` is empty exactly when the line is all whitespace; otherwise it starts and ends with non-whitespace |
| Text.StripSlice | summarizer/prompt_builder.py:73 | the stripped line is the lstripped line cut before its trailing whitespace, and only whitespace follows it there |
| Text.StripMiddle | summarizer/prompt_builder.py:73 | the stripped line is a middle slice of the line, with only whitespace before and after it |
| Text.MiddleSlice | summarizer/prompt_builder.py:73 | a prefix of a suffix of the line that is followed only by whitespace is a slice of the line with only whitespace after it; `StripMiddle` applies it to `strip()` |
| Text.StripIdempotent | summarizer/prompt_builder.py:73-78 | stripping an already stripped line (the second `strip` in the loop) changes nothing |
| Text.Lower | summarizer/prompt_builder.py:83 | the modelled `lower()` keeps the length and maps each character on its own (Python's can lengthen a text; see Left out) |
| Text.OccursAt | summarizer/prompt_builder.py:83-89 | definition of "`w` occurs in `s` at index `i`" |
| Text.Contains | summarizer/prompt_builder.py:83-89 | definition of the substring test `w in s` |
| Text.ContainsAny | summarizer/prompt_builder.py:83-89 | definition of `any(header in line for header in words)` |
| Text.StartsWithAny | summarizer/prompt_builder.py:94-105 | definition of `line.startswith((p1, p2, ...))` |
| Text.LStripChars | summarizer/prompt_builder.py:100 | `lstrip(chars)` removes a prefix made only of `chars`, and the rest does not start with one of them |
| Text.LStripCharsAt | summarizer/prompt_builder.py:100 | `lstrip(chars)` removes exactly the longest prefix made of `chars` |
| PromptBuilder.BuildPrompt | summarizer/prompt_builder.py:35-48 | the prompt's length is the fixed head and tail plus the transcription |
| PromptBuilder.PromptSections | summarizer/prompt_builder.py:12-48 | the system marker opens the prompt and the system prompt follows it; the user marker comes next; the transcription sits verbatim after the head; the assistant marker follows it; the markers come in the order system, user, assistant |
| PromptBuilder.PromptContainsParts | tests/test_prompt_builder.py:16-29 | every prompt contains the system prompt, the transcription and the three role markers |
| PromptBuilder.PromptRoundTrip | summarizer/prompt_builder.py:35-48 | `TranscriptionOf` inverts `BuildPrompt` in both directions, so distinct transcriptions give distinct prompts |
| PromptBuilder.HeaderOf | summarizer/prompt_builder.py:83-91 | definition of the header test: the section a line switches to, summary words first, then conclusion words, then action-item words, anywhere in the lower-cased line |
| PromptBuilder.IsNoise | summarizer/prompt_builder.py:94-95 | definition of the noise test: the line starts with `=== Model`, `You are`, `Please` or `IMPORTANT` |
| PromptBuilder.IsBulleted | summarizer/prompt_builder.py:99 | definition of the bullet test: the line starts with `*`, `-`, `•`, `1.`, `2.` or `3.` |
| PromptBuilder.StripBullet | summarizer/prompt_builder.py:100 | definition of `line.lstrip("*•-123. ")` |
| PromptBuilder.Step | summarizer/prompt_builder.py:82-106 | definition of one loop iteration on the section and the three fields |
| PromptBuilder.Run | summarizer/prompt_builder.py:75-106 | definition of the loop: `Step` over the cleaned lines from no section and empty fields |
| PromptBuilder.Finish | summarizer/prompt_builder.py:108-112 | definition of the fallback: no conclusion and some points gives the last point as conclusion |
| PromptBuilder.Parse | summarizer/prompt_builder.py:54-116 | definition of the whole parser: `Finish` of `Run` of the cleaned lines |
| PromptBuilder.BulletShape | summarizer/prompt_builder.py:99 | a line is bulleted exactly when it starts with `*`, `-` or `•`, or with `1.`, `2.` or `3.` |
| PromptBuilder.NonBlank | summarizer/prompt_builder.py:73 | the kept lines are never empty, and there are no more of them than pieces |
| PromptBuilder.NonBlankStripped | summarizer/prompt_builder.py:73-80 | every kept line is already stripped, so the loop's own `strip`/`continue` never fires |
| PromptBuilder.CleanLines | summarizer/prompt_builder.py:73 | the cleaned lines are non-empty, and there are at most as many as the pieces of the response |
| PromptBuilder.ParseLlmResponse | summarizer/prompt_builder.py:54-116 | the loop over the cleaned lines, followed by the fallback, returns `Parse(response)` |
| PromptBuilder.ScanLine | summarizer/prompt_builder.py:82-106 | one loop iteration performs exactly `Step` |
| PromptBuilder.RunSnoc | summarizer/prompt_builder.py:77-106 | reading one more line is one more `Step` |
| PromptBuilder.RunPrefix | summarizer/prompt_builder.py:77-106 | the same fact on the prefixes of one list of lines, as the loop reads them |
| PromptBuilder.RunAppendOnly | summarizer/prompt_builder.py:97-106 | reading more lines only appends: earlier points and actions stay in order at the front, each line adds at most one item, and a conclusion once taken is never replaced |
| PromptBuilder.RunSection | summarizer/prompt_builder.py:83-91 | the current section is always the one named by the last header line read |
| PromptBuilder.SectionIsLastHeader | summarizer/prompt_builder.py:75-91 | with no header line the section stays unset; otherwise it is the section of the last header line |
| PromptBuilder.StepItems | summarizer/prompt_builder.py:98-106 | one line appends its de-bulleted text to a section's items exactly when it is a bulleted, non-header, non-noise line read in that section |
| PromptBuilder.ItemsFromBulletLines | summarizer/prompt_builder.py:98-106 | every point or action item is the de-bulleted text of a bulleted content line read in its section, and does not start with a bullet character |
| PromptBuilder.BulletLinesGiveItems | summarizer/prompt_builder.py:98-106 | every bulleted content line read in a section yields an item of that section |
| PromptBuilder.ConclusionIsFirst | summarizer/prompt_builder.py:101-103 | the conclusion is the first content line read in a conclusion section, and one is taken whenever such a line exists |
| PromptBuilder.ConclusionTaken | summarizer/prompt_builder.py:101-103 | over non-empty lines, the scan takes a conclusion exactly when a content line occurs in a conclusion section |
| PromptBuilder.FinishConclusion | summarizer/prompt_builder.py:108-110 | a conclusion from a conclusion line is kept; without one, the conclusion is the last summary point, or empty when there are no points; the points are unchanged |
| PromptBuilder.DropDiscarded | summarizer/prompt_builder.py:93-95 | no kept line is a non-header line with a noise prefix |
| PromptBuilder.StepDiscarded | summarizer/prompt_builder.py:93-95 | a non-header line with a noise prefix leaves the scan unchanged |
| PromptBuilder.NoiseIgnored | summarizer/prompt_builder.py:93-95 | removing every non-header noise line from the input does not change the result of the scan |
| PromptBuilder.SuffixNotHeader | summarizer/prompt_builder.py:83-100 | a suffix of a line that is not a header is not a header either |
| PromptBuilder.ItemsHeaderFree | summarizer/prompt_builder.py:83-106 | no point or action item contains a header word |
| PromptBuilder.ConclusionHeaderFree | summarizer/prompt_builder.py:83-103 | the conclusion of the scan contains no header word |
| PromptBuilder.HeaderFree | summarizer/prompt_builder.py:54-116 | no field of the returned record contains a header word, including after the fallback |
| PromptBuilder.ItemCount | summarizer/prompt_builder.py:73-106 | the parser yields at most one item per non-blank line |
| PromptBuilder.NonBlankOfBlank | summarizer/prompt_builder.py:73 | pieces that are all whitespace leave no lines |
| PromptBuilder.ParseBlank | summarizer/prompt_builder.py:64-112 | an empty or all-whitespace response gives empty points, an empty conclusion and no actions |
| OutputFormatter.ValidateSummary | summarizer/output_formatter.py:67-95 | valid exactly when each required field is present with its kind (summary a list, conclusion a string, action_items a list); a missing field means invalid |
| OutputFormatter.SameKindsSameVerdict | summarizer/output_formatter.py:77-95 | the verdict depends only on the presence and kinds of the three fields |
| OutputFormatter.ExtraKeyIgnored | summarizer/output_formatter.py:77-95 | adding or changing a key outside the required fields keeps the verdict |
| OutputFormatter.ListContentsIgnored | summarizer/output_formatter.py:85-93 | replacing the elements of a list field keeps the verdict |
| OutputFormatter.FormatSummary | summarizer/output_formatter.py:31-38 | the result holds the source URL, the generation time and version "1.0" under `metadata`, and the summary unchanged under `content` |
| OutputFormatter.FormatRoundTrip | summarizer/output_formatter.py:31-38 | `Unformat` inverts `FormatSummary` in both directions: the content, URL and time come back, and the formatted value holds nothing else |
| OutputFormatter.Digits | summarizer/output_formatter.py:52 | a zero-padded field of `strftime` has exactly its width, all in decimal digits |
| OutputFormatter.DigitsValue | summarizer/output_formatter.py:52 | the decimal value of a digit string lies below 10^length |
| OutputFormatter.DigitsValueOf | summarizer/output_formatter.py:52 | a number below 10^width is what its zero-padded field spells in decimal |
| OutputFormatter.DigitsInjective | summarizer/output_formatter.py:52 | distinct numbers below 10^width have distinct padded forms |
| OutputFormatter.Stamp | summarizer/output_formatter.py:52 | `%Y%m%d_%H%M%S` has 15 characters: digits, with `_` at position 8 |
| OutputFormatter.StampTime | summarizer/output_formatter.py:52 | definition of reading a moment back from a stamp, field by field |
| OutputFormatter.StampRoundTrip | summarizer/output_formatter.py:52 | each field of the stamp spells its component of the moment: `StampTime` inverts `Stamp` |
| OutputFormatter.StampInjective | summarizer/output_formatter.py:52 | two moments give the same stamp only when they agree to the second |
| OutputFormatter.SummaryFileName | summarizer/output_formatter.py:53 | definition of the file name `summary_<stamp>.json` |
| OutputFormatter.PathJoin | summarizer/output_formatter.py:54 | definition of POSIX `os.path.join(a, b)`: an absolute `b` wins; otherwise `/` is inserted unless `a` is empty or ends in `/` |
| OutputFormatter.SummaryPath | summarizer/output_formatter.py:52-54 | the path starts with the output directory and ends with `.json` |
| OutputFormatter.SummaryPathShape | summarizer/output_formatter.py:53-54 | the path is the directory, then a `/` unless the directory is empty or already ends in one, then `summary_<stamp>.json`, a 28-character name without `/` |
| OutputFormatter.SummaryPathInjective | summarizer/output_formatter.py:52-54 | saves in different seconds go to different files |
| Pipeline.Strings | main.py:84-85 | the parsed lists, as JSON values, are the same strings in the same order |
| Pipeline.RecordToDict | main.py:84-85 | the parser's dictionary has exactly the three required keys and always passes `validate_summary` |
| Pipeline.StringsOf | main.py:84-85 | the read-back partner of `Strings`: a list of values reads back as strings exactly when every element is a string, and it reads back to the same list |
| Pipeline.DictRoundTrip | main.py:84-85 | a record survives the trip through its dictionary, and a dictionary that reads back as a record agrees with that record's dictionary on the three fields |
| Pipeline.StringsInjective | main.py:84-85 | distinct string lists give distinct JSON lists |
| Pipeline.ParsedRecordValid | main.py:84-85 | for every model answer, the parsed record passes validation, so the check in `main.py` never fails, and the dictionary reads back as the same record |
| WorkedCases.NoHeaderWord | summarizer/prompt_builder.py:83-91 | a line without 要, 結, 行 or `:` is not a header |
| WorkedCases.ConclusionWord | summarizer/prompt_builder.py:86-88 | a line holding 結論 anywhere, whose lower-cased form holds no summary word, switches to the conclusion section |
| WorkedCases.ConclusionBesideOthers | summarizer/prompt_builder.py:86-88 | `重要結論`, `結論: ok` and `AI 結論` are conclusion headers: 要, a colon or capitals next to 結論 do not stop the match |
| WorkedCases.HeaderAnywhere | summarizer/prompt_builder.py:83-91 | header words match anywhere in a line, e.g. 本次會議結論如下 is a conclusion header; 摘要要點：, 結論： and 行動項目： name their sections |
| WorkedCases.HeaderPriority | summarizer/prompt_builder.py:83-88 | summary words are checked first: `Summary: 結論` is a summary header |
| WorkedCases.NoisyHeader | summarizer/prompt_builder.py:83-95 | the header test runs before the noise test: `IMPORTANT 結論` starts with a noise prefix and still switches to the conclusion section |
| WorkedCases.StepNumbered | summarizer/prompt_builder.py:98-106 | a line `n. text` is stored as `text` in the summary and action sections when n is 1, 2 or 3, one space follows the dot, `text` does not start with a character of `*•-123. `, and the line has no 要, 結, 行 or `:` |
| WorkedCases.StepConclusion | summarizer/prompt_builder.py:101-103 | the first plain line in the conclusion section becomes the conclusion |
| WorkedCases.SampleParse | tests/test_prompt_builder.py:31-59 | the test's sample answer parses to two points, the conclusion line and two action items, with the numbering removed |
| WorkedCases.PromptOpening | tests/test_prompt_builder.py:16-29 | every prompt contains the assistant's role sentence |
| WorkedCases.EmptyParse | tests/test_prompt_builder.py:61-66 | the empty answer gives empty fields |
| WorkedCases.MissingSectionsParse | tests/test_prompt_builder.py:68-76 | an answer with a summary section only gives one point; the same point is also the conclusion, by the fallback at summarizer/prompt_builder.py:109-110 |
| WorkedCases.SampleSummaryValid | tests/test_output_formatter.py:62-64 | the formatter test's summary is what the parser makes of the parser test's answer, and it is valid |
| WorkedCases.MissingFieldRejected | tests/test_output_formatter.py:66-73 | a summary without `action_items` is invalid |
| WorkedCases.WrongTypesRejected | tests/test_output_formatter.py:75-82 | a summary whose fields have the wrong kinds is invalid |
| WorkedCases.DigitsExamples | summarizer/output_formatter.py:52 | `%m` writes month 7 as `07`, and `%Y` writes 2026 as `2026` |

## Left out

- Files and the environment. The model leaves out:
  - `os.makedirs` and reading `OUTPUT_DIR` (output_formatter.py:16-18); the output directory is a parameter.
  - Opening the file and `json.dump` (output_formatter.py:57-58).
  - The logging calls.
- The JSON file's contents (tests/test_output_formatter.py:57-60) are left out with the file I/O. `FormatRoundTrip` states the matching property on values.
- The clock. `datetime.now()` is a parameter:
  - an ISO string for `format_summary`;
  - a `DateTime` for the file name.

  The format of `isoformat()` is not modelled.
- OutputFormatter.Stamp: requires a year from 1000 to 9999. Python's `%Y` does not pad years below 1000 on every platform, and `datetime.now()` does not return such years.
- Exceptions. The `try`/`except` blocks only log and re-raise. Nothing in the modelled code raises on a `str` input, so the model has no error path.
- Text.Lower: maps only `A`-`Z`, one character to one. Python's `lower()` also folds non-ASCII letters, and can lengthen a text: `İ` (U+0130) becomes `i` followed by U+0307. Header detection is still unaffected, for these reasons:
  - The header words are ASCII or CJK. Only two non-ASCII characters fold to something containing an ASCII letter: `İ` gives `i` plus U+0307, and KELVIN SIGN gives `k`.
  - No header word contains `k`.
  - In `conclusion:` and `action items:` every `i` is followed by `o` or `t`, never by U+0307, so an `i` that comes from `İ` cannot be part of a match.
  - The folded text is only tested for header words and is never stored.
- PromptBuilder.FinishConclusion: the fallback is stated on the scan (`Run`/`Finish`), not restated on `Parse`. `ParseLlmResponse` is proved equal to `Parse`, which is `Finish` of `Run`.
- tests/test_prompt_builder.py:68-76 expects an empty conclusion for an answer with only a summary section. The code at prompt_builder.py:109-110 copies the last point into the conclusion. The model follows the code; `WorkedCases.MissingSectionsParse` states the result.
- `lstrip("*•-123. ")` also eats leading digits 1-3 and dots of the item text itself, e.g. `1. 2024 plan` becomes `024 plan`. The model keeps this behaviour as written.
- OutputFormatter.PathJoin: follows POSIX `posixpath.join` only. On Windows, `ntpath.join` also treats `\` and drive letters as separators and roots; this is not modelled.
- Python dictionary key order, which decides the order of keys in the saved JSON, is not modelled: objects are maps.
- The other parts of the repository are not part of this model:
  - the LLM wrapper (`summarizer/local_llm.py`);
  - the HTML extractor (`summarizer/html_extractor.py`);
  - the HTTP server (`api_server.py`);
  - the command-line front end, apart from the parse-then-validate step at main.py:84-85.
