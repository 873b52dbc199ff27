/**
 * The output formatter of the summarizer (summarizer/output_formatter.py):
 *
 *  - `ValidateSummary` checks the shape of a summary dictionary before it is
 *    saved: the three fields are present with the right JSON kinds.
 *  - `FormatSummary` wraps a summary in an object with a metadata block.
 *  - `SummaryPath` is where `save_summary` writes a summary: the output
 *    directory joined with a file name made from the current time.
 *
 * Python dictionaries and values are modelled by the JSON value type `Value`.
 */
module OutputFormatter {
  import opened Wrappers

  /** A JSON-compatible Python value: a string, a list, a dictionary with
      string keys, or anything else (number, boolean, None). */
  datatype Value = Str(s: string) | List(items: seq<Value>) | Object(fields: map<string, Value>) | Other

  datatype Kind = StrKind | ListKind | ObjectKind | OtherKind

  /** The Python type `isinstance` sees. */
  function KindOf(v: Value): Kind {
    match v
    case Str(_) => StrKind
    case List(_) => ListKind
    case Object(_) => ObjectKind
    case Other => OtherKind
  }

  // ===========================================================================
  // validate_summary
  // ===========================================================================

  /** The required fields, and the kind each must have. */
  const RequiredFields: seq<string> := ["summary", "conclusion", "action_items"]
  const RequiredKinds: seq<Kind> := [ListKind, StrKind, ListKind]

  /** Field `i` of the required fields is present with its required kind. */
  predicate FieldOk(summary: map<string, Value>, i: int)
    requires 0 <= i < |RequiredFields|
  {
    RequiredFields[i] in summary && KindOf(summary[RequiredFields[i]]) == RequiredKinds[i]
  }

  /** A summary is valid exactly when every required field is present with its
      required kind. The checks run in the source's order: all fields present,
      then the kinds of "summary", "conclusion" and "action_items". */
  function ValidateSummary(summary: map<string, Value>): (ok: bool)
    ensures ok <==> forall i :: 0 <= i < |RequiredFields| ==> FieldOk(summary, i)
    ensures (exists f :: f in RequiredFields && f !in summary) ==> !ok
  {
    if !("summary" in summary && "conclusion" in summary && "action_items" in summary) then
      assert !FieldOk(summary, 0) || !FieldOk(summary, 1) || !FieldOk(summary, 2);
      false
    else if !summary["summary"].List? then
      assert !FieldOk(summary, 0);
      false
    else if !summary["conclusion"].Str? then
      assert !FieldOk(summary, 1);
      false
    else if !summary["action_items"].List? then
      assert !FieldOk(summary, 2);
      false
    else
      true
  }

  /** The verdict depends only on which required fields are present and on
      their kinds: other keys and the contents of the lists are not looked at. */
  lemma SameKindsSameVerdict(a: map<string, Value>, b: map<string, Value>)
    requires forall f :: f in RequiredFields ==> (f in a <==> f in b)
    requires forall f :: f in RequiredFields && f in a && f in b ==> KindOf(a[f]) == KindOf(b[f])
    ensures ValidateSummary(a) == ValidateSummary(b)
  {
    forall i | 0 <= i < |RequiredFields| ensures FieldOk(a, i) == FieldOk(b, i) {
      assert RequiredFields[i] in RequiredFields;
    }
  }

  /** Adding or replacing a key that is not a required field keeps the verdict. */
  lemma ExtraKeyIgnored(summary: map<string, Value>, key: string, v: Value)
    requires key !in RequiredFields
    ensures ValidateSummary(summary[key := v]) == ValidateSummary(summary)
  {
    SameKindsSameVerdict(summary, summary[key := v]);
  }

  /** Replacing the elements of a list field keeps the verdict. */
  lemma ListContentsIgnored(summary: map<string, Value>, key: string, items: seq<Value>)
    requires key in summary && summary[key].List?
    ensures ValidateSummary(summary[key := List(items)]) == ValidateSummary(summary)
  {
    SameKindsSameVerdict(summary, summary[key := List(items)]);
  }

  // ===========================================================================
  // format_summary
  // ===========================================================================

  const FormatVersion: string := "1.0"

  /** The summary with a metadata block naming its source, its generation time
      and the format version. The time is passed in. */
  function FormatSummary(summary: map<string, Value>, url: string, generatedAt: string): (v: Value)
    ensures Lookup(v, ["metadata", "source_url"]) == Some(Str(url))
    ensures Lookup(v, ["metadata", "generated_at"]) == Some(Str(generatedAt))
    ensures Lookup(v, ["metadata", "version"]) == Some(Str(FormatVersion))
    ensures Lookup(v, ["content"]) == Some(Object(summary))
  {
    Object(map[
      "metadata" := Object(map[
        "source_url" := Str(url),
        "generated_at" := Str(generatedAt),
        "version" := Str(FormatVersion)]),
      "content" := Object(summary)])
  }

  /** The value at a path of keys through nested objects, if there is one. */
  function Lookup(v: Value, path: seq<string>): Option<Value>
    decreases |path|
  {
    if |path| == 0 then Some(v)
    else if v.Object? && path[0] in v.fields then Lookup(v.fields[path[0]], path[1..])
    else None
  }

  /** The parts a formatted summary is made of. */
  datatype Formatted = Formatted(content: map<string, Value>, sourceUrl: string, generatedAt: string)

  /** Takes a formatted summary apart; `None` for any value `FormatSummary`
      cannot produce. */
  function Unformat(v: Value): Option<Formatted> {
    if v.Object? && v.fields.Keys == {"metadata", "content"}
       && v.fields["metadata"].Object? && v.fields["content"].Object?
    then
      var meta := v.fields["metadata"].fields;
      if meta.Keys == {"source_url", "generated_at", "version"}
         && meta["source_url"].Str? && meta["generated_at"].Str?
         && meta["version"] == Str(FormatVersion)
      then Some(Formatted(v.fields["content"].fields, meta["source_url"].s, meta["generated_at"].s))
      else None
    else None
  }

  /** `Unformat` inverts `FormatSummary`: the content comes back exactly, and
      the formatted value holds nothing besides the content and the metadata. */
  lemma FormatRoundTrip(summary: map<string, Value>, url: string, generatedAt: string, v: Value)
    ensures Unformat(FormatSummary(summary, url, generatedAt)) == Some(Formatted(summary, url, generatedAt))
    ensures Unformat(v) == Some(Formatted(summary, url, generatedAt)) ==>
              v == FormatSummary(summary, url, generatedAt)
  {
    var w := FormatSummary(summary, url, generatedAt);
    assert w.fields.Keys == {"metadata", "content"};
    assert w.fields["metadata"].fields.Keys == {"source_url", "generated_at", "version"};
    if Unformat(v) == Some(Formatted(summary, url, generatedAt)) {
      var meta := v.fields["metadata"].fields;
      assert meta == w.fields["metadata"].fields;
      assert v.fields == w.fields;
    }
  }

  // ===========================================================================
  // save_summary: the file path
  // ===========================================================================

  /** A moment as `datetime.now()` gives it. */
  datatype DateTime = DateTime(year: int, month: int, day: int, hour: int, minute: int, second: int)

  /** The range of each component of a `datetime` with a four-digit year. */
  predicate ValidDateTime(t: DateTime) {
    && 1000 <= t.year <= 9999
    && 1 <= t.month <= 12
    && 1 <= t.day <= 31
    && 0 <= t.hour <= 23
    && 0 <= t.minute <= 59
    && 0 <= t.second <= 59
  }

  function Pow10(n: nat): nat {
    if n == 0 then 1 else 10 * Pow10(n - 1)
  }

  predicate IsDigit(c: char) {
    '0' <= c <= '9'
  }

  /** The last `width` decimal digits of `n`, padded with leading zeros. */
  function Digits(n: nat, width: nat): (s: string)
    ensures |s| == width
    ensures forall k :: 0 <= k < width ==> IsDigit(s[k])
  {
    if width == 0 then ""
    else Digits(n / 10, width - 1) + [('0' as int + n % 10) as char]
  }

  /** The number a string of decimal digits spells. */
  function DigitsValue(s: string): (v: int)
    ensures (forall k :: 0 <= k < |s| ==> IsDigit(s[k])) ==> 0 <= v < Pow10(|s|)
    decreases |s|
  {
    if |s| == 0 then 0
    else 10 * DigitsValue(s[..|s| - 1]) + (s[|s| - 1] as int - '0' as int)
  }

  /** A number of at most `width` digits is what its padded form spells. */
  lemma {:induction false} DigitsValueOf(n: nat, width: nat)
    requires n < Pow10(width)
    ensures DigitsValue(Digits(n, width)) == n
  {
    if width > 0 {
      DigitsValueOf(n / 10, width - 1);
      assert Digits(n, width)[..width - 1] == Digits(n / 10, width - 1);
    }
  }

  /** Distinct numbers of at most `width` digits have distinct padded forms. */
  lemma DigitsInjective(n: nat, m: nat, width: nat)
    requires n < Pow10(width) && m < Pow10(width)
    requires Digits(n, width) == Digits(m, width)
    ensures n == m
  {
    DigitsValueOf(n, width);
    DigitsValueOf(m, width);
  }

  /** `strftime("%Y%m%d_%H%M%S")`: fifteen characters, digits except for the
      underscore between the date and the time. */
  function Stamp(t: DateTime): (s: string)
    requires ValidDateTime(t)
    ensures |s| == 15 && s[8] == '_'
    ensures forall k :: 0 <= k < 15 && k != 8 ==> IsDigit(s[k])
  {
    Digits(t.year, 4) + Digits(t.month, 2) + Digits(t.day, 2) + "_"
      + Digits(t.hour, 2) + Digits(t.minute, 2) + Digits(t.second, 2)
  }

  /** Reads a moment back from a stamp, field by field. */
  function StampTime(s: string): DateTime
    requires |s| == 15
  {
    DateTime(DigitsValue(s[0..4]), DigitsValue(s[4..6]), DigitsValue(s[6..8]),
             DigitsValue(s[9..11]), DigitsValue(s[11..13]), DigitsValue(s[13..15]))
  }

  /** Each field of the stamp spells the matching component of the moment. */
  lemma StampRoundTrip(t: DateTime)
    requires ValidDateTime(t)
    ensures StampTime(Stamp(t)) == t
  {
    StampFields(t);
    assert Pow10(2) == 100 && Pow10(4) == 10000;
    DigitsValueOf(t.year, 4);
    DigitsValueOf(t.month, 2);
    DigitsValueOf(t.day, 2);
    DigitsValueOf(t.hour, 2);
    DigitsValueOf(t.minute, 2);
    DigitsValueOf(t.second, 2);
  }

  /** Where each field sits in the stamp. */
  lemma StampFields(t: DateTime)
    requires ValidDateTime(t)
    ensures Stamp(t)[0..4] == Digits(t.year, 4)
    ensures Stamp(t)[4..6] == Digits(t.month, 2)
    ensures Stamp(t)[6..8] == Digits(t.day, 2)
    ensures Stamp(t)[9..11] == Digits(t.hour, 2)
    ensures Stamp(t)[11..13] == Digits(t.minute, 2)
    ensures Stamp(t)[13..15] == Digits(t.second, 2)
  {
  }

  /** Two moments give the same stamp only when they agree to the second. */
  lemma StampInjective(t: DateTime, u: DateTime)
    requires ValidDateTime(t) && ValidDateTime(u)
    requires Stamp(t) == Stamp(u)
    ensures t == u
  {
    StampRoundTrip(t);
    StampRoundTrip(u);
  }

  const FilePrefix: string := "summary_"
  const FileSuffix: string := ".json"

  function SummaryFileName(stamp: string): string {
    FilePrefix + stamp + FileSuffix
  }

  /** `os.path.join(a, b)` on POSIX: an absolute `b` replaces `a`; otherwise a
      separator is inserted unless `a` is empty or already ends with one. */
  function PathJoin(a: string, b: string): string {
    if |b| > 0 && b[0] == '/' then b
    else if a == "" || a[|a| - 1] == '/' then a + b
    else a + "/" + b
  }

  /** The separator `PathJoin` puts between a directory and a relative name. */
  function Separator(dir: string): string {
    if dir == "" || dir[|dir| - 1] == '/' then "" else "/"
  }

  /** Where a summary saved at moment `t` goes. */
  function SummaryPath(outputDir: string, t: DateTime): (path: string)
    requires ValidDateTime(t)
    ensures outputDir <= path
    ensures |path| >= |FileSuffix| && path[|path| - |FileSuffix|..] == FileSuffix
  {
    var name := SummaryFileName(Stamp(t));
    var path := PathJoin(outputDir, name);
    assert path == outputDir + Separator(outputDir) + name;
    assert path[|path| - |FileSuffix|..] == name[|name| - |FileSuffix|..];
    path
  }

  /** The path is the output directory, a separator where one is needed, and
      the file name; the file name has no separator of its own, so it is the
      last component of the path. */
  lemma SummaryPathShape(outputDir: string, t: DateTime)
    requires ValidDateTime(t)
    ensures SummaryPath(outputDir, t) == outputDir + Separator(outputDir) + SummaryFileName(Stamp(t))
    ensures '/' !in SummaryFileName(Stamp(t))
    ensures |SummaryFileName(Stamp(t))| == 28
  {
    var s := Stamp(t);
    var name := SummaryFileName(s);
    forall k | 0 <= k < |name| ensures name[k] != '/' {
      if |FilePrefix| <= k < |FilePrefix| + 15 {
        assert name[k] == s[k - |FilePrefix|];
      }
    }
  }

  /** Summaries saved in the same directory at moments that differ by at least a
      second go to different files. */
  lemma SummaryPathInjective(outputDir: string, t: DateTime, u: DateTime)
    requires ValidDateTime(t) && ValidDateTime(u)
    requires SummaryPath(outputDir, t) == SummaryPath(outputDir, u)
    ensures t == u
  {
    SummaryPathShape(outputDir, t);
    SummaryPathShape(outputDir, u);
    var p := SummaryPath(outputDir, t);
    var n := |outputDir| + |Separator(outputDir)|;
    assert p[n..] == SummaryFileName(Stamp(t));
    assert SummaryPath(outputDir, u)[n..] == SummaryFileName(Stamp(u));
    assert Stamp(t) == SummaryFileName(Stamp(t))[8..23];
    assert Stamp(u) == SummaryFileName(Stamp(u))[8..23];
    StampInjective(t, u);
  }
}
