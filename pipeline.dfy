/**
 * How the two halves meet (main.py and api_server.py): the record the parser
 * returns is handed, as a dictionary, to the validator and then to the
 * formatter.
 */
module Pipeline {
  import P = PromptBuilder
  import F = OutputFormatter
  import opened Wrappers

  function Strings(items: seq<string>): (values: seq<F.Value>)
    ensures |values| == |items|
    ensures forall k :: 0 <= k < |items| ==> values[k] == F.Str(items[k])
  {
    seq(|items|, k requires 0 <= k < |items| => F.Str(items[k]))
  }

  /** The dictionary `parse_llm_response` builds; every such dictionary passes
      `validate_summary`. */
  function RecordToDict(r: P.SummaryRecord): (d: map<string, F.Value>)
    ensures d.Keys == {"summary", "conclusion", "action_items"}
    ensures F.ValidateSummary(d)
  {
    var d := map[
      "summary" := F.List(Strings(r.summary)),
      "conclusion" := F.Str(r.conclusion),
      "action_items" := F.List(Strings(r.actionItems))];
    assert F.FieldOk(d, 0) && F.FieldOk(d, 1) && F.FieldOk(d, 2);
    d
  }

  /** The strings of a list whose elements are all strings. */
  function StringsOf(values: seq<F.Value>): (r: Option<seq<string>>)
    ensures r.Some? <==> forall k :: 0 <= k < |values| ==> values[k].Str?
    ensures r.Some? ==> Strings(r.value) == values
    decreases |values|
  {
    if |values| == 0 then Some([])
    else if !values[0].Str? then None
    else
      match StringsOf(values[1..])
      case None => None
      case Some(rest) =>
        assert Strings([values[0].s] + rest) == [values[0]] + values[1..];
        Some([values[0].s] + rest)
  }

  /** Reads a record back from a dictionary: defined on the valid dictionaries
      whose lists hold only strings. */
  function DictToRecord(d: map<string, F.Value>): Option<P.SummaryRecord> {
    if !F.ValidateSummary(d) then None
    else
      var points := StringsOf(d["summary"].items);
      var actions := StringsOf(d["action_items"].items);
      if points.Some? && actions.Some? then
        Some(P.SummaryRecord(points.value, d["conclusion"].s, actions.value))
      else None
  }

  /** `DictToRecord` inverts `RecordToDict`, and a record read back from a
      dictionary agrees with it on the three fields. */
  lemma {:induction false} DictRoundTrip(r: P.SummaryRecord, d: map<string, F.Value>)
    ensures DictToRecord(RecordToDict(r)) == Some(r)
    ensures DictToRecord(d) == Some(r) ==>
              forall f :: f in F.RequiredFields ==> f in d && d[f] == RecordToDict(r)[f]
  {
    var e := RecordToDict(r);
    assert e["summary"] == F.List(Strings(r.summary));
    assert e["action_items"] == F.List(Strings(r.actionItems));
    StringsInjective(StringsOf(Strings(r.summary)).value, r.summary);
    StringsInjective(StringsOf(Strings(r.actionItems)).value, r.actionItems);
    if DictToRecord(d) == Some(r) {
      assert F.FieldOk(d, 0) && F.FieldOk(d, 1) && F.FieldOk(d, 2);
    }
  }

  lemma StringsInjective(a: seq<string>, b: seq<string>)
    requires Strings(a) == Strings(b)
    ensures a == b
  {
    assert |a| == |b|;
    forall k | 0 <= k < |a| ensures a[k] == b[k] {
      assert Strings(a)[k] == Strings(b)[k];
    }
  }

  /** The check after parsing never fails: whatever text the model returns,
      the parsed record passes validation. */
  lemma ParsedRecordValid(response: string)
    ensures F.ValidateSummary(RecordToDict(P.Parse(response)))
    ensures DictToRecord(RecordToDict(P.Parse(response))) == Some(P.Parse(response))
  {
    DictRoundTrip(P.Parse(response), RecordToDict(P.Parse(response)));
  }
}
