/** Rendering computed metrics as JSON, HTML or CSV. The clock, `isoformat`
    and the fixed-point number formatting are parameters; the JSON text
    encoding and the HTML template are not modelled. */
module ReportGenerator {
  import opened Wrappers
  import opened PyValues

  // =====================================================================
  // Serialisable values

  /** A value with no datetime in it outside a tuple. */
  predicate Serializable(v: Value)
    decreases v
  {
    match v
    case VTime(_) => false
    case VList(items) => forall i :: 0 <= i < |items| ==> Serializable(items[i])
    case VDict(entries) => forall k :: k in entries ==> Serializable(entries[k])
    case _ => true
  }

  /** `_make_serializable`: datetimes become their `isoformat` text, dictionaries
      and lists are rebuilt element by element, and every other value, tuples
      included, is returned as it is. */
  function MakeSerializable(v: Value, isoformat: Time -> string): (r: Value)
    ensures v.VTime? ==> r == VStr(isoformat(v.t))
    ensures v.VDict? ==> r.VDict? && r.entries.Keys == v.entries.Keys
    ensures v.VList? ==> r.VList? && |r.items| == |v.items|
    ensures !v.VTime? && !v.VDict? && !v.VList? ==> r == v
    decreases v
  {
    match v
    case VTime(t) => VStr(isoformat(t))
    case VDict(entries) =>
      VDict(map k | k in entries :: var value := entries[k]; assert value in entries.Values; MakeSerializable(value, isoformat))
    case VList(items) => VList(seq(|items|, i requires 0 <= i < |items| => MakeSerializable(items[i], isoformat)))
    case _ => v
  }

  /** The result never holds a datetime outside a tuple. */
  lemma {:induction false} MakeSerializableRemovesTimes(v: Value, isoformat: Time -> string)
    ensures Serializable(MakeSerializable(v, isoformat))
    decreases v
  {
    match v
    case VDict(entries) =>
      forall k | k in entries
        ensures Serializable(MakeSerializable(v, isoformat).entries[k])
      {
        var value := entries[k];
        assert value in entries.Values;
        MakeSerializableRemovesTimes(value, isoformat);
      }
    case VList(items) =>
      forall i | 0 <= i < |items|
        ensures Serializable(MakeSerializable(v, isoformat).items[i])
      {
        MakeSerializableRemovesTimes(items[i], isoformat);
      }
    case _ =>
  }

  /** A value that is already serialisable is returned unchanged. */
  lemma {:induction false} MakeSerializableFixes(v: Value, isoformat: Time -> string)
    requires Serializable(v)
    ensures MakeSerializable(v, isoformat) == v
    decreases v
  {
    match v
    case VDict(entries) =>
      forall k | k in entries
        ensures MakeSerializable(v, isoformat).entries[k] == entries[k]
      {
        var value := entries[k];
        assert value in entries.Values;
        MakeSerializableFixes(value, isoformat);
      }
    case VList(items) =>
      forall i | 0 <= i < |items|
        ensures MakeSerializable(v, isoformat).items[i] == items[i]
      {
        MakeSerializableFixes(items[i], isoformat);
      }
    case _ =>
  }

  /** Serialising twice is serialising once. */
  lemma MakeSerializableIdempotent(v: Value, isoformat: Time -> string)
    ensures MakeSerializable(MakeSerializable(v, isoformat), isoformat) == MakeSerializable(v, isoformat)
  {
    MakeSerializableRemovesTimes(v, isoformat);
    MakeSerializableFixes(MakeSerializable(v, isoformat), isoformat);
  }

  // =====================================================================
  // JSON

  /** The document `_generate_json_report` hands to `json.dumps`. */
  function JsonDocument(metrics: Dict, generatedAt: string, isoformat: Time -> string): (doc: Value)
    ensures Serializable(doc)
  {
    MakeSerializableRemovesTimes(VDict(metrics), isoformat);
    VDict(map[
      "report_metadata" := VDict(map[
        "generated_at" := VStr(generatedAt),
        "report_type" := VStr("DORA Metrics Report"),
        "version" := VStr("1.0")]),
      "metrics" := MakeSerializable(VDict(metrics), isoformat)])
  }

  // =====================================================================
  // CSV

  const CsvHeader := "Metric,Value,Unit,Timestamp"

  /** The two characters backslash and n, which `"\\n".join` puts between lines. */
  const CsvSeparator := "\\n"

  /** A CSV row: its name, the metric key, the decimals it is printed with, and its unit. */
  datatype Row = Row(name: string, key: string, decimals: nat, unit: string)

  const CsvRows: seq<Row> := [
    Row("Deployment Frequency", "deployment_frequency", 2, "deployments/day"),
    Row("Lead Time for Changes", "lead_time_for_changes", 1, "hours"),
    Row("Change Failure Rate", "change_failure_rate", 1, "percentage"),
    Row("Time to Restore Service", "time_to_restore_service", 1, "hours")]

  /** The line for one metric; a missing metric is printed as 0. */
  function CsvLine(metrics: Dict, row: Row, fixed: (Value, nat) -> string, timestamp: string): string {
    row.name + "," + fixed(GetOr(metrics, row.key, VInt(0)), row.decimals) + "," + row.unit + "," + timestamp
  }

  /** The header, then one line per metric in the fixed order. */
  function CsvLines(metrics: Dict, fixed: (Value, nat) -> string, timestamp: string): (lines: seq<string>)
    ensures |lines| == 5 && lines[0] == CsvHeader
    ensures forall k :: 0 <= k < 4 ==> lines[k + 1] == CsvLine(metrics, CsvRows[k], fixed, timestamp)
  {
    [CsvHeader] + seq(4, k requires 0 <= k < 4 => CsvLine(metrics, CsvRows[k], fixed, timestamp))
  }

  /** `_generate_csv_report`: the lines are appended one by one and joined. */
  method GenerateCsvReport(metrics: Dict, fixed: (Value, nat) -> string, timestamp: string) returns (report: string)
    ensures report == Join(CsvLines(metrics, fixed, timestamp), CsvSeparator)
  {
    var csvLines := [CsvHeader];
    csvLines := csvLines + [CsvLine(metrics, CsvRows[0], fixed, timestamp)];
    csvLines := csvLines + [CsvLine(metrics, CsvRows[1], fixed, timestamp)];
    csvLines := csvLines + [CsvLine(metrics, CsvRows[2], fixed, timestamp)];
    csvLines := csvLines + [CsvLine(metrics, CsvRows[3], fixed, timestamp)];
    assert csvLines == CsvLines(metrics, fixed, timestamp);
    report := Join(csvLines, CsvSeparator);
  }

  /** The report opens with the header and the separator. */
  lemma CsvStartsWithHeader(metrics: Dict, fixed: (Value, nat) -> string, timestamp: string)
    ensures StartsWith(Join(CsvLines(metrics, fixed, timestamp), CsvSeparator), CsvHeader + CsvSeparator)
  {
    var lines := CsvLines(metrics, fixed, timestamp);
    var rest := Join(lines[1..], CsvSeparator);
    assert Join(lines, CsvSeparator) == CsvHeader + CsvSeparator + rest;
    assert (CsvHeader + CsvSeparator + rest)[..|CsvHeader + CsvSeparator|] == CsvHeader + CsvSeparator;
  }

  lemma AvoidsConcat(a: string, b: string, cs: set<char>)
    requires Avoids(a, cs) && Avoids(b, cs)
    ensures Avoids(a + b, cs)
  {
    assert forall i :: 0 <= i < |a + b| ==> (a + b)[i] == if i < |a| then a[i] else b[i - |a|];
  }

  lemma LiteralHasNoNewline(s: string)
    requires s in {CsvHeader, ",", CsvSeparator, "deployments/day", "hours", "percentage"}
    ensures Avoids(s, {'\n'})
  {
  }

  lemma NameHasNoNewline(s: string)
    requires s in {"Deployment Frequency", "Lead Time for Changes", "Change Failure Rate", "Time to Restore Service"}
    ensures Avoids(s, {'\n'})
  {
  }

  /** The fixed text of the report holds no newline. */
  lemma FixedTextHasNoNewline()
    ensures Avoids(CsvHeader, {'\n'}) && Avoids(",", {'\n'}) && Avoids(CsvSeparator, {'\n'})
    ensures forall k :: 0 <= k < 4 ==> Avoids(CsvRows[k].name, {'\n'}) && Avoids(CsvRows[k].unit, {'\n'})
  {
    LiteralHasNoNewline(CsvHeader);
    LiteralHasNoNewline(",");
    LiteralHasNoNewline(CsvSeparator);
    forall k | 0 <= k < 4
      ensures Avoids(CsvRows[k].name, {'\n'}) && Avoids(CsvRows[k].unit, {'\n'})
    {
      NameHasNoNewline(CsvRows[k].name);
      LiteralHasNoNewline(CsvRows[k].unit);
    }
  }

  lemma CsvLineAvoids(metrics: Dict, row: Row, fixed: (Value, nat) -> string, timestamp: string)
    requires Avoids(row.name, {'\n'}) && Avoids(row.unit, {'\n'}) && Avoids(",", {'\n'}) && Avoids(timestamp, {'\n'})
    requires Avoids(fixed(GetOr(metrics, row.key, VInt(0)), row.decimals), {'\n'})
    ensures Avoids(CsvLine(metrics, row, fixed, timestamp), {'\n'})
  {
    var value := fixed(GetOr(metrics, row.key, VInt(0)), row.decimals);
    AvoidsConcat(row.name, ",", {'\n'});
    AvoidsConcat(row.name + ",", value, {'\n'});
    AvoidsConcat(row.name + "," + value, ",", {'\n'});
    AvoidsConcat(row.name + "," + value + ",", row.unit, {'\n'});
    AvoidsConcat(row.name + "," + value + "," + row.unit, ",", {'\n'});
    AvoidsConcat(row.name + "," + value + "," + row.unit + ",", timestamp, {'\n'});
  }

  /** With no newline in the formatted numbers or the timestamp, the whole
      report is a single physical line: the lines are separated by the two
      characters backslash and n. */
  lemma CsvIsOneLine(metrics: Dict, fixed: (Value, nat) -> string, timestamp: string)
    requires Avoids(timestamp, {'\n'})
    requires forall k :: 0 <= k < 4 ==> Avoids(fixed(GetOr(metrics, CsvRows[k].key, VInt(0)), CsvRows[k].decimals), {'\n'})
    ensures Avoids(Join(CsvLines(metrics, fixed, timestamp), CsvSeparator), {'\n'})
  {
    var lines := CsvLines(metrics, fixed, timestamp);
    FixedTextHasNoNewline();
    forall k | 0 <= k < |lines|
      ensures Avoids(lines[k], {'\n'})
    {
      if k > 0 {
        CsvLineAvoids(metrics, CsvRows[k - 1], fixed, timestamp);
        assert lines[(k - 1) + 1] == lines[k];
      }
    }
    JoinAvoids(lines, CsvSeparator, {'\n'});
  }

  // =====================================================================
  // Dispatch

  /** The rendered report: the JSON document before encoding, the metrics the
      HTML template is filled with, or the CSV text. */
  datatype Rendered = Json(document: Value) | Html(metrics: Dict) | Csv(text: string)

  datatype ReportError = UnsupportedFormat(format: string)

  /** The report a format selects once lowercased, or None for any other format. */
  function Render(metrics: Dict, format: string, now: string, isoformat: Time -> string,
                  fixed: (Value, nat) -> string): (r: Option<Rendered>)
    ensures r.None? <==> Lower(format) !in {"json", "html", "csv"}
  {
    var f := Lower(format);
    if f == "json" then Some(Json(JsonDocument(metrics, now, isoformat)))
    else if f == "html" then Some(Html(metrics))
    else if f == "csv" then Some(Csv(Join(CsvLines(metrics, fixed, now), CsvSeparator)))
    else None
  }

  /** `generate_report`: the format is compared lowercased; anything other than
      json, html or csv raises. */
  method GenerateReport(metrics: Dict, outputFormat: string, now: string, isoformat: Time -> string,
                        fixed: (Value, nat) -> string)
    returns (r: Result<Rendered, ReportError>)
    ensures Lower(outputFormat) == "json" ==> r == Ok(Json(JsonDocument(metrics, now, isoformat)))
    ensures Lower(outputFormat) == "html" ==> r == Ok(Html(metrics))
    ensures Lower(outputFormat) == "csv" ==> r == Ok(Csv(Join(CsvLines(metrics, fixed, now), CsvSeparator)))
    ensures r.Err? <==> Lower(outputFormat) !in {"json", "html", "csv"}
    ensures r.Err? ==> r.error == UnsupportedFormat(outputFormat)
    ensures r.Ok? ==> Render(metrics, outputFormat, now, isoformat, fixed) == Some(r.value)
  {
    var format := Lower(outputFormat);
    if format == "json" {
      return Ok(Json(JsonDocument(metrics, now, isoformat)));
    } else if format == "html" {
      return Ok(Html(metrics));
    } else if format == "csv" {
      var report := GenerateCsvReport(metrics, fixed, now);
      return Ok(Csv(report));
    } else {
      return Err(UnsupportedFormat(outputFormat));
    }
  }

  /** The format is case-insensitive: any two spellings that lowercase alike
      select the same report, and lowercasing a format first selects the same
      report as the format itself. */
  lemma FormatCaseInsensitive(metrics: Dict, format: string, other: string, now: string,
                              isoformat: Time -> string, fixed: (Value, nat) -> string)
    requires Lower(format) == Lower(other)
    ensures Render(metrics, format, now, isoformat, fixed) == Render(metrics, other, now, isoformat, fixed)
    ensures Render(metrics, Lower(format), now, isoformat, fixed) == Render(metrics, format, now, isoformat, fixed)
  {
    LowerIdempotent(format);
  }
}
