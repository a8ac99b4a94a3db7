/** The sample-data template offered for download, and its export as a
    two-line CSV text: a header line of column names and one line of
    example values. */
module SampleData {
  import opened JsText
  import opened JsValue

  /** A data template: the column names in order, and one example
      respondent's values by column name. */
  datatype Template = Template(columns: seq<string>, example: map<string, Value>)

  /** `SAMPLE_DATA_TEMPLATE.columns`. */
  const SampleColumns: seq<string> := [
    "응답자ID", "소속1", "소속2", "소속3", "직급", "성별", "근속년수",
    "몰입도_Q1", "몰입도_Q2", "조직정렬_Q1", "조직정렬_Q2", "커리어_Q1", "커리어_Q2",
    "협업_Q1", "협업_Q2", "커뮤니케이션_Q1", "커뮤니케이션_Q2", "리더십_Q1", "리더십_Q2",
    "직무만족도_Q1", "직무만족도_Q2", "조직문화_Q1", "조직문화_Q2",
    "중요도_몰입", "중요도_정렬", "중요도_커리어", "중요도_협업", "중요도_커뮤니케이션", "중요도_리더십"
  ]

  /** `SAMPLE_DATA_TEMPLATE.example`: one respondent's values by column. */
  const SampleExample: map<string, Value> := map[
    "응답자ID" := Str("RES_00001"), "소속1" := Str("마케팅팀"), "소속2" := Str("서울"),
    "소속3" := Str("1조"), "직급" := Str("대리"), "성별" := Str("남"), "근속년수" := Num(3.0),
    "몰입도_Q1" := Num(4.0), "몰입도_Q2" := Num(3.0), "조직정렬_Q1" := Num(5.0), "조직정렬_Q2" := Num(4.0),
    "커리어_Q1" := Num(2.0), "커리어_Q2" := Num(3.0), "협업_Q1" := Num(4.0), "협업_Q2" := Num(4.0),
    "커뮤니케이션_Q1" := Num(3.0), "커뮤니케이션_Q2" := Num(3.0), "리더십_Q1" := Num(4.0), "리더십_Q2" := Num(4.0),
    "직무만족도_Q1" := Num(4.0), "직무만족도_Q2" := Num(4.0), "조직문화_Q1" := Num(3.0), "조직문화_Q2" := Num(3.0),
    "중요도_몰입" := Num(5.0), "중요도_정렬" := Num(4.0), "중요도_커리어" := Num(4.0), "중요도_협업" := Num(5.0),
    "중요도_커뮤니케이션" := Num(3.0), "중요도_리더십" := Num(4.0)
  ]

  /** `SAMPLE_DATA_TEMPLATE`. */
  const SampleDataTemplate := Template(SampleColumns, SampleExample)

  /** `example[col] || ''`, as `join` prints it. */
  function ExampleField(example: map<string, Value>, col: string): string {
    if col in example && Truthy(example[col]) then ToText(example[col]) else ""
  }

  /** The example field of each column, in order. */
  function ExampleFields(example: map<string, Value>, cols: seq<string>): (fs: seq<string>)
    ensures |fs| == |cols|
    ensures forall i :: 0 <= i < |cols| ==> fs[i] == ExampleField(example, cols[i])
  {
    if cols == [] then [] else [ExampleField(example, cols[0])] + ExampleFields(example, cols[1..])
  }

  /** The CSV export of a template: the header line, a newline, and the
      example values read back through the columns split out of the header
      line. */
  function ExportCsv(t: Template): (csv: string)
    ensures var headers := Join(t.columns, ',');
      |csv| > |headers| && csv[..|headers|] == headers && csv[|headers|] == '\n'
  {
    var headers := Join(t.columns, ',');
    var example := ExampleFields(t.example, Split(headers, ','));
    var csv := headers + "\n" + Join(example, ',');
    assert csv[..|headers|] == headers;
    csv
  }

  /** `exportSampleDataAsCSV`: the header line of the sample columns, then
      the line of their example values. */
  function ExportSampleDataAsCsv(): (csv: string)
    ensures Split(csv, '\n') == [Join(SampleColumns, ','), ValueLine(SampleDataTemplate)]
  {
    SampleTemplatePlain();
    CsvLayout(SampleDataTemplate);
    ExportCsv(SampleDataTemplate)
  }

  /** The line of example values, one per column. */
  function ValueLine(t: Template): string {
    Join(ExampleFields(t.example, t.columns), ',')
  }

  /** A template whose export reads back cleanly: at least one column, no
      column name holding a comma or a newline, and every column with a
      truthy example value printing as a nonempty text without either. */
  ghost predicate PlainTemplate(t: Template) {
    && |t.columns| >= 1
    && (forall i :: 0 <= i < |t.columns| ==> ',' !in t.columns[i] && '\n' !in t.columns[i])
    && (forall i :: 0 <= i < |t.columns| ==> t.columns[i] in t.example)
    && (forall k | k in t.example :: PlainValue(t.example[k]))
  }

  /** Splitting the header line on commas gives the columns back. */
  lemma HeaderSplitsBack(t: Template)
    requires PlainTemplate(t)
    ensures Split(Join(t.columns, ','), ',') == t.columns
  {
    SplitJoin(t.columns, ',');
  }

  /** The value line has one nonempty field per column, each the printed
      example value of that column. */
  lemma ValueLineFields(t: Template)
    requires PlainTemplate(t)
    ensures Split(ValueLine(t), ',') == ExampleFields(t.example, t.columns)
    ensures |Split(ValueLine(t), ',')| == |t.columns|
    ensures forall i :: 0 <= i < |t.columns| ==>
      Split(ValueLine(t), ',')[i] == ToText(t.example[t.columns[i]]) != ""
  {
    SplitJoin(ExampleFields(t.example, t.columns), ',');
  }

  /** The export is exactly two lines: the header line, then the value line. */
  lemma CsvLayout(t: Template)
    requires PlainTemplate(t)
    ensures ExportCsv(t) == Join(t.columns, ',') + "\n" + ValueLine(t)
    ensures Split(ExportCsv(t), '\n') == [Join(t.columns, ','), ValueLine(t)]
  {
    HeaderSplitsBack(t);
    JoinAvoids(t.columns, ',', '\n');
    JoinAvoids(ExampleFields(t.example, t.columns), ',', '\n');
    var lines := [Join(t.columns, ','), ValueLine(t)];
    assert Join(lines, '\n') == ExportCsv(t);
    SplitJoin(lines, '\n');
  }

  /** No sample column name holds a comma or a newline. */
  lemma SampleColumnsPlain()
    ensures |SampleColumns| == 29
    ensures forall i :: 0 <= i < |SampleColumns| ==> ',' !in SampleColumns[i] && '\n' !in SampleColumns[i]
  {
  }

  /** Every sample column has an example entry. */
  lemma EveryColumnHasExample()
    ensures forall i :: 0 <= i < |SampleColumns| ==> SampleColumns[i] in SampleExample
  {
  }

  /** The distinct example values. */
  const SampleValueKinds: set<Value> := {
    Str("RES_00001"), Str("마케팅팀"), Str("서울"), Str("1조"), Str("대리"), Str("남"),
    Num(2.0), Num(3.0), Num(4.0), Num(5.0)
  }

  /** A value that the CSV line can carry unambiguously. */
  predicate PlainValue(v: Value) {
    Truthy(v) && ToText(v) != "" && ',' !in ToText(v) && '\n' !in ToText(v)
  }

  /** Every example value is one of the distinct values. */
  lemma SampleValuesAmongKinds()
    ensures forall k | k in SampleExample :: SampleExample[k] in SampleValueKinds
  {
  }

  /** Each distinct value is plain. */
  lemma SampleValueKindsPlain()
    ensures forall v | v in SampleValueKinds :: PlainValue(v)
  {
    IntegerText(2);
    IntegerText(3);
    IntegerText(4);
    IntegerText(5);
  }

  /** Every sample value is truthy and prints as a nonempty text with no
      comma and no newline. */
  lemma SampleValuesPlain()
    ensures forall k | k in SampleExample :: PlainValue(SampleExample[k])
  {
    SampleValuesAmongKinds();
    SampleValueKindsPlain();
  }

  /** The sample template has 29 columns and reads back cleanly. */
  lemma SampleTemplatePlain()
    ensures |SampleDataTemplate.columns| == 29
    ensures PlainTemplate(SampleDataTemplate)
  {
    SampleColumnsPlain();
    EveryColumnHasExample();
    SampleValuesPlain();
  }

  /** The two lines of the sample export: the header splits back into the
      29 columns and the value line into 29 nonempty example values. */
  lemma SampleExport()
    ensures Split(Join(SampleColumns, ','), ',') == SampleColumns
    ensures |Split(ValueLine(SampleDataTemplate), ',')| == 29
    ensures forall i :: 0 <= i < 29 ==>
      Split(ValueLine(SampleDataTemplate), ',')[i] == ExampleField(SampleExample, SampleColumns[i]) != ""
  {
    SampleTemplatePlain();
    ExportFacts(SampleDataTemplate);
  }

  /** The layout of the export of any plain template. */
  lemma ExportFacts(t: Template)
    requires PlainTemplate(t)
    ensures Split(ExportCsv(t), '\n') == [Join(t.columns, ','), ValueLine(t)]
    ensures Split(Join(t.columns, ','), ',') == t.columns
    ensures |Split(ValueLine(t), ',')| == |t.columns|
    ensures forall i :: 0 <= i < |t.columns| ==>
      Split(ValueLine(t), ',')[i] == ExampleField(t.example, t.columns[i]) != ""
      && Split(ValueLine(t), ',')[i] == ToText(t.example[t.columns[i]])
  {
    CsvLayout(t);
    HeaderSplitsBack(t);
    ValueLineFields(t);
  }
}
