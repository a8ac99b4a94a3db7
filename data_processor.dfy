/** The dashboard's data pipeline: turning the first sheet of a workbook into
    survey records, the response rate, the completeness filter, the category
    and organisation aggregates, the importance/satisfaction quadrant, the
    organisation filter and the validation of a data set. */
module DataProcessor {
  import opened JsText
  import opened JsValue
  import opened Collections
  import opened SurveyTypes

  // ------------------------------------------------------------ parsing

  /** A sheet decoded with one array per row, the first row being the header. */
  type Grid = seq<seq<Value>>

  datatype ParseResult = Parsed(records: seq<Record>) | ParseFailed(message: string)

  /** Every parse error reaches the caller behind this prefix. */
  const ParseFailurePrefix := "파일 파싱 실패: "
  const NoSheetMessage := "엑셀 파일에 시트가 없습니다."
  const NoDataMessage := "엑셀 파일에 데이터가 없습니다."
  const NoValidRowMessage := "유효한 데이터 행이 없습니다."

  /** Column names: each header cell printed as text and trimmed. */
  function HeaderNames(headerRow: seq<Value>): seq<string>
  {
    seq(|headerRow|, i requires 0 <= i < |headerRow| => Trim(ToText(headerRow[i])))
  }

  predicate IsBlankCell(v: Value) {
    v == Str("") || v == Null
  }

  /** A data row is kept when some cell is neither '' nor null. */
  predicate HasContent(row: seq<Value>) {
    exists i :: 0 <= i < |row| && !IsBlankCell(row[i])
  }

  /** `row[idx] ?? ''`: a missing or null cell becomes ''. */
  function CellOrBlank(row: seq<Value>, idx: nat): Value {
    if idx < |row| && row[idx] != Null then row[idx] else Str("")
  }

  /** The record of one data row: the header's columns assigned in order. */
  function RecordOfRow(header: seq<string>, row: seq<Value>): (r: Record)
    ensures forall k :: k in r.fields <==> k in header
    ensures |r.keys| <= |header|
  {
    if header == [] then EmptyRecord
    else
      assert header == header[..|header| - 1] + [header[|header| - 1]];
      Assign(RecordOfRow(header[..|header| - 1], row), header[|header| - 1], CellOrBlank(row, |header| - 1))
  }

  /** The records of a sheet, or the error the upload reports. */
  function ParseGrid(grid: Grid): (r: ParseResult)
    ensures |grid| < 2 ==> r == ParseFailed(ParseFailurePrefix + NoDataMessage)
    ensures r.ParseFailed? ==>
      r.message == ParseFailurePrefix + NoDataMessage || r.message == ParseFailurePrefix + NoValidRowMessage
    ensures r.Parsed? ==> 1 <= |r.records| < |grid|
  {
    if |grid| < 2 then ParseFailed(ParseFailurePrefix + NoDataMessage)
    else
      var header := HeaderNames(grid[0]);
      var rows := Filter(grid[1..], HasContent);
      if rows == [] then ParseFailed(ParseFailurePrefix + NoValidRowMessage)
      else Parsed(seq(|rows|, i requires 0 <= i < |rows| => RecordOfRow(header, rows[i])))
  }

  /** Only the first sheet of a workbook is read. */
  function ParseWorkbook(sheets: seq<Grid>): (r: ParseResult)
    ensures sheets == [] ==> r == ParseFailed(ParseFailurePrefix + NoSheetMessage)
    ensures sheets != [] && |sheets[0]| >= 2 ==> r.Parsed? || r.message == ParseFailurePrefix + NoValidRowMessage
  {
    if sheets == [] then ParseFailed(ParseFailurePrefix + NoSheetMessage) else ParseGrid(sheets[0])
  }

  /** `h[j]` is the last column carrying its name. */
  ghost predicate IsLastOccurrence(h: seq<string>, j: int) {
    0 <= j < |h| && forall k :: j < k < |h| ==> h[k] != h[j]
  }

  /** A row's record has each distinct column name once, in order of first
      appearance, and a repeated column takes the value of its last cell. */
  lemma {:induction false} RecordOfRowShape(header: seq<string>, row: seq<Value>)
    ensures WellFormed(RecordOfRow(header, row))
    ensures RecordOfRow(header, row).keys == Distinct(header)
    ensures forall j :: 0 <= j < |header| ==> header[j] in RecordOfRow(header, row).fields
    ensures forall j :: IsLastOccurrence(header, j) ==> RecordOfRow(header, row).fields[header[j]] == CellOrBlank(row, j)
  {
    if header != [] {
      var h', k := header[..|header| - 1], header[|header| - 1];
      RecordOfRowShape(h', row);
      DistinctProperties(h');
      forall j | 0 <= j < |header|
        ensures header[j] in RecordOfRow(header, row).fields
      {
        if j < |header| - 1 {
          assert header[j] == h'[j];
        }
      }
      forall j | IsLastOccurrence(header, j)
        ensures RecordOfRow(header, row).fields[header[j]] == CellOrBlank(row, j)
      {
        if j < |header| - 1 {
          assert header[j] != k;
          assert IsLastOccurrence(h', j);
        }
      }
    }
  }

  /** A sheet fails exactly when it has no data row or every data row is
      blank, and the message names which. */
  lemma ParseGridOutcome(grid: Grid)
    ensures ParseGrid(grid).ParseFailed? <==> |grid| < 2 || forall j :: 1 <= j < |grid| ==> !HasContent(grid[j])
    ensures ParseGrid(grid).ParseFailed? ==>
      ParseGrid(grid).message == ParseFailurePrefix + (if |grid| < 2 then NoDataMessage else NoValidRowMessage)
  {
    if |grid| >= 2 {
      var s := grid[1..];
      FilterSelects(s, HasContent);
      var idx := FilterIndices(s, HasContent);
      if exists j :: 1 <= j < |grid| && HasContent(grid[j]) {
        var j :| 1 <= j < |grid| && HasContent(grid[j]);
        assert s[j - 1] == grid[j];
        assert j - 1 in idx;
      }
      if idx != [] {
        assert idx[0] in idx;
        assert HasContent(grid[1 + idx[0]]);
      }
    }
  }

  /** The records are the non-blank data rows, in sheet order, each read
      against the header. */
  lemma ParsedRows(grid: Grid)
    requires ParseGrid(grid).Parsed?
    ensures |grid| >= 2
    ensures var recs := ParseGrid(grid).records;
      var idx := FilterIndices(grid[1..], HasContent);
      && |recs| == |idx|
      && (forall i :: 0 <= i < |idx| ==> 1 + idx[i] < |grid| && recs[i] == RecordOfRow(HeaderNames(grid[0]), grid[1 + idx[i]]))
      && (forall i, j :: 0 <= i < j < |idx| ==> idx[i] < idx[j])
      && (forall j :: 1 <= j < |grid| ==> (j - 1 in idx <==> HasContent(grid[j])))
  {
    var s := grid[1..];
    FilterSelects(s, HasContent);
    forall j | 1 <= j < |grid|
      ensures s[j - 1] == grid[j]
    {
    }
  }

  /** Blank rows between data rows are dropped, header names are trimmed,
      and an absent trailing cell becomes ''. With header cells ` a ` and
      `b` over a blank row and a row holding only `v`: */
  lemma BlankRowsDropped(a: char, b: char, v: Value)
    requires !IsWhitespace(a) && !IsWhitespace(b) && a != b
    requires !IsBlankCell(v)
    ensures ParseGrid([[Str([' ', a, ' ']), Str([b])], [Str(""), Null], [v]])
      == Parsed([Record([[a], [b]], map[[a] := v, [b] := Str("")])])
  {
    var grid := [[Str([' ', a, ' ']), Str([b])], [Str(""), Null], [v]];
    KeptRowsOfExample(grid, v);
    HeaderOfExample(a, b);
    ParseGridOfOneRow(grid, [[a], [b]], [v]);
    RecordOfExample([a], [b], v);
  }

  /** A sheet with exactly one non-blank data row gives that row's record. */
  lemma ParseGridOfOneRow(grid: Grid, header: seq<string>, row: seq<Value>)
    requires |grid| >= 2 && HeaderNames(grid[0]) == header
    requires Filter(grid[1..], HasContent) == [row]
    ensures ParseGrid(grid) == Parsed([RecordOfRow(header, row)])
  {
    var rows := Filter(grid[1..], HasContent);
    var recs := seq(|rows|, i requires 0 <= i < |rows| => RecordOfRow(header, rows[i]));
    assert recs == [RecordOfRow(header, row)];
  }

  lemma KeptRowsOfExample(grid: Grid, v: Value)
    requires |grid| == 3 && grid[1] == [Str(""), Null] && grid[2] == [v]
    requires !IsBlankCell(v)
    ensures Filter(grid[1..], HasContent) == [[v]]
  {
    assert !HasContent(grid[1]);
    assert HasContent(grid[2]) by {
      assert !IsBlankCell(grid[2][0]);
    }
    assert grid[1..][..1] == [grid[1]];
    assert grid[1..][..0] == [];
  }

  lemma HeaderOfExample(a: char, b: char)
    requires !IsWhitespace(a) && !IsWhitespace(b)
    ensures HeaderNames([Str([' ', a, ' ']), Str([b])]) == [[a], [b]]
  {
    var h := HeaderNames([Str([' ', a, ' ']), Str([b])]);
    assert h[0] == Trim([' ', a, ' ']) && h[1] == Trim([b]);
    TrimOfPadded(a);
    TrimOfUnpadded([b]);
  }

  lemma TrimOfPadded(c: char)
    requires !IsWhitespace(c)
    ensures Trim([' ', c, ' ']) == [c]
  {
    assert [' ', c, ' '][1..] == [c, ' '];
    assert TrimStart([' ', c, ' ']) == [c, ' '];
    assert [c, ' '][..1] == [c];
  }

  lemma RecordOfExample(x: string, y: string, v: Value)
    requires x != y && v != Null
    ensures RecordOfRow([x, y], [v]) == Record([x, y], map[x := v, y := Str("")])
  {
    assert [x, y][..1] == [x];
    assert [x][..0] == [];
    assert RecordOfRow([x], [v]) == Record([x], map[x := v]);
  }

  // ------------------------------------------------------ response rate

  /** The invitation count used when none is given. */
  const DefaultInvited := 100.0

  /** `Math.round(records.length / totalInvited * 100)`; a zero invitation
      count gives NaN or Infinity, written `None`. */
  function CalculateResponseRate(records: seq<Record>, totalInvited: real): (rate: Option<int>)
    ensures rate.None? <==> totalInvited == 0.0
    ensures totalInvited > 0.0 ==> rate.Some? && rate.value >= 0
    ensures 0.0 < totalInvited && |records| as real <= totalInvited ==> rate.Some? && rate.value <= 100
    ensures rate.Some? ==>
      rate.value as real - 0.5 <= |records| as real / totalInvited * 100.0 < rate.value as real + 0.5
  {
    if totalInvited == 0.0 then None
    else
      var share := |records| as real / totalInvited;
      assert totalInvited > 0.0 ==> share >= 0.0;
      assert 0.0 < totalInvited && |records| as real <= totalInvited ==> share <= 1.0;
      Some(Round(share * 100.0))
  }

  /** With the default of 100 invitations the rate is the number of records. */
  lemma ResponseRateByDefault(records: seq<Record>)
    ensures CalculateResponseRate(records, DefaultInvited) == Some(|records|)
  {
    var n := |records|;
    assert n as real / 100.0 * 100.0 == n as real;
    assert (n as real + 0.5).Floor == n;
  }

  /** More responses never lower the rate. */
  lemma ResponseRateMonotone(fewer: seq<Record>, more: seq<Record>, totalInvited: real)
    requires |fewer| <= |more| && totalInvited > 0.0
    ensures CalculateResponseRate(fewer, totalInvited).value <= CalculateResponseRate(more, totalInvited).value
  {
    var a := |fewer| as real / totalInvited * 100.0;
    var b := |more| as real / totalInvited * 100.0;
    assert a <= b;
    assert Round(a) <= Round(b);
  }

  // ----------------------------------------------- complete responses

  /** The score-field test applied to the first record: a number that is
      positive and at most 5 or at most 100. */
  predicate LooksLikeScore(v: Value) {
    var x := ToNumber(v);
    x.Some? && x.value > 0.0 && (x.value <= 5.0 || x.value <= 100.0)
  }

  function IsScoreFieldOf(first: Record): string -> bool {
    k => k in first.fields && LooksLikeScore(first.fields[k])
  }

  /** The fields of the first record that hold a score. */
  function DetectedScoreFields(first: Record): (fields: seq<string>)
    ensures forall f :: f in fields ==>
      f in first.keys && f in first.fields
      && ToNumber(first.fields[f]).Some? && 0.0 < ToNumber(first.fields[f]).value <= 100.0
    ensures forall f ::
      (f in first.keys && f in first.fields
       && ToNumber(first.fields[f]).Some? && 0.0 < ToNumber(first.fields[f]).value <= 100.0)
      ==> f in fields
    ensures IsSelection(fields, first.keys, FilterIndices(first.keys, IsScoreFieldOf(first)))
    ensures forall j :: 0 <= j < |first.keys| ==>
      (j in FilterIndices(first.keys, IsScoreFieldOf(first)) <==> IsScoreFieldOf(first)(first.keys[j]))
  {
    FilterSelects(first.keys, IsScoreFieldOf(first));
    FilterComplete(first.keys, IsScoreFieldOf(first));
    Filter(first.keys, IsScoreFieldOf(first))
  }

  /** `record[field]` is present, not null, not '' and a positive number. */
  predicate HasValidScore(r: Record, field: string) {
    field in r.fields && r.fields[field] != Null && r.fields[field] != Str("") && IsPositiveNumber(r.fields[field])
  }

  predicate IsComplete(r: Record, scoreFields: seq<string>) {
    forall i :: 0 <= i < |scoreFields| ==> HasValidScore(r, scoreFields[i])
  }

  function CompleteFor(scoreFields: seq<string>): Record -> bool {
    r => IsComplete(r, scoreFields)
  }

  /** The records answering every score field the first record answers; all
      records when there is no such field. */
  function FilterCompleteResponses(records: seq<Record>): (r: seq<Record>)
    ensures |r| <= |records|
    ensures forall x :: x in r ==> x in records
  {
    if records == [] then records
    else
      var fields := DetectedScoreFields(records[0]);
      if fields == [] then records else Filter(records, CompleteFor(fields))
  }

  /** Without records or without a detected score field nothing is removed. */
  lemma NothingToCheckKeepsAll(records: seq<Record>)
    requires records == [] || DetectedScoreFields(records[0]) == []
    ensures FilterCompleteResponses(records) == records
  {
  }

  /** With detected score fields the filter keeps, in order, exactly the
      records with a valid score in each of them. */
  lemma CompleteResponsesSelection(records: seq<Record>)
    requires records != [] && DetectedScoreFields(records[0]) != []
    ensures var fields := DetectedScoreFields(records[0]);
      var idx := FilterIndices(records, CompleteFor(fields));
      && IsSelection(FilterCompleteResponses(records), records, idx)
      && forall j :: 0 <= j < |records| ==> (j in idx <==> IsComplete(records[j], fields))
  {
    var fields := DetectedScoreFields(records[0]);
    FilterSelects(records, CompleteFor(fields));
  }

  /** A score-looking value is a valid score. */
  lemma ScoreLookingIsValid(r: Record, field: string)
    requires field in r.fields && LooksLikeScore(r.fields[field])
    ensures HasValidScore(r, field)
  {
    assert Trim("") == "";
  }

  /** The first record, from which the fields were detected, always passes. */
  lemma FirstRecordKept(records: seq<Record>)
    ensures records != [] ==> FilterCompleteResponses(records) != [] && FilterCompleteResponses(records)[0] == records[0]
  {
    if records != [] {
      var first := records[0];
      var fields := DetectedScoreFields(first);
      if fields != [] {
        forall i | 0 <= i < |fields|
          ensures HasValidScore(first, fields[i])
        {
          assert fields[i] in fields;
          FilterMember(first.keys, IsScoreFieldOf(first), fields[i]);
          ScoreLookingIsValid(first, fields[i]);
        }
        FilterKeepsHead(records, CompleteFor(fields));
      }
    }
  }

  /** `Math.round(part / total * 100)`. */
  function SharePercent(part: nat, total: nat): (pct: int)
    requires total > 0
    ensures pct as real - 0.5 <= part as real / total as real * 100.0 < pct as real + 0.5
  {
    Round(part as real / total as real * 100.0)
  }

  lemma SharePercentBounds(part: nat, total: nat)
    requires 0 < total && part <= total
    ensures 0 <= SharePercent(part, total) <= 100
  {
    var share := part as real / total as real;
    assert 0.0 <= share <= 1.0;
  }

  datatype IncompleteStats = IncompleteStats(
    totalRecords: nat, completeResponses: nat, incompleteResponses: nat, incompletionRate: int)

  /** Counts of complete and incomplete responses and the incompletion rate
      in percent. */
  function GetIncompleteResponseStats(records: seq<Record>): (s: IncompleteStats)
    ensures s.totalRecords == |records|
    ensures s.completeResponses == |FilterCompleteResponses(records)|
    ensures s.completeResponses + s.incompleteResponses == s.totalRecords
    ensures 0 <= s.incompletionRate <= 100
    ensures records == [] ==> s.incompletionRate == 0
    ensures records != [] ==> s.completeResponses >= 1
    ensures records != [] ==>
      s.incompletionRate as real - 0.5
        <= s.incompleteResponses as real / s.totalRecords as real * 100.0
        < s.incompletionRate as real + 0.5
  {
    var complete := FilterCompleteResponses(records);
    FirstRecordKept(records);
    var incomplete := |records| - |complete|;
    var rate := if |records| > 0 then
        SharePercentBounds(incomplete, |records|);
        SharePercent(incomplete, |records|)
      else 0;
    IncompleteStats(|records|, |complete|, incomplete, rate)
  }

  // -------------------------------------------------- category scores

  /** A category's aggregate; the random importance is not modelled. */
  datatype CategoryScore = CategoryScore(categoryName: string, score: real, satisfaction: real, count: nat)

  /** The category that stands in when no field name yields one. */
  const FallbackCategory := "전체"

  /** `Number(record[field])`; an absent field is NaN. */
  function NumberField(r: Record, f: string): Option<real> {
    if f in r.fields then ToNumber(r.fields[f]) else None
  }

  function IsPositiveFieldOf(first: Record): string -> bool {
    k => k in first.fields && IsPositiveNumber(first.fields[k])
  }

  /** The fields of the first record holding a positive number. */
  function CategoryFieldsOf(first: Record): seq<string> {
    Filter(first.keys, IsPositiveFieldOf(first))
  }

  /** `field.split('_')[0]`. */
  function CategoryPrefix(field: string): string {
    Split(field, '_')[0]
  }

  /** The category name is everything before the first underscore. */
  lemma CategoryPrefixMeaning(field: string)
    ensures var p := CategoryPrefix(field);
      '_' !in p && (p == field || StartsWith(field, p + "_"))
  {
    var i := IndexOf(field, '_');
    if i < |field| {
      assert field[..i + 1] == field[..i] + "_";
    }
  }

  /** The non-empty prefixes of `fields`, in field order. */
  function CategoryPrefixes(fields: seq<string>): seq<string>
  {
    if fields == [] then []
    else
      var ps := CategoryPrefixes(fields[..|fields| - 1]);
      var c := CategoryPrefix(fields[|fields| - 1]);
      if c != "" then ps + [c] else ps
  }

  lemma {:induction false} CategoryPrefixesMember(fields: seq<string>, c: string)
    ensures c in CategoryPrefixes(fields) <==> c != "" && exists i :: 0 <= i < |fields| && CategoryPrefix(fields[i]) == c
  {
    if fields != [] {
      var fs := fields[..|fields| - 1];
      CategoryPrefixesMember(fs, c);
      if exists i :: 0 <= i < |fs| && CategoryPrefix(fs[i]) == c {
        var i :| 0 <= i < |fs| && CategoryPrefix(fs[i]) == c;
        assert fields[i] == fs[i];
      }
      if exists i :: 0 <= i < |fields| && CategoryPrefix(fields[i]) == c {
        var i :| 0 <= i < |fields| && CategoryPrefix(fields[i]) == c;
        if i < |fs| {
          assert fs[i] == fields[i];
        }
      }
    }
  }

  /** The categories, in order of first appearance, or the fallback alone. */
  function CategoryNames(fields: seq<string>): seq<string> {
    var cs := Distinct(CategoryPrefixes(fields));
    if cs == [] then [FallbackCategory] else cs
  }

  /** The categories are distinct, and they are the non-empty prefixes of the
      fields, or only the fallback when there is none. */
  lemma CategoryNamesMeaning(fields: seq<string>, c: string)
    ensures NoDuplicates(CategoryNames(fields))
    ensures c in CategoryNames(fields) <==>
      (c != "" && exists i :: 0 <= i < |fields| && CategoryPrefix(fields[i]) == c)
      || (CategoryPrefixes(fields) == [] && c == FallbackCategory)
  {
    DistinctProperties(CategoryPrefixes(fields));
    CategoryPrefixesMember(fields, c);
    if CategoryPrefixes(fields) != [] {
      assert CategoryPrefixes(fields)[0] in Distinct(CategoryPrefixes(fields));
    }
  }

  function PrefixedBy(category: string): string -> bool {
    f => StartsWith(f, category)
  }

  /** `scoreFields.filter(key => key.startsWith(category))`. */
  function FieldsOfCategory(fields: seq<string>, category: string): seq<string> {
    Filter(fields, PrefixedBy(category))
  }

  /** The positive values of the given fields in one record, in field order. */
  function PositiveValues(r: Record, fields: seq<string>): seq<real>
  {
    if fields == [] then []
    else
      var x := NumberField(r, fields[|fields| - 1]);
      PositiveValues(r, fields[..|fields| - 1]) + (if x.Some? && x.value > 0.0 then [x.value] else [])
  }

  /** The positive values of the given fields over all records. */
  function CategoryValues(records: seq<Record>, fields: seq<string>): seq<real>
  {
    if records == [] then []
    else CategoryValues(records[..|records| - 1], fields) + PositiveValues(records[|records| - 1], fields)
  }

  lemma {:induction false} PositiveValuesArePositive(r: Record, fields: seq<string>)
    ensures forall i :: 0 <= i < |PositiveValues(r, fields)| ==> PositiveValues(r, fields)[i] > 0.0
  {
    if fields != [] {
      PositiveValuesArePositive(r, fields[..|fields| - 1]);
    }
  }

  lemma {:induction false} CategoryValuesArePositive(records: seq<Record>, fields: seq<string>)
    ensures forall i :: 0 <= i < |CategoryValues(records, fields)| ==> CategoryValues(records, fields)[i] > 0.0
  {
    if records != [] {
      CategoryValuesArePositive(records[..|records| - 1], fields);
      PositiveValuesArePositive(records[|records| - 1], fields);
    }
  }

  /** The mean of the values rounded to one decimal, 0 for no values. */
  function CategoryScoreOf(name: string, values: seq<real>): CategoryScore {
    var avg := if |values| > 0 then Sum(values) / |values| as real else 0.0;
    CategoryScore(name, Round1(avg), Round1(avg), |values|)
  }

  /** The aggregate of every category, in category order. */
  function CategoryScores(records: seq<Record>): seq<CategoryScore> {
    if records == [] then []
    else
      var fields := CategoryFieldsOf(records[0]);
      var names := CategoryNames(fields);
      seq(|names|, i requires 0 <= i < |names| =>
        CategoryScoreOf(names[i], CategoryValues(records, FieldsOfCategory(fields, names[i]))))
  }

  lemma PositiveValuesStep(r: Record, fields: seq<string>, j: nat)
    requires j < |fields|
    ensures var x := NumberField(r, fields[j]);
      PositiveValues(r, fields[..j + 1])
        == PositiveValues(r, fields[..j]) + (if x.Some? && x.value > 0.0 then [x.value] else [])
  {
    assert fields[..j + 1][..j] == fields[..j];
  }

  lemma CategoryValuesStep(records: seq<Record>, fields: seq<string>, i: nat)
    requires i < |records|
    ensures CategoryValues(records[..i + 1], fields)
      == CategoryValues(records[..i], fields) + PositiveValues(records[i], fields)
  {
    assert records[..i + 1][..i] == records[..i];
  }

  /** The sum and the number of positive values of one category's fields. */
  method SumCategory(records: seq<Record>, scoreFields: seq<string>, category: string) returns (total: real, count: nat)
    ensures total == Sum(CategoryValues(records, FieldsOfCategory(scoreFields, category)))
    ensures count == |CategoryValues(records, FieldsOfCategory(scoreFields, category))|
  {
    total, count := 0.0, 0;
    ghost var cf := FieldsOfCategory(scoreFields, category);
    for i := 0 to |records|
      invariant total == Sum(CategoryValues(records[..i], cf))
      invariant count == |CategoryValues(records[..i], cf)|
    {
      var categoryFields := FieldsOfCategory(scoreFields, category);
      ghost var before := CategoryValues(records[..i], cf);
      for j := 0 to |categoryFields|
        invariant total == Sum(before) + Sum(PositiveValues(records[i], categoryFields[..j]))
        invariant count == |before| + |PositiveValues(records[i], categoryFields[..j])|
      {
        ghost var pv := PositiveValues(records[i], categoryFields[..j]);
        PositiveValuesStep(records[i], categoryFields, j);
        var value := NumberField(records[i], categoryFields[j]);
        if value.Some? && value.value > 0.0 {
          SumAppend(pv, [value.value]);
          assert Sum([value.value]) == value.value;
          total := total + value.value;
          count := count + 1;
        } else {
          assert pv + [] == pv;
        }
      }
      CategoryValuesStep(records, cf, i);
      assert categoryFields[..|categoryFields|] == categoryFields;
      SumAppend(before, PositiveValues(records[i], cf));
    }
    assert records[..|records|] == records;
  }

  /** The category names collected in a set while walking the fields, with
      the fallback when the set stays empty. */
  method CollectCategories(scoreFields: seq<string>) returns (categories: seq<string>)
    ensures categories == CategoryNames(scoreFields)
  {
    categories := [];
    for i := 0 to |scoreFields|
      invariant categories == Distinct(CategoryPrefixes(scoreFields[..i]))
    {
      assert scoreFields[..i + 1][..i] == scoreFields[..i];
      var categoryName := CategoryPrefix(scoreFields[i]);
      if categoryName != "" {
        ghost var ps := CategoryPrefixes(scoreFields[..i]);
        assert (ps + [categoryName])[..|ps|] == ps;
        if categoryName !in categories {
          categories := categories + [categoryName];
        }
      }
    }
    assert scoreFields[..|scoreFields|] == scoreFields;
    if |categories| == 0 {
      categories := [FallbackCategory];
    }
  }

  /** A category's running total and count give its aggregate. */
  lemma CategoryScoreOfTotals(name: string, values: seq<real>, total: real, count: nat)
    requires total == Sum(values) && count == |values|
    ensures var avg := if count > 0 then total / count as real else 0.0;
      CategoryScore(name, Round1(avg), Round1(avg), count) == CategoryScoreOf(name, values)
  {
  }

  /** `calculateCategoryScores`: categories from the field names of the first
      record, then each category's mean over every record. */
  method CalculateCategoryScores(records: seq<Record>) returns (scores: seq<CategoryScore>)
    ensures scores == CategoryScores(records)
  {
    if |records| == 0 {
      return [];
    }
    var scoreFields := CategoryFieldsOf(records[0]);
    var categories := CollectCategories(scoreFields);
    scores := [];
    for c := 0 to |categories|
      invariant |scores| == c
      invariant forall k :: 0 <= k < c ==>
        scores[k] == CategoryScoreOf(categories[k], CategoryValues(records, FieldsOfCategory(scoreFields, categories[k])))
    {
      var totalScore, count := SumCategory(records, scoreFields, categories[c]);
      var avgScore := if count > 0 then totalScore / count as real else 0.0;
      CategoryScoreOfTotals(categories[c], CategoryValues(records, FieldsOfCategory(scoreFields, categories[c])), totalScore, count);
      scores := scores + [CategoryScore(categories[c], Round1(avgScore), Round1(avgScore), count)];
    }
    ghost var expected := CategoryScores(records);
    assert |expected| == |scores|;
    forall k | 0 <= k < |scores|
      ensures scores[k] == expected[k]
    {
    }
  }

  /** One score per category, in category order; the score is the mean of
      the category's positive values to one decimal (0 when it has none),
      and the satisfaction equals the score. */
  lemma CategoryScoresMeaning(records: seq<Record>)
    ensures records == [] ==> CategoryScores(records) == []
    ensures records != [] ==>
      var fields := CategoryFieldsOf(records[0]);
      var names := CategoryNames(fields);
      var scores := CategoryScores(records);
      && |scores| == |names| >= 1
      && forall i :: 0 <= i < |scores| ==>
        var values := CategoryValues(records, FieldsOfCategory(fields, names[i]));
        && scores[i].categoryName == names[i]
        && scores[i].count == |values|
        && scores[i].satisfaction == scores[i].score
        && (scores[i].count == 0 ==> scores[i].score == 0.0)
        && (scores[i].count > 0 ==>
              scores[i].score >= 0.0
              && scores[i].score == Round1(Sum(values) / |values| as real)
              && Sum(values) / |values| as real - 0.05 < scores[i].score <= Sum(values) / |values| as real + 0.05)
  {
    if records != [] {
      var fields := CategoryFieldsOf(records[0]);
      var names := CategoryNames(fields);
      assert |names| >= 1;
      forall i | 0 <= i < |names|
        ensures var values := CategoryValues(records, FieldsOfCategory(fields, names[i]));
          |values| > 0 ==> Round1(Sum(values) / |values| as real) >= 0.0
      {
        var values := CategoryValues(records, FieldsOfCategory(fields, names[i]));
        if |values| > 0 {
          CategoryValuesArePositive(records, FieldsOfCategory(fields, names[i]));
          MeanScoreNotNegative(values);
        }
      }
    }
  }

  /** The rounded mean of positive values is not negative. */
  lemma MeanScoreNotNegative(values: seq<real>)
    requires values != []
    requires forall i :: 0 <= i < |values| ==> values[i] > 0.0
    ensures Round1(Sum(values) / |values| as real) >= 0.0
  {
    SumPositive(values);
    var avg := Sum(values) / |values| as real;
    assert avg > 0.0;
    Round1Monotone(0.0, avg);
    assert Round1(0.0) == 0.0;
  }

  /** A field belongs to every category its name starts with, so a short
      category name also collects the fields of a longer one. */
  lemma FieldsOfCategoryMember(fields: seq<string>, category: string, f: string)
    ensures f in FieldsOfCategory(fields, category) <==> f in fields && StartsWith(f, category)
  {
    FilterMember(fields, PrefixedBy(category), f);
  }

  /** The category "리더" takes in the field "리더십_Q1" of the category "리더십". */
  lemma ShortCategoryAbsorbsLonger()
    ensures CategoryPrefix("리더십_Q1") == "리더십"
    ensures "리더십_Q1" in FieldsOfCategory(["리더_Q1", "리더십_Q1"], "리더")
  {
    assert IndexOf("리더십_Q1", '_') == 3;
    FieldsOfCategoryMember(["리더_Q1", "리더십_Q1"], "리더", "리더십_Q1");
  }

  /** A field whose prefix is empty cannot start with the fallback name. */
  lemma EmptyPrefixNotFallback(f: string)
    requires CategoryPrefix(f) == ""
    ensures !StartsWith(f, FallbackCategory)
  {
    var i := IndexOf(f, '_');
    assert i == 0;
    if |f| > 0 {
      assert f[0] == '_';
    }
  }

  /** When the fallback category is used it never receives a value: it
      always reports count 0 and score 0. */
  lemma FallbackCategoryIsEmpty(records: seq<Record>)
    requires records != [] && CategoryPrefixes(CategoryFieldsOf(records[0])) == []
    ensures CategoryScores(records) == [CategoryScore(FallbackCategory, 0.0, 0.0, 0)]
  {
    var fields := CategoryFieldsOf(records[0]);
    var none := FieldsOfCategory(fields, FallbackCategory);
    if none != [] {
      var f := none[0];
      FieldsOfCategoryMember(fields, FallbackCategory, f);
      var i :| 0 <= i < |fields| && fields[i] == f;
      CategoryPrefixesMember(fields, CategoryPrefix(f));
      EmptyPrefixNotFallback(f);
      assert false;
    }
    EmptyCategoryValues(records);
    assert Round1(0.0) == 0.0;
  }

  lemma {:induction false} EmptyCategoryValues(records: seq<Record>)
    ensures CategoryValues(records, []) == []
  {
    if records != [] {
      EmptyCategoryValues(records[..|records| - 1]);
    }
  }

  // -------------------------------------------------------- organisations

  /** An organisation's aggregate; its categories stay empty here. */
  datatype OrganizationData = OrganizationData(name: Value, respondents: nat, responseRate: int, categories: seq<CategoryScore>)

  const OrgField := "소속1"
  const WholeOrganization := "전체"

  /** `record.소속1 || '전체'`. */
  function OrgKey(r: Record): Value {
    if OrgField in r.fields && Truthy(r.fields[OrgField]) then r.fields[OrgField] else Str(WholeOrganization)
  }

  function OrgKeys(records: seq<Record>): (keys: seq<Value>)
    ensures |keys| == |records|
  {
    seq(|records|, i requires 0 <= i < |records| => OrgKey(records[i]))
  }

  /** The groups in order of first appearance, each with its head count and
      its share of all records. */
  function OrganizationGroups(records: seq<Record>): (groups: seq<OrganizationData>)
    ensures |groups| <= |records|
    ensures records != [] ==> groups != []
  {
    if records == [] then []
    else
      var keys := OrgKeys(records);
      var names := Distinct(keys);
      DistinctLength(keys);
      DistinctProperties(keys);
      assert keys[0] in names;
      seq(|names|, i requires 0 <= i < |names| =>
        OrganizationData(names[i], Count(keys, names[i]), SharePercent(Count(keys, names[i]), |records|), []))
  }

  /** The first pass of `analyzeByOrganization`: an insertion-ordered map
      from organisation to its head count. */
  method CountByOrganization(keys: seq<Value>) returns (order: seq<Value>, orgMap: map<Value, OrganizationData>)
    ensures order == Distinct(keys)
    ensures forall k :: k in orgMap <==> k in order
    ensures forall k :: k in orgMap ==> orgMap[k] == OrganizationData(k, Count(keys, k), 0, [])
  {
    order, orgMap := [], map[];
    for i := 0 to |keys|
      invariant order == Distinct(keys[..i])
      invariant forall k :: k in orgMap <==> k in order
      invariant forall k :: k in orgMap ==> orgMap[k] == OrganizationData(k, Count(keys[..i], k), 0, [])
    {
      assert keys[..i + 1][..i] == keys[..i];
      var orgName := keys[i];
      if orgName !in orgMap {
        DistinctProperties(keys[..i]);
        CountPositive(keys[..i], orgName);
        orgMap := orgMap[orgName := OrganizationData(orgName, 0, 0, [])];
        order := order + [orgName];
      }
      var orgData := orgMap[orgName];
      orgMap := orgMap[orgName := orgData.(respondents := orgData.respondents + 1)];
    }
    assert keys[..|keys|] == keys;
  }

  /** `analyzeByOrganization`: the counting pass, then a second pass over the
      map that sets each response rate. */
  method AnalyzeByOrganization(records: seq<Record>) returns (groups: seq<OrganizationData>)
    ensures groups == OrganizationGroups(records)
  {
    var keys := OrgKeys(records);
    var order, orgMap := CountByOrganization(keys);
    DistinctProperties(keys);
    DistinctLength(keys);
    var totalRespondents := |records|;
    for j := 0 to |order|
      invariant forall k :: k in orgMap <==> k in order
      invariant forall jj :: 0 <= jj < |order| ==>
        orgMap[order[jj]] == OrganizationData(order[jj], Count(keys, order[jj]),
          if jj < j then SharePercent(Count(keys, order[jj]), totalRespondents) else 0, [])
    {
      var orgData := orgMap[order[j]];
      orgMap := orgMap[order[j] := orgData.(responseRate := Round(orgData.respondents as real / totalRespondents as real * 100.0))];
    }
    groups := seq(|order|, k requires 0 <= k < |order| => orgMap[order[k]]);
  }

  /** The total head count of the groups. */
  function TotalRespondents(groups: seq<OrganizationData>): nat {
    if groups == [] then 0 else TotalRespondents(groups[..|groups| - 1]) + groups[|groups| - 1].respondents
  }

  lemma {:induction false} TotalOfPrefix(records: seq<Record>, m: nat)
    requires records != [] && m <= |OrganizationGroups(records)|
    ensures TotalRespondents(OrganizationGroups(records)[..m]) == SumOfCounts(Distinct(OrgKeys(records))[..m], OrgKeys(records))
  {
    if m > 0 {
      var groups := OrganizationGroups(records);
      var names := Distinct(OrgKeys(records));
      TotalOfPrefix(records, m - 1);
      assert groups[..m][..m - 1] == groups[..m - 1];
      assert names[..m][..m - 1] == names[..m - 1];
    }
  }

  /** Groups have distinct names and at least one respondent each, every
      record's organisation has its group, each group counts exactly the
      records of its organisation, the counts add up to the number of
      records, and every rate is a percentage. */
  lemma OrganizationGroupsMeaning(records: seq<Record>)
    ensures var groups := OrganizationGroups(records);
      && (forall i, j :: 0 <= i < j < |groups| ==> groups[i].name != groups[j].name)
      && (forall i :: 0 <= i < |groups| ==>
            && groups[i].respondents == Count(OrgKeys(records), groups[i].name)
            && groups[i].respondents >= 1
            && 0 <= groups[i].responseRate <= 100)
      && (forall j :: 0 <= j < |records| ==> exists i :: 0 <= i < |groups| && groups[i].name == OrgKey(records[j]))
      && TotalRespondents(groups) == |records|
  {
    if records != [] {
      var keys := OrgKeys(records);
      var names := Distinct(keys);
      var groups := OrganizationGroups(records);
      DistinctProperties(keys);
      forall i | 0 <= i < |groups|
        ensures groups[i].respondents >= 1 && 0 <= groups[i].responseRate <= 100
      {
        assert names[i] in names;
        CountPositive(keys, names[i]);
        CountAtMostLength(keys, names[i]);
        SharePercentBounds(Count(keys, names[i]), |records|);
      }
      forall j | 0 <= j < |records|
        ensures exists i :: 0 <= i < |groups| && groups[i].name == OrgKey(records[j])
      {
        assert keys[j] in keys;
        var i :| 0 <= i < |names| && names[i] == keys[j];
        assert groups[i].name == OrgKey(records[j]);
      }
      OrganizationGroupsTotal(records);
    }
  }

  /** The head counts of the groups add up to the number of records. */
  lemma OrganizationGroupsTotal(records: seq<Record>)
    requires records != []
    ensures TotalRespondents(OrganizationGroups(records)) == |records|
  {
    var keys := OrgKeys(records);
    var names := Distinct(keys);
    var groups := OrganizationGroups(records);
    TotalOfPrefix(records, |groups|);
    assert groups[..|groups|] == groups;
    assert names[..|names|] == names;
    SumOfCountsIsLength(keys);
  }

  lemma {:induction false} CountAtMostLength<K>(xs: seq<K>, k: K)
    ensures Count(xs, k) <= |xs|
  {
    if xs != [] {
      CountAtMostLength(xs[..|xs| - 1], k);
    }
  }

  // ------------------------------------------------------------ quadrant

  datatype Recommendation = Recommendation(quadrant: string, color: string, recommendation: string)

  const MidPoint := 50.0

  const PriorityImprovement := Recommendation("중점 개선 영역", "#E53935",
    "중요도가 높으나 만족도가 낮습니다. 즉각적인 개선이 필요합니다.")
  const MaintainStrength := Recommendation("유지 강화 영역", "#43A047",
    "중요도와 만족도가 모두 높습니다. 현 수준 유지하세요.")
  const GradualImprovement := Recommendation("점진적 개선 영역", "#FBC02D",
    "만족도는 높지만 상대적 중요도가 낮습니다. 현상 유지하세요.")
  const StatusQuo := Recommendation("현상 유지 영역", "#90A4AE",
    "중요도와 만족도가 모두 낮습니다. 우선순위를 재검토하세요.")

  /** The quadrant of the importance/satisfaction matrix split at 50 with
      strict comparisons; a coordinate equal to 50 lands in the status-quo
      quadrant. */
  function GetQuadrantRecommendation(importance: real, satisfaction: real): (r: Recommendation)
    ensures r == PriorityImprovement <==> importance > MidPoint && satisfaction < MidPoint
    ensures r == MaintainStrength <==> importance > MidPoint && satisfaction > MidPoint
    ensures r == GradualImprovement <==> importance < MidPoint && satisfaction > MidPoint
    ensures r == StatusQuo <==>
      importance == MidPoint || satisfaction == MidPoint || (importance < MidPoint && satisfaction < MidPoint)
  {
    if importance > MidPoint && satisfaction < MidPoint then PriorityImprovement
    else if importance > MidPoint && satisfaction > MidPoint then MaintainStrength
    else if importance < MidPoint && satisfaction > MidPoint then GradualImprovement
    else StatusQuo
  }

  // ------------------------------------------------ organisation filter

  /** `'all' | 'dept1' | 'dept2' | 'dept3'`. */
  datatype OrgLevel = All | Dept1 | Dept2 | Dept3

  function DeptField(level: OrgLevel): string
    requires level != All
  {
    match level
    case Dept1 => "소속1"
    case Dept2 => "소속2"
    case Dept3 => "소속3"
  }

  /** The record's department at `field` is present and truthy. */
  predicate HasDept(r: Record, field: string) {
    field in r.fields && Truthy(r.fields[field])
  }

  function HasDeptAt(field: string): Record -> bool {
    r => HasDept(r, field)
  }

  /** All records for `All`; otherwise those with a department at the level. */
  function FilterDataByOrganization(records: seq<Record>, organization: OrgLevel): (r: seq<Record>)
    ensures organization == All ==> r == records
    ensures organization != All ==> forall x :: x in r ==> x in records && HasDept(x, DeptField(organization))
  {
    if organization == All then records else Filter(records, HasDeptAt(DeptField(organization)))
  }

  /** Below `All`, the filter keeps a record exactly when it has a
      department at that level, in order. */
  lemma FilterByOrganizationSelects(records: seq<Record>, organization: OrgLevel)
    requires organization != All
    ensures var idx := FilterIndices(records, HasDeptAt(DeptField(organization)));
      && IsSelection(FilterDataByOrganization(records, organization), records, idx)
      && forall j :: 0 <= j < |records| ==> (j in idx <==> HasDept(records[j], DeptField(organization)))
  {
    FilterSelects(records, HasDeptAt(DeptField(organization)));
  }

  // ---------------------------------------------------------- validation

  datatype Validation = Validation(isValid: bool, errors: seq<string>)

  const NoResponsesError := "응답 데이터가 없습니다."
  const RequiredFields: seq<string> := ["소속1"]

  function MissingFieldError(field: string): string {
    "필수 필드 '" + field + "'가 없습니다."
  }

  /** One error per required field the first record lacks, in order. */
  function MissingFieldErrors(first: Record, fields: seq<string>): seq<string> {
    if fields == [] then []
    else
      MissingFieldErrors(first, fields[..|fields| - 1])
      + (if fields[|fields| - 1] in first.fields then [] else [MissingFieldError(fields[|fields| - 1])])
  }

  /** `validateSurveyData`: an empty data set, or a first record without a
      required field, is invalid with one message per problem. */
  method ValidateSurveyData(records: seq<Record>) returns (v: Validation)
    ensures v.isValid <==> v.errors == []
    ensures records == [] ==> v.errors == [NoResponsesError]
    ensures records != [] ==> v.errors == MissingFieldErrors(records[0], RequiredFields)
    ensures records != [] ==> (v.isValid <==> OrgField in records[0].fields)
    ensures records != [] && OrgField !in records[0].fields ==> v.errors == [MissingFieldError(OrgField)]
  {
    var errors: seq<string> := [];
    if |records| == 0 {
      errors := errors + [NoResponsesError];
    }
    if |records| > 0 {
      var requiredFields := RequiredFields;
      var firstRecord := records[0];
      for i := 0 to |requiredFields|
        invariant errors == MissingFieldErrors(firstRecord, requiredFields[..i])
      {
        assert requiredFields[..i + 1][..i] == requiredFields[..i];
        if requiredFields[i] !in firstRecord.fields {
          errors := errors + [MissingFieldError(requiredFields[i])];
        }
      }
      assert requiredFields[..|requiredFields|] == requiredFields;
      assert RequiredFields[..0] == [];
    }
    v := Validation(|errors| == 0, errors);
  }
}
