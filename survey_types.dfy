/** The survey record and the fixed column configuration: which columns are
    filter dimensions, which are ignored, and the name patterns of score and
    free-text columns. */
module SurveyTypes {
  import opened JsValue

  /** One respondent's row as a JavaScript object: `keys` is the property
      order, `fields` the property values. */
  datatype Record = Record(keys: seq<string>, fields: map<string, Value>)

  /** What every JavaScript object satisfies: each property once, and the
      key order lists exactly the properties. */
  ghost predicate WellFormed(r: Record) {
    && (forall i, j :: 0 <= i < j < |r.keys| ==> r.keys[i] != r.keys[j])
    && (forall k :: k in r.fields <==> k in r.keys)
  }

  const EmptyRecord := Record([], map[])

  /** `r[k] = v`: a new property goes to the end of the key order, an
      existing one keeps its place and takes the new value. */
  function Assign(r: Record, k: string, v: Value): (r': Record)
    ensures WellFormed(r) ==> WellFormed(r')
    ensures r'.fields == r.fields[k := v]
    ensures k in r.fields ==> r'.keys == r.keys
    ensures k !in r.fields ==> r'.keys == r.keys + [k]
  {
    if k in r.fields then Record(r.keys, r.fields[k := v])
    else Record(r.keys + [k], r.fields[k := v])
  }

  /** `FILTER_COLUMNS`: the organisational and demographic dimensions. */
  const FilterColumns: seq<string> :=
    ["소속1", "소속2", "소속3", "소속4", "직책", "직군", "직급", "입사연도", "성별", "근무지"]

  /** `IGNORED_COLUMNS`: identifier, timestamp and status columns. */
  const IgnoredColumns: seq<string> :=
    ["SEQ", "이름", "아이디(E-mail)", "사번", "진단일시", "상태"]

  /** The status column of the survey export. */
  const StatusColumn := "상태"

  /** No column is both a filter dimension and ignored, and the status
      column is ignored. */
  lemma ColumnListsDisjoint()
    ensures forall i, j :: 0 <= i < |FilterColumns| && 0 <= j < |IgnoredColumns| ==> FilterColumns[i] != IgnoredColumns[j]
    ensures StatusColumn in IgnoredColumns
  {
  }

  /** `SCORE_COLUMNS_PATTERN`, `/^0[0-4][0-9]|^05[0-3]/`. */
  predicate IsScoreColumn(name: string) {
    |name| >= 3 && name[0] == '0'
    && (('0' <= name[1] <= '4' && IsDigit(name[2])) || (name[1] == '5' && '0' <= name[2] <= '3'))
  }

  /** `TEXT_COLUMNS_PATTERN`, `/^05[45]/`. */
  predicate IsTextColumn(name: string) {
    |name| >= 3 && name[0] == '0' && name[1] == '5' && (name[2] == '4' || name[2] == '5')
  }

  /** The question number written by the first three characters. */
  function PrefixNumber(name: string): nat
    requires |name| >= 3 && AllDigits(name[..3])
  {
    DigitsValue(name[..3])
  }

  /** A score column is one whose name starts with a question number from
      000 to 053; whatever follows is ignored. */
  lemma {:induction false} ScoreColumnMeaning(name: string)
    ensures IsScoreColumn(name) <==> |name| >= 3 && AllDigits(name[..3]) && PrefixNumber(name) <= 53
  {
    if |name| >= 3 && AllDigits(name[..3]) {
      NumberOfThreeDigits(name);
    }
  }

  /** A text column is one whose name starts with question number 054 or 055. */
  lemma {:induction false} TextColumnMeaning(name: string)
    ensures IsTextColumn(name) <==> |name| >= 3 && AllDigits(name[..3]) && 54 <= PrefixNumber(name) <= 55
  {
    if |name| >= 3 && AllDigits(name[..3]) {
      NumberOfThreeDigits(name);
    }
  }

  lemma NumberOfThreeDigits(name: string)
    requires |name| >= 3 && AllDigits(name[..3])
    ensures PrefixNumber(name) == 100 * DigitValue(name[0]) + 10 * DigitValue(name[1]) + DigitValue(name[2])
  {
    var p := name[..3];
    var p2 := p[..2];
    var p1 := p2[..1];
    assert p1[..0] == [];
    assert DigitsValue(p1) == DigitValue(name[0]);
    assert DigitsValue(p2) == 10 * DigitValue(name[0]) + DigitValue(name[1]);
    assert DigitsValue(p) == 10 * DigitsValue(p2) + DigitValue(name[2]);
  }

  /** No column name is both a score column and a text column. */
  lemma ScoreAndTextDisjoint(name: string)
    ensures !(IsScoreColumn(name) && IsTextColumn(name))
  {
  }

  /** Only the first three characters decide either pattern. */
  lemma PatternsIgnoreSuffix(name: string, suffix: string)
    requires |name| >= 3
    ensures IsScoreColumn(name + suffix) == IsScoreColumn(name[..3])
    ensures IsTextColumn(name + suffix) == IsTextColumn(name[..3])
  {
  }
}
