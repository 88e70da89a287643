/** The encode-and-align block of the `predict` handler (api/routes/v1.py):
    `pd.get_dummies` on a one-row frame built from the record, then every
    schema column the encoding lacks is added as 0, and the frame is cut down
    to the schema's columns in the schema's order. */
module Features {
  import opened Values

  /** One cell of the encoded frame: pandas keeps integers, floats and
      booleans as they are. */
  datatype Cell = IntCell(i: int) | RealCell(d: Double) | BoolCell(b: bool)

  /** The value of the indicator column of a category the record has. */
  const Indicator: Cell := IntCell(1)

  /** The value the handler writes into a schema column the encoding lacks. */
  const Padding: Cell := IntCell(0)

  /** What `pd.get_dummies(pd.DataFrame([record]))` produces: the encoded
      columns, or the TypeError pandas raises on a field holding a list or a
      dict, which it cannot hash. */
  datatype Encoding = Encoded(columns: map<string, Cell>) | Unhashable

  /** The name pandas gives the indicator of `category` in string column
      `field`: prefix, separator `_`, value. */
  function IndicatorName(field: string, category: string): string {
    field + "_" + category
  }

  /** The cell a numeric (or boolean) field keeps under its own name. */
  function NumericCell(v: Json): Cell
    requires IsNumber(v)
  {
    match v
    case Bool(b) => BoolCell(b)
    case Int(i) => IntCell(i)
    case Real(d) => RealCell(d)
  }

  predicate IsContainer(v: Json) {
    v.Obj? || v.Arr?
  }

  /** Field `c` of the record holds a number or a boolean. */
  predicate IsNumericField(record: map<string, Json>, c: string) {
    c in record && IsNumber(record[c])
  }

  /** `c` is the indicator column of some string field of the record. */
  predicate IsIndicatorOf(record: map<string, Json>, c: string) {
    exists k :: k in record && record[k].Str? && c == IndicatorName(k, record[k].s)
  }

  /** Columns that keep a numeric field's name and value. */
  function NumericColumns(record: map<string, Json>): map<string, Cell> {
    map k | k in record && IsNumber(record[k]) :: NumericCell(record[k])
  }

  /** The indicator columns, one per string field. */
  function IndicatorColumns(record: map<string, Json>): set<string> {
    set k | k in record && record[k].Str? :: IndicatorName(k, record[k].s)
  }

  /** One-hot encoding of a single record: a string field `f` with value `v`
      becomes column `f_v` holding 1, a numeric or boolean field keeps its name
      and value, a null field yields no column, and a list or dict value makes
      the encoding fail. */
  function Encode(record: map<string, Json>): (e: Encoding)
    ensures e.Unhashable? <==> exists k :: k in record && IsContainer(record[k])
    ensures e.Encoded? ==>
      forall c :: IsNumericField(record, c) ==> c in e.columns && e.columns[c] == NumericCell(record[c])
    ensures e.Encoded? ==>
      forall k :: k in record && record[k].Str? && !IsNumericField(record, IndicatorName(k, record[k].s)) ==>
        IndicatorName(k, record[k].s) in e.columns && e.columns[IndicatorName(k, record[k].s)] == Indicator
    ensures e.Encoded? ==>
      forall c :: c in e.columns ==> IsNumericField(record, c) || IsIndicatorOf(record, c)
  {
    if exists k :: k in record && IsContainer(record[k]) then Unhashable
    else
      var indicators := map c | c in IndicatorColumns(record) :: Indicator;
      Encoded(indicators + NumericColumns(record))
  }

  /** The cell alignment puts under column `c` for a record whose encoding
      succeeds: the field's own value for a numeric field, 1 for the
      indicator of a string field's value, and 0 for every other column. */
  function ExpectedCell(record: map<string, Json>, c: string): Cell {
    if IsNumericField(record, c) then NumericCell(record[c])
    else if IsIndicatorOf(record, c) then Indicator
    else Padding
  }

  /** Column by column, a successful encoding holds what ExpectedCell says:
      the numeric value wins when a numeric field and an indicator share a
      name, and a column of neither kind is absent and so padded with 0. */
  lemma EncodedCell(record: map<string, Json>, c: string)
    requires forall k :: k in record ==> !IsContainer(record[k])
    ensures Encode(record).Encoded?
    ensures ColumnValue(Encode(record).columns, c) == ExpectedCell(record, c)
  {
    var columns := Encode(record).columns;
    if !IsNumericField(record, c) && IsIndicatorOf(record, c) {
      var k :| k in record && record[k].Str? && c == IndicatorName(k, record[k].s);
      assert c in columns && columns[c] == Indicator;
    }
  }

  /** Off the two indicator columns of `a` and `b`, swapping the string value
      of `field` leaves the expected cell of every column unchanged. */
  lemma StringSwapKeepsCells(record: map<string, Json>, field: string, a: string, b: string, c: string)
    requires c != IndicatorName(field, a) && c != IndicatorName(field, b)
    ensures ExpectedCell(record[field := Str(a)], c) == ExpectedCell(record[field := Str(b)], c)
  {
    var ra := record[field := Str(a)];
    var rb := record[field := Str(b)];
    assert IsNumericField(ra, c) <==> IsNumericField(rb, c);
    if IsIndicatorOf(ra, c) {
      var k :| k in ra && ra[k].Str? && c == IndicatorName(k, ra[k].s);
      assert k in rb && rb[k].Str? && c == IndicatorName(k, rb[k].s);
    }
    if IsIndicatorOf(rb, c) {
      var k :| k in rb && rb[k].Str? && c == IndicatorName(k, rb[k].s);
      assert k in ra && ra[k].Str? && c == IndicatorName(k, ra[k].s);
    }
  }

  /** The expected row of a record does not depend on which string value
      `field` holds, as long as neither value's indicator is a schema column. */
  lemma ExpectedRowsAgree(record: map<string, Json>, field: string, a: string, b: string, schema: seq<string>)
    requires IndicatorName(field, a) !in schema && IndicatorName(field, b) !in schema
    ensures seq(|schema|, i requires 0 <= i < |schema| => ExpectedCell(record[field := Str(a)], schema[i]))
         == seq(|schema|, i requires 0 <= i < |schema| => ExpectedCell(record[field := Str(b)], schema[i]))
  {
    forall i | 0 <= i < |schema|
      ensures ExpectedCell(record[field := Str(a)], schema[i]) == ExpectedCell(record[field := Str(b)], schema[i])
    {
      StringSwapKeepsCells(record, field, a, b, schema[i]);
    }
  }

  /** The value alignment places under schema column `c`: the encoded value
      when the encoding has the column, the zero padding otherwise. */
  function ColumnValue(columns: map<string, Cell>, c: string): Cell {
    if c in columns then columns[c] else Padding
  }

  /** The feature row the model receives: one cell per schema column, in
      schema order. */
  function Aligned(columns: map<string, Cell>, schema: seq<string>): seq<Cell> {
    seq(|schema|, i requires 0 <= i < |schema| => ColumnValue(columns, schema[i]))
  }

  /** The handler's two steps: the loop that adds each missing schema column
      as 0, then the selection `input_encoded[model_columns]`. */
  method Align(columns: map<string, Cell>, schema: seq<string>) returns (row: seq<Cell>)
    ensures row == Aligned(columns, schema)
  {
    var padded := columns;
    var i := 0;
    while i < |schema|
      invariant 0 <= i <= |schema|
      invariant forall c :: c in columns ==> c in padded && padded[c] == columns[c]
      invariant forall c :: c in padded && c !in columns ==> padded[c] == Padding
      invariant forall j :: 0 <= j < i ==> schema[j] in padded
    {
      if schema[i] !in padded {
        padded := padded[schema[i] := Padding];
      }
      i := i + 1;
    }
    row := [];
    i := 0;
    while i < |schema|
      invariant 0 <= i <= |schema|
      invariant |row| == i
      invariant forall j :: 0 <= j < i ==> row[j] == ColumnValue(columns, schema[j])
    {
      row := row + [padded[schema[i]]];
      i := i + 1;
    }
  }

  /** Two encodings give the same row exactly when they agree, column by
      column, on the schema's columns. */
  lemma AlignedAgreement(c1: map<string, Cell>, c2: map<string, Cell>, schema: seq<string>)
    ensures Aligned(c1, schema) == Aligned(c2, schema) <==>
      forall i :: 0 <= i < |schema| ==> ColumnValue(c1, schema[i]) == ColumnValue(c2, schema[i])
  {
    if Aligned(c1, schema) == Aligned(c2, schema) {
      forall i | 0 <= i < |schema|
        ensures ColumnValue(c1, schema[i]) == ColumnValue(c2, schema[i])
      {
        assert Aligned(c1, schema)[i] == Aligned(c2, schema)[i];
      }
    }
  }

  /** Encoded columns outside the schema (the baseline category's indicator,
      indicators of categories never seen in training, extra keys) do not
      reach the row. */
  lemma OutsideColumnsDropped(columns: map<string, Cell>, extra: map<string, Cell>, schema: seq<string>)
    requires forall c :: c in extra ==> c !in schema
    ensures Aligned(columns + extra, schema) == Aligned(columns, schema)
  {
    AlignedAgreement(columns + extra, columns, schema);
  }

  /** A schema column the encoding lacks reads exactly as if it had been
      encoded as an explicit 0. */
  lemma MissingColumnIsZero(columns: map<string, Cell>, c: string, schema: seq<string>)
    requires c !in columns
    ensures Aligned(columns[c := Padding], schema) == Aligned(columns, schema)
  {
    AlignedAgreement(columns[c := Padding], columns, schema);
  }
}
