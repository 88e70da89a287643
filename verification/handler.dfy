/** The request side of the `predict` handler (api/routes/v1.py): from the
    decoded JSON body to either an error response or the feature row handed
    to the model. The model call, the rounding of its output and the Flask
    plumbing are outside this module. */
module Handler {
  import opened Values
  import opened Validation
  import opened Features

  datatype Response =
    | /** the row passed to `model.predict`, in schema order */
      Ready(row: seq<Cell>)
    | /** a 400 response carrying `{"error": error}` */
      BadRequest(error: string)
    | /** a 500 response from the catch-all `except Exception` */
      ServerError

  /** The required keys that Python's `key in data` finds in the body. */
  function Present(data: Json): set<string> {
    set f | f in Required && Contains(data, f) == Some(true)
  }

  /** The handler on an object body: validate, then encode, then align.
      `reading` selects the quantity/price check: `AsWritten` is the code
      as it stands, `Intended` the check with NaN rejected. */
  function HandleRecord(reading: Reading, record: map<string, Json>, schema: seq<string>): (r: Response)
    ensures r.Ready? <==>
      WellFormed(reading, record) && !(exists k :: k in record && IsContainer(record[k]))
    ensures r.Ready? ==> |r.row| == |schema|
    ensures r.BadRequest? <==> ValidateAs(reading, record).Rejected?
    ensures r.BadRequest? ==> ValidateAs(reading, record) == Rejected(r.error)
    ensures r == ServerError <==>
      WellFormed(reading, record) && exists k :: k in record && IsContainer(record[k])
  {
    match ValidateAs(reading, record)
    case Rejected(message) => BadRequest(message)
    case Accepted =>
      match Encode(record)
      case Unhashable => ServerError
      case Encoded(columns) => Ready(Aligned(columns, schema))
  }

  /** The handler up to the model call. An object body is validated, encoded
      and aligned. For an array or a string body, `in` tests element
      membership or substrings, so the missing-fields check still runs and
      may answer 400; when it finds nothing missing, indexing the body with
      `'quantity'` raises TypeError and the answer is 500. Any other body
      makes `in` itself raise TypeError. */
  function Handle(reading: Reading, data: Json, schema: seq<string>): (r: Response)
    ensures r.Ready? <==>
      data.Obj? && WellFormed(reading, data.fields) &&
      !(exists k :: k in data.fields && IsContainer(data.fields[k]))
    ensures r.Ready? ==> |r.row| == |schema|
    ensures r.BadRequest? ==>
      r.error == QuantityError || r.error == PriceError ||
      (|Missing(Present(data))| > 0 && r.error == MissingMessage(Missing(Present(data))))
    ensures data.Obj? ==> r == HandleRecord(reading, data.fields, schema)
    ensures (data.Arr? || data.Str?) ==>
      !r.Ready? && (r.BadRequest? <==> |Missing(Present(data))| > 0) &&
      (r.BadRequest? ==> r.error == MissingMessage(Missing(Present(data))))
    ensures !(data.Obj? || data.Arr? || data.Str?) ==> r == ServerError
  {
    match data
    case Obj(record) =>
      AbsentOnlyReadsFields(Required, Present(data), record.Keys);
      HandleRecord(reading, record, schema)
    case Arr(_) =>
      var missing := Missing(Present(data));
      if |missing| > 0 then BadRequest(MissingMessage(missing)) else ServerError
    case Str(_) =>
      var missing := Missing(Present(data));
      if |missing| > 0 then BadRequest(MissingMessage(missing)) else ServerError
    case _ => ServerError
  }

  /** Position i of the row holds the value for `schema[i]`, derived from
      the record's fields. */
  lemma RowFromRecord(reading: Reading, record: map<string, Json>, schema: seq<string>)
    requires WellFormed(reading, record)
    requires forall k :: k in record ==> !IsContainer(record[k])
    ensures Handle(reading, Obj(record), schema) == HandleRecord(reading, record, schema) ==
      Ready(seq(|schema|, i requires 0 <= i < |schema| => ExpectedCell(record, schema[i])))
  {
    EncodedCell(record, "");
    var columns := Encode(record).columns;
    var expected := seq(|schema|, i requires 0 <= i < |schema| => ExpectedCell(record, schema[i]));
    assert Aligned(columns, schema) == expected by {
      forall i | 0 <= i < |schema|
        ensures Aligned(columns, schema)[i] == expected[i]
      {
        EncodedCell(record, schema[i]);
      }
    }
    assert HandleRecord(reading, record, schema) == Ready(Aligned(columns, schema));
  }

  /** Replacing one string value by another never changes the verdict: a
      string is never a number, and the keys stay the same. */
  lemma StringSwapKeepsVerdict(reading: Reading, record: map<string, Json>, field: string, a: string, b: string)
    ensures ValidateAs(reading, record[field := Str(a)]) == ValidateAs(reading, record[field := Str(b)])
  {
    var ra := record[field := Str(a)];
    var rb := record[field := Str(b)];
    assert ra.Keys == rb.Keys;
  }

  /** On object bodies, two string values of a field whose indicators are
      both outside the schema give the same response. */
  lemma RecordCollapses(reading: Reading, record: map<string, Json>, schema: seq<string>, field: string, a: string, b: string)
    requires IndicatorName(field, a) !in schema && IndicatorName(field, b) !in schema
    ensures HandleRecord(reading, record[field := Str(a)], schema) == HandleRecord(reading, record[field := Str(b)], schema)
  {
    var ra := record[field := Str(a)];
    var rb := record[field := Str(b)];
    StringSwapKeepsVerdict(reading, record, field, a, b);
    if ValidateAs(reading, ra).Accepted? {
      assert ra.Keys == rb.Keys;
      assert forall k :: k in ra ==> (IsContainer(ra[k]) <==> IsContainer(rb[k]));
      if forall k :: k in ra ==> !IsContainer(ra[k]) {
        RowFromRecord(reading, ra, schema);
        RowFromRecord(reading, rb, schema);
        ExpectedRowsAgree(record, field, a, b, schema);
      }
    }
  }

  /** The one-hot encoding does not drop the first category, but the schema
      was trained with `drop_first=True`: the baseline category has no
      schema column, and neither has a category never seen in training. Any
      two such values of a field give the same response. */
  lemma UnseenCategoryCollapses(reading: Reading, record: map<string, Json>, schema: seq<string>, field: string, a: string, b: string)
    requires IndicatorName(field, a) !in schema && IndicatorName(field, b) !in schema
    ensures Handle(reading, Obj(record[field := Str(a)]), schema) == Handle(reading, Obj(record[field := Str(b)]), schema)
  {
    RecordCollapses(reading, record, schema, field, a, b);
  }

  /** A NaN quantity reaches the model under the check as written; the
      intended check answers 400 with the quantity message. */
  lemma NaNReachesModelAsWritten(schema: seq<string>)
    ensures Handle(AsWritten, Obj(map["product" := Str("Laptop"), "customer" := Str("Ali"), "quantity" := Real(NaN), "price" := Int(1)]), schema).Ready?
    ensures Handle(Intended, Obj(map["product" := Str("Laptop"), "customer" := Str("Ali"), "quantity" := Real(NaN), "price" := Int(1)]), schema)
         == BadRequest(QuantityError)
  {
    var record := map["product" := Str("Laptop"), "customer" := Str("Ali"), "quantity" := Real(NaN), "price" := Int(1)];
    NaNPassesAsWritten();
    assert forall k :: k in record ==> !IsContainer(record[k]);
  }

  /** In a list body, `key in data` is element membership: a list holding
      only the string "product" lacks the other three keys. */
  lemma ListBodyMissing()
    ensures Missing(Present(Arr([Str("product")]))) == ["customer", "quantity", "price"]
  {
    var data := Arr([Str("product")]);
    var have := Present(data);
    assert "product" in have by {
      assert Contains(data, "product") == Some(true);
    }
    assert "customer" !in have by {
      assert Str("customer") != Str("product");
    }
    assert "quantity" !in have by {
      assert Str("quantity") != Str("product");
    }
    assert "price" !in have by {
      assert Str("price") != Str("product");
    }
    AbsentOnlyReadsFields(Required, have, {"product"});
  }

  /** A list body naming only "product" is answered 400 with the other
      three keys as missing, as if it were a record lacking them. */
  lemma ListBodyExample(reading: Reading, schema: seq<string>)
    ensures Handle(reading, Arr([Str("product")]), schema) == BadRequest(MissingMessage(["customer", "quantity", "price"]))
  {
    ListBodyMissing();
  }
}
