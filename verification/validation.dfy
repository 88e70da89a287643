/** The validation block of the `predict` handler (api/routes/v1.py): the
    four required keys must be present, then `quantity` must be a positive
    number, then `price` must be; the first failed check decides the error. */
module Validation {
  import opened Values

  /** The required keys, in the order the missing-fields error lists them. */
  const Required: seq<string> := ["product", "customer", "quantity", "price"]

  const MissingPrefix: string := "Missing fields: "
  const QuantityError: string := "Quantity must be a positive number."
  const PriceError: string := "Price must be a positive number."

  datatype Verdict = Accepted | Rejected(message: string)

  /** Python's `sep.join(xs)`. */
  function Join(xs: seq<string>, sep: string): string
    decreases |xs|
  {
    if |xs| == 0 then ""
    else if |xs| == 1 then xs[0]
    else xs[0] + sep + Join(xs[1..], sep)
  }

  /** `a` is `b` with some entries removed and the rest in their original order. */
  predicate IsSubsequence(a: seq<string>, b: seq<string>)
    decreases |b|
  {
    |a| == 0 || (|b| > 0 && ((a[0] == b[0] && IsSubsequence(a[1..], b[1..])) || IsSubsequence(a, b[1..])))
  }

  /** The entries of `fields` that `have` lacks, in the order of `fields`:
      the list comprehension `[f for f in fields if f not in data]`. */
  function Absent(fields: seq<string>, have: set<string>): (r: seq<string>)
    ensures IsSubsequence(r, fields)
    ensures forall x :: x in r <==> x in fields && x !in have
    decreases |fields|
  {
    if |fields| == 0 then []
    else if fields[0] in have then Absent(fields[1..], have)
    else [fields[0]] + Absent(fields[1..], have)
  }

  /** Absent looks at `have` only through the entries of `fields`. */
  lemma {:induction false} AbsentOnlyReadsFields(fields: seq<string>, h1: set<string>, h2: set<string>)
    requires forall x :: x in fields ==> (x in h1 <==> x in h2)
    ensures Absent(fields, h1) == Absent(fields, h2)
    decreases |fields|
  {
    if |fields| > 0 {
      AbsentOnlyReadsFields(fields[1..], h1, h2);
    }
  }

  /** The required keys that `have` lacks, in the fixed order of Required. */
  function Missing(have: set<string>): seq<string> {
    Absent(Required, have)
  }

  /** The error the handler returns when `missing` is non-empty. */
  function MissingMessage(missing: seq<string>): string {
    MissingPrefix + Join(missing, ", ")
  }

  /** How the quantity and price checks read "a positive number". */
  datatype Reading =
    | /** `not isinstance(v, (int, float)) or v <= 0` rejects; NaN passes. */
      AsWritten
    | /** the value is a number strictly above zero. */
      Intended

  /** The quantity/price check under the given reading. */
  predicate Positive(reading: Reading, v: Json) {
    IsNumber(v) &&
    match reading
    case AsWritten => !AtMostZero(v)
    case Intended => AboveZero(v)
  }

  /** All four required keys are keys of the record. */
  predicate HasRequired(record: map<string, Json>) {
    "product" in record && "customer" in record && "quantity" in record && "price" in record
  }

  /** What a record must satisfy to pass the checks under `reading`. */
  predicate WellFormed(reading: Reading, record: map<string, Json>) {
    HasRequired(record) && Positive(reading, record["quantity"]) && Positive(reading, record["price"])
  }

  /** The validation block, with the quantity/price check read as `reading`. */
  function ValidateAs(reading: Reading, record: map<string, Json>): (v: Verdict)
    ensures v.Accepted? <==> WellFormed(reading, record)
    ensures v.Rejected? ==>
      v.message == QuantityError || v.message == PriceError ||
      (v.message == MissingMessage(Missing(record.Keys)) && !HasRequired(record))
  {
    var missing := Missing(record.Keys);
    if |missing| > 0 then Rejected(MissingMessage(missing))
    else if !Positive(reading, record["quantity"]) then Rejected(QuantityError)
    else if !Positive(reading, record["price"]) then Rejected(PriceError)
    else Accepted
  }

  /** The validation the rest of the model uses: NaN is not a positive number. */
  function Validate(record: map<string, Json>): (v: Verdict)
    ensures v.Accepted? <==> WellFormed(Intended, record)
    ensures v.Accepted? ==> AboveZero(record["quantity"]) && AboveZero(record["price"])
  {
    ValidateAs(Intended, record)
  }

  /** A record lacking a required key is rejected with "Missing fields: "
      followed by every absent key, in the order product, customer, quantity,
      price, joined by ", "; the values of quantity and price play no part. */
  lemma MissingFieldsReported(reading: Reading, record: map<string, Json>)
    requires !HasRequired(record)
    ensures ValidateAs(reading, record) == Rejected(MissingPrefix + Join(Missing(record.Keys), ", "))
    ensures forall f :: f in Missing(record.Keys) <==> f in Required && f !in record
    ensures IsSubsequence(Missing(record.Keys), Required)
  {
  }

  /** With every key present, a quantity that is not a positive number is
      reported before anything about the price. */
  lemma QuantityCheckedSecond(reading: Reading, record: map<string, Json>)
    requires HasRequired(record)
    requires !Positive(reading, record["quantity"])
    ensures ValidateAs(reading, record) == Rejected(QuantityError)
  {
  }

  /** The price is judged only once the keys and the quantity have passed. */
  lemma PriceCheckedLast(reading: Reading, record: map<string, Json>)
    requires HasRequired(record) && Positive(reading, record["quantity"])
    ensures ValidateAs(reading, record) == Rejected(PriceError) <==> !Positive(reading, record["price"])
  {
  }

  /** Keys other than the four required ones never change the verdict. */
  lemma ExtraKeysIgnored(reading: Reading, record: map<string, Json>, extra: map<string, Json>)
    requires forall k :: k in extra ==> k !in Required
    ensures ValidateAs(reading, record + extra) == ValidateAs(reading, record)
  {
    AbsentOnlyReadsFields(Required, (record + extra).Keys, record.Keys);
  }

  /** A record missing only `price`, with a negative quantity: the missing key
      is what gets reported. */
  lemma MissingPriceExample()
    ensures Validate(map["product" := Str("Laptop"), "customer" := Str("Ali"), "quantity" := Int(-1)])
         == Rejected("Missing fields: price")
  {
    var record := map["product" := Str("Laptop"), "customer" := Str("Ali"), "quantity" := Int(-1)];
    assert Missing(record.Keys) == ["price"];
  }

  /** `True` is the integer 1 to Python, so it passes as a positive quantity. */
  lemma TrueIsPositive(reading: Reading)
    ensures Positive(reading, Bool(true)) && !Positive(reading, Bool(false))
  {
  }

  /** A quantity literal below the smallest double, such as `1e-400`,
      reaches the handler as `0.0`, and every record holding it is rejected
      with the quantity message under either reading. */
  lemma UnderflowedQuantityRejected(reading: Reading, record: map<string, Json>)
    requires HasRequired(record) && record["quantity"] == Real(Finite(0.0))
    ensures ValidateAs(reading, record) == Rejected(QuantityError)
  {
  }

  /** The check as written lets a NaN quantity through; the intended check
      rejects it. */
  lemma NaNPassesAsWritten()
    ensures ValidateAs(AsWritten, map["product" := Str("Laptop"), "customer" := Str("Ali"), "quantity" := Real(NaN), "price" := Int(1)])
         == Accepted
    ensures Validate(map["product" := Str("Laptop"), "customer" := Str("Ali"), "quantity" := Real(NaN), "price" := Int(1)])
         == Rejected(QuantityError)
  {
    var record := map["product" := Str("Laptop"), "customer" := Str("Ali"), "quantity" := Real(NaN), "price" := Int(1)];
    assert Missing(record.Keys) == [];
  }

  /** NaN is the only value on which the two readings differ. */
  lemma ReadingsAgreeWithoutNaN(record: map<string, Json>)
    requires "quantity" in record ==> record["quantity"] != Real(NaN)
    requires "price" in record ==> record["price"] != Real(NaN)
    ensures ValidateAs(AsWritten, record) == Validate(record)
  {
  }
}
