# Sales predictor: the request side of the prediction endpoint

This project models the request side of `POST /api/v1/predict` in the sales
predictor service, as written in `api/routes/v1.py`. The handler takes the
decoded JSON body and does three things in order:

1. It checks that the record has the four required keys: `product`,
   `customer`, `quantity` and `price`.
2. It checks that `quantity` and then `price` are positive numbers.
3. It one-hot encodes the record with `pd.get_dummies` and aligns the result
   with the feature columns saved at training time. Schema columns the
   encoding lacks become 0. The frame is then cut down to the schema's
   columns, in the schema's order.

The model does not cover the call to the trained regressor itself.

The project has four modules:

- `Values` (`values.dfy`) defines the decoded JSON value and the parts of
  Python's semantics that the handler relies on:
  - `isinstance(v, (int, float))`, where booleans count as integers;
  - `<= 0` and `> 0` on ints, floats, infinities and NaN;
  - the `in` operator on objects, lists and strings.
- `Validation` (`validation.dfy`) models the validation block. It covers the
  missing-fields message, the order of the three checks and their exact
  error strings.
- `Features` (`features.dfy`) covers three things:
  - the one-hot encoder (`Encode`);
  - the zero-padding and selection loop (`Align`);
  - the reference row the loop must produce (`Aligned`).
- `Handler` (`handler.dfy`) composes the three. It shows how each body shape
  ends: a 400 with a message, a 500 from the catch-all, or the feature row
  handed to `model.predict`.

How the encoder treats each kind of field value:

- A string field `f` with value `v` becomes column `f_v` holding 1.
- An int, float or boolean field keeps its own name and value.
- A null field produces no column.
- A list or dict value cannot be hashed by pandas, so the encoding fails
  and the handler answers 500.

The feature schema is trained with `drop_first=True`
(`model/random_forest/train_and_save.py:16,36`). The request-time encoding
does not drop the first category. Alignment therefore discards two kinds of
indicator without any signal: the baseline category's indicator, and any
indicator for a category unseen in training. `Handler.UnseenCategoryCollapses`
proves that such a category value cannot be told apart from any other value
whose indicator is missing from the schema. The test suite's alignment loop
(`tests/test_random_forest_model.py:23-26`) repeats the handler's loop.

Three further facts about `api/routes/v1.py` shape the model:

- The handler takes one JSON object per request and answers with one
  prediction.
- The encoder creates indicator columns that are not in the schema. The
  selection at line 39 then drops them.
- A list or string body is not rejected up front. Python's `in` runs the
  missing-fields check on it, so the answer is a 400 naming missing keys
  or, when nothing is reported missing, a 500.

`Handler.Handle` and `Handler.HandleRecord` take the quantity/price check as
a parameter. `AsWritten` is the check in the code as it stands; `Intended`
is the corrected check described under "## Findings".

## Model

| member | source | states |
|---|---|---|
| `Values.SubstringOccurs` | api/routes/v1.py:22 | Python's `key in s` on a string body is true exactly when `key` occurs as a contiguous run at some index of `s` |
| `Values.Contains` | api/routes/v1.py:22 | `key in data` is key lookup for an object, element equality for a list and substring occurrence for a string; any other body makes Python raise TypeError |
| `Validation.Absent` | api/routes/v1.py:21-22 | the missing list holds exactly the required keys the record lacks, in the order product, customer, quantity, price |
| `Validation.AbsentOnlyReadsFields` | api/routes/v1.py:22 | the missing list depends only on which of the required keys are present, never on other keys |
| `Validation.ValidateAs` | api/routes/v1.py:21-30 | a record is accepted exactly when all four keys are present and quantity and price pass the positivity check; every rejection carries the missing-fields message, "Quantity must be a positive number." or "Price must be a positive number." |
| `Validation.Validate` | api/routes/v1.py:26-30 | an accepted record has a quantity and a price strictly above zero (NaN excluded) |
| `Validation.MissingFieldsReported` | api/routes/v1.py:21-24 | a record lacking any required key gets "Missing fields: " followed by every absent key, in fixed order, joined by ", ", whatever quantity and price hold |
| `Validation.QuantityCheckedSecond` | api/routes/v1.py:26-27 | with all keys present, a quantity that is not a number, or is at most 0, is rejected with the quantity message whatever the price is |
| `Validation.PriceCheckedLast` | api/routes/v1.py:29-30 | once keys and quantity pass, the price message is returned exactly when the price is not a positive number |
| `Validation.ExtraKeysIgnored` | api/routes/v1.py:21-30 | keys other than the four required ones never change the verdict |
| `Validation.MissingPriceExample` | api/routes/v1.py:21-24 | a record missing only `price`, with quantity -1, is answered "Missing fields: price" and nothing about the quantity |
| `Validation.TrueIsPositive` | api/routes/v1.py:26 | `True` passes as a positive number and `False` does not, because `bool` is an `int` in Python |
| `Validation.UnderflowedQuantityRejected` | api/routes/v1.py:26-27 | any record holding all four keys whose quantity decodes to `0.0`, as a positive literal too small for a double does, is rejected with the quantity message under either reading, whatever the price |
| `Validation.NaNPassesAsWritten` | api/routes/v1.py:26-30 | the check as written accepts a NaN quantity; the intended check rejects it with the quantity message |
| `Validation.ReadingsAgreeWithoutNaN` | api/routes/v1.py:26-30 | when neither quantity nor price is NaN, the check as written and the intended check give the same verdict |
| `Features.Encode` | api/routes/v1.py:32-33 | numeric and boolean fields keep their name and value; a string field `f` with value `v` yields column `f_v` set to 1; no other column appears; a list or dict value makes the encoding fail |
| `Features.EncodedCell` | api/routes/v1.py:32-33 | for a record with no list or dict value the encoding succeeds, and column c holds the field's own value when c names a numeric field, 1 when c is a string field's indicator, and is otherwise absent, so it reads as 0 |
| `Features.Align` | api/routes/v1.py:35-39 | the zero-padding loop followed by the column selection yields one cell per schema column, in schema order: the encoded value where the column exists, 0 where it does not |
| `Features.AlignedAgreement` | api/routes/v1.py:35-39 | two encodings give the same row if and only if they agree on every schema column |
| `Features.OutsideColumnsDropped` | api/routes/v1.py:33-39 | encoded columns outside the schema never affect the row |
| `Features.MissingColumnIsZero` | api/routes/v1.py:35-37 | a schema column missing from the encoding reads exactly like an encoded explicit 0 |
| `Handler.Handle` | api/routes/v1.py:17-39 | the feature row is produced exactly for an object body that passes validation and has no list or dict values, and it has as many cells as the schema has columns; an object body is handled as a record; a list or string body never reaches the model, and is a 400 with the missing-fields message exactly when `in` reports a key missing, a 500 otherwise; every 400 carries one of the three validation messages; a null, boolean or number body is a 500 |
| `Handler.HandleRecord` | api/routes/v1.py:21-39 | on an object body: a 400 exactly when validation rejects, carrying its message; the feature row exactly when validation accepts and no value is a list or dict; a 500 exactly when validation accepts and some value is a list or dict; the row has the schema's length |
| `Handler.RowFromRecord` | api/routes/v1.py:32-39 | an object body that passes validation and holds no list or dict value is answered with a row in which cell i is the record's own value when `schema[i]` is a numeric field, 1 when it is the indicator of a string field's value, and 0 otherwise |
| `Handler.UnseenCategoryCollapses` | api/routes/v1.py:33-39 | two values of a field whose indicator columns are both absent from the schema give the same response; this covers the baseline category dropped at training and any unseen category |
| `Handler.NaNReachesModelAsWritten` | api/routes/v1.py:26-39 | under the check as written a record with a NaN quantity reaches the model; under the corrected check it is answered 400 with the quantity message |
| `Handler.ListBodyExample` | api/routes/v1.py:21-24 | a list body holding only "product" is answered 400 with customer, quantity and price reported missing |

## Left out

- The call to the trained regressor (`model.predict`) and the loading of the model and column files are not modelled. `Handler.Handle` stops at the feature row that would be passed to the regressor.
- `round(prediction, 2)` is left out because it is floating-point formatting of the model's output.
- Flask plumbing is left out: the blueprint, routing, `request.get_json()`, `jsonify` and the status codes. The outcomes are written as `Ready`, `BadRequest` (400) and `ServerError` (500). The text of the 500 message, `str(e)`, is not modelled.
- The JSON decoder itself is left out. Duplicate keys in an object are assumed to be resolved before the body reaches the handler; Python keeps the last one.
- Floats are modelled as the infinities, NaN, and the exact real each decoded double stands for; the decoder's rounding of a literal to a double is not modelled. A decoded value compares with zero exactly as the real it stands for. Two decoder cases must be written out by hand. A literal too large for a double decodes to an infinity. A positive literal too small for a double, such as `1e-400`, decodes to `0.0`, so `0.0 <= 0` holds at line 26 and the quantity or price is rejected; it must be written `Finite(0.0)`, not as the literal's exact value.
- `Features.Encode`: when two encoded columns share a name, the model keeps one column. This happens when a numeric field has the same name as another field's indicator column; the numeric value is kept. It also happens when two string fields give the same indicator name, as `"a": "b_c"` and `"a_b": "c"` both give `a_b_c`. pandas keeps both columns, and selecting that name for the schema at line 39 would then yield an extra feature.
- `Features.Encode`: Python integers outside [-2^63, 2^64) are treated like other integers. pandas stores them in an object column and one-hot encodes them instead. Integers in [2^63, 2^64) go into a `uint64` column and stay numeric, as in the model.
- `Features.Encode`: indicators are written as the integer 1. pandas 2 stores them as the boolean `True`, which the regressor reads as 1.
- The training scripts and the model-quality tests (mean absolute error and R² thresholds) are left out. They are offline tooling and floating-point statistics. Only the column names they save are used, as the schema parameter.

## Findings

| source | as written | input that shows it | evidently intended | confidence | as-written member | corrected member |
|---|---|---|---|---|---|---|
| api/routes/v1.py:26-30 | `not isinstance(v, (int, float)) or v <= 0` rejects; NaN is a float, and `NaN <= 0` is false, so a NaN quantity or price is accepted | body `{"product": "Laptop", "customer": "Ali", "quantity": NaN, "price": 1}`, which Python's `json` module decodes by default | only a number strictly above zero passes, as the error message says | medium, not executed | `Validation.NaNPassesAsWritten` | `Validation.Validate` |

`Validation.ValidateAs(AsWritten, ·)` models the check as written.
`Validation.Validate` is the corrected check, `ValidateAs(Intended, ·)`.
`Handler.Handle(AsWritten, ·)` models the handler as written, and
`Handler.Handle(Intended, ·)` is the handler with the corrected check.
`Handler.NaNReachesModelAsWritten` shows the difference at the handler level.
`Validation.ReadingsAgreeWithoutNaN` proves that the two checks agree on every
record whose quantity and price are not NaN.
