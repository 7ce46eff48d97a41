/**
  The request schemas of lab2_app/Schemas.py: the pre-load hooks that strip
  strings, the field rules (required, strict integer ids >= 1, names of length
  1..64, an ISO-8601 datetime, a positive decimal amount), and one loader per
  schema that returns either the loaded values or a map from field to message.

  Conventions of the validation library that decide outcomes are modelled with
  its default messages: an unknown key is an error, a null value is an error,
  and a ValidationError raised by a pre-load hook stops the load with the single
  error `{"_schema": message}`. The hooks run in the library's order (sorted by
  name); lemmas show that the other order gives the same result.
*/
module Schemas {
  import opened Wrappers
  import opened Json
  import opened Text
  import opened Decimals
  import opened Time

  /** Field name (or "_schema") to message. */
  type FieldErrors = map<string, string>

  // ----- Messages of the validation library -----
  const SchemaKey := "_schema"
  const NotNull := "Field may not be null."
  const NotInteger := "Not a valid integer."
  const NotString := "Not a valid string."
  const NotDateTime := "Not a valid datetime."
  const UnknownField := "Unknown field."
  const AtLeastOne := "Must be greater than or equal to 1."
  const NameLength := "Length must be between 1 and 64."

  // ----- Messages of the schemas -----
  const StringExpected := "string expected"
  const StringEmpty := "string cannot be empty"
  const NameRequired := "name is required"
  const UserIdRequired := "user_id is required"
  const CategoryIdRequired := "category id is required"
  const RecordIdRequired := "record_id is required"
  const RecordCategoryIdRequired := "category_id is required"
  const DateTimeRequired := "datetime (ISO 8601) is required"
  const AmountRequired := "amount is required"
  const AmountNotNumber := "amount must be a number"
  const AmountNaN := "amount is invalid (NaN)"
  const AmountNotPositive := "amount must be > 0"

  const MaxNameLength := 64

  // ----- Pre-load hooks -----

  /** `_strip_string`: the stripped string, or why it is refused. */
  function StripString(v: JsonValue): (r: Result<string, string>)
    ensures r.Ok? <==> v.JStr? && !AllSpace(v.s)
    ensures r.Ok? ==> r.value == Strip(v.s) && r.value != []
    ensures !v.JStr? ==> r == Err(StringExpected)
    ensures v.JStr? && AllSpace(v.s) ==> r == Err(StringEmpty)
  {
    if v.JStr? then
      StripEmptyIff(v.s);
      if Strip(v.s) == [] then Err(StringEmpty) else Ok(Strip(v.s))
    else Err(StringExpected)
  }

  function StripValue(v: JsonValue): JsonValue {
    if v.JStr? then JStr(Strip(v.s)) else v
  }

  /** The dictionary `strip_all_strings` leaves behind. */
  function StripAll(data: Body): Body {
    map k | k in data :: StripValue(data[k])
  }

  /**
    `BaseSchema.strip_all_strings`: visit every key and replace a string value by
    its stripped form, in place.
  */
  method StripAllStrings(data: Body) returns (out: Body)
    ensures out.Keys == data.Keys
    ensures forall k :: k in data && data[k].JStr? ==> out[k] == JStr(Strip(data[k].s))
    ensures forall k :: k in data && !data[k].JStr? ==> out[k] == data[k]
    ensures out == StripAll(data)
  {
    out := data;
    var pending := data.Keys;
    while pending != {}
      invariant pending <= data.Keys
      invariant out.Keys == data.Keys
      invariant forall k :: k in data && k !in pending ==> out[k] == StripValue(data[k])
      invariant forall k :: k in pending ==> out[k] == data[k]
      decreases pending
    {
      var k :| k in pending;
      var v := out[k];
      if v.JStr? {
        out := out[k := JStr(Strip(v.s))];
      }
      pending := pending - {k};
    }
  }

  /** Running `strip_all_strings` a second time changes nothing. */
  lemma StripAllIdempotent(data: Body)
    ensures StripAll(StripAll(data)) == StripAll(data)
  {
    forall k | k in data ensures StripValue(StripValue(data[k])) == StripValue(data[k]) {
      if data[k].JStr? { StripIdempotent(data[k].s); }
    }
  }

  lemma StripAllUpdate(data: Body, key: string, v: JsonValue)
    ensures StripAll(data[key := v]) == StripAll(data)[key := StripValue(v)]
  {
    var a := StripAll(data[key := v]);
    var b := StripAll(data)[key := StripValue(v)];
    assert a.Keys == b.Keys;
    forall k | k in a ensures a[k] == b[k] {
      if k != key { assert a[k] == StripValue(data[k]); }
    }
  }

  /** `strip_name` (of the user and category schemas). */
  function StripName(data: Body): Result<Body, FieldErrors> {
    if "name" in data then
      match StripString(data["name"])
      case Ok(s) => Ok(data["name" := JStr(s)])
      case Err(m) => Err(map[SchemaKey := m])
    else Ok(data)
  }

  /** `RecordCreateSchema.normalize`: strip `amount` when it is a string. */
  function Normalize(data: Body): Body {
    if "amount" in data && data["amount"].JStr? then data["amount" := JStr(Strip(data["amount"].s))]
    else data
  }

  /**
    Whichever of `strip_all_strings` and `strip_name` runs first, the outcome is
    the same: stripping is idempotent.
  */
  lemma StripNameOrderIrrelevant(data: Body)
    ensures StripName(StripAll(data)).Ok? <==> StripName(data).Ok?
    ensures StripName(data).Ok? ==> StripName(StripAll(data)).value == StripAll(StripName(data).value)
    ensures StripName(data).Err? ==> StripName(StripAll(data)) == StripName(data)
  {
    if "name" in data && data["name"].JStr? {
      var s := data["name"].s;
      StripIdempotent(s);
      StripEmptyIff(s);
      StripEmptyIff(Strip(s));
      var d := StripAll(data);
      assert d["name"] == JStr(Strip(s));
      if !AllSpace(s) {
        var once := data["name" := JStr(Strip(s))];
        assert StripName(data) == Ok(once);
        assert StripName(d) == Ok(d["name" := JStr(Strip(s))]);
        StripAllUpdate(data, "name", JStr(Strip(s)));
      }
    }
  }

  /** Whichever of `normalize` and `strip_all_strings` runs first, the outcome is the same. */
  lemma NormalizeOrderIrrelevant(data: Body)
    ensures Normalize(StripAll(data)) == StripAll(Normalize(data))
  {
    if "amount" in data && data["amount"].JStr? {
      StripIdempotent(data["amount"].s);
    }
  }

  // ----- Field rules -----

  /** A value a strict integer field with `Range(min=1)` accepts. */
  predicate IsStrictId(v: JsonValue) {
    v.JInt? && v.i >= 1
  }

  /** `fields.Integer(strict=True, validate=Range(min=1))` on a present value. */
  function LoadId(v: JsonValue): (r: Result<int, string>)
    ensures r.Ok? <==> IsStrictId(v)
    ensures r.Ok? ==> r.value == v.i
    ensures v.JNull? ==> r == Err(NotNull)
    ensures v.JInt? && v.i < 1 ==> r == Err(AtLeastOne)
    ensures !v.JInt? && !v.JNull? ==> r == Err(NotInteger)
  {
    match v
    case JNull => Err(NotNull)
    case JInt(i) => if i >= 1 then Ok(i) else Err(AtLeastOne)
    case _ => Err(NotInteger)   // floats, booleans, numeric strings, arrays, objects
  }

  function RequiredId(data: Body, key: string, required: string): Result<int, string> {
    if key in data then LoadId(data[key]) else Err(required)
  }

  function OptionalId(data: Body, key: string): Result<Option<int>, string> {
    if key !in data then Ok(None)
    else match LoadId(data[key])
      case Ok(i) => Ok(Some(i))
      case Err(m) => Err(m)
  }

  /** `name = fields.String(required=True, validate=Length(min=1, max=64))`. */
  function LoadName(data: Body): (r: Result<string, string>)
    ensures r.Ok? <==> "name" in data && data["name"].JStr? && 1 <= |data["name"].s| <= MaxNameLength
    ensures r.Ok? ==> r.value == data["name"].s
    ensures "name" !in data ==> r == Err(NameRequired)
    ensures "name" in data && data["name"].JStr? && !(1 <= |data["name"].s| <= MaxNameLength) ==> r == Err(NameLength)
    ensures "name" in data && data["name"].JNull? ==> r == Err(NotNull)
    ensures "name" in data && !data["name"].JStr? && !data["name"].JNull? ==> r == Err(NotString)
  {
    if "name" !in data then Err(NameRequired)
    else match data["name"]
      case JStr(s) => if 1 <= |s| <= MaxNameLength then Ok(s) else Err(NameLength)
      case JNull => Err(NotNull)
      case _ => Err(NotString)
  }

  /** `datetime = fields.DateTime(required=True, format="iso")`. */
  function LoadDateTime(data: Body, parseTime: string -> Option<Timestamp>): (r: Result<Timestamp, string>)
    ensures r.Ok? <==> "datetime" in data && data["datetime"].JStr? && data["datetime"].s != ""
                       && parseTime(data["datetime"].s).Some?
    ensures r.Ok? ==> r.value == parseTime(data["datetime"].s).value
    ensures "datetime" !in data ==> r == Err(DateTimeRequired)
    ensures "datetime" in data && data["datetime"].JNull? ==> r == Err(NotNull)
    ensures "datetime" in data && !data["datetime"].JNull? && r.Err? ==> r == Err(NotDateTime)
  {
    if "datetime" !in data then Err(DateTimeRequired)
    else match data["datetime"]
      case JNull => Err(NotNull)
      case JStr(s) =>
        if s == "" then Err(NotDateTime)
        else (match parseTime(s)
          case Some(t) => Ok(t)
          case None => Err(NotDateTime))
      case _ => Err(NotDateTime)
  }

  // ----- validate_amount -----

  /** What `validate_amount` can do: accept, raise ValidationError, or raise anything else. */
  datatype AmountCheck = AmountOk(value: Decimal) | AmountRejected(message: string) | AmountRaises

  /**
    Python's `d == Decimal("NaN")`: `None` where the comparison raises
    InvalidOperation (a signaling NaN); otherwise false, since nothing equals a NaN.
  */
  function EqualsNaN(d: Decimal): (r: Option<bool>)
    ensures r.None? <==> IsNaN(d) && d.signaling
    ensures r.Some? ==> !r.value
  {
    if d.NaN? && d.signaling then None else Some(false)
  }

  /** Python's `d <= Decimal("0")`: `None` where the comparison raises (any NaN). */
  function AtMostZero(d: Decimal): (r: Option<bool>)
    ensures r.None? <==> IsNaN(d)
    ensures r.Some? ==> (r.value <==> !IsPositive(d))
  {
    if d.NaN? then None else Some(!IsPositive(d))
  }

  /** `validate_amount` as the source writes it. */
  function ValidateAmountAsWritten(value: string): AmountCheck {
    match Parse(value)
    case None => AmountRejected(AmountNotNumber)
    case Some(dec) =>
      match EqualsNaN(dec)
      case None => AmountRaises
      case Some(isNaN) =>
        if isNaN then AmountRejected(AmountNaN)
        else match AtMostZero(dec)
          case None => AmountRaises
          case Some(atMostZero) => if atMostZero then AmountRejected(AmountNotPositive) else AmountOk(dec)
  }

  /**
    `validate_amount` with the NaN test it evidently intends (`dec.is_nan()`):
    the value every other part of the model uses.
  */
  function ValidateAmount(value: string): (r: Result<Decimal, string>)
    ensures r.Ok? <==> Parse(value).Some? && IsPositive(Parse(value).value)
    ensures r.Ok? ==> r.value == Parse(value).value
    ensures Parse(value).None? ==> r == Err(AmountNotNumber)
    ensures Parse(value).Some? && IsNaN(Parse(value).value) ==> r == Err(AmountNaN)
    ensures (Parse(value).Some? && !IsNaN(Parse(value).value) && !IsPositive(Parse(value).value))
              ==> r == Err(AmountNotPositive)
  {
    match Parse(value)
    case None => Err(AmountNotNumber)
    case Some(dec) =>
      if dec.NaN? then Err(AmountNaN)
      else if !IsPositive(dec) then Err(AmountNotPositive)
      else Ok(dec)
  }

  /** As written, a NaN amount makes `validate_amount` raise instead of rejecting it. */
  lemma AsWrittenRaisesOnNaN(value: string)
    requires Parse(value).Some? && IsNaN(Parse(value).value)
    ensures ValidateAmountAsWritten(value) == AmountRaises
    ensures ValidateAmount(value) == Err(AmountNaN)
  {
  }

  lemma AsWrittenNaNExample()
    ensures ValidateAmountAsWritten("NaN") == AmountRaises
  {
    ParseNaNExample();
  }

  /** As written, the "(NaN)" message can never be produced. */
  lemma AsWrittenNeverReportsNaN(value: string)
    ensures ValidateAmountAsWritten(value) != AmountRejected(AmountNaN)
  {
  }

  /** On every amount that is not a NaN, the corrected validator agrees with the source. */
  lemma CorrectedAgreesOffNaN(value: string)
    requires Parse(value).None? || !IsNaN(Parse(value).value)
    ensures ValidateAmountAsWritten(value) == match ValidateAmount(value)
      case Ok(d) => AmountOk(d)
      case Err(m) => AmountRejected(m)
  {
  }

  lemma AmountExamples()
    ensures ValidateAmount("420.75") == Ok(Finite(false, 42075, -2))
    ensures ValidateAmount("0") == Err(AmountNotPositive)
    ensures ValidateAmount("abc") == Err(AmountNotNumber)
  {
    ParseAmountExample();
    ParseZeroExample();
    ParseGarbageExample();
  }

  /** `amount = fields.String(required=True)` followed by `validate_amount`. */
  function LoadAmount(data: Body): (r: Result<Decimal, string>)
    ensures r.Ok? <==> "amount" in data && data["amount"].JStr? && ValidateAmount(data["amount"].s).Ok?
    ensures r.Ok? ==> IsPositive(r.value) && r.value == Parse(data["amount"].s).value
    ensures "amount" !in data ==> r == Err(AmountRequired)
    ensures "amount" in data && data["amount"].JStr? ==> r == ValidateAmount(data["amount"].s)
    ensures "amount" in data && data["amount"].JNull? ==> r == Err(NotNull)
    ensures "amount" in data && !data["amount"].JStr? && !data["amount"].JNull? ==> r == Err(NotString)
  {
    if "amount" !in data then Err(AmountRequired)
    else match data["amount"]
      case JStr(s) => ValidateAmount(s)
      case JNull => Err(NotNull)
      case _ => Err(NotString)
  }

  /** An amount string the record schema accepts once stripped. */
  predicate AcceptedAmount(s: string) {
    Parse(Strip(s)).Some? && IsPositive(Parse(Strip(s)).value)
  }

  // ----- Assembling the error map -----

  function ErrorOf<T>(key: string, r: Result<T, string>): (e: FieldErrors)
    ensures e.Keys == if r.Err? then {key} else {}
    ensures r.Err? ==> e[key] == r.error
  {
    if r.Err? then map[key := r.error] else map[]
  }

  /** Every key that is not a field of the schema is refused. */
  function Unknown(data: Body, fields: set<string>): (e: FieldErrors)
    ensures e.Keys == data.Keys - fields
    ensures forall k :: k in e ==> e[k] == UnknownField
  {
    map k | k in data.Keys - fields :: UnknownField
  }

  // ----- The schemas -----

  /** A schema whose only field is one required strict id (the path and delete schemas). */
  function LoadSingleId(data: Body, key: string, required: string): (r: Result<int, FieldErrors>)
    ensures r.Ok? <==> data.Keys == {key} && IsStrictId(data[key])
    ensures r.Ok? ==> r.value == data[key].i
    ensures key !in data ==> r.Err? && key in r.error && r.error[key] == required
    ensures key in data && !IsStrictId(data[key]) ==> r.Err? && key in r.error && r.error[key] == LoadId(data[key]).error
    ensures forall k :: k in data && k != key ==> r.Err? && k in r.error && r.error[k] == UnknownField
  {
    var d := StripAll(data);
    var id := RequiredId(d, key, required);
    var unknown := Unknown(d, {key});
    assert key in data ==> LoadId(d[key]) == LoadId(data[key]);
    if id.Ok? && d.Keys <= {key} then Ok(id.value) else Err(ErrorOf(key, id) + unknown)
  }

  /** `UserIdPathSchema`. */
  function UserIdPath(data: Body): (r: Result<int, FieldErrors>)
    ensures r.Ok? <==> data.Keys == {"user_id"} && IsStrictId(data["user_id"])
    ensures r.Ok? ==> r.value == data["user_id"].i
    ensures "user_id" !in data ==> r.Err? && "user_id" in r.error && r.error["user_id"] == UserIdRequired
  {
    LoadSingleId(data, "user_id", UserIdRequired)
  }

  /** `CategoryDeleteSchema`. */
  function CategoryDelete(data: Body): (r: Result<int, FieldErrors>)
    ensures r.Ok? <==> data.Keys == {"id"} && IsStrictId(data["id"])
    ensures r.Ok? ==> r.value == data["id"].i
    ensures "id" !in data ==> r.Err? && "id" in r.error && r.error["id"] == CategoryIdRequired
  {
    LoadSingleId(data, "id", CategoryIdRequired)
  }

  /** `RecordIdPathSchema`. */
  function RecordIdPath(data: Body): (r: Result<int, FieldErrors>)
    ensures r.Ok? <==> data.Keys == {"record_id"} && IsStrictId(data["record_id"])
    ensures r.Ok? ==> r.value == data["record_id"].i
    ensures "record_id" !in data ==> r.Err? && "record_id" in r.error && r.error["record_id"] == RecordIdRequired
  {
    LoadSingleId(data, "record_id", RecordIdRequired)
  }

  /** `RecordUserQuerySchema`. */
  function RecordUserQuery(data: Body): (r: Result<int, FieldErrors>)
    ensures r.Ok? <==> data.Keys == {"user_id"} && IsStrictId(data["user_id"])
    ensures r.Ok? ==> r.value == data["user_id"].i
    ensures "user_id" !in data ==> r.Err? && "user_id" in r.error && r.error["user_id"] == UserIdRequired
  {
    LoadSingleId(data, "user_id", UserIdRequired)
  }

  /** A path parameter `n` as the handlers hand it to a single-id schema. */
  lemma PathIdLoads(key: string, required: string, n: int)
    ensures LoadSingleId(map[key := JInt(n)], key, required)
         == if n >= 1 then Ok(n) else Err(map[key := AtLeastOne])
  {
    var data := map[key := JInt(n)];
    var d := StripAll(data);
    assert d == data;
    var unknown := Unknown(d, {key});
    assert unknown == map[];
    assert ErrorOf(key, RequiredId(d, key, required)) + unknown == ErrorOf(key, RequiredId(d, key, required));
  }

  lemma NameStripFacts(data: Body)
    ensures "name" in data && data["name"].JStr? ==> (Strip(data["name"].s) == [] <==> AllSpace(data["name"].s))
  {
    if "name" in data && data["name"].JStr? { StripEmptyIff(data["name"].s); }
  }

  /** `UserCreateSchema`: `strip_all_strings`, then `strip_name`, then the `name` field. */
  function UserCreate(data: Body): (r: Result<string, FieldErrors>)
    ensures r.Ok? <==> data.Keys == {"name"} && data["name"].JStr?
                       && 1 <= |Strip(data["name"].s)| <= MaxNameLength
    ensures r.Ok? ==> r.value == Strip(data["name"].s)
    ensures "name" in data && !data["name"].JStr? ==> r == Err(map[SchemaKey := StringExpected])
    ensures ("name" in data && data["name"].JStr? && AllSpace(data["name"].s))
              ==> r == Err(map[SchemaKey := StringEmpty])
    ensures ("name" in data && data["name"].JStr? && |Strip(data["name"].s)| > MaxNameLength)
              ==> r.Err? && "name" in r.error && r.error["name"] == NameLength
    ensures "name" !in data ==> r.Err? && "name" in r.error && r.error["name"] == NameRequired
    ensures "name" !in data || (data["name"].JStr? && !AllSpace(data["name"].s)) ==>
              forall k :: k in data && k != "name" ==> r.Err? && k in r.error && r.error[k] == UnknownField
  {
    var d0 := StripAll(data);
    StripNameOrderIrrelevant(data);
    match StripName(d0)
    case Err(e) => Err(e)
    case Ok(d) =>
      var name := LoadName(d);
      var unknown := Unknown(d, {"name"});
      NameStripFacts(data);
      if name.Ok? && d.Keys <= {"name"} then Ok(name.value) else Err(ErrorOf("name", name) + unknown)
  }

  /** What `CategoryCreateSchema` loads. */
  datatype NewCategory = NewCategory(name: string, userId: Option<int>)

  /** `CategoryCreateSchema`: a required `name` and an optional owner `user_id`. */
  function CategoryCreate(data: Body): (r: Result<NewCategory, FieldErrors>)
    ensures r.Ok? <==> data.Keys <= {"name", "user_id"}
                       && "name" in data && data["name"].JStr?
                       && 1 <= |Strip(data["name"].s)| <= MaxNameLength
                       && ("user_id" in data ==> IsStrictId(data["user_id"]))
    ensures r.Ok? ==> r.value.name == Strip(data["name"].s)
    ensures r.Ok? ==> r.value.userId == if "user_id" in data then Some(data["user_id"].i) else None
    ensures "name" in data && !data["name"].JStr? ==> r == Err(map[SchemaKey := StringExpected])
    ensures ("name" in data && data["name"].JStr? && AllSpace(data["name"].s))
              ==> r == Err(map[SchemaKey := StringEmpty])
    ensures "name" !in data ==> r.Err? && "name" in r.error && r.error["name"] == NameRequired
    ensures (("name" !in data || (data["name"].JStr? && !AllSpace(data["name"].s)))
              && "user_id" in data && !IsStrictId(data["user_id"]))
              ==> r.Err? && "user_id" in r.error && r.error["user_id"] == LoadId(data["user_id"]).error
    ensures ("name" in data && data["name"].JStr? && |Strip(data["name"].s)| > MaxNameLength)
              ==> r.Err? && "name" in r.error && r.error["name"] == NameLength
    ensures "name" !in data || (data["name"].JStr? && !AllSpace(data["name"].s)) ==>
              forall k :: k in data && k !in {"name", "user_id"} ==> r.Err? && k in r.error && r.error[k] == UnknownField
  {
    var d0 := StripAll(data);
    StripNameOrderIrrelevant(data);
    match StripName(d0)
    case Err(e) => Err(e)
    case Ok(d) =>
      var name := LoadName(d);
      var owner := OptionalId(d, "user_id");
      var unknown := Unknown(d, {"name", "user_id"});
      NameStripFacts(data);
      assert "user_id" in data ==> d["user_id"] == StripValue(data["user_id"]);
      if name.Ok? && owner.Ok? && d.Keys <= {"name", "user_id"} then Ok(NewCategory(name.value, owner.value))
      else Err(ErrorOf("name", name) + ErrorOf("user_id", owner) + unknown)
  }

  /** A schema made of optional strict ids only (the two query schemas). */
  function LoadOptionalIds(data: Body, keys: set<string>): (r: Result<map<string, int>, FieldErrors>)
    ensures r.Ok? <==> data.Keys <= keys && forall k :: k in data ==> IsStrictId(data[k])
    ensures r.Ok? ==> r.value.Keys == data.Keys && forall k :: k in data ==> r.value[k] == data[k].i
    ensures forall k :: (k in data && k in keys && !IsStrictId(data[k]))
              ==> r.Err? && k in r.error && r.error[k] == LoadId(data[k]).error
    ensures forall k :: k in data && k !in keys ==> r.Err? && k in r.error && r.error[k] == UnknownField
  {
    var d := StripAll(data);
    assert d.Keys == data.Keys;
    assert forall k :: k in data ==> d[k] == StripValue(data[k]);
    assert forall k :: k in d ==> LoadId(d[k]) == LoadId(data[k]) && IsStrictId(d[k]) == IsStrictId(data[k]);
    if d.Keys <= keys && forall k :: k in d ==> IsStrictId(d[k]) then
      Ok(map k | k in d :: d[k].i)
    else
      Err(IdErrors(d, keys))
  }

  /** The messages for the ids that fail `LoadId` and for the keys outside `keys`. */
  function IdErrors(d: Body, keys: set<string>): (e: FieldErrors)
    ensures e.Keys == (set k | k in d && k in keys && !IsStrictId(d[k])) + (d.Keys - keys)
    ensures forall k :: k in d && k in keys && !IsStrictId(d[k]) ==> e[k] == LoadId(d[k]).error
    ensures forall k :: k in d && k !in keys ==> e[k] == UnknownField
  {
    (map k | k in d && k in keys && !IsStrictId(d[k]) :: LoadId(d[k]).error) + Unknown(d, keys)
  }

  /**
    A query schema given only integers for its own fields refuses exactly the
    ones below 1, each with the range message.
  */
  lemma OptionalIdsErrors(data: Body, keys: set<string>)
    requires data.Keys <= keys && forall k :: k in data ==> data[k].JInt?
    ensures var r := LoadOptionalIds(data, keys);
            r.Err? ==> (forall k :: k in r.error <==> k in data && data[k].i < 1)
                       && forall k :: k in r.error ==> r.error[k] == AtLeastOne
  {
    var d := StripAll(data);
    assert forall k :: k in data ==> d[k] == data[k];
    assert Unknown(d, keys) == map[];
  }

  /** `CategoryQuerySchema`: an optional `user_id`. */
  function CategoryQuery(data: Body): (r: Result<Option<int>, FieldErrors>)
    ensures r.Ok? <==> data.Keys <= {"user_id"} && ("user_id" in data ==> IsStrictId(data["user_id"]))
    ensures r.Ok? ==> r.value == if "user_id" in data then Some(data["user_id"].i) else None
    ensures ("user_id" in data && !IsStrictId(data["user_id"]))
              ==> r.Err? && "user_id" in r.error && r.error["user_id"] == LoadId(data["user_id"]).error
  {
    match LoadOptionalIds(data, {"user_id"})
    case Ok(ids) => Ok(if "user_id" in ids then Some(ids["user_id"]) else None)
    case Err(e) => Err(e)
  }

  /** What `RecordQuerySchema` loads. */
  datatype RecordFilter = RecordFilter(userId: Option<int>, categoryId: Option<int>)

  /** `RecordQuerySchema`: optional `user_id` and `category_id`. */
  function RecordQuery(data: Body): (r: Result<RecordFilter, FieldErrors>)
    ensures r.Ok? <==> data.Keys <= {"user_id", "category_id"}
                       && ("user_id" in data ==> IsStrictId(data["user_id"]))
                       && ("category_id" in data ==> IsStrictId(data["category_id"]))
    ensures r.Ok? ==> r.value.userId == if "user_id" in data then Some(data["user_id"].i) else None
    ensures r.Ok? ==> r.value.categoryId == if "category_id" in data then Some(data["category_id"].i) else None
    ensures ("user_id" in data && !IsStrictId(data["user_id"]))
              ==> r.Err? && "user_id" in r.error && r.error["user_id"] == LoadId(data["user_id"]).error
    ensures ("category_id" in data && !IsStrictId(data["category_id"]))
              ==> r.Err? && "category_id" in r.error && r.error["category_id"] == LoadId(data["category_id"]).error
  {
    match LoadOptionalIds(data, {"user_id", "category_id"})
    case Ok(ids) =>
      Ok(RecordFilter(if "user_id" in ids then Some(ids["user_id"]) else None,
                      if "category_id" in ids then Some(ids["category_id"]) else None))
    case Err(e) => Err(e)
  }

  /** What `RecordCreateSchema` loads. */
  datatype NewRecord = NewRecord(userId: int, categoryId: int, datetime: Timestamp, amount: Decimal)

  const RecordCreateFields: set<string> := {"user_id", "category_id", "datetime", "amount"}

  /** The body `RecordCreateSchema` loads from, after `normalize` and `strip_all_strings`. */
  function RecordInput(data: Body): (d: Body)
    ensures d.Keys == data.Keys
    ensures forall k :: k in data ==> d[k] == StripValue(data[k])
  {
    NormalizeOrderIrrelevant(data);
    var d := StripAll(Normalize(data));
    assert forall k :: k in data ==> d[k] == StripValue(data[k]) by {
      forall k | k in data ensures d[k] == StripValue(data[k]) {
        if k == "amount" && data[k].JStr? { StripIdempotent(data[k].s); }
      }
    }
    d
  }

  /**
    `RecordCreateSchema`: hooks `normalize` then `strip_all_strings`, then four
    required fields, the amount checked by `validate_amount`.
  */
  function RecordCreate(data: Body, parseTime: string -> Option<Timestamp>): (r: Result<NewRecord, FieldErrors>)
  {
    var d := RecordInput(data);
    var userId := RequiredId(d, "user_id", UserIdRequired);
    var categoryId := RequiredId(d, "category_id", RecordCategoryIdRequired);
    var datetime := LoadDateTime(d, parseTime);
    var amount := LoadAmount(d);
    if userId.Ok? && categoryId.Ok? && datetime.Ok? && amount.Ok? && d.Keys <= RecordCreateFields then
      Ok(NewRecord(userId.value, categoryId.value, datetime.value, amount.value))
    else
      Err(ErrorOf("user_id", userId) + ErrorOf("category_id", categoryId)
          + ErrorOf("datetime", datetime) + ErrorOf("amount", amount) + Unknown(d, RecordCreateFields))
  }

  /** The bodies `RecordCreateSchema` accepts, and what it loads from them. */
  lemma RecordCreateAccepts(data: Body, parseTime: string -> Option<Timestamp>)
    ensures RecordCreate(data, parseTime).Ok?
        <==> data.Keys == RecordCreateFields
             && IsStrictId(data["user_id"]) && IsStrictId(data["category_id"])
             && data["datetime"].JStr? && Strip(data["datetime"].s) != ""
             && parseTime(Strip(data["datetime"].s)).Some?
             && data["amount"].JStr? && AcceptedAmount(data["amount"].s)
    ensures RecordCreate(data, parseTime).Ok? ==>
              RecordCreate(data, parseTime).value
                == NewRecord(data["user_id"].i, data["category_id"].i,
                             parseTime(Strip(data["datetime"].s)).value,
                             Parse(Strip(data["amount"].s)).value)
  {
    var d := RecordInput(data);
  }

  /** A loaded record meets the `user_id`, `category_id` and `amount` rules. */
  lemma RecordCreateBounds(data: Body, parseTime: string -> Option<Timestamp>)
    ensures var r := RecordCreate(data, parseTime);
            r.Ok? ==> r.value.userId >= 1 && r.value.categoryId >= 1 && IsPositive(r.value.amount)
  {
    RecordCreateAccepts(data, parseTime);
  }

  /** Each missing field of `RecordCreateSchema` gives its own required message. */
  lemma RecordCreateRequired(data: Body, parseTime: string -> Option<Timestamp>)
    ensures var r := RecordCreate(data, parseTime);
            && ("user_id" !in data ==> r.Err? && "user_id" in r.error && r.error["user_id"] == UserIdRequired)
            && ("category_id" !in data ==> r.Err? && "category_id" in r.error && r.error["category_id"] == RecordCategoryIdRequired)
            && ("datetime" !in data ==> r.Err? && "datetime" in r.error && r.error["datetime"] == DateTimeRequired)
            && ("amount" !in data ==> r.Err? && "amount" in r.error && r.error["amount"] == AmountRequired)
  {
    RecordCreateErrors(data, parseTime);
    var d := RecordInput(data);
    assert d.Keys == data.Keys;
  }

  /** A refused amount string carries the message of `validate_amount`. */
  lemma RecordCreateBadAmount(data: Body, parseTime: string -> Option<Timestamp>)
    requires "amount" in data && data["amount"].JStr? && !AcceptedAmount(data["amount"].s)
    ensures var r := RecordCreate(data, parseTime);
            r.Err? && "amount" in r.error && r.error["amount"] == ValidateAmount(Strip(data["amount"].s)).error
  {
    RecordCreateErrors(data, parseTime);
  }

  /** Every key outside the four fields is refused as unknown. */
  lemma RecordCreateUnknownKeys(data: Body, parseTime: string -> Option<Timestamp>)
    ensures var r := RecordCreate(data, parseTime);
            forall k :: k in data && k !in RecordCreateFields ==> r.Err? && k in r.error && r.error[k] == UnknownField
  {
    RecordCreateErrors(data, parseTime);
  }

  /** The error map of `RecordCreateSchema` is the messages of its four fields and of the unknown keys. */
  lemma RecordCreateErrors(data: Body, parseTime: string -> Option<Timestamp>)
    ensures var d := RecordInput(data);
            var r := RecordCreate(data, parseTime);
            r.Err? ==> r.error == ErrorOf("user_id", RequiredId(d, "user_id", UserIdRequired))
                                  + ErrorOf("category_id", RequiredId(d, "category_id", RecordCategoryIdRequired))
                                  + ErrorOf("datetime", LoadDateTime(d, parseTime))
                                  + ErrorOf("amount", LoadAmount(d)) + Unknown(d, RecordCreateFields)
  {
  }
}
