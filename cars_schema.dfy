/**
 * The car request validators of src/types/cars.schema.ts: `carsBodySchema`
 * (and its `.partial()` form used on update) over a JSON body, and
 * `carsQuerySchema` over the query string, whose numbers are coerced with
 * JavaScript's `Number`.
 */
module CarsSchema {
  import opened Wrappers
  import opened JsText
  import opened CustomErrors
  import opened Zod
  import opened ContractTypes
  import opened CarsService

  const CarNumberMessage := "차량 번호 형식이 올바르지 않습니다."

  /** a precomposed Hangul syllable, `[가-힣]` */
  predicate IsHangulSyllable(c: char) {
    '가' <= c <= '힣'
  }

  /** `/^\d{2,3}[가-힣]\d{4}$/`: two or three digits, one syllable, four digits */
  predicate IsCarNumber(s: string) {
    && (|s| == 7 || |s| == 8)
    && AllDigits(s[..|s| - 5])
    && IsHangulSyllable(s[|s| - 5])
    && AllDigits(s[|s| - 4..])
  }

  /** Every plate of the pattern's shape is accepted. */
  lemma CarNumberFromParts(front: string, syllable: char, back: string)
    requires 2 <= |front| <= 3 && AllDigits(front)
    requires IsHangulSyllable(syllable)
    requires |back| == 4 && AllDigits(back)
    ensures IsCarNumber(front + [syllable] + back)
  {
    var s := front + [syllable] + back;
    assert s[..|s| - 5] == front;
    assert s[|s| - 5] == syllable;
    assert s[|s| - 4..] == back;
  }

  /** ... and nothing else: an accepted plate splits into those three parts. */
  lemma CarNumberHasParts(s: string)
    requires IsCarNumber(s)
    ensures var k := |s| - 5;
            && 2 <= k <= 3 && AllDigits(s[..k]) && IsHangulSyllable(s[k]) && AllDigits(s[k + 1..])
            && s == s[..k] + [s[k]] + s[k + 1..]
  {
  }

  lemma SamplePlates()
    ensures IsCarNumber("12가1234")
    ensures IsCarNumber("123가1234")
    ensures !IsCarNumber("invalid")
    ensures !IsCarNumber("1가12345")
  {
    CarNumberFromParts("12", '가', "1234");
    assert "12" + ['가'] + "1234" == "12가1234";
    CarNumberFromParts("123", '가', "1234");
    assert "123" + ['가'] + "1234" == "123가1234";
    assert "1가12345"[..3] == "1가1";
    assert !IsAsciiDigit("1가12345"[1]);
  }

  /** `z.string().regex(pattern, message)` on `carNumber` */
  function CarNumberField(v: Option<Json>, path: seq<PathKey>): (r: Outcome<string>)
    ensures r.Wf()
    ensures r.Clean() <==> IsString(v) && IsCarNumber(v.value.s)
    ensures r.value.None? <==> !IsString(v)
    ensures r.Clean() ==> r.value.value == v.value.s
    ensures r.value.Some? && r.issues != [] ==> r.issues == [SchemaIssue(path, InvalidString, Some(CarNumberMessage))]
  {
    match v
    case None => Abort(path, Required, None)
    case Some(JStr(s)) => Outcome(Some(s), if IsCarNumber(s) then [] else [SchemaIssue(path, InvalidString, Some(CarNumberMessage))])
    case Some(_) => Abort(path, InvalidType, None)
  }

  /** a key that is absent or holds a string */
  predicate IsTextOrAbsent(v: Option<Json>) {
    v.None? || v.value.JStr?
  }

  /** `z.string().optional().transform((val) => val || null)` */
  function NullableText(v: Option<Json>, path: seq<PathKey>): (r: Outcome<Option<string>>)
    ensures r.Wf()
    ensures r.Clean() <==> IsTextOrAbsent(v)
    ensures r.Clean() ==> r.value.value == (if v.None? then None else StoredNullable(v.value.s))
    ensures r.Clean() ==> r.value.value != Some("")
  {
    match v
    case None => Valid(None)
    case Some(JStr(s)) => Valid(StoredNullable(s))
    case Some(_) => Abort(path, InvalidType, None)
  }

  /** whether a body key is acceptable to `carsBodySchema` */
  predicate BodyAccepted(f: map<string, Json>) {
    && IsString(Get(f, "carNumber")) && IsCarNumber(Get(f, "carNumber").value.s)
    && IsString(Get(f, "manufacturer"))
    && IsString(Get(f, "model"))
    && IsPositiveInt(Get(f, "manufacturingYear"))
    && IsPositiveInt(Get(f, "mileage"))
    && IsPositiveInt(Get(f, "price"))
    && IsNonNegativeInt(Get(f, "accidentCount"))
    && IsTextOrAbsent(Get(f, "explanation"))
    && IsTextOrAbsent(Get(f, "accidentDetails"))
  }

  /** the value `NullableText` gives a key */
  function TextOf(f: map<string, Json>, k: string): Option<string>
    requires IsTextOrAbsent(Get(f, k))
  {
    if k in f then StoredNullable(f[k].s) else None
  }

  /** `carsBodySchema.safeParse`: the DTO, or every issue in shape order */
  function ParseCarBody(body: Json): (r: Result<BaseCarDto, seq<SchemaIssue>>)
    ensures r.Success? <==> body.JObj? && BodyAccepted(body.fields)
    ensures r.Success? ==>
              var f := body.fields;
              && r.value.carNumber == f["carNumber"].s
              && r.value.manufacturer == f["manufacturer"].s
              && r.value.model == f["model"].s
              && r.value.manufacturingYear as real == f["manufacturingYear"].x
              && r.value.mileage as real == f["mileage"].x
              && r.value.price as real == f["price"].x
              && r.value.accidentCount as real == f["accidentCount"].x
              && r.value.explanation == TextOf(f, "explanation")
              && r.value.accidentDetails == TextOf(f, "accidentDetails")
    ensures r.Failure? ==> r.error != []
  {
    match body
    case JObj(f) =>
      var carNumber := CarNumberField(Get(f, "carNumber"), [Key("carNumber")]);
      var manufacturer := Str(Get(f, "manufacturer"), [Key("manufacturer")]);
      var model := Str(Get(f, "model"), [Key("model")]);
      var year := PositiveInt(Get(f, "manufacturingYear"), [Key("manufacturingYear")], None);
      var mileage := PositiveInt(Get(f, "mileage"), [Key("mileage")], None);
      var price := PositiveInt(Get(f, "price"), [Key("price")], None);
      var accidents := NonNegativeInt(Get(f, "accidentCount"), [Key("accidentCount")]);
      var explanation := NullableText(Get(f, "explanation"), [Key("explanation")]);
      var details := NullableText(Get(f, "accidentDetails"), [Key("accidentDetails")]);
      if && carNumber.Clean() && manufacturer.Clean() && model.Clean() && year.Clean() && mileage.Clean()
         && price.Clean() && accidents.Clean() && explanation.Clean() && details.Clean()
      then
        Success(BaseCarDto(carNumber.value.value, manufacturer.value.value, model.value.value, year.value.value,
                           mileage.value.value, price.value.value, accidents.value.value,
                           explanation.value.value, details.value.value))
      else
        Failure(carNumber.issues + manufacturer.issues + model.issues + year.issues + mileage.issues
                + price.issues + accidents.issues + explanation.issues + details.issues)
    case _ => Failure([SchemaIssue([], InvalidType, None)])
  }

  /** A parsed body has positive year, mileage and price, no negative accident count, and never stores `""`. */
  lemma ParsedBodyFitsTheTable(body: Json)
    requires ParseCarBody(body).Success?
    ensures var d := ParseCarBody(body).value;
            && d.manufacturingYear > 0 && d.mileage > 0 && d.price > 0 && d.accidentCount >= 0
            && d.explanation != Some("") && d.accidentDetails != Some("")
  {
    var f := body.fields;
    if "explanation" in f {
      assert StoredNullable(f["explanation"].s) != Some("");
    }
    if "accidentDetails" in f {
      assert StoredNullable(f["accidentDetails"].s) != Some("");
    }
  }

  /** a DTO the body schema can produce */
  predicate IsBodyDto(d: BaseCarDto) {
    && IsCarNumber(d.carNumber)
    && d.manufacturingYear > 0 && d.mileage > 0 && d.price > 0 && d.accidentCount >= 0
    && d.explanation != Some("") && d.accidentDetails != Some("")
  }

  /** the JSON body a client sends for a DTO; a `null` text is left out */
  function CarBody(d: BaseCarDto): Json {
    var base := map[
      "carNumber" := JStr(d.carNumber),
      "manufacturer" := JStr(d.manufacturer),
      "model" := JStr(d.model),
      "manufacturingYear" := JNum(d.manufacturingYear as real),
      "mileage" := JNum(d.mileage as real),
      "price" := JNum(d.price as real),
      "accidentCount" := JNum(d.accidentCount as real)];
    var withExplanation := if d.explanation.Some? then base["explanation" := JStr(d.explanation.value)] else base;
    JObj(if d.accidentDetails.Some? then withExplanation["accidentDetails" := JStr(d.accidentDetails.value)] else withExplanation)
  }

  /** Parsing the body a client sends for a DTO gives that DTO back. */
  lemma CarBodyRoundTrip(d: BaseCarDto)
    requires IsBodyDto(d)
    ensures ParseCarBody(CarBody(d)) == Success(d)
  {
    var f := CarBody(d).fields;
    assert Get(f, "carNumber") == Some(JStr(d.carNumber));
    assert Get(f, "manufacturer") == Some(JStr(d.manufacturer));
    assert Get(f, "model") == Some(JStr(d.model));
    assert Get(f, "manufacturingYear") == Some(JNum(d.manufacturingYear as real));
    assert Get(f, "mileage") == Some(JNum(d.mileage as real));
    assert Get(f, "price") == Some(JNum(d.price as real));
    assert Get(f, "accidentCount") == Some(JNum(d.accidentCount as real));
    assert Get(f, "explanation") == if d.explanation.Some? then Some(JStr(d.explanation.value)) else None;
    assert Get(f, "accidentDetails") == if d.accidentDetails.Some? then Some(JStr(d.accidentDetails.value)) else None;
    assert TextOf(f, "explanation") == d.explanation;
    assert TextOf(f, "accidentDetails") == d.accidentDetails;
    var r := ParseCarBody(CarBody(d));
    assert r.Success?;
    assert r.value == d;
  }

  /** `.optional()`, which `.partial()` puts around every key */
  function OptionalKey<T>(present: bool, o: Outcome<T>): (r: Outcome<Option<T>>)
    requires o.Wf()
    ensures r.Wf()
    ensures r.Clean() <==> !present || o.Clean()
    ensures r.Clean() ==> (r.value.value.Some? <==> present) && (present ==> r.value.value.value == o.value.value)
    ensures r.issues == (if present then o.issues else [])
  {
    if !present then Valid(None)
    else Outcome(if o.value.Some? then Some(Some(o.value.value)) else None, o.issues)
  }

  /** whether every key present is acceptable to `carsBodySchema` */
  predicate PatchAccepted(f: map<string, Json>) {
    && ("carNumber" in f ==> f["carNumber"].JStr? && IsCarNumber(f["carNumber"].s))
    && ("manufacturer" in f ==> f["manufacturer"].JStr?)
    && ("model" in f ==> f["model"].JStr?)
    && ("manufacturingYear" in f ==> IsPositiveInt(Some(f["manufacturingYear"])))
    && ("mileage" in f ==> IsPositiveInt(Some(f["mileage"])))
    && ("price" in f ==> IsPositiveInt(Some(f["price"])))
    && ("accidentCount" in f ==> IsNonNegativeInt(Some(f["accidentCount"])))
    && ("explanation" in f ==> f["explanation"].JStr?)
    && ("accidentDetails" in f ==> f["accidentDetails"].JStr?)
  }

  /** `carNumber` under `.partial()` */
  function OptionalCarNumber(f: map<string, Json>): (r: Outcome<Option<string>>)
    ensures r.Wf()
    ensures r.Clean() <==> ("carNumber" in f ==> f["carNumber"].JStr? && IsCarNumber(f["carNumber"].s))
    ensures r.Clean() ==> (r.value.value.Some? <==> "carNumber" in f)
    ensures r.Clean() && "carNumber" in f ==> r.value.value.value == f["carNumber"].s
  {
    OptionalKey("carNumber" in f, CarNumberField(Get(f, "carNumber"), [Key("carNumber")]))
  }

  /** a `z.string()` key under `.partial()` */
  function OptionalString(f: map<string, Json>, k: string): (r: Outcome<Option<string>>)
    ensures r.Wf()
    ensures r.Clean() <==> (k in f ==> f[k].JStr?)
    ensures r.Clean() ==> (r.value.value.Some? <==> k in f)
    ensures r.Clean() && k in f ==> r.value.value.value == f[k].s
  {
    OptionalKey(k in f, Str(Get(f, k), [Key(k)]))
  }

  /** a positive whole-number key under `.partial()` */
  function OptionalPositive(f: map<string, Json>, k: string): (r: Outcome<Option<int>>)
    ensures r.Wf()
    ensures r.Clean() <==> (k in f ==> IsPositiveInt(Some(f[k])))
    ensures r.Clean() ==> (r.value.value.Some? <==> k in f)
    ensures r.Clean() && k in f ==> r.value.value.value as real == f[k].x
  {
    OptionalKey(k in f, PositiveInt(Get(f, k), [Key(k)], None))
  }

  /** a non-negative whole-number key under `.partial()` */
  function OptionalNonNegative(f: map<string, Json>, k: string): (r: Outcome<Option<int>>)
    ensures r.Wf()
    ensures r.Clean() <==> (k in f ==> IsNonNegativeInt(Some(f[k])))
    ensures r.Clean() ==> (r.value.value.Some? <==> k in f)
    ensures r.Clean() && k in f ==> r.value.value.value as real == f[k].x
  {
    OptionalKey(k in f, NonNegativeInt(Get(f, k), [Key(k)]))
  }

  /** a nullable text key under `.partial()`: the transform runs only on a given key */
  function OptionalText(f: map<string, Json>, k: string): (r: Outcome<Option<Option<string>>>)
    ensures r.Wf()
    ensures r.Clean() <==> (k in f ==> f[k].JStr?)
    ensures r.Clean() ==> (r.value.value.Some? <==> k in f)
    ensures r.Clean() && k in f ==> r.value.value.value == StoredNullable(f[k].s)
  {
    OptionalKey(k in f, NullableText(Get(f, k), [Key(k)]))
  }

  /** `carsBodySchema.partial().safeParse` on an update body */
  function ParseCarPatch(body: Json): (r: Result<CarPatch, seq<SchemaIssue>>)
    ensures r.Success? <==> body.JObj? && PatchAccepted(body.fields)
    ensures r.Failure? ==> r.error != []
  {
    match body
    case JObj(f) =>
      var carNumber := OptionalCarNumber(f);
      var manufacturer := OptionalString(f, "manufacturer");
      var model := OptionalString(f, "model");
      var year := OptionalPositive(f, "manufacturingYear");
      var mileage := OptionalPositive(f, "mileage");
      var price := OptionalPositive(f, "price");
      var accidents := OptionalNonNegative(f, "accidentCount");
      var explanation := OptionalText(f, "explanation");
      var details := OptionalText(f, "accidentDetails");
      if && carNumber.Clean() && manufacturer.Clean() && model.Clean() && year.Clean() && mileage.Clean()
         && price.Clean() && accidents.Clean() && explanation.Clean() && details.Clean()
      then
        Success(CarPatch(carNumber.value.value, manufacturer.value.value, model.value.value, year.value.value,
                         mileage.value.value, price.value.value, accidents.value.value,
                         explanation.value.value, details.value.value))
      else
        Failure(carNumber.issues + manufacturer.issues + model.issues + year.issues + mileage.issues
                + price.issues + accidents.issues + explanation.issues + details.issues)
    case _ => Failure([SchemaIssue([], InvalidType, None)])
  }

  /** Every key given is in the patch, and only those; a given empty text becomes `null`. */
  lemma PatchHoldsExactlyTheGivenKeys(body: Json)
    requires ParseCarPatch(body).Success?
    ensures
              var f := body.fields;
              && (ParseCarPatch(body).value.carNumber.Some? <==> "carNumber" in f)
              && (ParseCarPatch(body).value.manufacturer.Some? <==> "manufacturer" in f)
              && (ParseCarPatch(body).value.model.Some? <==> "model" in f)
              && (ParseCarPatch(body).value.manufacturingYear.Some? <==> "manufacturingYear" in f)
              && (ParseCarPatch(body).value.mileage.Some? <==> "mileage" in f)
              && (ParseCarPatch(body).value.price.Some? <==> "price" in f)
              && (ParseCarPatch(body).value.accidentCount.Some? <==> "accidentCount" in f)
              && (ParseCarPatch(body).value.explanation.Some? <==> "explanation" in f)
              && (ParseCarPatch(body).value.accidentDetails.Some? <==> "accidentDetails" in f)
              && ("explanation" in f ==> ParseCarPatch(body).value.explanation.value == StoredNullable(f["explanation"].s))
              && ("accidentDetails" in f ==> ParseCarPatch(body).value.accidentDetails.value == StoredNullable(f["accidentDetails"].s))
  {
    var f := body.fields;
  }

  /** An empty update body is accepted and changes nothing. */
  lemma EmptyPatchChangesNothing(models: seq<CarModel>, car: CarRow)
    ensures ParseCarPatch(JObj(map[])).Success?
    ensures var p := ParseCarPatch(JObj(map[])).value;
            && BuildCarUpdateData(models, p).Success?
            && ApplyCarUpdate(car, BuildCarUpdateData(models, p).value) == car
  {
    var p := ParseCarPatch(JObj(map[])).value;
    assert p == CarPatch(None, None, None, None, None, None, None, None, None);
  }

  // ------------------------------------------------------------ the query

  /** the query string, one text per key */
  type Query = map<string, string>

  function Param(q: Query, k: string): Option<string> {
    if k in q then Some(q[k]) else None
  }

  /**
   * a query value `z.coerce.number().int().positive()` (with an optional
   * `.max`) accepts; `toNumber` is JavaScript's `Number`, `None` when it
   * gives `NaN`
   */
  predicate CoercesToPositive(v: Option<string>, max: Option<int>, toNumber: string -> Option<real>) {
    v.None? ||
    (toNumber(v.value).Some? && IsInteger(toNumber(v.value).value) && toNumber(v.value).value > 0.0
     && (max.Some? ==> toNumber(v.value).value <= max.value as real))
  }

  /** `z.coerce.number().int().positive()[.max(max)].default(dflt)` */
  function CoercedPositive(v: Option<string>, path: seq<PathKey>, dflt: int, max: Option<int>, toNumber: string -> Option<real>): (r: Outcome<int>)
    ensures r.Wf()
    ensures r.Clean() <==> CoercesToPositive(v, max, toNumber)
    ensures r.Clean() && v.None? ==> r.value.value == dflt
    ensures r.Clean() && v.Some? ==> r.value.value as real == toNumber(v.value).value
  {
    match v
    case None => Valid(dflt)
    case Some(s) =>
      match toNumber(s)
      case None => Abort(path, InvalidType, None)
      case Some(x) =>
        var intIssue := if IsInteger(x) then [] else [SchemaIssue(path, NotInteger, None)];
        var positiveIssue := if x > 0.0 then [] else [SchemaIssue(path, TooSmall, None)];
        var maxIssue := if max.None? || x <= max.value as real then [] else [SchemaIssue(path, TooBig, None)];
        Outcome(Some(x.Floor), intIssue + positiveIssue + maxIssue)
  }

  /** the wire names of `CAR_STATUS_VALUES` */
  function CarStatusFromName(name: string): (r: Option<CarStatus>)
    ensures r == Some(Possession) <==> name == "possession"
    ensures r == Some(ContractProceeding) <==> name == "contractProceeding"
    ensures r == Some(ContractCompleted) <==> name == "contractCompleted"
  {
    if name == "possession" then Some(Possession)
    else if name == "contractProceeding" then Some(ContractProceeding)
    else if name == "contractCompleted" then Some(ContractCompleted)
    else None
  }

  /** the wire names of `SEARCH_BY` */
  function SearchByFromName(name: string): (r: Option<SearchBy>)
    ensures r == Some(ByCarNumber) <==> name == "carNumber"
    ensures r == Some(ByModel) <==> name == "model"
  {
    if name == "carNumber" then Some(ByCarNumber)
    else if name == "model" then Some(ByModel)
    else None
  }

  /** `z.enum(values).optional()` */
  function OptionalEnum<T>(v: Option<string>, path: seq<PathKey>, decode: string -> Option<T>): (r: Outcome<Option<T>>)
    ensures r.Wf()
    ensures r.Clean() <==> v.None? || decode(v.value).Some?
    ensures r.Clean() ==> r.value.value == (if v.None? then None else decode(v.value))
  {
    match v
    case None => Valid(None)
    case Some(s) =>
      match decode(s)
      case None => Abort(path, InvalidEnum, None)
      case Some(t) => Valid(Some(t))
  }

  /** `carsQuerySchema.safeParse` */
  function ParseCarsQuery(q: Query, toNumber: string -> Option<real>): (r: Result<GetListQuery, seq<SchemaIssue>>)
    ensures r.Success? <==>
              && CoercesToPositive(Param(q, "page"), None, toNumber)
              && CoercesToPositive(Param(q, "pageSize"), Some(100), toNumber)
              && (Param(q, "status").Some? ==> CarStatusFromName(q["status"]).Some?)
              && (Param(q, "searchBy").Some? ==> SearchByFromName(q["searchBy"]).Some?)
    ensures r.Success? ==>
              && r.value.page as real == (if "page" in q then toNumber(q["page"]).value else 1.0)
              && r.value.pageSize as real == (if "pageSize" in q then toNumber(q["pageSize"]).value else 10.0)
              && r.value.status == (if "status" in q then CarStatusFromName(q["status"]) else None)
              && r.value.searchBy == (if "searchBy" in q then SearchByFromName(q["searchBy"]) else None)
              && r.value.keyword == Param(q, "keyword")
    ensures r.Failure? ==> r.error != []
  {
    var page := CoercedPositive(Param(q, "page"), [Key("page")], 1, None, toNumber);
    var pageSize := CoercedPositive(Param(q, "pageSize"), [Key("pageSize")], 10, Some(100), toNumber);
    var status := OptionalEnum(Param(q, "status"), [Key("status")], CarStatusFromName);
    var searchBy := OptionalEnum(Param(q, "searchBy"), [Key("searchBy")], SearchByFromName);
    if page.Clean() && pageSize.Clean() && status.Clean() && searchBy.Clean() then
      Success(GetListQuery(page.value.value, pageSize.value.value, status.value.value, searchBy.value.value, Param(q, "keyword")))
    else
      Failure(page.issues + pageSize.issues + status.issues + searchBy.issues)
  }

  /** A parsed query meets what the listing service relies on: a page from 1 and a page size in 1..100. */
  lemma ParsedQueryIsServiceable(q: Query, toNumber: string -> Option<real>)
    requires ParseCarsQuery(q, toNumber).Success?
    ensures var p := ParseCarsQuery(q, toNumber).value;
            p.page >= 1 && 1 <= p.pageSize <= 100
  {
  }

  /** An empty query lists the first page of ten, unfiltered. */
  lemma EmptyQueryDefaults(toNumber: string -> Option<real>)
    ensures ParseCarsQuery(map[], toNumber) == Success(GetListQuery(1, 10, None, None, None))
  {
  }
}
