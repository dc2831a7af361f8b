/**
 * The car listing service of src/services/cars.service.ts over an in-memory
 * car table: paging and filter construction for the list, the per-car
 * response shape, the grouping of car models by manufacturer, the update
 * payload builder, and the not-found guards of the single-car operations.
 */
module CarsService {
  import opened Wrappers
  import opened JsText
  import opened Seqs
  import opened CustomErrors
  import opened ContractTypes

  /** Prisma's `CarType`; `OtherType` stands for any value the enum may add */
  datatype CarType = Sedan | Compact | Suv | OtherType(name: string)

  /** the enum value as it is written on the wire */
  function TypeName(t: CarType): string {
    match t
    case Sedan => "SEDAN"
    case Compact => "COMPACT"
    case Suv => "SUV"
    case OtherType(n) => n
  }

  /** an `OtherType` really is some other enum value, and not a Korean label */
  predicate WellFormedType(t: CarType) {
    t.OtherType? ==> t.name !in {"SEDAN", "COMPACT", "SUV", "세단", "경차"}
  }

  /** `translateCarTypeToKorean` */
  function TranslateCarTypeToKorean(t: CarType): (r: string)
    ensures r == TypeName(t) <==> !(t.Sedan? || t.Compact?)
  {
    match t
    case Sedan => "세단"
    case Compact => "경차"
    case _ => TypeName(t)
  }

  /** Distinct car types get distinct labels, so a label tells the type back. */
  lemma TranslationIsInjective(a: CarType, b: CarType)
    requires WellFormedType(a) && WellFormedType(b)
    requires TranslateCarTypeToKorean(a) == TranslateCarTypeToKorean(b)
    ensures a == b
  {
    match a
    case Sedan =>
      assert TranslateCarTypeToKorean(b) == "세단";
    case Compact =>
      assert TranslateCarTypeToKorean(b) == "경차";
    case Suv =>
      assert TranslateCarTypeToKorean(b) == "SUV";
    case OtherType(n) =>
      assert TranslateCarTypeToKorean(b) == n;
  }

  /** a row of the `carModel` table; `(manufacturer, model)` is its unique key */
  datatype CarModel = CarModel(id: int, manufacturer: string, model: string, carType: CarType)

  /** a row of the `car` table */
  datatype CarRow = CarRow(
    id: int,
    carNumber: string,
    companyId: int,
    modelId: int,
    manufacturingYear: int,
    mileage: int,
    price: int,
    accidentCount: int,
    explanation: Option<string>,
    accidentDetails: Option<string>,
    status: CarStatus)

  /** `BaseCarDto`: a validated car body */
  datatype BaseCarDto = BaseCarDto(
    carNumber: string,
    manufacturer: string,
    model: string,
    manufacturingYear: int,
    mileage: int,
    price: int,
    accidentCount: int,
    explanation: Option<string>,
    accidentDetails: Option<string>)

  /**
   * `Partial<BaseCarDto>`: `None` is an absent key. For the two nullable
   * columns `Some(None)` is a key whose value was turned into `null`.
   */
  datatype CarPatch = CarPatch(
    carNumber: Option<string>,
    manufacturer: Option<string>,
    model: Option<string>,
    manufacturingYear: Option<int>,
    mileage: Option<int>,
    price: Option<int>,
    accidentCount: Option<int>,
    explanation: Option<Option<string>>,
    accidentDetails: Option<Option<string>>)

  /** `CarResponseDto` */
  datatype CarResponse = CarResponse(
    id: int,
    carNumber: string,
    manufacturer: string,
    model: string,
    carType: string,
    manufacturingYear: int,
    mileage: int,
    price: int,
    accidentCount: int,
    explanation: string,
    accidentDetails: string,
    status: CarStatus)

  /** `val ?? ''` */
  function OrEmpty(v: Option<string>): (r: string)
    ensures v.None? ==> r == ""
    ensures v.Some? ==> r == v.value
  {
    if v.Some? then v.value else ""
  }

  /** the body schema's `val || null`: an empty text is stored as `null` */
  function StoredNullable(s: string): (r: Option<string>)
    ensures r.None? <==> s == ""
    ensures r.Some? ==> r.value == s
  {
    if s == "" then None else Some(s)
  }

  /** `buildCarResponseData`: the car joined with its model */
  function BuildCarResponseData(car: CarRow, m: CarModel): (r: CarResponse)
    ensures r.id == car.id && r.carNumber == car.carNumber && r.status == car.status
    ensures r.manufacturer == m.manufacturer && r.model == m.model
    ensures r.carType == TranslateCarTypeToKorean(m.carType)
    ensures r.manufacturingYear == car.manufacturingYear && r.mileage == car.mileage
    ensures r.price == car.price && r.accidentCount == car.accidentCount
    ensures r.explanation == OrEmpty(car.explanation) && r.accidentDetails == OrEmpty(car.accidentDetails)
  {
    CarResponse(car.id, car.carNumber, m.manufacturer, m.model, TranslateCarTypeToKorean(m.carType),
                car.manufacturingYear, car.mileage, car.price, car.accidentCount,
                OrEmpty(car.explanation), OrEmpty(car.accidentDetails), car.status)
  }

  /**
   * The nullable columns survive the response: a stored value that came
   * through the body schema (never `""`) is recovered from the response
   * text by the schema's own `val || null`.
   */
  lemma ResponseKeepsNullableColumns(car: CarRow, m: CarModel)
    requires car.explanation != Some("") && car.accidentDetails != Some("")
    ensures StoredNullable(BuildCarResponseData(car, m).explanation) == car.explanation
    ensures StoredNullable(BuildCarResponseData(car, m).accidentDetails) == car.accidentDetails
  {
  }

  // ---------------------------------------------------------------- listing

  datatype SearchBy = ByCarNumber | ByModel

  /** `GetListQuery`, as the query schema delivers it */
  datatype GetListQuery = GetListQuery(page: int, pageSize: int, status: Option<CarStatus>, searchBy: Option<SearchBy>, keyword: Option<string>)

  /** `Prisma.CarWhereInput` as `buildQueryOptions` fills it */
  datatype CarWhere = CarWhere(status: Option<CarStatus>, carNumberContains: Option<string>, modelContains: Option<string>)

  datatype QueryOptions = QueryOptions(skip: int, take: int, where: CarWhere)

  /** `keyword && ...`: the keyword is present and not empty */
  predicate KeywordGiven(q: GetListQuery) {
    q.keyword.Some? && q.keyword.value != ""
  }

  /** `buildQueryOptions` */
  function BuildQueryOptions(q: GetListQuery): (r: QueryOptions)
    ensures r.skip == (q.page - 1) * q.pageSize && r.take == q.pageSize
  {
    var byNumber := KeywordGiven(q) && q.searchBy == Some(ByCarNumber);
    var byModel := KeywordGiven(q) && q.searchBy == Some(ByModel);
    QueryOptions((q.page - 1) * q.pageSize, q.pageSize,
                 CarWhere(q.status,
                          if byNumber then q.keyword else None,
                          if byModel then q.keyword else None))
  }

  /**
   * how the database evaluates the `where` clause on a car and its model;
   * `mode: 'insensitive'` is modelled by the ASCII-only fold of `ContainsInsensitive`
   */
  predicate WhereMatches(w: CarWhere, car: CarRow, m: CarModel) {
    && (w.status.Some? ==> car.status == w.status.value)
    && (w.carNumberContains.Some? ==> ContainsInsensitive(car.carNumber, w.carNumberContains.value))
    && (w.modelContains.Some? ==> ContainsInsensitive(m.model, w.modelContains.value))
  }

  /** which cars a listing query asks for, stated on the query itself */
  predicate QueryAccepts(q: GetListQuery, car: CarRow, m: CarModel) {
    && (q.status.Some? ==> car.status == q.status.value)
    && (KeywordGiven(q) && q.searchBy == Some(ByCarNumber) ==> ContainsInsensitive(car.carNumber, q.keyword.value))
    && (KeywordGiven(q) && q.searchBy == Some(ByModel) ==> ContainsInsensitive(m.model, q.keyword.value))
  }

  /**
   * The built filter selects exactly the cars the query asks for: the
   * status only when one is given, and a keyword only when it is not empty
   * and `searchBy` names the field it is matched against.
   */
  lemma QueryOptionsSelectRequestedCars(q: GetListQuery, car: CarRow, m: CarModel)
    ensures WhereMatches(BuildQueryOptions(q).where, car, m) <==> QueryAccepts(q, car, m)
  {
  }

  /** With no status and no usable keyword every car is listed. */
  lemma UnfilteredQueryListsEveryCar(q: GetListQuery, car: CarRow, m: CarModel)
    requires q.status.None?
    requires !KeywordGiven(q) || q.searchBy.None?
    ensures WhereMatches(BuildQueryOptions(q).where, car, m)
  {
  }

  /** `skip`/`take` on a result list */
  function Window<T>(items: seq<T>, skip: nat, take: nat): (r: seq<T>)
    ensures skip >= |items| ==> r == []
    ensures skip < |items| ==> |r| == (if skip + take <= |items| then take else |items| - skip)
    ensures forall i :: 0 <= i < |r| ==> r[i] == items[skip + i]
  {
    var lo := if skip <= |items| then skip else |items|;
    var hi := if lo + take <= |items| then lo + take else |items|;
    items[lo..hi]
  }

  /** `Math.ceil(totalItemCount / pageSize)`: the fewest pages that hold every item */
  function TotalPages(count: nat, pageSize: int): (r: nat)
    requires pageSize >= 1
    ensures count == 0 <==> r == 0
    ensures r * pageSize >= count
    ensures r > 0 ==> (r - 1) * pageSize < count
  {
    (count + pageSize - 1) / pageSize
  }

  /** Every item lies on page `i / pageSize + 1`, at position `i % pageSize`, and that page is within the page count. */
  lemma EveryItemIsOnItsPage<T>(items: seq<T>, pageSize: int, i: nat)
    requires pageSize >= 1 && i < |items|
    ensures var page := i / pageSize + 1;
            && 1 <= page <= TotalPages(|items|, pageSize)
            && i % pageSize < |Window(items, (page - 1) * pageSize, pageSize)|
            && Window(items, (page - 1) * pageSize, pageSize)[i % pageSize] == items[i]
  {
    var page := i / pageSize + 1;
    var total := TotalPages(|items|, pageSize);
    assert (page - 1) * pageSize + i % pageSize == i;
    assert (page - 1) * pageSize <= i;
  }

  lemma MultiplyMonotone(a: nat, b: nat, c: nat)
    requires a <= b
    ensures a * c <= b * c
  {
  }

  /** The pages `1..totalPages` are the non-empty ones. */
  lemma PagesWithinTotalAreNonEmpty<T>(items: seq<T>, pageSize: int, page: int)
    requires pageSize >= 1 && page >= 1
    ensures Window(items, (page - 1) * pageSize, pageSize) != [] <==> page <= TotalPages(|items|, pageSize)
  {
    var total := TotalPages(|items|, pageSize);
    if page <= total {
      MultiplyMonotone(page - 1, total - 1, pageSize);
    } else {
      MultiplyMonotone(total, page - 1, pageSize);
    }
  }

  /** the cars a `where` clause selects, in table order (`count` counts these) */
  function SelectedCars(cars: seq<CarRow>, models: seq<CarModel>, w: CarWhere): seq<CarRow> {
    Filter(cars, Selects(models, w))
  }

  /** the page `findMany({skip, take, where})` returns */
  function ListedCars(cars: seq<CarRow>, models: seq<CarModel>, q: GetListQuery): seq<CarRow>
    requires q.page >= 1 && q.pageSize >= 1
  {
    var opts := BuildQueryOptions(q);
    Window(SelectedCars(cars, models, opts.where), opts.skip, opts.take)
  }

  /** Every listed car is a stored car with its model, and is one the query asks for. */
  lemma ListedCarsAreRequested(cars: seq<CarRow>, models: seq<CarModel>, q: GetListQuery)
    requires q.page >= 1 && q.pageSize >= 1
    ensures forall i :: 0 <= i < |ListedCars(cars, models, q)| ==>
              var c := ListedCars(cars, models, q)[i];
              c in cars && ModelById(models, c.modelId).Some? && QueryAccepts(q, c, ModelById(models, c.modelId).value)
  {
    var listed := ListedCars(cars, models, q);
    forall i | 0 <= i < |listed|
      ensures listed[i] in cars && ModelById(models, listed[i].modelId).Some? && QueryAccepts(q, listed[i], ModelById(models, listed[i].modelId).value)
    {
      ListedCarIsRequested(cars, models, q, i);
    }
  }

  lemma ListedCarIsRequested(cars: seq<CarRow>, models: seq<CarModel>, q: GetListQuery, i: nat)
    requires q.page >= 1 && q.pageSize >= 1 && i < |ListedCars(cars, models, q)|
    ensures var c := ListedCars(cars, models, q)[i];
            c in cars && ModelById(models, c.modelId).Some? && QueryAccepts(q, c, ModelById(models, c.modelId).value)
  {
    var opts := BuildQueryOptions(q);
    var selected := SelectedCars(cars, models, opts.where);
    var c := ListedCars(cars, models, q)[i];
    assert c == selected[opts.skip + i];
    assert c in selected;
    QueryOptionsSelectRequestedCars(q, c, ModelById(models, c.modelId).value);
  }

  /** `GetCarsResponseDto` */
  datatype CarsPage = CarsPage(data: seq<CarResponse>, currentPage: int, totalItemCount: nat, totalPages: nat)

  /** a manufacturer and its models, in the order they were read */
  datatype ModelGroup = ModelGroup(manufacturer: string, models: seq<string>)

  // ---------------------------------------------------------- model grouping

  /** the manufacturers of `ms`, each once, in the order they first appear */
  function FirstSeen(ms: seq<CarModel>): (r: seq<string>)
  {
    if ms == [] then []
    else
      var seen := FirstSeen(ms[..|ms| - 1]);
      if ms[|ms| - 1].manufacturer in seen then seen else seen + [ms[|ms| - 1].manufacturer]
  }

  /** the models of one manufacturer, in the order they appear in `ms` */
  function ModelsOf(ms: seq<CarModel>, manufacturer: string): (r: seq<string>)
  {
    if ms == [] then []
    else ModelsOf(ms[..|ms| - 1], manufacturer) + (if ms[|ms| - 1].manufacturer == manufacturer then [ms[|ms| - 1].model] else [])
  }

  /** the manufacturer column of `ms` */
  function Makers(ms: seq<CarModel>): (r: seq<string>)
    ensures |r| == |ms| && forall k :: 0 <= k < |ms| ==> r[k] == ms[k].manufacturer
  {
    seq(|ms|, k requires 0 <= k < |ms| => ms[k].manufacturer)
  }

  /** `FirstSeen` lists each manufacturer once, exactly those that occur, and orders them by first occurrence. */
  lemma {:induction false} FirstSeenIsFirstOccurrenceOrder(ms: seq<CarModel>)
    ensures forall i, j :: 0 <= i < j < |FirstSeen(ms)| ==> FirstSeen(ms)[i] != FirstSeen(ms)[j]
    ensures forall x :: x in FirstSeen(ms) <==> x in Makers(ms)
    ensures forall i, j, k :: 0 <= i < j < |FirstSeen(ms)| && 0 <= k < |ms| && ms[k].manufacturer == FirstSeen(ms)[j] ==>
              FirstSeen(ms)[i] in Makers(ms[..k])
  {
    if ms != [] {
      var init := ms[..|ms| - 1];
      var last := ms[|ms| - 1];
      FirstSeenIsFirstOccurrenceOrder(init);
      var seen := FirstSeen(init);
      var fs := FirstSeen(ms);
      assert Makers(ms) == Makers(init) + [last.manufacturer];
      forall i, j, k | 0 <= i < j < |fs| && 0 <= k < |ms| && ms[k].manufacturer == fs[j]
        ensures fs[i] in Makers(ms[..k])
      {
        assert fs[i] == seen[i];
        if k < |ms| - 1 {
          assert ms[..k] == init[..k];
          assert ms[k] == init[k];
          assert fs[j] == seen[j];
        } else {
          assert ms[..k] == init;
          assert seen[i] in seen;
        }
      }
    }
  }

  /** A manufacturer that does not occur has no models. */
  lemma {:induction false} ModelsOfAbsent(ms: seq<CarModel>, manufacturer: string)
    requires manufacturer !in Makers(ms)
    ensures ModelsOf(ms, manufacturer) == []
  {
    if ms != [] {
      assert Makers(ms[..|ms| - 1]) == Makers(ms)[..|ms| - 1];
      ModelsOfAbsent(ms[..|ms| - 1], manufacturer);
    }
  }

  /** One more model row extends only its manufacturer's list and the manufacturer order. */
  lemma GroupingStep(ms: seq<CarModel>, k: nat)
    requires k < |ms|
    ensures FirstSeen(ms[..k + 1]) == if ms[k].manufacturer in FirstSeen(ms[..k]) then FirstSeen(ms[..k]) else FirstSeen(ms[..k]) + [ms[k].manufacturer]
    ensures forall mf :: ModelsOf(ms[..k + 1], mf) == ModelsOf(ms[..k], mf) + (if ms[k].manufacturer == mf then [ms[k].model] else [])
  {
    assert ms[..k + 1][..k] == ms[..k];
    assert ms[..k + 1][k] == ms[k];
  }

  // ------------------------------------------------------------ the store

  /** the index of the car with id `id` */
  function FindCar(cars: seq<CarRow>, id: int): (r: Option<nat>)
    ensures r.Some? ==> r.value < |cars| && cars[r.value].id == id
    ensures r.None? ==> forall k :: 0 <= k < |cars| ==> cars[k].id != id
  {
    if cars == [] then None
    else if cars[|cars| - 1].id == id then Some(|cars| - 1)
    else FindCar(cars[..|cars| - 1], id)
  }

  /** the model row with id `id` */
  function ModelById(models: seq<CarModel>, id: int): (r: Option<CarModel>)
    ensures r.Some? ==> r.value in models && r.value.id == id
    ensures r.None? ==> forall m :: m in models ==> m.id != id
  {
    if models == [] then None
    else if models[0].id == id then Some(models[0])
    else ModelById(models[1..], id)
  }

  /** `carModelRepository.findUnique({manufacturer, model})` */
  function FindModel(models: seq<CarModel>, manufacturer: string, model: string): (r: Option<CarModel>)
    ensures r.Some? ==> r.value in models && r.value.manufacturer == manufacturer && r.value.model == model
    ensures r.None? ==> forall m :: m in models ==> !(m.manufacturer == manufacturer && m.model == model)
  {
    if models == [] then None
    else if models[0].manufacturer == manufacturer && models[0].model == model then Some(models[0])
    else FindModel(models[1..], manufacturer, model)
  }

  /** model ids are the table's primary key */
  predicate UniqueModelIds(models: seq<CarModel>) {
    forall i, j :: 0 <= i < j < |models| ==> models[i].id != models[j].id
  }

  /** With unique ids, looking a model up by its id finds that very row. */
  lemma {:induction false} ModelByIdOfMember(models: seq<CarModel>, m: CarModel)
    requires UniqueModelIds(models) && m in models
    ensures ModelById(models, m.id) == Some(m)
  {
    if models[0] != m {
      assert m in models[1..];
      var k :| 1 <= k < |models| && models[k] == m;
      assert models[0].id != m.id;
      ModelByIdOfMember(models[1..], m);
    }
  }

  /** `manufacturer && model`: both are given and neither is empty */
  predicate BothGiven(p: CarPatch) {
    p.manufacturer.Some? && p.manufacturer.value != "" && p.model.Some? && p.model.value != ""
  }

  /** `Prisma.CarUpdateInput` as `buildCarUpdateData` fills it */
  datatype CarUpdate = CarUpdate(
    carNumber: Option<string>,
    manufacturingYear: Option<int>,
    mileage: Option<int>,
    price: Option<int>,
    accidentCount: Option<int>,
    explanation: Option<Option<string>>,
    accidentDetails: Option<Option<string>>,
    modelId: Option<int>)

  const InvalidRequestMessage := "잘못된 요청입니다."

  /**
   * `buildCarUpdateData`: the patch without manufacturer and model, plus a
   * reconnected model when both are given; an unknown pair is a
   * `BadRequestError`.
   */
  function BuildCarUpdateData(models: seq<CarModel>, p: CarPatch): (r: Result<CarUpdate, CustomError>)
    ensures r.Failure? <==> BothGiven(p) && FindModel(models, p.manufacturer.value, p.model.value).None?
    ensures r.Failure? ==> r.error == New(BadRequest, Some(InvalidRequestMessage))
    ensures r.Success? ==> (r.value.modelId.Some? <==> BothGiven(p))
    ensures r.Success? && BothGiven(p) ==> r.value.modelId == Some(FindModel(models, p.manufacturer.value, p.model.value).value.id)
    ensures r.Success? ==> r.value.(modelId := None) == CarUpdate(p.carNumber, p.manufacturingYear, p.mileage, p.price, p.accidentCount, p.explanation, p.accidentDetails, None)
  {
    var rest := CarUpdate(p.carNumber, p.manufacturingYear, p.mileage, p.price, p.accidentCount, p.explanation, p.accidentDetails, None);
    if BothGiven(p) then
      match FindModel(models, p.manufacturer.value, p.model.value)
      case None => Failure(New(BadRequest, Some(InvalidRequestMessage)))
      case Some(m) => Success(rest.(modelId := Some(m.id)))
    else Success(rest)
  }

  function Patched<T>(current: T, given: Option<T>): T {
    if given.Some? then given.value else current
  }

  /** what `car.update` writes: every given column, the rest kept */
  function ApplyCarUpdate(car: CarRow, u: CarUpdate): (r: CarRow)
    ensures r.id == car.id && r.companyId == car.companyId && r.status == car.status
    ensures u.modelId.None? ==> r.modelId == car.modelId
    ensures u == CarUpdate(None, None, None, None, None, None, None, None) ==> r == car
  {
    car.(carNumber := Patched(car.carNumber, u.carNumber),
         modelId := Patched(car.modelId, u.modelId),
         manufacturingYear := Patched(car.manufacturingYear, u.manufacturingYear),
         mileage := Patched(car.mileage, u.mileage),
         price := Patched(car.price, u.price),
         accidentCount := Patched(car.accidentCount, u.accidentCount),
         explanation := Patched(car.explanation, u.explanation),
         accidentDetails := Patched(car.accidentDetails, u.accidentDetails))
  }

  /** A manufacturer or a model given alone never moves the car to another model. */
  lemma HalfModelPairKeepsModel(models: seq<CarModel>, car: CarRow, p: CarPatch)
    requires !BothGiven(p)
    ensures BuildCarUpdateData(models, p).Success?
    ensures ApplyCarUpdate(car, BuildCarUpdateData(models, p).value).modelId == car.modelId
  {
  }

  const CarNotFoundMessage := "존재하지 않는 차량입니다."
  /** the text `updateCar` and `deleteCar` use, without the final period */
  const CarNotFoundShortMessage := "존재하지 않는 차량입니다"
  const UserNotFoundMessage := "User not found"

  function OtherCar(id: int): CarRow -> bool {
    (c: CarRow) => c.id != id
  }

  function CarId(c: CarRow): int {
    c.id
  }

  /** the filter a `where` clause stands for, given the model table */
  function Selects(models: seq<CarModel>, w: CarWhere): CarRow -> bool {
    (c: CarRow) => ModelById(models, c.modelId).Some? && WhereMatches(w, c, ModelById(models, c.modelId).value)
  }

  /** ids increase in insertion order and stay below the next id; every car has its model */
  ghost predicate StoreOk(cars: seq<CarRow>, models: seq<CarModel>, nextCarId: int) {
    && (forall i, j :: 0 <= i < j < |cars| ==> cars[i].id < cars[j].id)
    && (forall c :: c in cars ==> c.id < nextCarId && ModelById(models, c.modelId).Some?)
    && UniqueModelIds(models)
  }

  /** Rewriting a car in place, keeping its id and pointing at a known model, keeps the store well formed. */
  lemma ReplaceKeepsStoreOk(cars: seq<CarRow>, models: seq<CarModel>, nextCarId: int, i: nat, row: CarRow)
    requires StoreOk(cars, models, nextCarId) && i < |cars|
    requires row.id == cars[i].id && ModelById(models, row.modelId).Some?
    ensures StoreOk(cars[i := row], models, nextCarId)
  {
    assert cars[i] in cars;
    var after := cars[i := row];
    forall c | c in after ensures c.id < nextCarId && ModelById(models, c.modelId).Some? {
      var k :| 0 <= k < |after| && after[k] == c;
      if k != i {
        assert cars[k] in cars;
      }
    }
  }

  /**
   * The car table with the model table it references and, for `createCar`,
   * the company of each user.
   */
  class CarStore {
    var cars: seq<CarRow>
    var models: seq<CarModel>
    var companyOf: map<int, int>
    var nextCarId: int

    ghost predicate Valid()
      reads this
    {
      StoreOk(cars, models, nextCarId)
    }

    constructor (models: seq<CarModel>, companyOf: map<int, int>)
      requires UniqueModelIds(models)
      ensures Valid()
      ensures cars == [] && this.models == models && this.companyOf == companyOf && nextCarId == 1
    {
      this.cars := [];
      this.models := models;
      this.companyOf := companyOf;
      this.nextCarId := 1;
    }

    /** the response for a stored car */
    function ResponseFor(c: CarRow): (r: CarResponse)
      reads this
      requires ModelById(models, c.modelId).Some?
      ensures r == BuildCarResponseData(c, ModelById(models, c.modelId).value)
    {
      BuildCarResponseData(c, ModelById(models, c.modelId).value)
    }

    /** `getCar`: unknown ids raise `NotFoundError` */
    method GetCar(carId: int) returns (r: Result<CarResponse, CustomError>)
      requires Valid()
      ensures r.Failure? <==> FindCar(cars, carId).None?
      ensures r.Failure? ==> r.error == New(NotFound, Some(CarNotFoundMessage))
      ensures r.Success? ==> r.value == ResponseFor(cars[FindCar(cars, carId).value])
    {
      var i := FindCar(cars, carId);
      if i.None? {
        return Failure(New(NotFound, Some(CarNotFoundMessage)));
      }
      assert cars[i.value] in cars;
      r := Success(ResponseFor(cars[i.value]));
    }

    /**
     * `getCars`: one page of the cars the query selects, in table order,
     * with the count of all of them and the page count.
     */
    method GetCars(q: GetListQuery) returns (r: CarsPage)
      requires Valid()
      requires q.page >= 1 && q.pageSize >= 1
      ensures r.totalItemCount == |SelectedCars(cars, models, BuildQueryOptions(q).where)|
      ensures r.totalPages == TotalPages(r.totalItemCount, q.pageSize)
      ensures r.currentPage == q.page
      ensures var listed := ListedCars(cars, models, q);
              && |r.data| == |listed|
              && forall i :: 0 <= i < |listed| ==>
                   ModelById(models, listed[i].modelId).Some? && r.data[i] == BuildCarResponseData(listed[i], ModelById(models, listed[i].modelId).value)
    {
      var selected := SelectedCars(cars, models, BuildQueryOptions(q).where);
      var listed := ListedCars(cars, models, q);
      ListedCarsAreRequested(cars, models, q);
      var ms := models;
      var data := seq(|listed|, i requires 0 <= i < |listed| && ModelById(ms, listed[i].modelId).Some? =>
                        BuildCarResponseData(listed[i], ModelById(ms, listed[i].modelId).value));
      r := CarsPage(data, q.page, |selected|, TotalPages(|selected|, q.pageSize));
    }

    /**
     * `createCar` through `buildCarData`: the caller's company and a known
     * (manufacturer, model) pair are looked up first; the new car is in
     * possession, as the column's default.
     */
    method CreateCar(userId: int, data: BaseCarDto) returns (r: Result<CarResponse, CustomError>)
      requires Valid()
      modifies this
      ensures Valid()
      ensures models == old(models) && companyOf == old(companyOf)
      ensures r.Failure? <==> userId !in companyOf || FindModel(models, data.manufacturer, data.model).None?
      ensures r.Failure? && userId !in companyOf ==> r.error == New(NotFound, Some(UserNotFoundMessage))
      ensures r.Failure? && userId in companyOf ==> r.error == New(BadRequest, Some(InvalidRequestMessage))
      ensures r.Failure? ==> cars == old(cars) && nextCarId == old(nextCarId)
      ensures r.Success? ==>
                var m := FindModel(models, data.manufacturer, data.model).value;
                var row := CarRow(old(nextCarId), data.carNumber, companyOf[userId], m.id, data.manufacturingYear,
                                  data.mileage, data.price, data.accidentCount, data.explanation, data.accidentDetails, Possession);
                && cars == old(cars) + [row]
                && nextCarId == old(nextCarId) + 1
                && r.value == BuildCarResponseData(row, m)
                && r.value == ResponseFor(row)
    {
      if userId !in companyOf {
        return Failure(New(NotFound, Some(UserNotFoundMessage)));
      }
      var found := FindModel(models, data.manufacturer, data.model);
      if found.None? {
        return Failure(New(BadRequest, Some(InvalidRequestMessage)));
      }
      var m := found.value;
      var row := CarRow(nextCarId, data.carNumber, companyOf[userId], m.id, data.manufacturingYear,
                        data.mileage, data.price, data.accidentCount, data.explanation, data.accidentDetails, Possession);
      assert ModelById(models, m.id).Some?;
      ModelByIdOfMember(models, m);
      cars := cars + [row];
      nextCarId := nextCarId + 1;
      r := Success(BuildCarResponseData(row, m));
    }

    /**
     * `updateCar`: an unknown id raises `NotFoundError` and an unknown model
     * pair `BadRequestError`, both before the write; otherwise only that car
     * changes, by exactly the built update.
     */
    method UpdateCar(carId: int, p: CarPatch) returns (r: Result<CarResponse, CustomError>)
      requires Valid()
      modifies this
      ensures Valid()
      ensures models == old(models) && companyOf == old(companyOf) && nextCarId == old(nextCarId)
      ensures r.Failure? <==> FindCar(old(cars), carId).None? || BuildCarUpdateData(models, p).Failure?
      ensures r.Failure? && FindCar(old(cars), carId).None? ==> r.error == New(NotFound, Some(CarNotFoundShortMessage))
      ensures r.Failure? && FindCar(old(cars), carId).Some? ==> r.error == BuildCarUpdateData(models, p).error
      ensures r.Failure? ==> cars == old(cars)
      ensures r.Success? ==>
                var i := FindCar(old(cars), carId).value;
                var row := ApplyCarUpdate(old(cars)[i], BuildCarUpdateData(models, p).value);
                && cars == old(cars)[i := row]
                && r.value == ResponseFor(row)
    {
      var i := FindCar(cars, carId);
      if i.None? {
        return Failure(New(NotFound, Some(CarNotFoundShortMessage)));
      }
      var update := BuildCarUpdateData(models, p);
      if update.Failure? {
        return Failure(update.error);
      }
      var row := ApplyCarUpdate(cars[i.value], update.value);
      assert cars[i.value] in cars;
      if update.value.modelId.Some? {
        var m := FindModel(models, p.manufacturer.value, p.model.value).value;
        ModelByIdOfMember(models, m);
      }
      ReplaceKeepsStoreOk(cars, models, nextCarId, i.value, row);
      cars := cars[i.value := row];
      r := Success(ResponseFor(row));
    }

    /** `deleteCar`: an unknown id raises `NotFoundError`; otherwise exactly that car is removed */
    method DeleteCar(carId: int) returns (r: Result<(), CustomError>)
      requires Valid()
      modifies this
      ensures Valid()
      ensures models == old(models) && companyOf == old(companyOf) && nextCarId == old(nextCarId)
      ensures r.Failure? <==> FindCar(old(cars), carId).None?
      ensures r.Failure? ==> r.error == New(NotFound, Some(CarNotFoundShortMessage)) && cars == old(cars)
      ensures r.Success? ==> cars == Filter(old(cars), OtherCar(carId)) && FindCar(cars, carId).None?
    {
      if FindCar(cars, carId).None? {
        return Failure(New(NotFound, Some(CarNotFoundShortMessage)));
      }
      FilterKeepsIncreasing(cars, OtherCar(carId), CarId);
      cars := Filter(cars, OtherCar(carId));
      forall k | 0 <= k < |cars| ensures cars[k].id != carId {
        assert cars[k] in cars;
      }
      r := Success(());
    }

    /**
     * `getCarModels`: the models, as the repository lists them, grouped
     * under their manufacturer in a dictionary and read back with
     * `Object.entries`, which keeps the keys' insertion order.
     */
    method GetCarModels() returns (data: seq<ModelGroup>)
      ensures |data| == |FirstSeen(models)|
      ensures forall i :: 0 <= i < |data| ==> data[i].manufacturer == FirstSeen(models)[i] && data[i].models == ModelsOf(models, data[i].manufacturer)
    {
      var allModels := models;
      var grouped: map<string, seq<string>> := map[];
      var keys: seq<string> := [];
      var k := 0;
      while k < |allModels|
        invariant 0 <= k <= |allModels|
        invariant keys == FirstSeen(allModels[..k])
        invariant forall mf :: mf in grouped <==> mf in keys
        invariant forall mf :: mf in grouped ==> grouped[mf] == ModelsOf(allModels[..k], mf)
      {
        var cur := allModels[k];
        GroupingStep(allModels, k);
        if cur.manufacturer !in grouped {
          FirstSeenIsFirstOccurrenceOrder(allModels[..k]);
          ModelsOfAbsent(allModels[..k], cur.manufacturer);
          grouped := grouped[cur.manufacturer := []];
          keys := keys + [cur.manufacturer];
        }
        grouped := grouped[cur.manufacturer := grouped[cur.manufacturer] + [cur.model]];
        k := k + 1;
      }
      assert allModels[..k] == allModels;
      data := seq(|keys|, i requires 0 <= i < |keys| => ModelGroup(keys[i], grouped[keys[i]]));
    }
  }
}
