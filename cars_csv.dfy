/**
 * The per-row conversion of the car CSV upload
 * (src/middlewares/cars-csv-parser.ts). A row holds one text per column;
 * the four numeric columns are read with `parseInt(text, 10) || 0` and the
 * two free-text columns with `text || null`. Reading the file is not
 * modelled; a request without a file is refused.
 */
module CarsCsv {
  import opened Wrappers
  import opened JsText
  import opened CustomErrors
  import opened CarsService

  const NoFileMessage := "파일이 없습니다."

  /** `RawCarCsvData`: every column as the CSV reader yields it */
  datatype RawCarRow = RawCarRow(
    carNumber: string,
    manufacturer: string,
    model: string,
    manufacturingYear: string,
    mileage: string,
    price: string,
    accidentCount: string,
    explanation: string,
    accidentDetails: string)

  /** `parseInt(s, 10) || 0`: the leading integer of `s`, or 0 when there is none (NaN is falsy) */
  function IntOrZero(s: string): (r: int)
    ensures ParseIntPrefix(s).None? ==> r == 0
    ensures ParseIntPrefix(s).Some? ==> r == ParseIntPrefix(s).value
  {
    match ParseIntPrefix(s)
    case None => 0
    case Some(v) => v
  }

  /** A number written in decimal is read back. */
  lemma IntOrZeroReadsDecimal(n: int)
    ensures IntOrZero(IntToString(n)) == n
  {
    ParseIntOfIntToString(n);
  }

  /** Only the leading digits count: `"12,500"` is read as 12 and `"15000원"` as 15000. */
  lemma IntOrZeroStopsAtNonDigit(n: nat, rest: string)
    requires rest == [] || !IsAsciiDigit(rest[0])
    ensures IntOrZero(NatToString(n) + rest) == n
  {
    ParseIntOfDigitsThen(NatToString(n), rest);
    DigitsValueOfNatToString(n);
  }

  /** A text that does not start with a digit, a sign or white space is read as 0. */
  lemma NonNumericIsZero(s: string)
    requires s == [] || (!IsAsciiDigit(s[0]) && s[0] != '-' && s[0] != '+' && !IsJsWhitespace(s[0]))
    ensures IntOrZero(s) == 0
  {
    assert TrimStart(s) == s;
  }

  /** one element of `rawData.map(...)` */
  function ConvertCarRow(row: RawCarRow): (r: BaseCarDto)
    ensures r.carNumber == row.carNumber && r.manufacturer == row.manufacturer && r.model == row.model
    ensures r.manufacturingYear == IntOrZero(row.manufacturingYear) && r.mileage == IntOrZero(row.mileage)
    ensures r.price == IntOrZero(row.price) && r.accidentCount == IntOrZero(row.accidentCount)
    ensures r.explanation.None? <==> row.explanation == ""
    ensures r.accidentDetails.None? <==> row.accidentDetails == ""
    ensures OrEmpty(r.explanation) == row.explanation && OrEmpty(r.accidentDetails) == row.accidentDetails
  {
    BaseCarDto(
      row.carNumber, row.manufacturer, row.model,
      IntOrZero(row.manufacturingYear), IntOrZero(row.mileage), IntOrZero(row.price), IntOrZero(row.accidentCount),
      StoredNullable(row.explanation), StoredNullable(row.accidentDetails))
  }

  /** the row a car is written as: numbers in decimal, a null text as an empty cell */
  function RowOf(car: BaseCarDto): RawCarRow {
    RawCarRow(
      car.carNumber, car.manufacturer, car.model,
      IntToString(car.manufacturingYear), IntToString(car.mileage), IntToString(car.price),
      IntToString(car.accidentCount), OrEmpty(car.explanation), OrEmpty(car.accidentDetails))
  }

  /** a car whose free-text columns are null or non-empty, as the body schema stores them */
  predicate NoEmptyText(car: BaseCarDto) {
    car.explanation != Some("") && car.accidentDetails != Some("")
  }

  /** Reading the row a car is written as gives the car back. */
  lemma ConvertCarRowOfRowOf(car: BaseCarDto)
    requires NoEmptyText(car)
    ensures ConvertCarRow(RowOf(car)) == car
  {
    IntOrZeroReadsDecimal(car.manufacturingYear);
    IntOrZeroReadsDecimal(car.mileage);
    IntOrZeroReadsDecimal(car.price);
    IntOrZeroReadsDecimal(car.accidentCount);
  }

  /** `rawData.map(...)`: one car per row, in order */
  function ConvertCarRows(rows: seq<RawCarRow>): (r: seq<BaseCarDto>)
    ensures |r| == |rows|
    ensures forall k :: 0 <= k < |rows| ==> r[k] == ConvertCarRow(rows[k])
  {
    if rows == [] then [] else [ConvertCarRow(rows[0])] + ConvertCarRows(rows[1..])
  }

  /** Reading back the rows a list of cars is written as gives the list. */
  lemma ConvertCarRowsOfRowsOf(cars: seq<BaseCarDto>)
    requires forall k :: 0 <= k < |cars| ==> NoEmptyText(cars[k])
    ensures ConvertCarRows(seq(|cars|, (k: int) requires 0 <= k < |cars| => RowOf(cars[k]))) == cars
  {
    var rows := seq(|cars|, (k: int) requires 0 <= k < |cars| => RowOf(cars[k]));
    forall k | 0 <= k < |cars| ensures ConvertCarRows(rows)[k] == cars[k] {
      ConvertCarRowOfRowOf(cars[k]);
    }
  }

  /** `carsCsvParser`: `file` is the uploaded file's rows, `None` when no file was sent */
  function ParseCarsCsv(file: Option<seq<RawCarRow>>): (r: Result<seq<BaseCarDto>, CustomError>)
    ensures file.None? <==> r.Failure?
    ensures r.Failure? ==> r.error == New(BadRequest, Some(NoFileMessage)) && r.error.statusCode == 400
    ensures r.Success? ==> r.value == ConvertCarRows(file.value)
  {
    match file
    case None => Failure(New(BadRequest, Some(NoFileMessage)))
    case Some(rows) => Success(ConvertCarRows(rows))
  }
}
