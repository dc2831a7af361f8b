/**
 * The pure decisions of the contract service
 * (src/features/contracts/contract.service.ts): the car status a contract
 * status implies, the normalisation of a requested resolution date, the
 * generated contract name and the "status-only update" classification.
 */
module ContractPolicy {
  import opened Wrappers
  import opened JsText
  import opened ContractTypes

  const CarNotFound := "존재하지 않는 자동차입니다"
  const CustomerNotFound := "존재하지 않는 고객입니다"
  const ContractNotFound := "존재하지 않는 계약입니다"
  const UserNotFound := "존재하지 않는 담당자입니다"
  const ForbiddenUpdate := "담당자만 수정이 가능합니다"
  const ForbiddenDelete := "담당자만 삭제가 가능합니다"
  const InvalidDateFormat := "유효하지 않은 날짜 형식입니다"
  const CarOrCustomerNotFound := "차량 또는 고객 정보를 찾을 수 없습니다"
  const DeleteSucceeded := "계약 삭제 성공"
  const EmailNotSent := "Email could not be sent"

  /** `mapContractStatusToCarStatus` */
  function CarStatusFor(s: ContractStatus): (c: CarStatus)
    ensures c == ContractProceeding <==> s in {CarInspection, PriceNegotiation, ContractDraft}
    ensures c == ContractCompleted <==> s == ContractSuccessful
    ensures c == Possession <==> s == ContractFailed
  {
    match s
    case ContractDraft | CarInspection | PriceNegotiation => ContractProceeding
    case ContractSuccessful => ContractCompleted
    case ContractFailed => Possession
  }

  /** `mapContractStatusToCarStatus` applied to a raw status string; the `default` branch gives possession */
  function CarStatusForName(name: string): (c: CarStatus)
    ensures StatusFromName(name).None? ==> c == Possession
    ensures StatusFromName(name).Some? ==> c == CarStatusFor(StatusFromName(name).value)
  {
    match StatusFromName(name)
    case Some(s) => CarStatusFor(s)
    case None => Possession
  }

  /** The car of a contract is free again exactly when the contract failed. */
  lemma CarReleasedOnlyOnFailure(s: ContractStatus)
    ensures CarStatusFor(s) == Possession <==> s == ContractFailed
    ensures CarStatusFor(s) != Possession ==> CarStatusFor(s) == (if s == ContractSuccessful then ContractCompleted else ContractProceeding)
  {
  }

  /** what the service's `resolutionDate` argument can be at run time */
  datatype RawDate =
    | Absent
    | NullValue
    | Str(s: string)
    | Num(x: real)
    | DateValue(d: JsDate)
    | OtherValue

  /** the outcome of `processResolutionDate`: `undefined`, `null` or a `Date` */
  datatype ResolvedDate = Undefined | Null | At(d: JsDate)

  /** the suffix that turns a `YYYY-MM-DD` string into midnight UTC */
  const MidnightSuffix := "T00:00:00.000Z"

  /**
   * `processResolutionDate`. `parse` is `new Date(string)`. A string or a
   * number never throws, it may yield Invalid Date; only a value of another
   * kind raises INVALID_DATE_FORMAT.
   */
  function ProcessResolutionDate(raw: RawDate, parse: string -> JsDate): (r: Result<ResolvedDate, string>)
    ensures r.Failure? <==> raw.OtherValue?
    ensures r.Failure? ==> r.error == InvalidDateFormat
  {
    match raw
    case Absent => Success(Undefined)
    case NullValue => Success(Null)
    case Str(s) =>
      var trimmed := Trim(s);
      if trimmed == "" then Success(Null)
      else if Utf16Length(trimmed) == 10 then Success(At(parse(trimmed + MidnightSuffix)))
      else Success(At(parse(trimmed)))
    case Num(x) => Success(At(DateFromNumber(x)))
    case DateValue(d) => Success(At(d))
    case OtherValue => Failure(InvalidDateFormat)
  }

  /** `undefined` and `null` pass through, and a `Date` is returned as it is. */
  lemma ResolutionDatePassThrough(raw: RawDate, parse: string -> JsDate)
    ensures raw.Absent? ==> ProcessResolutionDate(raw, parse) == Success(Undefined)
    ensures raw.NullValue? ==> ProcessResolutionDate(raw, parse) == Success(Null)
    ensures raw.DateValue? ==> ProcessResolutionDate(raw, parse) == Success(At(raw.d))
  {
  }

  /** The result is null exactly for null and for blank strings. */
  lemma ResolutionDateNullIffBlank(raw: RawDate, parse: string -> JsDate)
    ensures ProcessResolutionDate(raw, parse) == Success(Null) <==> raw.NullValue? || (raw.Str? && Trim(raw.s) == "")
  {
  }

  /**
   * A date written as ten characters, with any surrounding white space, is
   * read as midnight UTC of that date; a longer or shorter one is parsed as written.
   */
  lemma ResolutionDateOfString(s: string, parse: string -> JsDate)
    requires Trim(s) != ""
    ensures Utf16Length(Trim(s)) == 10 ==> ProcessResolutionDate(Str(s), parse) == Success(At(parse(Trim(s) + MidnightSuffix)))
    ensures Utf16Length(Trim(s)) != 10 ==> ProcessResolutionDate(Str(s), parse) == Success(At(parse(Trim(s))))
  {
  }

  /** A number is read as epoch milliseconds, within the range JavaScript dates allow. */
  lemma ResolutionDateOfNumber(n: int, parse: string -> JsDate)
    ensures -MaxTimeValue <= n <= MaxTimeValue ==> ProcessResolutionDate(Num(n as real), parse) == Success(At(ValidDate(n)))
    ensures (n < -MaxTimeValue || n > MaxTimeValue) ==> ProcessResolutionDate(Num(n as real), parse) == Success(At(InvalidDate))
  {
  }

  /** `_buildContractName` */
  function BuildContractName(model: string, customerName: string): (name: string)
    ensures StartsWith(name, model + " - ")
    ensures EndsWith(name, " 고객님")
  {
    model + " - " + customerName + " 고객님"
  }

  /** For one car model, the contract name determines the customer name. */
  lemma {:induction false} ContractNameDeterminesCustomer(model: string, a: string, b: string)
    requires BuildContractName(model, a) == BuildContractName(model, b)
    ensures a == b
  {
    var na := BuildContractName(model, a);
    var nb := BuildContractName(model, b);
    var k := |model + " - "|;
    assert |a| == |b|;
    assert a == na[k..k + |a|];
    assert b == nb[k..k + |b|];
  }

  /** An update request as the service receives it: every key optional. */
  datatype UpdateRequest = UpdateRequest(
    status: Option<ContractStatus>,
    resolutionDate: RawDate,
    contractPrice: Option<int>,
    userId: Option<int>,
    customerId: Option<int>,
    carId: Option<int>,
    meetings: Option<seq<MeetingInput>>,
    contractDocuments: Option<seq<int>>)

  /** `isOnlyStatusUpdate` */
  predicate IsOnlyStatusUpdate(d: UpdateRequest) {
    && d.status.Some?
    && d.contractPrice.None?
    && d.meetings.None?
    && d.userId.None?
    && d.customerId.None?
    && d.carId.None?
    && d.contractDocuments.None?
  }

  /** The resolution date is the only other key a status-only update may carry. */
  lemma StatusOnlyIgnoresResolutionDate(d: UpdateRequest, raw: RawDate)
    ensures IsOnlyStatusUpdate(d) <==> IsOnlyStatusUpdate(d.(resolutionDate := raw))
    ensures IsOnlyStatusUpdate(d) ==> d.status.Some?
    ensures IsOnlyStatusUpdate(d) && d.meetings.None? ==> !IsOnlyStatusUpdate(d.(meetings := Some([])))
  {
  }

  /** the document-lookup error of a full update */
  function DocumentNotFound(id: int): string {
    "계약 문서를 찾을 수 없습니다 (ID: " + IntToString(id) + ")"
  }
}
