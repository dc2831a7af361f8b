/**
 * Rows, inputs and relation-loaded views of the contract feature
 * (src/features/contracts/contract.type.ts and the Prisma models it loads).
 * Stored timestamps are epoch milliseconds.
 */
module ContractTypes {
  import opened Wrappers

  /** `CONTRACT_STATUSES` */
  datatype ContractStatus = CarInspection | PriceNegotiation | ContractDraft | ContractSuccessful | ContractFailed

  /** Prisma's `CarStatus` */
  datatype CarStatus = Possession | ContractProceeding | ContractCompleted

  /** the five statuses, in declaration order */
  const AllStatuses: seq<ContractStatus> := [CarInspection, PriceNegotiation, ContractDraft, ContractSuccessful, ContractFailed]

  /** the wire name of a status */
  function StatusName(s: ContractStatus): string {
    match s
    case CarInspection => "carInspection"
    case PriceNegotiation => "priceNegotiation"
    case ContractDraft => "contractDraft"
    case ContractSuccessful => "contractSuccessful"
    case ContractFailed => "contractFailed"
  }

  /** the status a wire name denotes; `None` outside `CONTRACT_STATUSES` */
  function StatusFromName(name: string): (r: Option<ContractStatus>)
    ensures r.Some? ==> StatusName(r.value) == name
    ensures r.None? ==> forall s :: StatusName(s) != name
  {
    if name == "carInspection" then Some(CarInspection)
    else if name == "priceNegotiation" then Some(PriceNegotiation)
    else if name == "contractDraft" then Some(ContractDraft)
    else if name == "contractSuccessful" then Some(ContractSuccessful)
    else if name == "contractFailed" then Some(ContractFailed)
    else None
  }

  /** A JavaScript `Date` value: a time value in milliseconds, or Invalid Date. */
  datatype JsDate = ValidDate(ms: int) | InvalidDate

  /** the largest magnitude of a time value (ECMAScript TimeClip) */
  const MaxTimeValue := 8_640_000_000_000_000

  /** a number with its fractional part dropped, toward zero (ECMAScript ToIntegerOrInfinity) */
  function Truncate(x: real): (n: int)
    ensures n as real <= x < n as real + 1.0 || n as real - 1.0 < x <= n as real
    ensures x >= 0.0 ==> n >= 0
    ensures x <= 0.0 ==> n <= 0
  {
    if x >= 0.0 then x.Floor else -((-x).Floor)
  }

  /** `new Date(x)` for a number `x`: out-of-range values give Invalid Date, others are truncated */
  function DateFromNumber(x: real): (d: JsDate)
    ensures d.ValidDate? <==> -MaxTimeValue as real <= x <= MaxTimeValue as real
    ensures d.ValidDate? ==> d.ms == Truncate(x)
  {
    if -MaxTimeValue as real <= x <= MaxTimeValue as real then ValidDate(Truncate(x)) else InvalidDate
  }

  /** a row of the contract table */
  datatype Contract = Contract(
    id: nat,
    companyId: int,
    userId: int,
    carId: int,
    customerId: int,
    contractName: string,
    contractPrice: int,
    status: ContractStatus,
    resolutionDate: Option<int>,
    createdAt: int)

  /** a row of the car table, with the model name it is joined to */
  datatype Car = Car(companyId: int, price: int, modelName: string, status: CarStatus)

  /** a row of the customer table */
  datatype Customer = Customer(companyId: int, name: string, email: string)

  /** a row of the user table, as far as contracts read it */
  datatype UserRow = UserRow(name: string)

  datatype Meeting = Meeting(id: nat, contractId: nat, date: int)

  datatype Alarm = Alarm(id: nat, meetingId: nat, alarmTime: int)

  /** a row of the contract-document table */
  datatype Document = Document(contractId: Option<nat>, fileName: string, fileUrl: string)

  /** `CreateContractData`: the six columns `create` stores */
  datatype CreateContractData = CreateContractData(
    contractName: string,
    companyId: int,
    userId: int,
    carId: int,
    customerId: int,
    contractPrice: int)

  /**
   * `UpdateContractBaseData`. `resolutionDate` is `None` when the key is
   * absent, `Some(None)` for an explicit null, `Some(Some(d))` for a date.
   */
  datatype UpdatePatch = UpdatePatch(
    status: Option<ContractStatus>,
    resolutionDate: Option<Option<JsDate>>,
    contractPrice: Option<int>,
    userId: Option<int>,
    customerId: Option<int>,
    carId: Option<int>,
    contractName: Option<string>)

  /** `MeetingInput` */
  datatype MeetingInput = MeetingInput(date: string, alarms: seq<string>)

  /** a meeting loaded with its alarms */
  datatype MeetingWithAlarms = MeetingWithAlarms(meeting: Meeting, alarms: seq<Alarm>)

  /** `ContractWithRelations`: a contract with `contractFullInclude` loaded */
  datatype ContractWithRelations = ContractWithRelations(
    contract: Contract,
    user: UserRow,
    customer: Customer,
    car: Car,
    meetings: seq<MeetingWithAlarms>)

  /** JavaScript truthiness of an optional id: present and not 0 */
  predicate Truthy(id: Option<int>) {
    id.Some? && id.value != 0
  }
}
