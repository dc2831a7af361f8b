/**
 * `ContractService` (src/features/contracts/contract.service.ts): creating,
 * updating, listing and deleting contracts while keeping the linked car's
 * status and the contract's meetings and alarms in step.
 *
 * Every operation is a method on the database `db`. A `prisma.$transaction`
 * is a snapshot taken before its first write and restored when any write in
 * it fails, so a failed operation leaves every table as it found it. What a
 * successful operation leaves behind is stated by a function of the
 * original tables (`CreatedTables`, `StatusUpdateTables`,
 * `FullUpdateTables`, `DeletedTables`), and the lemmas below those
 * functions state what the service promises about them.
 */
module ContractService {
  import opened Wrappers
  import opened Seqs
  import opened JsText
  import opened CustomErrors
  import opened ContractTypes
  import opened ContractPolicy
  import opened ContractMapper
  import opened ContractRepository
  import opened ContractMeetings
  import ErrorHandler

  function NotFoundError(message: string): Thrown {
    Custom(New(NotFound, Some(message)))
  }

  function ForbiddenError(message: string): Thrown {
    Custom(New(Forbidden, Some(message)))
  }

  /** `customerRepository.findById(id, companyId)` finds a row */
  predicate CustomerInCompany(t: Tables, customerId: int, companyId: int) {
    customerId in t.customers && t.customers[customerId].companyId == companyId
  }

  /** the row with the given id after a patch */
  function PatchAt(t: Tables, i: nat, p: UpdatePatch): (r: Tables)
    requires i < |t.contracts|
    ensures r.contracts == t.contracts[i := ApplyPatch(t.contracts[i], p)]
    ensures r.meetings == t.meetings && r.alarms == t.alarms && r.cars == t.cars && r.documents == t.documents
  {
    t.(contracts := t.contracts[i := ApplyPatch(t.contracts[i], p)])
  }

  /** `CarRepository.updateInTx(tx, carId, {status})` on the tables */
  function WithCarStatus(t: Tables, carId: int, status: CarStatus): (r: Tables)
    requires carId in t.cars
    ensures r.cars.Keys == t.cars.Keys && r.cars[carId].status == status
    ensures forall id :: id in t.cars && id != carId ==> r.cars[id] == t.cars[id]
    ensures r.contracts == t.contracts && r.meetings == t.meetings && r.alarms == t.alarms
  {
    t.(cars := t.cars[carId := t.cars[carId].(status := status)])
  }

  /** the loaded detail view of the contract with the given id */
  function DetailOf(t: Tables, id: int): ContractDetailDto
    requires ValidTables(t) && FindIndex(t.contracts, id).Some?
  {
    ToDetailDto(FindByIdIn(t, id).value)
  }

  // ---------------------------------------------------------------- create

  /** the body `createContractSchema` admits, as the service receives it */
  datatype CreateRequest = CreateRequest(carId: int, customerId: int, meetings: Option<seq<MeetingInput>>)

  /** the contract row `createContract` inserts: the car's company and price, the generated name, the caller as owner */
  function NewContract(t: Tables, req: CreateRequest, userId: int, defaultStatus: ContractStatus): (c: Contract)
    requires req.carId in t.cars && req.customerId in t.customers
    ensures c.id == t.nextContractId && c.createdAt == t.clock
    ensures c.companyId == t.cars[req.carId].companyId && c.contractPrice == t.cars[req.carId].price
    ensures c.userId == userId && c.carId == req.carId && c.customerId == req.customerId
    ensures c.contractName == BuildContractName(t.cars[req.carId].modelName, t.customers[req.customerId].name)
    ensures c.status == defaultStatus && c.resolutionDate.None?
  {
    var car := t.cars[req.carId];
    Contract(t.nextContractId, car.companyId, userId, req.carId, req.customerId,
             BuildContractName(car.modelName, t.customers[req.customerId].name), car.price, defaultStatus, None, t.clock)
  }

  /** why `createContract` fails, if it does, in the order the code checks */
  function CreateFailure(t: Tables, req: CreateRequest, userId: int, parse: string -> JsDate): (r: Option<Thrown>)
    ensures req.carId !in t.cars ==> r == Some(NotFoundError(CarNotFound))
    ensures req.carId in t.cars && !CustomerInCompany(t, req.customerId, t.cars[req.carId].companyId) ==>
              r == Some(NotFoundError(CustomerNotFound))
  {
    if req.carId !in t.cars then Some(NotFoundError(CarNotFound))
    else if !CustomerInCompany(t, req.customerId, t.cars[req.carId].companyId) then Some(NotFoundError(CustomerNotFound))
    else if userId !in t.users then Some(BrokenForeignKey)
    else MeetingsError(req.meetings.GetOr([]), parse)
  }

  /** the tables once the contract row is inserted and its car is under contract */
  function InsertedTables(t: Tables, req: CreateRequest, userId: int, defaultStatus: ContractStatus): Tables
    requires req.carId in t.cars && req.customerId in t.customers
  {
    var c := NewContract(t, req, userId, defaultStatus);
    var inserted := t.(contracts := t.contracts + [c], nextContractId := t.nextContractId + 1, clock := t.clock + 1);
    WithCarStatus(inserted, req.carId, CarStatusFor(CarInspection))
  }

  /** the tables after a successful `createContract` */
  function CreatedTables(t: Tables, req: CreateRequest, userId: int, defaultStatus: ContractStatus, parse: string -> JsDate): Tables
    requires CreateFailure(t, req, userId, parse).None?
  {
    WithMeetings(InsertedTables(t, req, userId, defaultStatus), t.nextContractId, req.meetings.GetOr([]), parse)
  }

  /** The inserted row keeps the tables valid, is found by its id, and has no meetings yet. */
  lemma InsertedTablesValid(t: Tables, req: CreateRequest, userId: int, defaultStatus: ContractStatus)
    requires ValidTables(t) && req.carId in t.cars && req.customerId in t.customers && userId in t.users
    ensures var t1 := InsertedTables(t, req, userId, defaultStatus);
            && ValidTables(t1) && t.nextContractId < t1.nextContractId
            && FindIndex(t1.contracts, t.nextContractId) == Some(|t.contracts|)
            && t1.contracts[|t.contracts|] == NewContract(t, req, userId, defaultStatus)
            && forall m :: m in t1.meetings ==> m.contractId != t.nextContractId
  {
    var c := NewContract(t, req, userId, defaultStatus);
    forall k | 0 <= k < |t.contracts| ensures t.contracts[k].id < c.id && t.contracts[k].createdAt < c.createdAt {
      assert t.contracts[k] in t.contracts;
    }
  }

  /**
   * `createContract`: the car must exist and the customer must belong to the
   * car's company before anything is written; then the contract, the car's
   * status and the meetings are written in one transaction.
   */
  method CreateContract(db: ContractDb, req: CreateRequest, userId: int, parse: string -> JsDate) returns (r: Result<ContractDetailDto, Thrown>)
    requires db.Valid()
    modifies db
    ensures db.Valid()
    ensures r.Failure? <==> CreateFailure(old(db.Snapshot()), req, userId, parse).Some?
    ensures r.Failure? ==> Some(r.error) == CreateFailure(old(db.Snapshot()), req, userId, parse) && db.Snapshot() == old(db.Snapshot())
    ensures r.Success? ==>
              && db.Snapshot() == CreatedTables(old(db.Snapshot()), req, userId, db.defaultStatus, parse)
              && r.value == DetailOf(db.Snapshot(), old(db.nextContractId))
  {
    ghost var t := db.Snapshot();
    if req.carId !in db.cars {
      return Failure(NotFoundError(CarNotFound));
    }
    var car := db.cars[req.carId];
    if !(req.customerId in db.customers && db.customers[req.customerId].companyId == car.companyId) {
      return Failure(NotFoundError(CustomerNotFound));
    }
    var contractName := BuildContractName(car.modelName, db.customers[req.customerId].name);
    var initialCarStatus := CarStatusFor(CarInspection);
    var saved := db.Snapshot();
    var created := db.Create(CreateContractData(contractName, car.companyId, userId, req.carId, req.customerId, car.price));
    if created.Failure? {
      return Failure(created.error);
    }
    var c := created.value;
    var carUpdated := db.SetCarStatus(req.carId, initialCarStatus);
    assert carUpdated.Success?;
    InsertedTablesValid(t, req, userId, db.defaultStatus);
    assert db.Snapshot() == InsertedTables(t, req, userId, db.defaultStatus);
    var meetings := CreateMeetings(db, c.id, req.meetings.GetOr([]), parse);
    if meetings.Failure? {
      db.Restore(saved);
      return Failure(meetings.error);
    }
    var loaded := db.FindById(c.id);
    r := Success(ToDetailDto(loaded.value));
  }

  /**
   * A created contract shows the car's price, the caller as owner, the
   * customer and car it was created for, no resolution date, the database's
   * default status and exactly the requested meetings and alarms.
   */
  lemma CreatedDetail(t: Tables, req: CreateRequest, userId: int, defaultStatus: ContractStatus, parse: string -> JsDate)
    requires ValidTables(t) && CreateFailure(t, req, userId, parse).None?
    ensures var t2 := CreatedTables(t, req, userId, defaultStatus, parse);
            && ValidTables(t2) && FindIndex(t2.contracts, t.nextContractId).Some?
            && var d := DetailOf(t2, t.nextContractId);
               && d.id == t.nextContractId && d.status == defaultStatus && d.resolutionDate.None?
               && d.contractPrice == t.cars[req.carId].price
               && d.user == PartyDto(userId, t.users[userId].name)
               && d.customer == PartyDto(req.customerId, t.customers[req.customerId].name)
               && d.car == CarDto(req.carId, t.cars[req.carId].modelName)
               && d.meetings == RequestedMeetings(req.meetings.GetOr([]), parse)
  {
    InsertedTablesValid(t, req, userId, defaultStatus);
    ReadBackMeetings(InsertedTables(t, req, userId, defaultStatus), t.nextContractId, req.meetings.GetOr([]), parse);
  }

  /** Creating a contract puts its car under contract and changes no other car, customer, user or contract. */
  lemma CreatedTablesEffect(t: Tables, req: CreateRequest, userId: int, defaultStatus: ContractStatus, parse: string -> JsDate)
    requires CreateFailure(t, req, userId, parse).None?
    ensures var t2 := CreatedTables(t, req, userId, defaultStatus, parse);
            && t2.contracts == t.contracts + [NewContract(t, req, userId, defaultStatus)]
            && t2.cars.Keys == t.cars.Keys && t2.cars[req.carId].status == ContractProceeding
            && (forall id :: id in t.cars && id != req.carId ==> t2.cars[id] == t.cars[id])
            && t2.customers == t.customers && t2.users == t.users && t2.documents == t.documents
  {
  }

  // ---------------------------------------------------------------- update

  /** the resolution date as a patch entry: absent when undefined, cleared by null */
  function DatePatch(d: ResolvedDate): (r: Option<Option<JsDate>>)
    ensures r.None? <==> d.Undefined?
    ensures r == Some(None) <==> d.Null?
    ensures d.At? ==> r == Some(Some(d.d))
  {
    match d
    case Undefined => None
    case Null => Some(None)
    case At(x) => Some(Some(x))
  }

  /** the patch of the status-only path: the status and, unless undefined, the resolution date */
  function StatusPatch(status: ContractStatus, d: ResolvedDate): UpdatePatch {
    UpdatePatch(Some(status), DatePatch(d), None, None, None, None, None)
  }

  /** `_fetchAndBuildContractName` */
  function FetchContractName(t: Tables, carId: int, customerId: int, companyId: int): (r: Result<string, Thrown>)
    ensures r.Failure? <==> !(carId in t.cars && CustomerInCompany(t, customerId, companyId))
    ensures r.Failure? ==> r.error == NotFoundError(CarOrCustomerNotFound)
    ensures r.Success? ==> r.value == BuildContractName(t.cars[carId].modelName, t.customers[customerId].name)
  {
    if carId in t.cars && CustomerInCompany(t, customerId, companyId) then
      Success(BuildContractName(t.cars[carId].modelName, t.customers[customerId].name))
    else
      Failure(NotFoundError(CarOrCustomerNotFound))
  }

  /** `validateUpdateData`: every truthy id must exist, the customer within the company */
  function ValidationError(t: Tables, data: UpdateRequest, companyId: int): (r: Option<Thrown>)
    ensures r.None? <==>
              && (Truthy(data.userId) ==> data.userId.value in t.users)
              && (Truthy(data.carId) ==> data.carId.value in t.cars)
              && (Truthy(data.customerId) ==> CustomerInCompany(t, data.customerId.value, companyId))
    ensures r.Some? ==> r.value in {NotFoundError(UserNotFound), NotFoundError(CarNotFound), NotFoundError(CustomerNotFound)}
  {
    if Truthy(data.userId) && data.userId.value !in t.users then Some(NotFoundError(UserNotFound))
    else if Truthy(data.carId) && data.carId.value !in t.cars then Some(NotFoundError(CarNotFound))
    else if Truthy(data.customerId) && !CustomerInCompany(t, data.customerId.value, companyId) then Some(NotFoundError(CustomerNotFound))
    else None
  }

  /** Once the ids are validated, the contract name can always be built. */
  lemma ValidatedNameIsFound(t: Tables, data: UpdateRequest, companyId: int)
    requires ValidationError(t, data, companyId).None? && Truthy(data.carId) && Truthy(data.customerId)
    ensures FetchContractName(t, data.carId.value, data.customerId.value, companyId).Success?
  {
  }

  /** the contract name the full update passes to `update`, when it builds one */
  function SuppliedName(t: Tables, data: UpdateRequest, companyId: int): Option<string> {
    if Truthy(data.carId) && Truthy(data.customerId) then
      match FetchContractName(t, data.carId.value, data.customerId.value, companyId)
      case Success(name) => Some(name)
      case Failure(_) => None
    else None
  }

  /** the patch of the full path */
  function FullPatch(data: UpdateRequest, d: ResolvedDate, name: Option<string>): UpdatePatch {
    UpdatePatch(data.status, DatePatch(d), data.contractPrice, data.userId, data.customerId, data.carId, name)
  }

  /** the documents after the full update relinks them: the contract's old ones detached, the listed ones attached */
  function RelinkedDocuments(docs: map<int, Document>, contractId: nat, ids: seq<int>): (r: map<int, Document>)
    ensures r.Keys == docs.Keys
    ensures forall k :: k in r && k in ids ==> r[k].contractId == Some(contractId)
    ensures forall k :: k in r && k !in ids ==> r[k].contractId != Some(contractId)
    ensures forall k :: k in r && k !in ids && docs[k].contractId != Some(contractId) ==> r[k] == docs[k]
  {
    if |ids| > 0 then Linked(Unlinked(docs, contractId), contractId, ids) else Unlinked(docs, contractId)
  }

  /** `contractDocuments && contractDocuments.length > 0`: the documents are looked up and mailed */
  predicate HasDocuments(data: UpdateRequest) {
    data.contractDocuments.Some? && |data.contractDocuments.value| > 0
  }

  /** the position of the first listed document id that does not exist */
  function FirstMissing(docs: map<int, Document>, ids: seq<int>): (r: Option<nat>)
    ensures r.None? <==> forall k :: 0 <= k < |ids| ==> ids[k] in docs
    ensures r.Some? ==> r.value < |ids| && ids[r.value] !in docs && forall q :: 0 <= q < r.value ==> ids[q] in docs
  {
    if ids == [] then None
    else if ids[0] !in docs then Some(0)
    else match FirstMissing(docs, ids[1..])
      case None => None
      case Some(k) => Some(k + 1)
  }

  /** the error of the first listed document id that does not exist */
  function DocumentsError(docs: map<int, Document>, ids: seq<int>): (r: Option<Thrown>)
    ensures r.None? <==> forall k :: 0 <= k < |ids| ==> ids[k] in docs
  {
    match FirstMissing(docs, ids)
    case None => None
    case Some(k) => Some(NotFoundError(DocumentNotFound(ids[k])))
  }

  /** `findContractDocumentById` for every listed id, in order */
  method FindDocuments(db: ContractDb, ids: seq<int>) returns (r: Result<seq<Document>, Thrown>)
    ensures r.Failure? <==> DocumentsError(db.documents, ids).Some?
    ensures r.Failure? ==> r.error == DocumentsError(db.documents, ids).value
    ensures r.Success? ==> |r.value| == |ids| && forall k :: 0 <= k < |ids| ==> r.value[k] == db.documents[ids[k]]
  {
    var found: seq<Document> := [];
    var k := 0;
    while k < |ids|
      invariant 0 <= k <= |ids|
      invariant |found| == k && forall q :: 0 <= q < k ==> ids[q] in db.documents && found[q] == db.documents[ids[q]]
    {
      if ids[k] !in db.documents {
        assert FirstMissing(db.documents, ids) == Some(k);
        return Failure(NotFoundError(DocumentNotFound(ids[k])));
      }
      found := found + [db.documents[ids[k]]];
      k := k + 1;
    }
    r := Success(found);
  }

  /** the tables after the status-only path */
  function StatusUpdateTables(t: Tables, i: nat, status: ContractStatus, d: ResolvedDate): Tables
    requires i < |t.contracts| && t.contracts[i].carId in t.cars
  {
    WithCarStatus(PatchAt(t, i, StatusPatch(status, d)), t.contracts[i].carId, CarStatusFor(status))
  }

  /** the car whose status the full update rewrites: `data.carId || originalCarId` */
  function TargetCar(data: UpdateRequest, originalCarId: int): int {
    if Truthy(data.carId) then data.carId.value else originalCarId
  }

  /** the tables after the full path's patch and car-status write */
  function PatchedTables(t: Tables, i: nat, data: UpdateRequest, d: ResolvedDate): Tables
    requires ValidTables(t) && i < |t.contracts|
    requires ValidationError(t, data, t.contracts[i].companyId).None?
  {
    var c := t.contracts[i];
    assert c in t.contracts;
    var t1 := PatchAt(t, i, FullPatch(data, d, SuppliedName(t, data, c.companyId)));
    if data.status.Some? then WithCarStatus(t1, TargetCar(data, c.carId), CarStatusFor(data.status.value)) else t1
  }

  /** The patch keeps the tables valid and the row where it was. */
  lemma PatchedTablesValid(t: Tables, i: nat, data: UpdateRequest, d: ResolvedDate)
    requires ValidTables(t) && i < |t.contracts|
    requires ValidationError(t, data, t.contracts[i].companyId).None?
    ensures var t2 := PatchedTables(t, i, data, d);
            && ValidTables(t2) && |t2.contracts| == |t.contracts| && t2.contracts[i].id == t.contracts[i].id
            && t2.nextContractId == t.nextContractId && t2.meetings == t.meetings && t2.alarms == t.alarms
  {
    var c := t.contracts[i];
    assert c in t.contracts;
    var t1 := PatchAt(t, i, FullPatch(data, d, SuppliedName(t, data, c.companyId)));
    forall k | 0 <= k < |t1.contracts| ensures RowOk(t1.contracts[k], t1.nextContractId, t1.clock, t1.users, t1.customers, t1.cars) {
      assert t.contracts[k] in t.contracts;
    }
    assert forall k :: 0 <= k < |t1.contracts| ==> t1.contracts[k].id == t.contracts[k].id && t1.contracts[k].createdAt == t.contracts[k].createdAt;
  }

  /** the tables after the full path */
  function FullUpdateTables(t: Tables, i: nat, data: UpdateRequest, d: ResolvedDate, parse: string -> JsDate): (r: Tables)
    requires ValidTables(t) && i < |t.contracts|
    requires ValidationError(t, data, t.contracts[i].companyId).None?
    requires data.meetings.Some? ==> AllParse(data.meetings.value, parse)
    ensures var t2 := PatchedTables(t, i, data, d);
            r.contracts == t2.contracts && r.cars == t2.cars && r.customers == t.customers && r.users == t.users
  {
    var id := t.contracts[i].id;
    var t2 := PatchedTables(t, i, data, d);
    var t3 := MeetingsReplaced(t2, id, data.meetings, parse);
    if data.contractDocuments.Some? then t3.(documents := RelinkedDocuments(t3.documents, id, data.contractDocuments.value)) else t3
  }

  /** the meetings step of the full path, when meetings are supplied: the old ones go, the requested ones come */
  function MeetingsReplaced(t: Tables, id: nat, meetings: Option<seq<MeetingInput>>, parse: string -> JsDate): (r: Tables)
    requires meetings.Some? ==> AllParse(meetings.value, parse)
    ensures r.contracts == t.contracts && r.cars == t.cars && r.customers == t.customers && r.users == t.users
    ensures meetings.None? ==> r == t
  {
    if meetings.Some? then WithMeetings(WithoutMeetingsOf(t, id), id, meetings.value, parse) else t
  }

  /** why `updateContract` fails, if it does, in the order the code checks */
  function UpdateFailure(t: Tables, id: int, data: UpdateRequest, requestUserId: int, parse: string -> JsDate, emailDelivered: bool): (r: Option<Thrown>)
    ensures FindIndex(t.contracts, id).None? ==> r == Some(NotFoundError(ContractNotFound))
    ensures FindIndex(t.contracts, id).Some? && t.contracts[FindIndex(t.contracts, id).value].userId != requestUserId ==>
              r == Some(ForbiddenError(ForbiddenUpdate))
  {
    match FindIndex(t.contracts, id)
    case None => Some(NotFoundError(ContractNotFound))
    case Some(i) =>
      var existing := t.contracts[i];
      if existing.userId != requestUserId then Some(ForbiddenError(ForbiddenUpdate))
      else match ProcessResolutionDate(data.resolutionDate, parse)
        case Failure(message) => Some(Other(message))
        case Success(d) =>
          if IsOnlyStatusUpdate(data) then
            (if DatePatch(d) == Some(Some(InvalidDate)) then Some(Other(InvalidDateArgument)) else None)
          else if HasDocuments(data) && DocumentsError(t.documents, data.contractDocuments.value).Some? then
            DocumentsError(t.documents, data.contractDocuments.value)
          else if HasDocuments(data) && !emailDelivered then Some(Other(EmailNotSent))
          else if ValidationError(t, data, existing.companyId).Some? then ValidationError(t, data, existing.companyId)
          else if DatePatch(d) == Some(Some(InvalidDate)) then Some(Other(InvalidDateArgument))
          else if data.meetings.Some? then MeetingsError(data.meetings.value, parse)
          else None
  }

  /** the tables after a successful `updateContract` */
  function UpdatedTables(t: Tables, id: int, data: UpdateRequest, requestUserId: int, parse: string -> JsDate, emailDelivered: bool): Tables
    requires ValidTables(t) && UpdateFailure(t, id, data, requestUserId, parse, emailDelivered).None?
  {
    var i := FindIndex(t.contracts, id).value;
    assert t.contracts[i] in t.contracts;
    var d := ProcessResolutionDate(data.resolutionDate, parse).value;
    if IsOnlyStatusUpdate(data) then StatusUpdateTables(t, i, data.status.value, d)
    else FullUpdateTables(t, i, data, d, parse)
  }

  /** `updateContractStatus`: the status, the resolution date unless undefined, and the car's status */
  method UpdateContractStatus(db: ContractDb, i: nat, status: ContractStatus, d: ResolvedDate) returns (r: Result<ContractDetailDto, Thrown>)
    requires db.Valid() && i < |db.contracts|
    modifies db
    ensures db.Valid()
    ensures r.Failure? <==> DatePatch(d) == Some(Some(InvalidDate))
    ensures r.Failure? ==> r.error == Other(InvalidDateArgument) && db.Snapshot() == old(db.Snapshot())
    ensures r.Success? ==>
              && old(db.contracts[i].carId) in old(db.cars)
              && db.Snapshot() == StatusUpdateTables(old(db.Snapshot()), i, status, d)
              && FindIndex(db.contracts, old(db.contracts[i].id)) == Some(i)
              && r.value == DetailOf(db.Snapshot(), old(db.contracts[i].id))
  {
    var id := db.contracts[i].id;
    var carId := db.contracts[i].carId;
    assert db.contracts[i] in db.contracts;
    assert FindIndex(db.contracts, id) == Some(i) by { ContractIdsUnique(db.Snapshot(), i); }
    var newCarStatus := CarStatusFor(status);
    var updated := db.Update(id, StatusPatch(status, d));
    if updated.Failure? {
      return Failure(updated.error);
    }
    var carUpdated := db.SetCarStatus(carId, newCarStatus);
    assert carUpdated.Success?;
    assert db.contracts[i].id == id;
    ContractIdsUnique(db.Snapshot(), i);
    var loaded := db.FindById(id);
    r := Success(ToDetailDto(loaded.value));
  }

  /** Contract ids are unique, so the row at position `i` is the one found by its id. */
  lemma ContractIdsUnique(t: Tables, i: nat)
    requires ValidTables(t) && i < |t.contracts|
    ensures FindIndex(t.contracts, t.contracts[i].id) == Some(i)
  {
  }

  /**
   * `updateFullContract`: validation first, then in one transaction the
   * patch, the car status, the meetings and the documents.
   */
  method UpdateFullContract(db: ContractDb, i: nat, data: UpdateRequest, d: ResolvedDate, parse: string -> JsDate) returns (r: Result<ContractDetailDto, Thrown>)
    requires db.Valid() && i < |db.contracts|
    modifies db
    ensures db.Valid()
    ensures var e := ValidationError(old(db.Snapshot()), data, old(db.contracts[i].companyId));
            r.Failure? <==> e.Some? || DatePatch(d) == Some(Some(InvalidDate)) || (data.meetings.Some? && !AllParse(data.meetings.value, parse))
    ensures r.Failure? ==> db.Snapshot() == old(db.Snapshot())
    ensures r.Failure? ==>
              var e := ValidationError(old(db.Snapshot()), data, old(db.contracts[i].companyId));
              if e.Some? then r.error == e.value
              else if DatePatch(d) == Some(Some(InvalidDate)) then r.error == Other(InvalidDateArgument)
              else Some(r.error) == MeetingsError(data.meetings.value, parse)
    ensures r.Success? ==>
              && ValidationError(old(db.Snapshot()), data, old(db.contracts[i].companyId)).None?
              && (data.meetings.Some? ==> AllParse(data.meetings.value, parse))
              && db.Snapshot() == FullUpdateTables(old(db.Snapshot()), i, data, d, parse)
              && FindIndex(db.contracts, old(db.contracts[i].id)) == Some(i)
              && r.value == DetailOf(db.Snapshot(), old(db.contracts[i].id))
  {
    var c := db.contracts[i];
    assert c in db.contracts;
    var validation := ValidationError(db.Snapshot(), data, c.companyId);
    if validation.Some? {
      return Failure(validation.value);
    }
    var saved := db.Snapshot();
    var patched := PatchContract(db, i, data, d);
    if patched.Failure? {
      return Failure(patched.error);
    }
    if data.meetings.Some? {
      var meetings := ReplaceMeetings(db, c.id, data.meetings.value, parse);
      if meetings.Failure? {
        db.Restore(saved);
        return Failure(meetings.error);
      }
    }
    if data.contractDocuments.Some? {
      RelinkDocuments(db, c.id, data.contractDocuments.value);
    }
    var loaded := db.FindById(c.id);
    r := Success(ToDetailDto(loaded.value));
  }

  /** the first step of the full update: the contract row is patched, then the car's status follows the contract's */
  method PatchContract(db: ContractDb, i: nat, data: UpdateRequest, d: ResolvedDate) returns (r: Result<(), Thrown>)
    requires db.Valid() && i < |db.contracts|
    requires ValidationError(db.Snapshot(), data, db.contracts[i].companyId).None?
    modifies db
    ensures db.Valid()
    ensures r.Failure? <==> DatePatch(d) == Some(Some(InvalidDate))
    ensures r.Failure? ==> r.error == Other(InvalidDateArgument) && db.Snapshot() == old(db.Snapshot())
    ensures r.Success? ==>
              && db.Snapshot() == PatchedTables(old(db.Snapshot()), i, data, d)
              && FindIndex(db.contracts, old(db.contracts[i].id)) == Some(i)
  {
    ghost var t := db.Snapshot();
    var c := db.contracts[i];
    assert c in db.contracts;
    var currentCarId := TargetCar(data, c.carId);
    var name := SuppliedName(db.Snapshot(), data, c.companyId);
    ContractIdsUnique(db.Snapshot(), i);
    var updated := db.Update(c.id, FullPatch(data, d, name));
    if updated.Failure? {
      return Failure(updated.error);
    }
    if data.status.Some? {
      var carUpdated := db.SetCarStatus(currentCarId, CarStatusFor(data.status.value));
      assert carUpdated.Success?;
    }
    PatchedTablesValid(t, i, data, d);
    assert db.Snapshot() == PatchedTables(t, i, data, d);
    ContractIdsUnique(db.Snapshot(), i);
    r := Success(());
  }

  /** the meetings step of the full update: the old meetings are deleted, then the requested ones created */
  method ReplaceMeetings(db: ContractDb, id: nat, ms: seq<MeetingInput>, parse: string -> JsDate) returns (r: Result<(), Thrown>)
    requires db.Valid() && FindIndex(db.contracts, id).Some?
    modifies db
    ensures db.Valid()
    ensures r.Success? <==> AllParse(ms, parse)
    ensures r.Success? ==> db.Snapshot() == WithMeetings(WithoutMeetingsOf(old(db.Snapshot()), id), id, ms, parse)
    ensures r.Failure? ==> Some(r.error) == MeetingsError(ms, parse)
  {
    var removed := db.DeleteMeetingsByContractId(id);
    r := CreateMeetings(db, id, ms, parse);
  }

  /** the documents step of the full update: the contract's documents are detached, then the listed ones attached */
  method RelinkDocuments(db: ContractDb, id: nat, ids: seq<int>)
    requires db.Valid()
    modifies db
    ensures db.Valid()
    ensures db.Snapshot() == old(db.Snapshot()).(documents := RelinkedDocuments(old(db.documents), id, ids))
  {
    db.UnlinkDocuments(id);
    if |ids| > 0 {
      db.LinkDocuments(id, ids);
    }
  }

  /**
   * `updateContract`: the contract must exist and belong to the caller;
   * then either the status-only path or the documents, the e-mail and the
   * full update. `emailDelivered` is the outcome of sending the e-mail.
   */
  method UpdateContract(db: ContractDb, id: int, data: UpdateRequest, requestUserId: int, parse: string -> JsDate, emailDelivered: bool)
    returns (r: Result<ContractDetailDto, Thrown>)
    requires db.Valid()
    modifies db
    ensures db.Valid()
    ensures r.Failure? <==> UpdateFailure(old(db.Snapshot()), id, data, requestUserId, parse, emailDelivered).Some?
    ensures r.Failure? ==>
              && Some(r.error) == UpdateFailure(old(db.Snapshot()), id, data, requestUserId, parse, emailDelivered)
              && db.Snapshot() == old(db.Snapshot())
    ensures r.Success? ==>
              && db.Snapshot() == UpdatedTables(old(db.Snapshot()), id, data, requestUserId, parse, emailDelivered)
              && FindIndex(db.contracts, id).Some?
              && r.value == DetailOf(db.Snapshot(), id)
  {
    ghost var t := db.Snapshot();
    var existing := db.FindById(id);
    if existing.None? {
      return Failure(NotFoundError(ContractNotFound));
    }
    var i := FindIndex(db.contracts, id).value;
    assert existing.value.contract == db.contracts[i];
    if existing.value.contract.userId != requestUserId {
      return Failure(ForbiddenError(ForbiddenUpdate));
    }
    var processed := ProcessResolutionDate(data.resolutionDate, parse);
    if processed.Failure? {
      return Failure(Other(processed.error));
    }
    if IsOnlyStatusUpdate(data) {
      r := UpdateContractStatus(db, i, data.status.value, processed.value);
      return;
    }
    if HasDocuments(data) {
      var documents := FindDocuments(db, data.contractDocuments.value);
      if documents.Failure? {
        return Failure(documents.error);
      }
      if !emailDelivered {
        return Failure(Other(EmailNotSent));
      }
    }
    r := UpdateFullContract(db, i, data, processed.value, parse);
  }

  /** The status-only path writes the status, the resolution date and the car's status, and nothing else. */
  lemma StatusUpdateWritesOnlyStatus(t: Tables, i: nat, status: ContractStatus, d: ResolvedDate)
    requires i < |t.contracts| && t.contracts[i].carId in t.cars
    ensures var t2 := StatusUpdateTables(t, i, status, d);
            var c := t.contracts[i];
            var c2 := t2.contracts[i];
            && |t2.contracts| == |t.contracts|
            && (forall k :: 0 <= k < |t.contracts| && k != i ==> t2.contracts[k] == t.contracts[k])
            && c2 == c.(status := status, resolutionDate := PatchedDate(c.resolutionDate, DatePatch(d)))
            && t2.cars[c.carId].status == CarStatusFor(status)
            && (forall id :: id in t.cars && id != c.carId ==> t2.cars[id] == t.cars[id])
            && t2.meetings == t.meetings && t2.alarms == t.alarms && t2.documents == t.documents
            && t2.customers == t.customers && t2.users == t.users
  {
  }

  /**
   * The full update rewrites the status of `data.carId || originalCarId`
   * only when a status is supplied; the car the contract leaves is not reset.
   */
  lemma FullUpdateCarStatus(t: Tables, i: nat, data: UpdateRequest, d: ResolvedDate, parse: string -> JsDate)
    requires ValidTables(t) && i < |t.contracts|
    requires ValidationError(t, data, t.contracts[i].companyId).None?
    requires data.meetings.Some? ==> AllParse(data.meetings.value, parse)
    ensures var t2 := FullUpdateTables(t, i, data, d, parse);
            var target := TargetCar(data, t.contracts[i].carId);
            && target in t.cars && t2.cars.Keys == t.cars.Keys
            && (data.status.None? ==> t2.cars == t.cars)
            && (data.status.Some? ==> t2.cars[target].status == CarStatusFor(data.status.value))
            && (forall id :: id in t.cars && id != target ==> t2.cars[id] == t.cars[id])
  {
    assert t.contracts[i] in t.contracts;
  }

  /**
   * The full update patches only the contract's own row, never stores a
   * contract name, and reconnects a relation only for a truthy id.
   */
  lemma FullUpdateRow(t: Tables, i: nat, data: UpdateRequest, d: ResolvedDate, parse: string -> JsDate)
    requires ValidTables(t) && i < |t.contracts|
    requires ValidationError(t, data, t.contracts[i].companyId).None?
    requires data.meetings.Some? ==> AllParse(data.meetings.value, parse)
    ensures var t2 := FullUpdateTables(t, i, data, d, parse);
            var c := t.contracts[i];
            && |t2.contracts| == |t.contracts|
            && (forall k :: 0 <= k < |t.contracts| && k != i ==> t2.contracts[k] == t.contracts[k])
            && t2.contracts[i].contractName == c.contractName
            && t2.contracts[i].status == data.status.GetOr(c.status)
            && t2.contracts[i].contractPrice == data.contractPrice.GetOr(c.contractPrice)
            && t2.contracts[i].carId == TargetCar(data, c.carId)
            && (Truthy(data.userId) ==> t2.contracts[i].userId == data.userId.value)
            && (!Truthy(data.userId) ==> t2.contracts[i].userId == c.userId)
            && t2.customers == t.customers && t2.users == t.users
  {
    assert t.contracts[i] in t.contracts;
  }

  /**
   * Supplied meetings replace the contract's meetings: the contract then
   * shows exactly the supplied ones (none for an empty list). Absent
   * meetings leave the meeting and alarm tables untouched.
   */
  lemma FullUpdateMeetings(t: Tables, i: nat, data: UpdateRequest, d: ResolvedDate, parse: string -> JsDate)
    requires ValidTables(t) && i < |t.contracts|
    requires ValidationError(t, data, t.contracts[i].companyId).None?
    requires data.meetings.Some? ==> AllParse(data.meetings.value, parse)
    ensures var t2 := FullUpdateTables(t, i, data, d, parse);
            && (data.meetings.None? ==> t2.meetings == t.meetings && t2.alarms == t.alarms)
            && (data.meetings.Some? ==>
                  MeetingDtos(MeetingsOf(t2, t.contracts[i].id)) == RequestedMeetings(data.meetings.value, parse))
  {
    var id := t.contracts[i].id;
    assert t.contracts[i] in t.contracts;
    if data.meetings.Some? {
      PatchedTablesValid(t, i, data, d);
      var cleared := WithoutMeetingsOf(PatchedTables(t, i, data, d), id);
      ReadBackMeetings(cleared, id, data.meetings.value, parse);
      var t3 := WithMeetings(cleared, id, data.meetings.value, parse);
      var t2 := FullUpdateTables(t, i, data, d, parse);
      assert t2.meetings == t3.meetings && t2.alarms == t3.alarms;
      MeetingsOfSameRows(t2, t3, id);
    }
  }

  /** A contract's meetings are read from the meeting and alarm tables alone. */
  lemma MeetingsOfSameRows(a: Tables, b: Tables, id: int)
    requires a.meetings == b.meetings && a.alarms == b.alarms
    ensures MeetingsOf(a, id) == MeetingsOf(b, id)
  {
  }

  /** Supplied documents are relinked: the listed ones belong to the contract afterwards, and the others no longer do. */
  lemma FullUpdateDocuments(t: Tables, i: nat, data: UpdateRequest, d: ResolvedDate, parse: string -> JsDate)
    requires ValidTables(t) && i < |t.contracts|
    requires ValidationError(t, data, t.contracts[i].companyId).None?
    requires data.meetings.Some? ==> AllParse(data.meetings.value, parse)
    ensures var t2 := FullUpdateTables(t, i, data, d, parse);
            var c := t.contracts[i];
            && (data.contractDocuments.None? ==> t2.documents == t.documents)
            && (data.contractDocuments.Some? ==>
                  && t2.documents.Keys == t.documents.Keys
                  && forall k :: k in t2.documents ==>
                       (t2.documents[k].contractId == Some(c.id) <==> k in data.contractDocuments.value))
  {
    assert t.contracts[i] in t.contracts;
  }

  // ---------------------------------------------------------------- list

  /** one status bucket of `getContracts` */
  datatype Group = Group(totalItemCount: nat, data: seq<ContractListItemDto>)

  function HasStatus(s: ContractStatus): ContractWithRelations -> bool {
    (c: ContractWithRelations) => c.contract.status == s
  }

  function ListItems(cs: seq<ContractWithRelations>): (r: seq<ContractListItemDto>)
    ensures |r| == |cs| && forall k :: 0 <= k < |cs| ==> r[k] == ToListItemDto(cs[k])
  {
    seq(|cs|, k requires 0 <= k < |cs| => ToListItemDto(cs[k]))
  }

  /**
   * `getContracts`: every contract `findAllByCompanyId` returns goes into the
   * bucket of its status, in the order returned, and all five buckets exist.
   */
  method GetContracts(db: ContractDb, companyId: int, searchBy: Option<ContractSearch>, keyword: Option<string>)
    returns (groups: map<ContractStatus, Group>)
    requires db.Valid()
    ensures groups.Keys == set s | s in AllStatuses
    ensures forall s :: s in groups ==>
              var bucket := Filter(FindAllByCompanyIdIn(db.Snapshot(), companyId, searchBy, keyword), HasStatus(s));
              groups[s] == Group(|bucket|, ListItems(bucket))
  {
    var contracts := FindAllByCompanyIdIn(db.Snapshot(), companyId, searchBy, keyword);
    var buckets := GroupByStatus(contracts);
    groups := map s | s in buckets :: Group(|buckets[s]|, ListItems(buckets[s]));
  }

  /** the accumulator `getContracts` starts from: an empty list for each of the five statuses */
  const NoBuckets: map<ContractStatus, seq<ContractWithRelations>> := map[CarInspection := [], PriceNegotiation := [], ContractDraft := [], ContractSuccessful := [], ContractFailed := []]

  /** the `reduce` of `getContracts`: one pass pushing each contract onto the bucket of its status */
  method GroupByStatus(contracts: seq<ContractWithRelations>) returns (buckets: map<ContractStatus, seq<ContractWithRelations>>)
    ensures buckets == BucketsOf(contracts)
  {
    buckets := NoBuckets;
    BucketsOfEmpty(contracts);
    for k := 0 to |contracts|
      invariant buckets == BucketsOf(contracts[..k])
    {
      var status := contracts[k].contract.status;
      BucketsStep(contracts, k, buckets);
      buckets := buckets[status := buckets[status] + [contracts[k]]];
    }
    assert contracts[..|contracts|] == contracts;
  }

  /** the buckets `getContracts` builds from `cs`: one per status, each the contracts of that status in order */
  function BucketsOf(cs: seq<ContractWithRelations>): (r: map<ContractStatus, seq<ContractWithRelations>>)
    ensures r.Keys == set s | s in AllStatuses
    ensures forall s :: s in r ==> r[s] == Filter(cs, HasStatus(s))
  {
    map s | s in AllStatuses :: Filter(cs, HasStatus(s))
  }

  lemma BucketsOfEmpty(cs: seq<ContractWithRelations>)
    ensures BucketsOf(cs[..0]) == NoBuckets
  {
    assert cs[..0] == [];
    var e := NoBuckets;
    forall s ensures s in e {
      match s
      case CarInspection =>
      case PriceNegotiation =>
      case ContractDraft =>
      case ContractSuccessful =>
      case ContractFailed =>
    }
  }

  /** Pushing the next contract into the bucket of its status gives the buckets of one more element. */
  lemma BucketsStep(cs: seq<ContractWithRelations>, k: nat, b: map<ContractStatus, seq<ContractWithRelations>>)
    requires k < |cs| && b == BucketsOf(cs[..k])
    ensures cs[k].contract.status in b
    ensures var st := cs[k].contract.status;
            b[st := b[st] + [cs[k]]] == BucketsOf(cs[..k + 1])
  {
    var st := cs[k].contract.status;
    StatusListed(st);
    var b1 := BucketsOf(cs[..k + 1]);
    var target := b[st := b[st] + [cs[k]]];
    assert b1.Keys == target.Keys;
    forall s | s in b1 ensures b1[s] == target[s] {
      BucketSnoc(cs, k, s);
    }
    assert b1 == target;
  }

  lemma StatusListed(st: ContractStatus)
    ensures st in AllStatuses
  {
    match st
    case CarInspection => assert AllStatuses[0] == st;
    case PriceNegotiation => assert AllStatuses[1] == st;
    case ContractDraft => assert AllStatuses[2] == st;
    case ContractSuccessful => assert AllStatuses[3] == st;
    case ContractFailed => assert AllStatuses[4] == st;
  }

  /** One more contract lands in the bucket of its own status and in no other. */
  lemma BucketSnoc(cs: seq<ContractWithRelations>, k: nat, s: ContractStatus)
    requires k < |cs|
    ensures Filter(cs[..k + 1], HasStatus(s)) ==
            Filter(cs[..k], HasStatus(s)) + (if cs[k].contract.status == s then [cs[k]] else [])
  {
    FilterSnoc(cs, k, HasStatus(s));
    assert HasStatus(s)(cs[k]) == (cs[k].contract.status == s);
  }

  lemma FilterSnoc<T(!new)>(s: seq<T>, k: nat, p: T -> bool)
    requires k < |s|
    ensures Filter(s[..k + 1], p) == Filter(s[..k], p) + (if p(s[k]) then [s[k]] else [])
  {
    assert s[..k + 1][..k] == s[..k];
  }

  /** The five buckets together hold every listed contract exactly once. */
  lemma {:induction false} BucketsPartition(cs: seq<ContractWithRelations>)
    ensures |Filter(cs, HasStatus(CarInspection))| + |Filter(cs, HasStatus(PriceNegotiation))| + |Filter(cs, HasStatus(ContractDraft))|
          + |Filter(cs, HasStatus(ContractSuccessful))| + |Filter(cs, HasStatus(ContractFailed))| == |cs|
  {
    if cs != [] {
      BucketsPartition(cs[..|cs| - 1]);
    }
  }

  /** A bucket holds only listed contracts of its status, and every listed contract of that status. */
  lemma BucketIsExact(cs: seq<ContractWithRelations>, s: ContractStatus)
    ensures forall c :: c in Filter(cs, HasStatus(s)) <==> c in cs && c.contract.status == s
  {
  }

  // ---------------------------------------------------------------- delete

  /** why `deleteContract` fails, if it does */
  function DeleteFailure(t: Tables, id: int, requestUserId: int): (r: Option<Thrown>)
    ensures r.None? <==> FindIndex(t.contracts, id).Some? && t.contracts[FindIndex(t.contracts, id).value].userId == requestUserId
    ensures FindIndex(t.contracts, id).None? ==> r == Some(NotFoundError(ContractNotFound))
    ensures FindIndex(t.contracts, id).Some? && t.contracts[FindIndex(t.contracts, id).value].userId != requestUserId ==>
              r == Some(ForbiddenError(ForbiddenDelete))
  {
    match FindIndex(t.contracts, id)
    case None => Some(NotFoundError(ContractNotFound))
    case Some(i) => if t.contracts[i].userId != requestUserId then Some(ForbiddenError(ForbiddenDelete)) else None
  }

  /** the tables after a successful `deleteContract`: the car released, the contract and its meetings gone */
  function DeletedTables(t: Tables, id: int): Tables
    requires ValidTables(t) && FindIndex(t.contracts, id).Some?
  {
    var c := t.contracts[FindIndex(t.contracts, id).value];
    assert c in t.contracts;
    WithoutContract(WithCarStatus(t, c.carId, Possession), id)
  }

  /** `deleteContract` */
  method DeleteContract(db: ContractDb, id: int, requestUserId: int) returns (r: Result<string, Thrown>)
    requires db.Valid()
    modifies db
    ensures db.Valid()
    ensures r.Failure? <==> DeleteFailure(old(db.Snapshot()), id, requestUserId).Some?
    ensures r.Failure? ==> Some(r.error) == DeleteFailure(old(db.Snapshot()), id, requestUserId) && db.Snapshot() == old(db.Snapshot())
    ensures r.Success? ==> r.value == DeleteSucceeded && db.Snapshot() == DeletedTables(old(db.Snapshot()), id)
  {
    var existing := db.FindById(id);
    if existing.None? {
      return Failure(NotFoundError(ContractNotFound));
    }
    if existing.value.contract.userId != requestUserId {
      return Failure(ForbiddenError(ForbiddenDelete));
    }
    var resetCarStatus := Possession;
    var carUpdated := db.SetCarStatus(existing.value.contract.carId, resetCarStatus);
    assert carUpdated.Success?;
    var deleted := db.Delete(id);
    assert deleted.Success?;
    r := Success(DeleteSucceeded);
  }

  /**
   * stands for the `PrismaClientValidationError` raised when `delete` receives
   * the transaction client where it expects the numeric id; it is a plain
   * error, not a `PrismaClientKnownRequestError`, and its exact wording is
   * Prisma's own
   */
  const DeleteIdRejected := "Argument `id`: Invalid value provided. Expected Int, provided Object."

  /**
   * `deleteContract` as written: after the guards, the transaction resets
   * the car and then calls `contractRepository.delete(tx, contractId)`. The
   * repository's `delete(id)` takes one parameter, so the transaction client
   * arrives as `id`, Prisma refuses the query, and the transaction rolls the
   * car's reset back. No request that passes the guards deletes anything.
   */
  method DeleteContractAsWritten(db: ContractDb, id: int, requestUserId: int) returns (r: Result<string, Thrown>)
    requires db.Valid()
    modifies db
    ensures db.Valid()
    ensures r.Failure?
    ensures DeleteFailure(old(db.Snapshot()), id, requestUserId).Some? ==>
              Some(r.error) == DeleteFailure(old(db.Snapshot()), id, requestUserId)
    ensures DeleteFailure(old(db.Snapshot()), id, requestUserId).None? ==> r.error == Other(DeleteIdRejected)
    ensures db.Snapshot() == old(db.Snapshot())
  {
    var existing := db.FindById(id);
    if existing.None? {
      return Failure(NotFoundError(ContractNotFound));
    }
    if existing.value.contract.userId != requestUserId {
      return Failure(ForbiddenError(ForbiddenDelete));
    }
    var saved := db.Snapshot();
    var carUpdated := db.SetCarStatus(existing.value.contract.carId, Possession);
    assert carUpdated.Success?;
    // the repository call is refused before it reaches the table, and the transaction rolls back
    db.Restore(saved);
    r := Failure(Other(DeleteIdRejected));
  }

  /** The as-written delete's refusal reaches the mounted handler as an unrecognised error: a 500. */
  lemma DeleteAsWrittenIsServerError(isDevelopment: bool, stack: Option<string>)
    ensures ErrorHandler.Handle(Other(DeleteIdRejected), isDevelopment, stack).httpStatus == 500
    ensures !isDevelopment ==> ErrorHandler.Handle(Other(DeleteIdRejected), isDevelopment, stack).message == ErrorHandler.ServerError
  {
    ErrorHandler.UnrecognisedIsServerError(Other(DeleteIdRejected), isDevelopment, stack);
  }

  /** After a delete the contract is gone, its car is free again, and it has no meetings left. */
  lemma DeleteReleasesCar(t: Tables, id: int)
    requires ValidTables(t) && FindIndex(t.contracts, id).Some?
    ensures var c := t.contracts[FindIndex(t.contracts, id).value];
            var t2 := DeletedTables(t, id);
            && FindIndex(t2.contracts, id).None?
            && t2.cars[c.carId].status == Possession
            && (forall k :: k in t.cars && k != c.carId ==> t2.cars[k] == t.cars[k])
            && (forall x :: x in t2.contracts <==> x in t.contracts && x.id != id)
            && Filter(t2.meetings, OfContract(id)) == []
  {
    var t2 := DeletedTables(t, id);
    forall k | 0 <= k < |t2.contracts| ensures t2.contracts[k].id != id {
      assert t2.contracts[k] in t2.contracts;
    }
    forall k | 0 <= k < |t2.meetings| ensures !OfContract(id)(t2.meetings[k]) {
      assert t2.meetings[k] in t2.meetings;
    }
    FilterNone(t2.meetings, OfContract(id));
  }
}
