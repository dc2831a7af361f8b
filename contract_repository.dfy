/**
 * The store behind the contract feature and its three repositories
 * (src/features/contracts/contract.repository.ts, meeting.repository.ts,
 * alarm.repository.ts), together with the few car and document writes the
 * contract service performs through other repositories.
 *
 * The database is the class `ContractDb`. Contracts, meetings and alarms are
 * kept in insertion order (which is id order); cars, customers, users and
 * contract documents are keyed by id. Prisma's errors are `Thrown` values:
 * a missing row to update or connect is the known request error P2025, a
 * broken foreign key on insert is P2003, and an Invalid Date argument is a
 * client-side validation error, which is not a known request error.
 */
module ContractRepository {
  import opened Wrappers
  import opened Seqs
  import opened JsText
  import opened CustomErrors
  import opened ContractTypes

  const InvalidAlarmTime := "Invalid alarm time format"
  const InvalidDateArgument := "Invalid value for argument: Provided Date object is invalid"
  const RecordNotFound := "An operation failed because it depends on one or more records that were required but not found."
  const ForeignKeyFailed := "Foreign key constraint failed on the field"

  /** Prisma's P2025 */
  const MissingRecord: Thrown := PrismaKnown("P2025", None, RecordNotFound)

  /** Prisma's P2003 */
  const BrokenForeignKey: Thrown := PrismaKnown("P2003", None, ForeignKeyFailed)

  /** the contents of every table, and the sequences that hand out ids and creation times */
  datatype Tables = Tables(
    contracts: seq<Contract>,
    cars: map<int, Car>,
    customers: map<int, Customer>,
    users: map<int, UserRow>,
    meetings: seq<Meeting>,
    alarms: seq<Alarm>,
    documents: map<int, Document>,
    nextContractId: nat,
    nextMeetingId: nat,
    nextAlarmId: nat,
    clock: int)

  /** a contract row whose relations exist and whose id and creation time were handed out */
  predicate RowOk(c: Contract, nextContractId: nat, clock: int, users: map<int, UserRow>, customers: map<int, Customer>, cars: map<int, Car>) {
    && c.id < nextContractId && c.createdAt < clock
    && c.userId in users && c.customerId in customers && c.carId in cars
  }

  /** the contract table: rows with their relations, in id order and in creation order */
  predicate ContractsOk(cs: seq<Contract>, nextContractId: nat, clock: int, users: map<int, UserRow>, customers: map<int, Customer>, cars: map<int, Car>) {
    && (forall c :: c in cs ==> RowOk(c, nextContractId, clock, users, customers, cars))
    && (forall i, j :: 0 <= i < j < |cs| ==> cs[i].id < cs[j].id && cs[i].createdAt < cs[j].createdAt)
  }

  /** the meeting table: ids handed out, and linked to contract ids handed out */
  predicate MeetingsOk(ms: seq<Meeting>, nextMeetingId: nat, nextContractId: nat) {
    forall m :: m in ms ==> m.id < nextMeetingId && m.contractId < nextContractId
  }

  /** the alarm table: ids handed out, and linked to meeting ids handed out */
  predicate AlarmsOk(als: seq<Alarm>, nextAlarmId: nat, nextMeetingId: nat) {
    forall a :: a in als ==> a.id < nextAlarmId && a.meetingId < nextMeetingId
  }

  /** what the database guarantees about its tables */
  predicate ValidTables(t: Tables) {
    && ContractsOk(t.contracts, t.nextContractId, t.clock, t.users, t.customers, t.cars)
    && MeetingsOk(t.meetings, t.nextMeetingId, t.nextContractId)
    && AlarmsOk(t.alarms, t.nextAlarmId, t.nextMeetingId)
  }

  /** the position of the contract with id `id` */
  function FindIndex(cs: seq<Contract>, id: int): (r: Option<nat>)
    ensures r.Some? ==> r.value < |cs| && cs[r.value].id == id
    ensures r.None? ==> forall k :: 0 <= k < |cs| ==> cs[k].id != id
  {
    if cs == [] then None
    else if cs[|cs| - 1].id == id then Some(|cs| - 1)
    else FindIndex(cs[..|cs| - 1], id)
  }

  /** the ids of the meetings of one contract */
  function MeetingIdsOf(meetings: seq<Meeting>, contractId: int): set<nat> {
    set m | m in meetings && m.contractId == contractId :: m.id
  }

  function OfMeeting(meetingId: nat): Alarm -> bool {
    (a: Alarm) => a.meetingId == meetingId
  }

  function OfContract(contractId: int): Meeting -> bool {
    (m: Meeting) => m.contractId == contractId
  }

  function NotOfContract(contractId: int): Meeting -> bool {
    (m: Meeting) => m.contractId != contractId
  }

  function NotOfMeetings(ids: set<nat>): Alarm -> bool {
    (a: Alarm) => a.meetingId !in ids
  }

  function OtherThan(id: int): Contract -> bool {
    (c: Contract) => c.id != id
  }

  /** the alarms of one meeting, in table order */
  function AlarmsOf(t: Tables, meetingId: nat): seq<Alarm> {
    Filter(t.alarms, OfMeeting(meetingId))
  }

  /** the meetings of one contract with their alarms (`meetings: { include: { alarms: true } }`) */
  function MeetingsOf(t: Tables, contractId: int): (r: seq<MeetingWithAlarms>)
    ensures var ms := Filter(t.meetings, OfContract(contractId));
            |r| == |ms| && forall k :: 0 <= k < |ms| ==> r[k] == MeetingWithAlarms(ms[k], AlarmsOf(t, ms[k].id))
  {
    var ms := Filter(t.meetings, OfContract(contractId));
    seq(|ms|, k requires 0 <= k < |ms| => MeetingWithAlarms(ms[k], AlarmsOf(t, ms[k].id)))
  }

  /** a contract with `contractFullInclude` loaded */
  function Load(t: Tables, c: Contract): (r: ContractWithRelations)
    requires c.userId in t.users && c.customerId in t.customers && c.carId in t.cars
    ensures r.contract == c && r.car == t.cars[c.carId] && r.customer == t.customers[c.customerId]
    ensures r.user == t.users[c.userId] && r.meetings == MeetingsOf(t, c.id)
  {
    ContractWithRelations(c, t.users[c.userId], t.customers[c.customerId], t.cars[c.carId], MeetingsOf(t, c.id))
  }

  /** `findById`: the loaded contract with the given id, or null */
  function FindByIdIn(t: Tables, id: int): (r: Option<ContractWithRelations>)
    requires ValidTables(t)
    ensures r.None? <==> forall k :: 0 <= k < |t.contracts| ==> t.contracts[k].id != id
    ensures r.Some? ==> r.value.contract in t.contracts && r.value.contract.id == id && r.value == Load(t, r.value.contract)
  {
    match FindIndex(t.contracts, id)
    case None => None
    case Some(i) =>
      var c := t.contracts[i];
      assert c in t.contracts;
      Some(Load(t, c))
  }

  /** the `searchBy` values of the contract list */
  datatype ContractSearch = ByCustomerName | ByUserName

  /**
   * the `where` clause of `findAllByCompanyId`: the company always, and a
   * substring match, under ASCII case folding, on the customer's or the user's name
   * when `searchBy` names it and the keyword is not empty
   */
  predicate ListFilter(t: Tables, companyId: int, searchBy: Option<ContractSearch>, keyword: Option<string>, c: Contract) {
    && c.companyId == companyId
    && (searchBy == Some(ByCustomerName) && keyword.Some? && keyword.value != "" ==>
          c.customerId in t.customers && ContainsInsensitive(t.customers[c.customerId].name, keyword.value))
    && (searchBy == Some(ByUserName) && keyword.Some? && keyword.value != "" ==>
          c.userId in t.users && ContainsInsensitive(t.users[c.userId].name, keyword.value))
  }

  function ListPredicate(t: Tables, companyId: int, searchBy: Option<ContractSearch>, keyword: Option<string>): Contract -> bool {
    (c: Contract) => ListFilter(t, companyId, searchBy, keyword, c)
  }

  /** the contract rows `findAllByCompanyId` returns, newest first */
  function ListedRows(t: Tables, companyId: int, searchBy: Option<ContractSearch>, keyword: Option<string>): seq<Contract> {
    Reverse(Filter(t.contracts, ListPredicate(t, companyId, searchBy, keyword)))
  }

  /** `findAllByCompanyId` */
  function FindAllByCompanyIdIn(t: Tables, companyId: int, searchBy: Option<ContractSearch>, keyword: Option<string>): (r: seq<ContractWithRelations>)
    requires ValidTables(t)
    ensures var rows := ListedRows(t, companyId, searchBy, keyword);
            |r| == |rows| && forall k :: 0 <= k < |rows| ==> r[k].contract == rows[k]
  {
    var rows := ListedRows(t, companyId, searchBy, keyword);
    ListingIsExact(t, companyId, searchBy, keyword);
    seq(|rows|, k requires 0 <= k < |rows| => Load(t, rows[k]))
  }

  /** Every listed contract belongs to the company and passes the name filter, and every such contract is listed. */
  lemma ListingIsExact(t: Tables, companyId: int, searchBy: Option<ContractSearch>, keyword: Option<string>)
    requires ValidTables(t)
    ensures var rows := ListedRows(t, companyId, searchBy, keyword);
            && (forall k :: 0 <= k < |rows| ==>
                  rows[k] in t.contracts && ListFilter(t, companyId, searchBy, keyword, rows[k]))
            && (forall k :: 0 <= k < |t.contracts| && ListFilter(t, companyId, searchBy, keyword, t.contracts[k]) ==> t.contracts[k] in rows)
  {
    var p := ListPredicate(t, companyId, searchBy, keyword);
    var f := Filter(t.contracts, p);
    var rows := ListedRows(t, companyId, searchBy, keyword);
    forall k | 0 <= k < |rows| ensures rows[k] in t.contracts && ListFilter(t, companyId, searchBy, keyword, rows[k]) {
      assert rows[k] == f[|f| - 1 - k];
    }
    forall k | 0 <= k < |t.contracts| && ListFilter(t, companyId, searchBy, keyword, t.contracts[k]) ensures t.contracts[k] in rows {
      assert p(t.contracts[k]);
      var j :| 0 <= j < |f| && f[j] == t.contracts[k];
      assert rows[|f| - 1 - j] == f[j];
    }
  }

  /** The listing is ordered by creation time, newest first. */
  lemma ListingNewestFirst(t: Tables, companyId: int, searchBy: Option<ContractSearch>, keyword: Option<string>)
    requires ValidTables(t)
    ensures var rows := ListedRows(t, companyId, searchBy, keyword);
            forall i, j :: 0 <= i < j < |rows| ==> rows[i].createdAt > rows[j].createdAt
  {
    var p := ListPredicate(t, companyId, searchBy, keyword);
    var key := (c: Contract) => c.createdAt;
    FilterKeepsIncreasing(t.contracts, p, key);
    var f := Filter(t.contracts, p);
    var rows := ListedRows(t, companyId, searchBy, keyword);
    forall i, j | 0 <= i < j < |rows| ensures rows[i].createdAt > rows[j].createdAt {
      assert rows[i] == f[|f| - 1 - i] && rows[j] == f[|f| - 1 - j];
      assert key(f[|f| - 1 - j]) < key(f[|f| - 1 - i]);
    }
  }

  /** the date column a patch stores: unchanged when absent, cleared by null */
  function PatchedDate(current: Option<int>, patch: Option<Option<JsDate>>): Option<int> {
    match patch
    case None => current
    case Some(None) => None
    case Some(Some(ValidDate(ms))) => Some(ms)
    case Some(Some(InvalidDate)) => current
  }

  /**
   * The row `update` leaves: status, resolution date and price are written
   * when supplied, a relation is reconnected only for a truthy id, and
   * nothing else changes; in particular a supplied contract name is never stored.
   */
  function ApplyPatch(c: Contract, p: UpdatePatch): (r: Contract)
    ensures r.id == c.id && r.companyId == c.companyId && r.createdAt == c.createdAt
    ensures r.contractName == c.contractName
    ensures r.status == p.status.GetOr(c.status)
    ensures r.contractPrice == p.contractPrice.GetOr(c.contractPrice)
    ensures r.resolutionDate == PatchedDate(c.resolutionDate, p.resolutionDate)
    ensures Truthy(p.userId) ==> r.userId == p.userId.value
    ensures !Truthy(p.userId) ==> r.userId == c.userId
    ensures Truthy(p.customerId) ==> r.customerId == p.customerId.value
    ensures !Truthy(p.customerId) ==> r.customerId == c.customerId
    ensures Truthy(p.carId) ==> r.carId == p.carId.value
    ensures !Truthy(p.carId) ==> r.carId == c.carId
  {
    c.(status := p.status.GetOr(c.status),
       resolutionDate := PatchedDate(c.resolutionDate, p.resolutionDate),
       contractPrice := p.contractPrice.GetOr(c.contractPrice),
       userId := if Truthy(p.userId) then p.userId.value else c.userId,
       customerId := if Truthy(p.customerId) then p.customerId.value else c.customerId,
       carId := if Truthy(p.carId) then p.carId.value else c.carId)
  }

  /** A patch that supplies nothing leaves the row as it is. */
  lemma EmptyPatchIsIdentity(c: Contract, name: Option<string>)
    ensures ApplyPatch(c, UpdatePatch(None, None, None, None, None, None, name)) == c
  {
  }

  /** why `update` rejects a patch, if it does */
  function UpdateError(t: Tables, id: int, p: UpdatePatch): Option<Thrown> {
    if p.resolutionDate == Some(Some(InvalidDate)) then Some(Other(InvalidDateArgument))
    else if FindIndex(t.contracts, id).None? then Some(MissingRecord)
    else if Truthy(p.userId) && p.userId.value !in t.users then Some(MissingRecord)
    else if Truthy(p.customerId) && p.customerId.value !in t.customers then Some(MissingRecord)
    else if Truthy(p.carId) && p.carId.value !in t.cars then Some(MissingRecord)
    else None
  }

  /** the tables once a contract's meetings are deleted; their alarms cascade */
  function WithoutMeetingsOf(t: Tables, contractId: int): (r: Tables)
    ensures ValidTables(t) ==> ValidTables(r)
    ensures forall m :: m in r.meetings <==> m in t.meetings && m.contractId != contractId
  {
    t.(meetings := Filter(t.meetings, NotOfContract(contractId)),
       alarms := Filter(t.alarms, NotOfMeetings(MeetingIdsOf(t.meetings, contractId))))
  }

  /** the tables once a contract is deleted, with its meetings and their alarms */
  function WithoutContract(t: Tables, id: int): (r: Tables)
    ensures forall c :: c in r.contracts <==> c in t.contracts && c.id != id
  {
    WithoutMeetingsOf(t, id).(contracts := Filter(t.contracts, OtherThan(id)))
  }

  lemma WithoutContractValid(t: Tables, id: int)
    requires ValidTables(t)
    ensures ValidTables(WithoutContract(t, id))
  {
    FilterKeepsIncreasing(t.contracts, OtherThan(id), (c: Contract) => c.id);
    FilterKeepsIncreasing(t.contracts, OtherThan(id), (c: Contract) => c.createdAt);
  }

  /** the rows `create` and `update` never touch are the same in both states */
  predicate SameOutsideContracts(a: Tables, b: Tables) {
    a.cars == b.cars && a.customers == b.customers && a.users == b.users && a.meetings == b.meetings
    && a.alarms == b.alarms && a.documents == b.documents && a.nextMeetingId == b.nextMeetingId && a.nextAlarmId == b.nextAlarmId
  }

  class ContractDb {
    var contracts: seq<Contract>
    var cars: map<int, Car>
    var customers: map<int, Customer>
    var users: map<int, UserRow>
    var meetings: seq<Meeting>
    var alarms: seq<Alarm>
    var documents: map<int, Document>
    var nextContractId: nat
    var nextMeetingId: nat
    var nextAlarmId: nat
    var clock: int
    /** the status column's database default, which `create` relies on */
    const defaultStatus: ContractStatus

    /** a database with the given reference rows and no contracts yet */
    constructor (cars: map<int, Car>, customers: map<int, Customer>, users: map<int, UserRow>, documents: map<int, Document>, defaultStatus: ContractStatus)
      ensures Valid()
      ensures Snapshot() == Tables([], cars, customers, users, [], [], documents, 1, 1, 1, 0)
      ensures this.defaultStatus == defaultStatus
    {
      this.contracts := [];
      this.cars := cars;
      this.customers := customers;
      this.users := users;
      this.meetings := [];
      this.alarms := [];
      this.documents := documents;
      this.nextContractId := 1;
      this.nextMeetingId := 1;
      this.nextAlarmId := 1;
      this.clock := 0;
      this.defaultStatus := defaultStatus;
    }

    function Snapshot(): Tables
      reads this
    {
      Tables(contracts, cars, customers, users, meetings, alarms, documents, nextContractId, nextMeetingId, nextAlarmId, clock)
    }

    ghost predicate Valid()
      reads this
    {
      ValidTables(Snapshot())
    }

    /** rolls the transaction back to a snapshot */
    method Restore(s: Tables)
      modifies this
      ensures Snapshot() == s
    {
      contracts, cars, customers, users := s.contracts, s.cars, s.customers, s.users;
      meetings, alarms, documents := s.meetings, s.alarms, s.documents;
      nextContractId, nextMeetingId, nextAlarmId, clock := s.nextContractId, s.nextMeetingId, s.nextAlarmId, s.clock;
    }

    /** `findById(client, id)` */
    function FindById(id: int): (r: Option<ContractWithRelations>)
      reads this
      requires Valid()
      ensures r == FindByIdIn(Snapshot(), id)
    {
      FindByIdIn(Snapshot(), id)
    }

    /**
     * `create(tx, data)`: stores exactly the six supplied columns, with the
     * default status, no resolution date, the next id and the current time.
     */
    method Create(data: CreateContractData) returns (r: Result<Contract, Thrown>)
      requires Valid()
      modifies this
      ensures Valid()
      ensures r.Failure? <==> !(data.userId in old(users) && data.customerId in old(customers) && data.carId in old(cars))
      ensures r.Failure? ==> r.error == BrokenForeignKey && Snapshot() == old(Snapshot())
      ensures r.Success? ==>
                && r.value == Contract(old(nextContractId), data.companyId, data.userId, data.carId, data.customerId,
                                       data.contractName, data.contractPrice, defaultStatus, None, old(clock))
                && Snapshot() == old(Snapshot()).(contracts := old(contracts) + [r.value],
                                                  nextContractId := old(nextContractId) + 1, clock := old(clock) + 1)
    {
      if !(data.userId in users && data.customerId in customers && data.carId in cars) {
        return Failure(BrokenForeignKey);
      }
      var c := Contract(nextContractId, data.companyId, data.userId, data.carId, data.customerId,
                        data.contractName, data.contractPrice, defaultStatus, None, clock);
      ghost var before := contracts;
      forall k | 0 <= k < |before| ensures before[k].id < c.id && before[k].createdAt < c.createdAt {
        assert before[k] in before;
      }
      contracts := contracts + [c];
      nextContractId := nextContractId + 1;
      clock := clock + 1;
      r := Success(c);
    }

    /** `update(tx, id, data)` */
    method Update(id: int, p: UpdatePatch) returns (r: Result<(), Thrown>)
      requires Valid()
      modifies this
      ensures Valid()
      ensures r.Failure? <==> UpdateError(old(Snapshot()), id, p).Some?
      ensures r.Failure? ==> r.error == UpdateError(old(Snapshot()), id, p).value && Snapshot() == old(Snapshot())
      ensures r.Success? ==>
                var i := FindIndex(old(contracts), id).value;
                Snapshot() == old(Snapshot()).(contracts := old(contracts)[i := ApplyPatch(old(contracts)[i], p)])
    {
      var e := UpdateError(Snapshot(), id, p);
      if e.Some? {
        return Failure(e.value);
      }
      var i := FindIndex(contracts, id).value;
      ghost var before := contracts;
      var row := ApplyPatch(contracts[i], p);
      assert before[i] in before;
      contracts := contracts[i := row];
      assert forall k :: 0 <= k < |contracts| ==> contracts[k].id == before[k].id && contracts[k].createdAt == before[k].createdAt;
      forall c | c in contracts ensures RowOk(c, nextContractId, clock, users, customers, cars) {
        var k :| 0 <= k < |contracts| && contracts[k] == c;
        if k != i { assert before[k] in before; }
      }
      r := Success(());
    }

    /**
     * `delete(id)`: removes exactly the row with that id; the contract's
     * meetings and their alarms go with it.
     */
    method Delete(id: int) returns (r: Result<(), Thrown>)
      requires Valid()
      modifies this
      ensures Valid()
      ensures r.Failure? <==> FindIndex(old(contracts), id).None?
      ensures r.Failure? ==> r.error == MissingRecord && Snapshot() == old(Snapshot())
      ensures r.Success? ==> Snapshot() == WithoutContract(old(Snapshot()), id)
    {
      if FindIndex(contracts, id).None? {
        return Failure(MissingRecord);
      }
      var t := WithoutContract(Snapshot(), id);
      WithoutContractValid(Snapshot(), id);
      contracts, meetings, alarms := t.contracts, t.meetings, t.alarms;
      assert Snapshot() == t;
      r := Success(());
    }

    /** `meetingRepository.create(tx, {contractId, date})`: the stored date is the parse of the text */
    method CreateMeeting(contractId: int, date: string, parse: string -> JsDate) returns (r: Result<Meeting, Thrown>)
      requires Valid()
      modifies this
      ensures Valid()
      ensures r.Failure? <==> parse(date).InvalidDate? || FindIndex(old(contracts), contractId).None?
      ensures r.Failure? ==> Snapshot() == old(Snapshot())
      ensures r.Failure? && parse(date).InvalidDate? ==> r.error == Other(InvalidDateArgument)
      ensures r.Failure? && parse(date).ValidDate? ==> r.error == MissingRecord
      ensures r.Success? ==>
                && contractId >= 0
                && r.value == Meeting(old(nextMeetingId), contractId, parse(date).ms)
                && Snapshot() == old(Snapshot()).(meetings := old(meetings) + [r.value], nextMeetingId := old(nextMeetingId) + 1)
    {
      var d := parse(date);
      if d.InvalidDate? {
        return Failure(Other(InvalidDateArgument));
      }
      var i := FindIndex(contracts, contractId);
      if i.None? {
        return Failure(MissingRecord);
      }
      assert contracts[i.value] in contracts;
      var m := Meeting(nextMeetingId, contractId, d.ms);
      meetings := meetings + [m];
      nextMeetingId := nextMeetingId + 1;
      r := Success(m);
    }

    /** `deleteManyByContractId(tx, contractId)`: the other contracts' meetings stay */
    method DeleteMeetingsByContractId(contractId: int) returns (count: nat)
      requires Valid()
      modifies this
      ensures Valid()
      ensures Snapshot() == WithoutMeetingsOf(old(Snapshot()), contractId)
      ensures count == |old(meetings)| - |meetings|
    {
      var gone := MeetingIdsOf(meetings, contractId);
      var before := |meetings|;
      meetings := Filter(meetings, NotOfContract(contractId));
      alarms := Filter(alarms, NotOfMeetings(gone));
      count := before - |meetings|;
    }

    /**
     * `alarmRepository.create(tx, {meetingId, alarmTime})`: the time is
     * validated before the insert, so a rejected alarm leaves no row.
     */
    method CreateAlarm(meetingId: nat, alarmTime: string, parse: string -> JsDate) returns (r: Result<Alarm, Thrown>)
      requires Valid()
      modifies this
      ensures Valid()
      ensures r.Failure? <==> parse(alarmTime).InvalidDate? || meetingId !in MeetingIds(old(meetings))
      ensures r.Failure? ==> Snapshot() == old(Snapshot())
      ensures r.Failure? && parse(alarmTime).InvalidDate? ==> r.error == Other(InvalidAlarmTime)
      ensures r.Failure? && parse(alarmTime).ValidDate? ==> r.error == MissingRecord
      ensures r.Success? ==>
                && r.value == Alarm(old(nextAlarmId), meetingId, parse(alarmTime).ms)
                && Snapshot() == old(Snapshot()).(alarms := old(alarms) + [r.value], nextAlarmId := old(nextAlarmId) + 1)
    {
      var d := parse(alarmTime);
      if d.InvalidDate? {
        return Failure(Other(InvalidAlarmTime));
      }
      if meetingId !in MeetingIds(meetings) {
        return Failure(MissingRecord);
      }
      var a := Alarm(nextAlarmId, meetingId, d.ms);
      alarms := alarms + [a];
      nextAlarmId := nextAlarmId + 1;
      r := Success(a);
    }

    /** `CarRepository.updateInTx(tx, carId, {status})` */
    method SetCarStatus(carId: int, status: CarStatus) returns (r: Result<(), Thrown>)
      requires Valid()
      modifies this
      ensures Valid()
      ensures r.Failure? <==> carId !in old(cars)
      ensures r.Failure? ==> r.error == MissingRecord && Snapshot() == old(Snapshot())
      ensures r.Success? ==> Snapshot() == old(Snapshot()).(cars := old(cars)[carId := old(cars)[carId].(status := status)])
    {
      if carId !in cars {
        return Failure(MissingRecord);
      }
      cars := cars[carId := cars[carId].(status := status)];
      r := Success(());
    }

    /** `unlinkDocumentsByContractId(tx, contractId)`: the contract's documents are detached */
    method UnlinkDocuments(contractId: nat)
      requires Valid()
      modifies this
      ensures Valid()
      ensures Snapshot() == old(Snapshot()).(documents := Unlinked(old(documents), contractId))
    {
      documents := Unlinked(documents, contractId);
    }

    /** `linkDocumentsToContract(tx, contractId, docs)`: the listed documents are attached */
    method LinkDocuments(contractId: nat, ids: seq<int>)
      requires Valid()
      modifies this
      ensures Valid()
      ensures Snapshot() == old(Snapshot()).(documents := Linked(old(documents), contractId, ids))
    {
      documents := Linked(documents, contractId, ids);
    }
  }

  /** the ids of the meeting table */
  function MeetingIds(meetings: seq<Meeting>): set<nat> {
    set m | m in meetings :: m.id
  }

  function Unlinked(docs: map<int, Document>, contractId: nat): (r: map<int, Document>)
    ensures r.Keys == docs.Keys
    ensures forall k :: k in r ==> r[k].contractId != Some(contractId)
    ensures forall k :: k in r && docs[k].contractId != Some(contractId) ==> r[k] == docs[k]
  {
    map k | k in docs :: if docs[k].contractId == Some(contractId) then docs[k].(contractId := None) else docs[k]
  }

  function Linked(docs: map<int, Document>, contractId: nat, ids: seq<int>): (r: map<int, Document>)
    ensures r.Keys == docs.Keys
    ensures forall k :: k in r && k in ids ==> r[k] == docs[k].(contractId := Some(contractId))
    ensures forall k :: k in r && k !in ids ==> r[k] == docs[k]
  {
    map k | k in docs :: if k in ids then docs[k].(contractId := Some(contractId)) else docs[k]
  }
}
