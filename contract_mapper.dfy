/**
 * The response DTOs of the contract feature and the mapper that builds them
 * from a relation-loaded contract (src/features/contracts/contract.mapper.ts).
 * `toISOString()` is the constructor `Iso`: the DTO carries the ISO text of
 * that time value.
 */
module ContractMapper {
  import opened Wrappers
  import opened ContractTypes

  /** the ISO 8601 text `Date.prototype.toISOString` writes for a time value */
  datatype IsoTime = Iso(ms: int)

  datatype MeetingDto = MeetingDto(date: IsoTime, alarms: seq<IsoTime>)

  /** `{id, name}` of a user or a customer */
  datatype PartyDto = PartyDto(id: int, name: string)

  /** `{id, model}` of a car */
  datatype CarDto = CarDto(id: int, model: string)

  /** `ContractDetailResponseDto` */
  datatype ContractDetailDto = ContractDetailDto(
    id: int,
    status: ContractStatus,
    resolutionDate: Option<IsoTime>,
    contractPrice: int,
    user: PartyDto,
    customer: PartyDto,
    car: CarDto,
    meetings: seq<MeetingDto>)

  /** `ContractListItemDto` */
  datatype ContractListItemDto = ContractListItemDto(
    id: int,
    car: CarDto,
    customer: PartyDto,
    user: PartyDto,
    meetings: seq<MeetingDto>,
    contractPrice: int,
    resolutionDate: Option<IsoTime>,
    status: ContractStatus)

  /** `resolutionDate ? resolutionDate.toISOString() : null` */
  function ResolutionIso(d: Option<int>): (r: Option<IsoTime>)
    ensures r.None? <==> d.None?
    ensures d.Some? ==> r == Some(Iso(d.value))
  {
    match d
    case None => None
    case Some(ms) => Some(Iso(ms))
  }

  /** `toMeetingDto` */
  function ToMeetingDto(m: MeetingWithAlarms): (r: MeetingDto)
    ensures r.date == Iso(m.meeting.date)
    ensures |r.alarms| == |m.alarms| && forall j :: 0 <= j < |m.alarms| ==> r.alarms[j] == Iso(m.alarms[j].alarmTime)
  {
    MeetingDto(Iso(m.meeting.date), seq(|m.alarms|, j requires 0 <= j < |m.alarms| => Iso(m.alarms[j].alarmTime)))
  }

  function MeetingDtos(ms: seq<MeetingWithAlarms>): (r: seq<MeetingDto>)
    ensures |r| == |ms| && forall k :: 0 <= k < |ms| ==> r[k] == ToMeetingDto(ms[k])
  {
    seq(|ms|, k requires 0 <= k < |ms| => ToMeetingDto(ms[k]))
  }

  /** `toDetailDto` */
  function ToDetailDto(c: ContractWithRelations): (r: ContractDetailDto)
    ensures r.id == c.contract.id && r.status == c.contract.status && r.contractPrice == c.contract.contractPrice
    ensures r.resolutionDate == ResolutionIso(c.contract.resolutionDate)
    ensures r.user == PartyDto(c.contract.userId, c.user.name)
    ensures r.customer == PartyDto(c.contract.customerId, c.customer.name)
    ensures r.car == CarDto(c.contract.carId, c.car.modelName)
    ensures r.meetings == MeetingDtos(c.meetings)
  {
    ContractDetailDto(
      c.contract.id, c.contract.status, ResolutionIso(c.contract.resolutionDate), c.contract.contractPrice,
      PartyDto(c.contract.userId, c.user.name), PartyDto(c.contract.customerId, c.customer.name),
      CarDto(c.contract.carId, c.car.modelName), MeetingDtos(c.meetings))
  }

  /** `toListItemDto` */
  function ToListItemDto(c: ContractWithRelations): (r: ContractListItemDto)
    ensures r.id == c.contract.id && r.status == c.contract.status && r.contractPrice == c.contract.contractPrice
    ensures r.resolutionDate == ResolutionIso(c.contract.resolutionDate)
    ensures r.meetings == MeetingDtos(c.meetings)
  {
    ContractListItemDto(
      c.contract.id, CarDto(c.contract.carId, c.car.modelName), PartyDto(c.contract.customerId, c.customer.name),
      PartyDto(c.contract.userId, c.user.name), MeetingDtos(c.meetings), c.contract.contractPrice,
      ResolutionIso(c.contract.resolutionDate), c.contract.status)
  }

  /** The list item and the detail view of one contract agree on every field they share. */
  lemma ListItemAgreesWithDetail(c: ContractWithRelations)
    ensures var d := ToDetailDto(c); var l := ToListItemDto(c);
            && l.id == d.id && l.status == d.status && l.contractPrice == d.contractPrice
            && l.resolutionDate == d.resolutionDate && l.user == d.user && l.customer == d.customer
            && l.car == d.car && l.meetings == d.meetings
  {
  }

  /**
   * Meetings keep their order, each meeting's alarms keep theirs, and no
   * time is lost: the DTO's times are exactly the stored ones.
   */
  lemma MeetingsMapOneToOne(c: ContractWithRelations, k: nat, j: nat)
    requires k < |c.meetings| && j < |c.meetings[k].alarms|
    ensures var d := ToDetailDto(c);
            && |d.meetings| == |c.meetings|
            && d.meetings[k].date.ms == c.meetings[k].meeting.date
            && d.meetings[k].alarms[j].ms == c.meetings[k].alarms[j].alarmTime
  {
  }
}
