/**
 * The request schemas of the contract feature
 * (src/features/contracts/contract.schema.ts): `createContractSchema`,
 * `ResolutionDateSchema` and `updateContractSchema` with its refinement
 * "a successful contract needs a resolution date". `isDateTime` stands for
 * zod's ISO 8601 date-time pattern and `parse` for `new Date(string)`.
 */
module ContractSchema {
  import opened Wrappers
  import opened JsText
  import opened CustomErrors
  import opened ContractTypes
  import opened ContractPolicy
  import opened Zod

  const AlarmTimeMessage := "Alarm time must be a valid ISO 8601 date-time string."
  const MeetingDateMessage := "Meeting date must be a valid ISO 8601 date-time string."
  const CarIdMessage := "A valid car ID is required."
  const CustomerIdMessage := "A valid customer ID is required."
  const ResolutionDateMessage := "유효한 ISO 8601 (타임존 생략 가능) 또는 YYYY-MM-DD 날짜 문자열이 필요합니다."
  const SuccessNeedsDateMessage := "계약 성공 상태('contractSuccessful')로 변경 시에는 해결 날짜(resolutionDate)가 필수로 입력되어야 합니다."

  // ---------------------------------------------------------------- create

  /** `CreateContractDto` */
  datatype CreateContractDto = CreateContractDto(carId: int, customerId: int, meetings: Option<seq<MeetingInput>>)

  /** a meeting the create schema accepts: an ISO date-time `date` and an array of ISO date-time `alarms` */
  predicate IsMeeting(m: Json, isDateTime: string -> bool) {
    && m.JObj?
    && "date" in m.fields && m.fields["date"].JStr? && isDateTime(m.fields["date"].s)
    && "alarms" in m.fields && m.fields["alarms"].JArr?
    && forall j :: 0 <= j < |m.fields["alarms"].items| ==>
         m.fields["alarms"].items[j].JStr? && isDateTime(m.fields["alarms"].items[j].s)
  }

  /** `AlarmSchema` */
  function AlarmAt(path: seq<PathKey>, isDateTime: string -> bool): (nat, Json) -> Outcome<string> {
    (j: nat, a: Json) => DateTimeString(Some(a), path + [Index(j)], AlarmTimeMessage, isDateTime)
  }

  /** `MeetingSchema` at `path` */
  function Meeting(m: Json, path: seq<PathKey>, isDateTime: string -> bool): (r: Outcome<MeetingInput>)
    ensures r.Wf()
    ensures r.Clean() <==> IsMeeting(m, isDateTime)
    ensures r.Clean() ==> r.value.value.date == m.fields["date"].s
    ensures r.Clean() ==> var alarms := m.fields["alarms"].items;
              |r.value.value.alarms| == |alarms| && forall j :: 0 <= j < |alarms| ==> r.value.value.alarms[j] == alarms[j].s
  {
    match m
    case JObj(f) =>
      var date := DateTimeString(Get(f, "date"), path + [Key("date")], MeetingDateMessage, isDateTime);
      var alarms :=
        if "alarms" in f then ArrayOf(f["alarms"], path + [Key("alarms")], AlarmAt(path + [Key("alarms")], isDateTime))
        else Abort(path + [Key("alarms")], Required, None);
      var issues := date.issues + alarms.issues;
      if date.value.Some? && alarms.value.Some? then Outcome(Some(MeetingInput(date.value.value, alarms.value.value)), issues)
      else Outcome(None, issues)
    case _ => Abort(path, InvalidType, None)
  }

  function MeetingAt(isDateTime: string -> bool): (nat, Json) -> Outcome<MeetingInput> {
    (i: nat, m: Json) => Meeting(m, [Key("meetings"), Index(i)], isDateTime)
  }

  /** the meetings key of a create request is absent or an array of meetings */
  predicate MeetingsAccepted(v: Option<Json>, isDateTime: string -> bool) {
    v.None? || (v.value.JArr? && forall i :: 0 <= i < |v.value.items| ==> IsMeeting(v.value.items[i], isDateTime))
  }

  /** `createContractSchema.safeParse`: the DTO, or every issue found */
  function ParseCreateContract(body: Json, isDateTime: string -> bool): (r: Result<CreateContractDto, seq<SchemaIssue>>)
    ensures r.Success? <==>
              && body.JObj?
              && IsPositiveInt(Get(body.fields, "carId"))
              && IsPositiveInt(Get(body.fields, "customerId"))
              && MeetingsAccepted(Get(body.fields, "meetings"), isDateTime)
    ensures r.Success? ==>
              && r.value.carId as real == body.fields["carId"].x
              && r.value.customerId as real == body.fields["customerId"].x
              && (r.value.meetings.Some? <==> "meetings" in body.fields)
    ensures r.Success? && r.value.meetings.Some? ==>
              var ms := body.fields["meetings"].items;
              |r.value.meetings.value| == |ms|
              && forall i :: 0 <= i < |ms| ==> r.value.meetings.value[i].date == ms[i].fields["date"].s
    ensures r.Failure? ==> r.error != []
  {
    match body
    case JObj(f) =>
      var carId := PositiveInt(Get(f, "carId"), [Key("carId")], Some(CarIdMessage));
      var customerId := PositiveInt(Get(f, "customerId"), [Key("customerId")], Some(CustomerIdMessage));
      var meetings: Outcome<Option<seq<MeetingInput>>> :=
        if "meetings" in f then
          var o := ArrayOf(f["meetings"], [Key("meetings")], MeetingAt(isDateTime));
          Outcome(if o.value.Some? then Some(Some(o.value.value)) else None, o.issues)
        else Valid(None);
      var issues := carId.issues + customerId.issues + meetings.issues;
      if carId.Clean() && customerId.Clean() && meetings.Clean() then
        Success(CreateContractDto(carId.value.value, customerId.value.value, meetings.value.value))
      else
        Failure(issues)
    case _ => Failure([SchemaIssue([], InvalidType, None)])
  }

  /** the JSON body a client sends for a create request */
  function CreateBody(dto: CreateContractDto): Json {
    var base := map["carId" := JNum(dto.carId as real), "customerId" := JNum(dto.customerId as real)];
    match dto.meetings
    case None => JObj(base)
    case Some(ms) => JObj(base["meetings" := JArr(seq(|ms|, i requires 0 <= i < |ms| => MeetingBody(ms[i])))])
  }

  function MeetingBody(m: MeetingInput): Json {
    JObj(map["date" := JStr(m.date), "alarms" := JArr(seq(|m.alarms|, j requires 0 <= j < |m.alarms| => JStr(m.alarms[j])))])
  }

  /** A request with positive ids and ISO date-times parses back to itself. */
  lemma CreateBodyRoundTrip(dto: CreateContractDto, isDateTime: string -> bool)
    requires dto.carId > 0 && dto.customerId > 0
    requires dto.meetings.Some? ==> forall i :: 0 <= i < |dto.meetings.value| ==>
               var m := dto.meetings.value[i];
               isDateTime(m.date) && forall j :: 0 <= j < |m.alarms| ==> isDateTime(m.alarms[j])
    ensures ParseCreateContract(CreateBody(dto), isDateTime) == Success(dto)
  {
    var body := CreateBody(dto);
    assert IsInteger(dto.carId as real) && IsInteger(dto.customerId as real);
    if dto.meetings.Some? {
      var ms := dto.meetings.value;
      var items := body.fields["meetings"].items;
      forall i | 0 <= i < |items| ensures IsMeeting(items[i], isDateTime) {
        assert items[i] == MeetingBody(ms[i]);
      }
      var r := ParseCreateContract(body, isDateTime);
      var got := r.value.meetings.value;
      forall i | 0 <= i < |ms| ensures got[i] == ms[i] {
        var m := Meeting(items[i], [Key("meetings"), Index(i)], isDateTime);
        assert Some(got[i]) == m.value;
        assert got[i].alarms == ms[i].alarms;
      }
      assert got == ms;
    }
  }

  // ---------------------------------------------------------------- update

  /** `/^\d{4}-\d{2}-\d{2}$/.test(s)` */
  predicate IsSimpleDate(s: string) {
    && |s| == 10 && s[4] == '-' && s[7] == '-'
    && forall k :: 0 <= k < 10 && k != 4 && k != 7 ==> IsAsciiDigit(s[k])
  }

  /** a resolution date string the schema accepts: one `new Date` can read, or `YYYY-MM-DD` */
  predicate IsDateText(s: string, parse: string -> JsDate) {
    parse(s).ValidDate? || IsSimpleDate(s)
  }

  /** the resolution date values the schema accepts: omitted, `null`, any number, or a date text */
  predicate ResolutionDateAccepted(v: Option<Json>, parse: string -> JsDate) {
    v.None? || v.value.JNull? || v.value.JNum? || (v.value.JStr? && IsDateText(v.value.s, parse))
  }

  /** `ResolutionDateSchema` */
  function ResolutionDate(v: Option<Json>, parse: string -> JsDate): (r: Outcome<RawDate>)
    ensures r.Wf()
    ensures r.Clean() <==> ResolutionDateAccepted(v, parse)
    ensures r.value.None? <==> v.Some? && (v.value.JBool? || v.value.JArr? || v.value.JObj?)
    ensures r.value == Some(Absent) <==> v.None?
    ensures r.value == Some(NullValue) <==> v == Some(JNull)
    ensures r.value.Some? ==> r.value.value == DateOfValue(v)
    ensures forall k :: 0 <= k < |r.issues| ==> r.issues[k].path == [Key("resolutionDate")]
  {
    var path := [Key("resolutionDate")];
    match v
    case None => Valid(Absent)
    case Some(JNull) => Valid(NullValue)
    case Some(JStr(s)) => Outcome(Some(Str(s)), if IsDateText(s, parse) then [] else [SchemaIssue(path, CustomCheck, Some(ResolutionDateMessage))])
    case Some(JNum(x)) => Valid(Num(x))
    case Some(_) => Abort(path, InvalidUnion, None)
  }

  /** the status key: omitted, or one of the five status names */
  function StatusField(v: Option<Json>): (r: Outcome<Option<ContractStatus>>)
    ensures r.Wf()
    ensures r.value.Some? ==> r.issues == [] && r.value.value == StatusOfValue(v)
    ensures r.Clean() <==> v.None? || (v.value.JStr? && StatusFromName(v.value.s).Some?)
    ensures r.Clean() ==> (r.value.value.None? <==> v.None?)
    ensures r.Clean() && v.Some? ==> r.value.value.Some? && StatusName(r.value.value.value) == v.value.s
    ensures forall k :: 0 <= k < |r.issues| ==> r.issues[k].path == [Key("status")]
  {
    match v
    case None => Valid(None)
    case Some(JStr(s)) =>
      (match StatusFromName(s)
       case Some(st) => Valid(Some(st))
       case None => Abort([Key("status")], InvalidEnum, None))
    case Some(_) => Abort([Key("status")], InvalidType, None)
  }

  /** the placeholder meetings key of the update schema: an array of objects, whose keys are all stripped */
  function EmptyObjectAt(): (e: (nat, Json) -> Outcome<()>)
    ensures forall i, m :: e(i, m).Wf() && (e(i, m).Clean() <==> m.JObj?)
  {
    (i: nat, m: Json) => if m.JObj? then Valid(()) else Abort([Key("meetings"), Index(i)], InvalidType, None)
  }

  /** the meetings key of an update: omitted, or an array of objects, of which only the count survives */
  function MeetingPlaceholders(v: Option<Json>): (r: Outcome<Option<nat>>)
    ensures r.Wf()
    ensures r.Clean() <==> v.None? || (v.value.JArr? && forall i :: 0 <= i < |v.value.items| ==> v.value.items[i].JObj?)
    ensures r.Clean() ==> (r.value.value.None? <==> v.None?)
  {
    match v
    case None => Valid(None)
    case Some(m) =>
      var o := ArrayOf(m, [Key("meetings")], EmptyObjectAt());
      Outcome(if o.value.Some? then Some(Some(|o.value.value|)) else None, o.issues)
  }

  /** `UpdateContractDto`: `meetings` is only the number of (empty) meeting objects */
  datatype UpdateContractDto = UpdateContractDto(
    status: Option<ContractStatus>,
    resolutionDate: RawDate,
    contractPrice: Option<int>,
    userId: Option<int>,
    customerId: Option<int>,
    carId: Option<int>,
    meetingCount: Option<nat>)

  /** the refinement: `contractSuccessful` needs a resolution date that is neither null nor undefined */
  predicate SuccessHasDate(status: Option<ContractStatus>, resolutionDate: RawDate) {
    status == Some(ContractSuccessful) ==> !(resolutionDate.Absent? || resolutionDate.NullValue?)
  }

  const RefineIssue := SchemaIssue([Key("resolutionDate")], CustomCheck, Some(SuccessNeedsDateMessage))

  /** every key of the update body passes its own schema */
  predicate UpdateKeysAccepted(f: map<string, Json>, parse: string -> JsDate) {
    var status := Get(f, "status");
    && (status.None? || (status.value.JStr? && StatusFromName(status.value.s).Some?))
    && ResolutionDateAccepted(Get(f, "resolutionDate"), parse)
    && (Get(f, "contractPrice").None? || IsPositiveInt(Get(f, "contractPrice")))
    && (Get(f, "userId").None? || IsPositiveInt(Get(f, "userId")))
    && (Get(f, "customerId").None? || IsPositiveInt(Get(f, "customerId")))
    && (Get(f, "carId").None? || IsPositiveInt(Get(f, "carId")))
    && var m := Get(f, "meetings");
       (m.None? || (m.value.JArr? && forall i :: 0 <= i < |m.value.items| ==> m.value.items[i].JObj?))
  }

  /** the status a status key names */
  function StatusOfValue(v: Option<Json>): Option<ContractStatus> {
    if v.Some? && v.value.JStr? then StatusFromName(v.value.s) else None
  }

  function StatusOf(f: map<string, Json>): Option<ContractStatus> {
    StatusOfValue(Get(f, "status"))
  }

  /** the resolution date a key holds, by kind */
  function DateOfValue(v: Option<Json>): RawDate {
    match v
    case None => Absent
    case Some(JNull) => NullValue
    case Some(JStr(s)) => Str(s)
    case Some(JNum(x)) => Num(x)
    case Some(_) => OtherValue
  }

  function DateOf(f: map<string, Json>): RawDate {
    DateOfValue(Get(f, "resolutionDate"))
  }

  /** `updateContractSchema.safeParse`: the DTO, or every issue found (the refinement's last) */
  function ParseUpdateContract(body: Json, parse: string -> JsDate): (r: Result<UpdateContractDto, seq<SchemaIssue>>)
    ensures r.Success? <==> body.JObj? && UpdateKeysAccepted(body.fields, parse) && SuccessHasDate(StatusOf(body.fields), DateOf(body.fields))
    ensures r.Success? ==> r.value.status == StatusOf(body.fields) && r.value.resolutionDate == DateOf(body.fields)
    ensures r.Success? ==> (r.value.meetingCount.None? <==> "meetings" !in body.fields)
    ensures r.Failure? ==> r.error != []
    ensures body.JObj? && UpdateKeysAccepted(body.fields, parse) && !SuccessHasDate(StatusOf(body.fields), DateOf(body.fields)) ==>
              r == Failure([RefineIssue])
  {
    match body
    case JObj(f) =>
      var status := StatusField(Get(f, "status"));
      var date := ResolutionDate(Get(f, "resolutionDate"), parse);
      var price := OptionalPositiveInt(Get(f, "contractPrice"), [Key("contractPrice")]);
      var userId := OptionalPositiveInt(Get(f, "userId"), [Key("userId")]);
      var customerId := OptionalPositiveInt(Get(f, "customerId"), [Key("customerId")]);
      var carId := OptionalPositiveInt(Get(f, "carId"), [Key("carId")]);
      var meetings := MeetingPlaceholders(Get(f, "meetings"));
      var issues := status.issues + date.issues + price.issues + userId.issues + customerId.issues + carId.issues + meetings.issues;
      if status.value.None? || date.value.None? || price.value.None? || userId.value.None? || customerId.value.None?
         || carId.value.None? || meetings.value.None? then
        Failure(issues)
      else
        var refined := if SuccessHasDate(status.value.value, date.value.value) then [] else [RefineIssue];
        assert UpdateKeysAccepted(f, parse) ==> issues == [] by {
          if UpdateKeysAccepted(f, parse) {
            assert status.Clean() && date.Clean() && price.Clean() && userId.Clean();
            assert customerId.Clean() && carId.Clean() && meetings.Clean();
          }
        }
        assert SuccessHasDate(status.value.value, date.value.value) == SuccessHasDate(StatusOf(f), DateOf(f));
        if issues + refined == [] then
          Success(UpdateContractDto(status.value.value, date.value.value, price.value.value, userId.value.value,
                                    customerId.value.value, carId.value.value, meetings.value.value))
        else
          assert UpdateKeysAccepted(f, parse) && !SuccessHasDate(StatusOf(f), DateOf(f)) ==> issues + refined == [RefineIssue];
          Failure(issues + refined)
    case _ => Failure([SchemaIssue([], InvalidType, None)])
  }

  /**
   * The refinement runs even when another key only failed a check: a
   * successful status without a date and a non-positive price report both
   * issues, the refinement's last.
   */
  lemma RefinementRunsOnDirtyBody(parse: string -> JsDate)
    ensures var body := JObj(map["status" := JStr("contractSuccessful"), "contractPrice" := JNum(0.0)]);
            ParseUpdateContract(body, parse) == Failure([SchemaIssue([Key("contractPrice")], TooSmall, None), RefineIssue])
  {
    var f := map["status" := JStr("contractSuccessful"), "contractPrice" := JNum(0.0)];
    assert StatusFromName("contractSuccessful") == Some(ContractSuccessful);
    assert StatusField(Get(f, "status")) == Valid(Some(ContractSuccessful));
    assert ResolutionDate(Get(f, "resolutionDate"), parse) == Valid(Absent);
    assert IsInteger(0.0);
    var price := [SchemaIssue([Key("contractPrice")], TooSmall, None)];
    assert PositiveInt(Get(f, "contractPrice"), [Key("contractPrice")], None) == Outcome(Some(0), price);
    assert OptionalPositiveInt(Get(f, "contractPrice"), [Key("contractPrice")]) == Outcome(Some(Some(0)), price);
    assert Get(f, "userId") == None && Get(f, "customerId") == None && Get(f, "carId") == None && Get(f, "meetings") == None;
    assert MeetingPlaceholders(Get(f, "meetings")) == Valid(None);
    var r := ParseUpdateContract(JObj(f), parse);
    assert r.Failure?;
    assert r.error == [SchemaIssue([Key("contractPrice")], TooSmall, None), RefineIssue];
  }

  /** A status of the wrong type aborts the object, so the refinement does not run. */
  lemma RefinementSkippedOnAbortedBody(parse: string -> JsDate)
    ensures ParseUpdateContract(JObj(map["status" := JBool(true)]), parse) == Failure([SchemaIssue([Key("status")], InvalidType, None)])
  {
    var f := map["status" := JBool(true)];
    assert Get(f, "resolutionDate") == None && Get(f, "contractPrice") == None;
    assert Get(f, "userId") == None && Get(f, "customerId") == None && Get(f, "carId") == None && Get(f, "meetings") == None;
    assert StatusField(Get(f, "status")) == Abort([Key("status")], InvalidType, None);
    assert ResolutionDate(Get(f, "resolutionDate"), parse) == Valid(Absent);
    assert MeetingPlaceholders(Get(f, "meetings")) == Valid(None);
    assert ParseUpdateContract(JObj(f), parse).error == [SchemaIssue([Key("status")], InvalidType, None)];
  }

  /** A simple `YYYY-MM-DD` date is accepted even when `new Date` cannot read it. */
  lemma SimpleDateAlwaysAccepted(s: string, parse: string -> JsDate)
    requires IsSimpleDate(s)
    ensures ParseUpdateContract(JObj(map["status" := JStr("contractSuccessful"), "resolutionDate" := JStr(s)]), parse).Success?
  {
    var f := map["status" := JStr("contractSuccessful"), "resolutionDate" := JStr(s)];
    assert StatusFromName("contractSuccessful") == Some(ContractSuccessful);
    assert StatusOf(f) == Some(ContractSuccessful) && DateOf(f) == Str(s);
  }
}
