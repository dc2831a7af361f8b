/**
 * The meeting fan-out shared by `createContract` and `updateFullContract`
 * (src/features/contracts/contract.service.ts:166-186 and 379-403): one
 * meeting per requested meeting, one alarm per requested alarm time. The
 * `Promise.all` fan-out is taken in input order, one insert after the other.
 */
module ContractMeetings {
  import opened Wrappers
  import opened Seqs
  import opened CustomErrors
  import opened ContractTypes
  import opened ContractMapper
  import opened ContractRepository

  /** the meeting's date and every one of its alarm times parse to valid dates */
  predicate MeetingParses(m: MeetingInput, parse: string -> JsDate) {
    parse(m.date).ValidDate? && forall j :: 0 <= j < |m.alarms| ==> parse(m.alarms[j]).ValidDate?
  }

  predicate AllParse(ms: seq<MeetingInput>, parse: string -> JsDate) {
    forall k :: 0 <= k < |ms| ==> MeetingParses(ms[k], parse)
  }

  /** why inserting one requested meeting fails: its date first, then its alarms */
  function MeetingError(m: MeetingInput, parse: string -> JsDate): (r: Option<Thrown>)
    ensures r.None? <==> MeetingParses(m, parse)
    ensures r.Some? ==> r.value in {Other(InvalidDateArgument), Other(InvalidAlarmTime)}
    ensures r == Some(Other(InvalidDateArgument)) <==> parse(m.date).InvalidDate?
  {
    if parse(m.date).InvalidDate? then Some(Other(InvalidDateArgument))
    else if MeetingParses(m, parse) then None
    else Some(Other(InvalidAlarmTime))
  }

  /** the error of the first requested meeting that cannot be inserted */
  function MeetingsError(ms: seq<MeetingInput>, parse: string -> JsDate): (r: Option<Thrown>)
    ensures r.None? <==> AllParse(ms, parse)
    ensures r.Some? ==> r.value in {Other(InvalidDateArgument), Other(InvalidAlarmTime)}
  {
    if ms == [] then None
    else match MeetingsError(ms[..|ms| - 1], parse)
      case Some(e) => Some(e)
      case None => MeetingError(ms[|ms| - 1], parse)
  }

  /** A failure among the first `n` requests is the failure of the whole fan-out. */
  lemma {:induction false} MeetingsErrorOfPrefix(ms: seq<MeetingInput>, n: nat, parse: string -> JsDate)
    requires n <= |ms| && MeetingsError(ms[..n], parse).Some?
    ensures MeetingsError(ms, parse) == MeetingsError(ms[..n], parse)
    decreases |ms| - n
  {
    if n < |ms| {
      assert ms[..|ms| - 1][..n] == ms[..n];
      MeetingsErrorOfPrefix(ms[..|ms| - 1], n, parse);
    } else {
      assert ms[..n] == ms;
    }
  }

  /** the alarm rows a meeting's alarm times become, with ids from `a0` on */
  function AlarmRows(a0: nat, meetingId: nat, times: seq<string>, parse: string -> JsDate): (r: seq<Alarm>)
    requires forall j :: 0 <= j < |times| ==> parse(times[j]).ValidDate?
    ensures |r| == |times|
    ensures forall j :: 0 <= j < |times| ==> r[j] == Alarm(a0 + j, meetingId, parse(times[j]).ms)
  {
    seq(|times|, j requires 0 <= j < |times| => Alarm(a0 + j, meetingId, parse(times[j]).ms))
  }

  /** the tables after one requested meeting and its alarms are inserted */
  function AddMeeting(t: Tables, contractId: nat, m: MeetingInput, parse: string -> JsDate): (r: Tables)
    requires MeetingParses(m, parse)
    ensures ValidTables(t) && contractId < t.nextContractId ==> ValidTables(r)
  {
    var mid := t.nextMeetingId;
    t.(meetings := t.meetings + [Meeting(mid, contractId, parse(m.date).ms)],
       nextMeetingId := mid + 1,
       alarms := t.alarms + AlarmRows(t.nextAlarmId, mid, m.alarms, parse),
       nextAlarmId := t.nextAlarmId + |m.alarms|)
  }

  /** the tables after every requested meeting is inserted, in order */
  function WithMeetings(t: Tables, contractId: nat, ms: seq<MeetingInput>, parse: string -> JsDate): (r: Tables)
    requires AllParse(ms, parse)
    ensures ValidTables(t) && contractId < t.nextContractId ==> ValidTables(r)
    ensures r.contracts == t.contracts && r.cars == t.cars && r.customers == t.customers && r.users == t.users
    ensures r.documents == t.documents && r.nextContractId == t.nextContractId && r.clock == t.clock
    ensures r.nextMeetingId == t.nextMeetingId + |ms|
    decreases |ms|
  {
    if ms == [] then t
    else AddMeeting(WithMeetings(t, contractId, ms[..|ms| - 1], parse), contractId, ms[|ms| - 1], parse)
  }

  /** what the detail view shows for one requested meeting: its date and its alarm times, in order */
  function RequestedMeeting(m: MeetingInput, parse: string -> JsDate): (r: MeetingDto)
    requires MeetingParses(m, parse)
    ensures |r.alarms| == |m.alarms|
  {
    MeetingDto(Iso(parse(m.date).ms), seq(|m.alarms|, j requires 0 <= j < |m.alarms| => Iso(parse(m.alarms[j]).ms)))
  }

  function RequestedMeetings(ms: seq<MeetingInput>, parse: string -> JsDate): (r: seq<MeetingDto>)
    requires AllParse(ms, parse)
    ensures |r| == |ms| && forall k :: 0 <= k < |ms| ==> r[k] == RequestedMeeting(ms[k], parse)
  {
    seq(|ms|, k requires 0 <= k < |ms| => RequestedMeeting(ms[k], parse))
  }

  /** An inserted meeting with its inserted alarms shows as requested. */
  lemma InsertedMeetingShowsAsRequested(mid: nat, a0: nat, contractId: nat, m: MeetingInput, parse: string -> JsDate)
    requires MeetingParses(m, parse)
    ensures ToMeetingDto(MeetingWithAlarms(Meeting(mid, contractId, parse(m.date).ms), AlarmRows(a0, mid, m.alarms, parse)))
         == RequestedMeeting(m, parse)
  {
    var d := ToMeetingDto(MeetingWithAlarms(Meeting(mid, contractId, parse(m.date).ms), AlarmRows(a0, mid, m.alarms, parse)));
    assert d.alarms == RequestedMeeting(m, parse).alarms;
  }

  /** Inserting a meeting leaves the alarms read for any earlier meeting as they were. */
  lemma OlderMeetingKeepsAlarms(t: Tables, contractId: nat, m: MeetingInput, parse: string -> JsDate, id: nat)
    requires MeetingParses(m, parse) && id < t.nextMeetingId
    ensures AlarmsOf(AddMeeting(t, contractId, m, parse), id) == AlarmsOf(t, id)
  {
    var inserted := AlarmRows(t.nextAlarmId, t.nextMeetingId, m.alarms, parse);
    FilterAppend(t.alarms, inserted, OfMeeting(id));
    FilterNone(inserted, OfMeeting(id));
  }

  /** The inserted meeting reads back exactly the alarms inserted with it. */
  lemma NewMeetingHasItsAlarms(t: Tables, contractId: nat, m: MeetingInput, parse: string -> JsDate)
    requires ValidTables(t) && MeetingParses(m, parse)
    ensures AlarmsOf(AddMeeting(t, contractId, m, parse), t.nextMeetingId)
         == AlarmRows(t.nextAlarmId, t.nextMeetingId, m.alarms, parse)
  {
    var mid := t.nextMeetingId;
    var inserted := AlarmRows(t.nextAlarmId, mid, m.alarms, parse);
    FilterAppend(t.alarms, inserted, OfMeeting(mid));
    forall q | 0 <= q < |t.alarms| ensures !OfMeeting(mid)(t.alarms[q]) {
      assert t.alarms[q] in t.alarms;
    }
    FilterNone(t.alarms, OfMeeting(mid));
    FilterAll(inserted, OfMeeting(mid));
  }

  /** Inserting one meeting appends exactly one meeting, with its alarms, to the contract's loaded meetings. */
  lemma ReadBackStep(t: Tables, contractId: nat, m: MeetingInput, parse: string -> JsDate)
    requires ValidTables(t) && MeetingParses(m, parse)
    ensures var before := MeetingsOf(t, contractId);
            var after := MeetingsOf(AddMeeting(t, contractId, m, parse), contractId);
            && |after| == |before| + 1
            && (forall k :: 0 <= k < |before| ==> after[k] == before[k])
            && after[|before|] == MeetingWithAlarms(Meeting(t.nextMeetingId, contractId, parse(m.date).ms),
                                                     AlarmRows(t.nextAlarmId, t.nextMeetingId, m.alarms, parse))
  {
    var t2 := AddMeeting(t, contractId, m, parse);
    var added := Meeting(t.nextMeetingId, contractId, parse(m.date).ms);
    assert t2.meetings[..|t2.meetings| - 1] == t.meetings;
    var f1 := Filter(t.meetings, OfContract(contractId));
    assert Filter(t2.meetings, OfContract(contractId)) == f1 + [added];
    forall k | 0 <= k < |f1| ensures AlarmsOf(t2, f1[k].id) == AlarmsOf(t, f1[k].id) {
      assert f1[k] in f1;
      OlderMeetingKeepsAlarms(t, contractId, m, parse, f1[k].id);
    }
    NewMeetingHasItsAlarms(t, contractId, m, parse);
  }

  /** One more inserted meeting extends the read-back by one more requested meeting. */
  lemma ReadBackExtend(t: Tables, contractId: nat, ms: seq<MeetingInput>, parse: string -> JsDate)
    requires ValidTables(t) && ms != [] && AllParse(ms, parse)
    requires MeetingDtos(MeetingsOf(t, contractId)) == RequestedMeetings(ms[..|ms| - 1], parse)
    ensures MeetingDtos(MeetingsOf(AddMeeting(t, contractId, ms[|ms| - 1], parse), contractId)) == RequestedMeetings(ms, parse)
  {
    var last := ms[|ms| - 1];
    ReadBackStep(t, contractId, last, parse);
    var before := MeetingsOf(t, contractId);
    var after := MeetingsOf(AddMeeting(t, contractId, last, parse), contractId);
    var added := MeetingWithAlarms(Meeting(t.nextMeetingId, contractId, parse(last.date).ms),
                                   AlarmRows(t.nextAlarmId, t.nextMeetingId, last.alarms, parse));
    assert after == before + [added];
    InsertedMeetingShowsAsRequested(t.nextMeetingId, t.nextAlarmId, contractId, last, parse);
    MeetingDtosAppend(before, added);
    RequestedMeetingsAppend(ms, parse);
  }

  /**
   * Reading the contract back after the fan-out shows exactly the requested
   * meetings, each with exactly its requested alarms, when the contract had
   * no meetings before.
   */
  lemma {:induction false} ReadBackMeetings(t: Tables, contractId: nat, ms: seq<MeetingInput>, parse: string -> JsDate)
    requires ValidTables(t) && contractId < t.nextContractId && AllParse(ms, parse)
    requires forall m :: m in t.meetings ==> m.contractId != contractId
    ensures MeetingDtos(MeetingsOf(WithMeetings(t, contractId, ms, parse), contractId)) == RequestedMeetings(ms, parse)
    decreases |ms|
  {
    if ms == [] {
      FilterNone(t.meetings, OfContract(contractId));
    } else {
      var init := ms[..|ms| - 1];
      ReadBackMeetings(t, contractId, init, parse);
      ReadBackExtend(WithMeetings(t, contractId, init, parse), contractId, ms, parse);
    }
  }

  lemma MeetingDtosAppend(ms: seq<MeetingWithAlarms>, m: MeetingWithAlarms)
    ensures MeetingDtos(ms + [m]) == MeetingDtos(ms) + [ToMeetingDto(m)]
  {
    assert forall k :: 0 <= k < |ms| ==> (ms + [m])[k] == ms[k];
  }

  lemma RequestedMeetingsAppend(ms: seq<MeetingInput>, parse: string -> JsDate)
    requires ms != [] && AllParse(ms, parse)
    ensures AllParse(ms[..|ms| - 1], parse)
    ensures RequestedMeetings(ms, parse) == RequestedMeetings(ms[..|ms| - 1], parse) + [RequestedMeeting(ms[|ms| - 1], parse)]
  {
    assert forall k :: 0 <= k < |ms| - 1 ==> ms[..|ms| - 1][k] == ms[k];
  }

  /** Inserts the alarms of one meeting, in order; stops at the first time that does not parse. */
  method CreateAlarms(db: ContractDb, meetingId: nat, times: seq<string>, parse: string -> JsDate) returns (r: Result<(), Thrown>)
    requires db.Valid() && meetingId in MeetingIds(db.meetings)
    modifies db
    ensures db.Valid()
    ensures r.Success? <==> forall j :: 0 <= j < |times| ==> parse(times[j]).ValidDate?
    ensures r.Failure? ==> r.error == Other(InvalidAlarmTime)
    ensures db.contracts == old(db.contracts)
    ensures r.Success? ==> db.Snapshot() == old(db.Snapshot()).(alarms := old(db.alarms) + AlarmRows(old(db.nextAlarmId), meetingId, times, parse),
                                                                nextAlarmId := old(db.nextAlarmId) + |times|)
  {
    ghost var t0 := db.Snapshot();
    var j := 0;
    while j < |times|
      invariant 0 <= j <= |times|
      invariant forall q :: 0 <= q < j ==> parse(times[q]).ValidDate?
      invariant db.Valid()
      invariant db.meetings == t0.meetings && db.contracts == t0.contracts
      invariant db.Snapshot() == t0.(alarms := t0.alarms + AlarmRows(t0.nextAlarmId, meetingId, times[..j], parse),
                                     nextAlarmId := t0.nextAlarmId + j)
    {
      var alarm := db.CreateAlarm(meetingId, times[j], parse);
      if alarm.Failure? {
        return Failure(alarm.error);
      }
      assert AlarmRows(t0.nextAlarmId, meetingId, times[..j + 1], parse)
          == AlarmRows(t0.nextAlarmId, meetingId, times[..j], parse) + [alarm.value];
      j := j + 1;
    }
    assert times[..j] == times;
    r := Success(());
  }

  /** `meetingRepository.create` followed by the meeting's alarms */
  method CreateOneMeeting(db: ContractDb, contractId: nat, m: MeetingInput, parse: string -> JsDate) returns (r: Result<(), Thrown>)
    requires db.Valid() && FindIndex(db.contracts, contractId).Some?
    modifies db
    ensures db.Valid() && db.contracts == old(db.contracts)
    ensures r.Success? <==> MeetingParses(m, parse)
    ensures r.Success? ==> db.Snapshot() == AddMeeting(old(db.Snapshot()), contractId, m, parse)
    ensures r.Failure? ==> Some(r.error) == MeetingError(m, parse)
  {
    ghost var t1 := db.Snapshot();
    var created := db.CreateMeeting(contractId, m.date, parse);
    if created.Failure? {
      return Failure(created.error);
    }
    assert created.value in db.meetings;
    var alarms := CreateAlarms(db, created.value.id, m.alarms, parse);
    if alarms.Failure? {
      return Failure(alarms.error);
    }
    r := Success(());
  }

  /**
   * Inserts the requested meetings of a contract and their alarms. On
   * success the tables are those of `WithMeetings`; otherwise the error is
   * that of the first request that cannot be inserted, and the caller's
   * transaction rolls back whatever was written.
   */
  method CreateMeetings(db: ContractDb, contractId: nat, ms: seq<MeetingInput>, parse: string -> JsDate) returns (r: Result<(), Thrown>)
    requires db.Valid() && FindIndex(db.contracts, contractId).Some?
    modifies db
    ensures db.Valid()
    ensures r.Success? <==> AllParse(ms, parse)
    ensures r.Success? ==> db.Snapshot() == WithMeetings(old(db.Snapshot()), contractId, ms, parse)
    ensures r.Failure? ==> Some(r.error) == MeetingsError(ms, parse)
  {
    ghost var t0 := db.Snapshot();
    var k := 0;
    while k < |ms|
      invariant 0 <= k <= |ms|
      invariant AllParse(ms[..k], parse)
      invariant db.Valid() && db.contracts == t0.contracts
      invariant db.Snapshot() == WithMeetings(t0, contractId, ms[..k], parse)
    {
      var one := CreateOneMeeting(db, contractId, ms[k], parse);
      if one.Failure? {
        FirstFailure(ms, k, parse);
        return Failure(one.error);
      }
      WithMeetingsSnoc(t0, contractId, ms, k, parse);
      k := k + 1;
    }
    assert ms[..k] == ms;
    r := Success(());
  }

  /** When the first `k` requests parse and the next does not, the next one's error is the fan-out's. */
  lemma {:induction false} FirstFailure(ms: seq<MeetingInput>, k: nat, parse: string -> JsDate)
    requires k < |ms| && AllParse(ms[..k], parse) && MeetingError(ms[k], parse).Some?
    ensures MeetingsError(ms, parse) == MeetingError(ms[k], parse)
    decreases |ms|
  {
    var init := ms[..|ms| - 1];
    if k + 1 < |ms| {
      assert init[..k] == ms[..k] && init[k] == ms[k];
      FirstFailure(init, k, parse);
    } else {
      assert init == ms[..k];
    }
  }

  /** One more parsed request adds its meeting to the tables of the ones before it. */
  lemma WithMeetingsSnoc(t: Tables, contractId: nat, ms: seq<MeetingInput>, k: nat, parse: string -> JsDate)
    requires k < |ms| && AllParse(ms[..k], parse) && MeetingParses(ms[k], parse)
    ensures AllParse(ms[..k + 1], parse)
    ensures WithMeetings(t, contractId, ms[..k + 1], parse) == AddMeeting(WithMeetings(t, contractId, ms[..k], parse), contractId, ms[k], parse)
  {
    assert ms[..k + 1][..k] == ms[..k];
    assert ms[..k + 1][k] == ms[k];
  }
}
