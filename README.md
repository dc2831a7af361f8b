# DearCarmate back office, modelled in Dafny

DearCarmate is the back-office API of a car dealership. Salespeople
register cars, customers and contracts. A contract moves through five
statuses, and its car's status follows in step. A contract carries
meetings, each with alarm times, and it can have documents, which are
mailed to the customer. This project models the parts of the service
where the business rules live and proves what those rules guarantee:

- **The contract lifecycle** (`ContractTypes`, `ContractPolicy`,
  `ContractRepository`, `ContractMeetings`, `ContractSchema`,
  `ContractMapper`, `ContractService`).
  - The database is a class, `ContractDb`, whose methods are the
    repository writes.
  - The service operations are methods over that database. Each one states
    exactly what it leaves behind, as a function of the tables it found.
  - A `prisma.$transaction` is a snapshot, restored when any write inside
    it fails.
- **Cars** (`CarsService`, `CarsSchema`):
  - paging, filters, manufacturer grouping and type names;
  - the request validators;
  - the car store with its not-found, bad-request and update rules.
- **Errors** (`CustomErrors`, `ErrorHandler`, `LegacyErrorHandler`):
  - the error class hierarchy and its status codes;
  - both handlers' cascades from an error kind to status and message.
- **Users and admins** (`UserRepository`, `UserSchema`, `LegacyUserSchema`,
  `UserService`, `LegacyUserService`, `AdminService`, `LegacyAdminService`):
  - the order of the sign-up checks;
  - the profile-update policy and the password-confirmation schemas;
  - the admin delete guard.
- **Small converters**:
  - the Cloudinary public-id extractors (`Cloudinary`, `LegacyCloudinary`);
  - the customer and car CSV row converters (`CustomerCsv`, `CarsCsv`);
  - the `.env` loader of the Cloudinary script (`EnvLoader`);
  - the CORS origin policy (`Cors`).

Shared pieces:

- `Wrappers`: `Option` and `Result`.
- `Seqs`: filter, reverse, and a map that stops at the first failure.
- `JsText`: the JavaScript string operations the code relies on (`trim`,
  `split`, `indexOf`, `parseInt`, …), written out over `seq<char>`.
- `Zod`: the zod combinators the schemas use, with zod's issue lists.

Conventions:

- Calls into code that is not visible become parameters: `new Date(text)`,
  password hashing and verification, and zod's date-time and e-mail
  patterns.
- Stored timestamps are epoch milliseconds.
- Integers are unbounded. A JSON number is a `real`, and zod's `.int()`
  tests it for being whole.

## Model

| member | source | states |
|---|---|---|
| ContractTypes.StatusFromName | src/features/contracts/contract.type.ts:3-11 | a name has a status exactly when it is one of the five `CONTRACT_STATUSES`, and that status has the name |
| ContractTypes.Truncate | src/features/contracts/contract.service.ts:87-89 | a number's time value is truncated toward zero: within one of the number, on the same side of zero |
| ContractTypes.DateFromNumber | src/features/contracts/contract.service.ts:87-89 | `new Date(number)` is a valid date exactly within ±8.64e15 ms, holding the truncated value |
| ContractPolicy.CarStatusFor | src/features/contracts/contract.service.ts:57-71 | inspection, negotiation and draft give contractProceeding; successful gives contractCompleted; failed gives possession; each an if-and-only-if |
| ContractPolicy.CarStatusForName | src/features/contracts/contract.service.ts:57-71 | on a raw status name, any name outside the five falls into the `default` branch and gives possession |
| ContractPolicy.CarReleasedOnlyOnFailure | src/features/contracts/contract.service.ts:57-71 | the car is free again exactly when the contract failed; otherwise it is completed for success and proceeding for the rest |
| ContractPolicy.ProcessResolutionDate | src/features/contracts/contract.service.ts:73-96 | only a value that is not undefined, null, a string, a number or a Date raises INVALID_DATE_FORMAT |
| ContractPolicy.ResolutionDatePassThrough | src/features/contracts/contract.service.ts:73-91 | undefined and null pass through, and a Date is returned unchanged |
| ContractPolicy.ResolutionDateNullIffBlank | src/features/contracts/contract.service.ts:74-81 | the result is null exactly for null and for a string that trims to empty |
| ContractPolicy.ResolutionDateOfString | src/features/contracts/contract.service.ts:79-85 | a trimmed string of UTF-16 length 10 is read with `T00:00:00.000Z` appended (midnight UTC); any other is parsed as trimmed |
| ContractPolicy.ResolutionDateOfNumber | src/features/contracts/contract.service.ts:87-89 | an integer is read as epoch milliseconds when within the Date range, and as Invalid Date outside it |
| ContractPolicy.BuildContractName | src/features/contracts/contract.service.ts:98-103 | the name starts with `"{model} - "` and ends with `" 고객님"` |
| ContractPolicy.ContractNameDeterminesCustomer | src/features/contracts/contract.service.ts:98-103 | for one model, two customers get the same contract name only if their names are equal |
| ContractPolicy.StatusOnlyIgnoresResolutionDate | src/features/contracts/contract.service.ts:233-240 | whether an update is status-only does not depend on its resolution date; it needs a status; an empty meetings array makes it a full update |
| ContractRepository.MeetingsOf | src/features/contracts/contract.type.ts:21-23 | a contract's loaded meetings are its meeting rows in table order, each with its own alarms |
| ContractRepository.Load | src/features/contracts/contract.type.ts:13-24 | a loaded contract carries its own row, its user, customer and car rows, and its meetings with alarms |
| ContractRepository.FindByIdIn | src/features/contracts/contract.repository.ts:23-31 | null exactly when no row has the id; otherwise the loaded row with that id |
| ContractRepository.FindAllByCompanyIdIn | src/features/contracts/contract.repository.ts:54-76 | the listing is the loaded rows of the filtered, newest-first row list, one for one |
| ContractRepository.ListingIsExact | src/features/contracts/contract.repository.ts:59-67 | listed rows are company rows passing the name filter (a substring of the customer's or user's name under ASCII case folding, applied only for a non-empty keyword), and every such row is listed |
| ContractRepository.ListingNewestFirst | src/features/contracts/contract.repository.ts:72-74 | listed rows are in strictly decreasing creation time |
| ContractRepository.ApplyPatch | src/features/contracts/contract.repository.ts:38-47 | status, resolution date and price are written when supplied; user, customer and car are reconnected only for a truthy id; id, company, creation time and contract name never change |
| ContractRepository.EmptyPatchIsIdentity | src/features/contracts/contract.repository.ts:38-47 | a patch that supplies only a contract name leaves the row unchanged |
| ContractRepository.WithoutMeetingsOf | src/features/contracts/meeting.repository.ts:17-24 | exactly the meetings of the other contracts remain, and the tables stay valid |
| ContractRepository.WithoutContract | src/features/contracts/contract.repository.ts:78-82 | exactly the rows with another id remain |
| ContractRepository.WithoutContractValid | src/features/contracts/contract.repository.ts:78-82 | deleting a contract keeps ids and creation times increasing and every reference intact |
| ContractRepository.ContractDb.Restore | src/features/contracts/contract.service.ts:153-197 | a rolled-back transaction leaves the tables exactly as the snapshot taken before it |
| ContractRepository.ContractDb.FindById | src/features/contracts/contract.repository.ts:23-31 | the lookup reads the current tables |
| ContractRepository.ContractDb.Create | src/features/contracts/contract.repository.ts:12-20 | stores exactly the six given columns with the next id, the current time, the default status and no resolution date; a missing relation is P2003 and writes nothing |
| ContractRepository.ContractDb.Update | src/features/contracts/contract.repository.ts:33-52 | replaces the row with `ApplyPatch` of it and changes nothing else; a missing row or relation is P2025, an Invalid Date a validation error, and either writes nothing |
| ContractRepository.ContractDb.Delete | src/features/contracts/contract.repository.ts:78-82 | removes the row with that id together with its meetings and their alarms; an unknown id is P2025 |
| ContractRepository.ContractDb.CreateMeeting | src/features/contracts/meeting.repository.ts:6-15 | the new meeting is linked to the given contract and dated by the parse of the text; Invalid Date or a missing contract writes nothing |
| ContractRepository.ContractDb.DeleteMeetingsByContractId | src/features/contracts/meeting.repository.ts:17-24 | removes exactly that contract's meetings, with their alarms, and reports how many |
| ContractRepository.ContractDb.CreateAlarm | src/features/contracts/alarm.repository.ts:6-19 | a time that does not parse raises 'Invalid alarm time format' before any insert; otherwise the alarm is linked to the meeting and stores the parsed time |
| ContractRepository.ContractDb.SetCarStatus | src/features/contracts/contract.service.ts:306-315 | only the car's status column changes; an unknown car is P2025 |
| ContractRepository.ContractDb.UnlinkDocuments | src/features/contracts/contract.service.ts:406-408 | assumed meaning of an undefined helper: the contract's documents are detached and no other table changes |
| ContractRepository.ContractDb.LinkDocuments | src/features/contracts/contract.service.ts:410-413 | assumed meaning of an undefined helper: the listed documents are attached to the contract and no other table changes |
| ContractRepository.Unlinked | src/features/contracts/contract.service.ts:406-408 | assumed detach: same documents; none belongs to the contract afterwards; the others are untouched |
| ContractRepository.Linked | src/features/contracts/contract.service.ts:410-413 | assumed attach: same documents; the listed ones belong to the contract; the others are untouched |
| ContractMeetings.MeetingError | src/features/contracts/contract.service.ts:168-183 | a requested meeting fails to insert exactly when its date or one of its alarm times does not parse, the date first |
| ContractMeetings.MeetingsError | src/features/contracts/contract.service.ts:166-186 | the fan-out fails exactly when some requested meeting does not parse, with one of the two date errors |
| ContractMeetings.MeetingsErrorOfPrefix | src/features/contracts/contract.service.ts:166-186 | a failure among the first requests is the failure of the whole fan-out |
| ContractMeetings.FirstFailure | src/features/contracts/contract.service.ts:166-186 | when the requests before position k all parse and the one at k does not, its error is the fan-out's error |
| ContractMeetings.AlarmRows | src/features/contracts/contract.service.ts:174-182 | one alarm row per alarm time, in order, linked to the meeting and holding the parsed time |
| ContractMeetings.AddMeeting | src/features/contracts/contract.service.ts:168-183 | inserting one meeting with its alarms keeps the tables valid |
| ContractMeetings.WithMeetings | src/features/contracts/contract.service.ts:166-186 | the fan-out adds one meeting per request and touches no contract, car, customer, user or document |
| ContractMeetings.RequestedMeetings | src/features/contracts/contract.service.ts:166-186 | the view of the requests is one entry per requested meeting, in order |
| ContractMeetings.InsertedMeetingShowsAsRequested | src/features/contracts/contract.mapper.ts:9-16 | an inserted meeting with its inserted alarms maps to the requested date and alarm times |
| ContractMeetings.OlderMeetingKeepsAlarms | src/features/contracts/contract.service.ts:168-183 | inserting a meeting leaves every other meeting's alarms as they were |
| ContractMeetings.NewMeetingHasItsAlarms | src/features/contracts/contract.service.ts:168-183 | the new meeting reads back exactly the alarms inserted with it |
| ContractMeetings.ReadBackStep | src/features/contracts/contract.service.ts:168-183 | one insert appends exactly one meeting, with its alarms, to the contract's loaded meetings |
| ContractMeetings.ReadBackExtend | src/features/contracts/contract.service.ts:166-186 | one more insert extends the read-back by one more requested meeting |
| ContractMeetings.ReadBackMeetings | src/features/contracts/contract.service.ts:166-186 | starting from no meetings, the contract reads back exactly the requested meetings, each with exactly its alarms |
| ContractMeetings.CreateAlarms | src/features/contracts/contract.service.ts:174-182 | inserts the alarms in order; succeeds exactly when every time parses, else fails with 'Invalid alarm time format' |
| ContractMeetings.CreateOneMeeting | src/features/contracts/contract.service.ts:168-183 | succeeds exactly when the meeting parses, leaving the tables of `AddMeeting`; otherwise fails with that meeting's error |
| ContractMeetings.CreateMeetings | src/features/contracts/contract.service.ts:166-186 | succeeds exactly when every request parses, leaving the tables of `WithMeetings`; otherwise fails with the first failing request's error |
| ContractSchema.AlarmAt | src/features/contracts/contract.schema.ts:4-6 | an alarm is checked as an ISO date-time string at its index |
| ContractSchema.Meeting | src/features/contracts/contract.schema.ts:8-13 | a meeting is accepted exactly when it has an ISO date-time `date` and an array of ISO date-time `alarms`, and then keeps both, alarm for alarm |
| ContractSchema.ParseCreateContract | src/features/contracts/contract.schema.ts:15-22 | accepted exactly for positive integer ids and absent or well-formed meetings; the DTO keeps the ids and the meeting dates; a rejection lists at least one issue |
| ContractSchema.CreateBodyRoundTrip | src/features/contracts/contract.schema.ts:15-22 | a request with positive ids and ISO date-times, written as JSON, parses back to itself |
| ContractSchema.ResolutionDate | src/features/contracts/contract.schema.ts:24-38 | accepted exactly when omitted, null, a number or a date text (one `new Date` reads, or `YYYY-MM-DD`); booleans, arrays and objects abort; issues sit at `resolutionDate` |
| ContractSchema.StatusField | src/features/contracts/contract.schema.ts:42-44 | accepted exactly when omitted or one of the five status names, which it then denotes |
| ContractSchema.EmptyObjectAt | src/features/contracts/contract.schema.ts:52-58 | a placeholder meeting is accepted exactly when it is an object |
| ContractSchema.MeetingPlaceholders | src/features/contracts/contract.schema.ts:52-58 | accepted exactly when omitted or an array of objects |
| ContractSchema.ParseUpdateContract | src/features/contracts/contract.schema.ts:40-76 | accepted exactly when every key passes and a successful status carries a non-null resolution date; a failing refinement is reported at `resolutionDate` |
| ContractSchema.RefinementRunsOnDirtyBody | src/features/contracts/contract.schema.ts:60-76 | the refinement runs after a non-fatal issue: a price of 0 and a dateless success report both issues, the refinement's last |
| ContractSchema.RefinementSkippedOnAbortedBody | src/features/contracts/contract.schema.ts:40-76 | a status of the wrong type aborts the object, so the refinement does not run |
| ContractSchema.SimpleDateAlwaysAccepted | src/features/contracts/contract.schema.ts:24-34 | a `YYYY-MM-DD` date satisfies the success rule even when `new Date` cannot read it |
| ContractMapper.ResolutionIso | src/features/contracts/contract.mapper.ts:27-29 | null exactly when there is no resolution date, otherwise its ISO text |
| ContractMapper.ToMeetingDto | src/features/contracts/contract.mapper.ts:9-16 | the meeting's date and each of its alarm times, in order, as ISO texts |
| ContractMapper.MeetingDtos | src/features/contracts/contract.mapper.ts:43 | meetings map one to one, in order |
| ContractMapper.ToDetailDto | src/features/contracts/contract.mapper.ts:21-45 | id, status, price, ISO resolution date, `{id, name}` of user and customer, `{id, model}` of the car, and the mapped meetings |
| ContractMapper.ToListItemDto | src/features/contracts/contract.mapper.ts:47-69 | id, status, price, ISO resolution date and the mapped meetings |
| ContractMapper.ListItemAgreesWithDetail | src/features/contracts/contract.mapper.ts:21-69 | the list item and the detail view of one contract agree on every field they share |
| ContractMapper.MeetingsMapOneToOne | src/features/contracts/contract.mapper.ts:9-16 | the k-th meeting's j-th alarm in the DTO is the ISO text of the stored k-th meeting's j-th alarm |
| ContractService.PatchAt | src/features/contracts/contract.service.ts:328-331 | only the patched row changes, and no meeting, alarm, car or document |
| ContractService.WithCarStatus | src/features/contracts/contract.service.ts:306-315 | only that car's status changes |
| ContractService.NewContract | src/features/contracts/contract.service.ts:143-161 | the new row has the car's company and price, the caller as owner, the generated name, the default status and no resolution date |
| ContractService.CreateFailure | src/features/contracts/contract.service.ts:128-141 | a missing car is NotFound '존재하지 않는 자동차입니다'; then a customer outside the car's company is NotFound '존재하지 않는 고객입니다' |
| ContractService.InsertedTablesValid | src/features/contracts/contract.service.ts:153-164 | the inserted row keeps the tables valid, is found by its id, and has no meetings yet |
| ContractService.CreateContract | src/features/contracts/contract.service.ts:122-200 | fails exactly as `CreateFailure` says and then writes nothing; otherwise leaves `CreatedTables` and returns the new contract's detail view |
| ContractService.CreatedDetail | src/features/contracts/contract.service.ts:143-199 | the created contract shows the car's price, the caller, the customer, the car's model, no resolution date, the default status and exactly the requested meetings |
| ContractService.CreatedTablesEffect | src/features/contracts/contract.service.ts:148-164 | creation appends one row, puts its car under contract, and changes no other car, customer, user or document |
| ContractService.DatePatch | src/features/contracts/contract.service.ts:262-267 | undefined leaves the column alone, null clears it, a date sets it |
| ContractService.FetchContractName | src/features/contracts/contract.service.ts:105-120 | fails with '차량 또는 고객 정보를 찾을 수 없습니다' exactly when the car or the company's customer is missing; otherwise builds the name |
| ContractService.ValidationError | src/features/contracts/contract.service.ts:427-476 | no error exactly when every truthy user, car and customer id exists (the customer within the company); the error is one of the three NotFound messages |
| ContractService.ValidatedNameIsFound | src/features/contracts/contract.service.ts:362-369 | after validation, the contract name for a truthy car and customer can always be built |
| ContractService.RelinkedDocuments | src/features/contracts/contract.service.ts:406-414 | under the assumed helpers: the listed documents belong to the contract afterwards, the others do not, and documents of other contracts are untouched |
| ContractService.FirstMissing | src/features/contracts/contract.service.ts:272-282 | the position of the first listed id with no document, or none when all exist |
| ContractService.DocumentsError | src/features/contracts/contract.service.ts:272-282 | there is an error exactly when some listed document does not exist |
| ContractService.FindDocuments | src/features/contracts/contract.service.ts:272-282 | looks every id up in order; fails with the first missing id's NotFound, otherwise returns the documents one for one |
| ContractService.PatchedTablesValid | src/features/contracts/contract.service.ts:360-376 | the full path's patch keeps the tables valid and the row in place |
| ContractService.FullUpdateTables | src/features/contracts/contract.service.ts:358-422 | the full path changes contracts and cars as the patch says, never customers or users |
| ContractService.UpdateFailure | src/features/contracts/contract.service.ts:218-230 | a missing contract is NotFound '존재하지 않는 계약입니다'; then another caller is Forbidden '담당자만 수정이 가능합니다' |
| ContractService.UpdateContractStatus | src/features/contracts/contract.service.ts:317-343 | fails only for an Invalid Date, writing nothing; otherwise leaves `StatusUpdateTables` and returns the detail view |
| ContractService.ContractIdsUnique | src/features/contracts/contract.repository.ts:23-31 | the row at a position is the one its id finds |
| ContractService.UpdateFullContract | src/features/contracts/contract.service.ts:345-425 | fails exactly on a validation error, an Invalid Date or an unparsable meeting, in that order, writing nothing; otherwise leaves `FullUpdateTables`, whose document step is the assumed relink |
| ContractService.PatchContract | src/features/contracts/contract.service.ts:356-375 | the row patch fails only on an Invalid Date, writing nothing; otherwise the row is patched, the car follows the new status, and the row keeps its position |
| ContractService.ReplaceMeetings | src/features/contracts/contract.service.ts:378-401 | succeeds exactly when every requested meeting parses, leaving the old meetings deleted and the requested ones inserted; otherwise it reports the meetings' error |
| ContractService.RelinkDocuments | src/features/contracts/contract.service.ts:404-412 | only the documents table changes, to the contract's documents detached and the listed ones attached, by the assumed helpers |
| ContractService.MeetingsReplaced | src/features/contracts/contract.service.ts:378-401 | the meetings step touches no contract, car, customer or user, and without `meetings` touches nothing |
| ContractService.UpdateContract | src/features/contracts/contract.service.ts:202-304 | fails exactly as `UpdateFailure` says and then writes nothing; otherwise leaves `UpdatedTables`, whose document step is the assumed relink, and returns the detail view |
| ContractService.StatusUpdateWritesOnlyStatus | src/features/contracts/contract.service.ts:317-333 | the status-only path writes the row's status and resolution date and the car's derived status, and nothing else |
| ContractService.FullUpdateCarStatus | src/features/contracts/contract.service.ts:356-376 | the car status is rewritten only when a status is supplied, on the requested car when its id is truthy, else the original car; no other car changes |
| ContractService.FullUpdateRow | src/features/contracts/contract.service.ts:358-370 | only the contract's own row changes; its name stays; status, price and truthy relations follow the request |
| ContractService.FullUpdateMeetings | src/features/contracts/contract.service.ts:379-403 | supplied meetings replace the old ones, so the contract shows exactly them (none for `[]`); absent ones leave meetings and alarms untouched |
| ContractService.FullUpdateDocuments | src/features/contracts/contract.service.ts:405-414 | under the assumed helpers, supplied documents are relinked: afterwards a document belongs to the contract exactly when it is listed |
| ContractService.ListItems | src/features/contracts/contract.service.ts:514-516 | one list item per contract, in order |
| ContractService.GetContracts | src/features/contracts/contract.service.ts:478-521 | all five buckets exist; each holds the listing's contracts of that status, in listing order, with its count |
| ContractService.GroupByStatus | src/features/contracts/contract.service.ts:500-507 | the reduce builds exactly `BucketsOf` the listing |
| ContractService.BucketsOf | src/features/contracts/contract.service.ts:489-507 | five buckets, each the contracts of its status in order |
| ContractService.BucketsOfEmpty | src/features/contracts/contract.service.ts:489-498 | nothing grouped gives the five empty buckets |
| ContractService.BucketsStep | src/features/contracts/contract.service.ts:500-507 | pushing the next contract onto its status's bucket gives the buckets of one more contract |
| ContractService.BucketsPartition | src/features/contracts/contract.service.ts:500-520 | the bucket counts add up to the number of listed contracts |
| ContractService.BucketIsExact | src/features/contracts/contract.service.ts:500-507 | a bucket holds exactly the listed contracts of its status |
| ContractService.DeleteFailure | src/features/contracts/contract.service.ts:527-539 | no error exactly for an existing contract of the caller; a missing one is NotFound, another caller's Forbidden '담당자만 삭제가 가능합니다' |
| ContractService.DeleteContract | src/features/contracts/contract.service.ts:523-556 | fails exactly as `DeleteFailure` says and then writes nothing; otherwise returns '계약 삭제 성공' and leaves `DeletedTables` |
| ContractService.DeleteReleasesCar | src/features/contracts/contract.service.ts:541-553 | afterwards the contract is gone, its car is back in possession, no other car or contract changes, and it has no meetings |
| ContractService.DeleteContractAsWritten | src/features/contracts/contract.service.ts:523-553 | as written, every request fails and writes nothing: the guards' NotFound and Forbidden first, then Prisma's refusal of the transaction client as the id, with the car's reset rolled back |
| ContractService.DeleteAsWrittenIsServerError | src/shared/middlewares/error-handler.ts:62-113 | that refusal is no known Prisma request error, so the mounted handler answers 500 and hides it outside development |
| CarsService.TranslateCarTypeToKorean | src/services/cars.service.ts:134-145 | the enum name comes back unchanged for every type except `SEDAN` and `COMPACT`, which get their Korean labels |
| CarsService.TranslationIsInjective | src/services/cars.service.ts:134-145 | two well-formed car types with the same label are the same type |
| CarsService.OrEmpty | src/services/cars.service.ts:116-117 | `?? ''`: a null column becomes the empty text, a present one is kept |
| CarsService.StoredNullable | src/types/cars.schema.ts:29-36 | the body schema stores `null` exactly for the empty text and keeps any other text |
| CarsService.BuildCarResponseData | src/services/cars.service.ts:105-120 | every response field is the car's own column or its model's, with the type translated and the nullable texts defaulted to '' |
| CarsService.ResponseKeepsNullableColumns | src/services/cars.service.ts:116-117 | a nullable column stored through the body schema is recovered from the response |
| CarsService.BuildQueryOptions | src/services/cars.service.ts:225-226 | skip is `(page - 1) * pageSize` and take is `pageSize` |
| CarsService.QueryOptionsSelectRequestedCars | src/services/cars.service.ts:227-235 | the built `where` matches a car exactly when it has the requested status (if any) and contains a non-empty keyword, under ASCII case folding, in the field `searchBy` names |
| CarsService.UnfilteredQueryListsEveryCar | src/services/cars.service.ts:227-235 | with no status and no usable keyword the filter accepts every car |
| CarsService.Window | src/services/cars.service.ts:25-27 | `skip`/`take` returns the items from position `skip` on, at most `take` of them, in order |
| CarsService.TotalPages | src/services/cars.service.ts:33 | the ceiling of count over page size: zero only for no items, enough pages for every item and no empty last page |
| CarsService.EveryItemIsOnItsPage | src/services/cars.service.ts:25-33 | item `i` is on page `i / pageSize + 1` at position `i % pageSize`, and that page is within `totalPages` |
| CarsService.PagesWithinTotalAreNonEmpty | src/services/cars.service.ts:25-33 | a page is non-empty exactly when its number is at most `totalPages` |
| CarsService.ListedCarsAreRequested | src/services/cars.service.ts:24-30 | every car on the page is stored, has its model, and is one the query asks for |
| CarsService.Makers | src/services/cars.service.ts:79-80 | the manufacturer column of the model table, position by position |
| CarsService.FirstSeenIsFirstOccurrenceOrder | src/services/cars.service.ts:78-91 | the grouped manufacturers are distinct, are exactly those in the table, and come in first-seen order (the source's object-key order is not modelled) |
| CarsService.ModelsOfAbsent | src/services/cars.service.ts:81-84 | a manufacturer absent from the table has no models |
| CarsService.GroupingStep | src/services/cars.service.ts:79-85 | one more model row appends its manufacturer if new and extends only that manufacturer's list |
| CarsService.FindModel | src/services/cars.service.ts:128-133 | the `(manufacturer, model)` lookup finds a matching row, or there is none |
| CarsService.ModelByIdOfMember | src/services/cars.service.ts:105-111 | with unique model ids, the model joined to a car by id is the very row |
| CarsService.BuildCarUpdateData | src/services/cars.service.ts:182-196 | fails with BadRequest '잘못된 요청입니다.' exactly when both names are given and the pair is unknown; otherwise copies the rest of the patch and reconnects the model exactly when both names are given |
| CarsService.ApplyCarUpdate | src/services/cars.service.ts:66 | an update keeps the car's id, company and status, keeps its model unless one is reconnected, and an empty update changes nothing |
| CarsService.HalfModelPairKeepsModel | src/services/cars.service.ts:185 | a patch naming only one of manufacturer and model never fails and keeps the car's model |
| CarsService.ReplaceKeepsStoreOk | src/services/cars.service.ts:66 | rewriting a car in place under its id, with a known model, keeps the store well formed |
| CarsService.CarStore.ResponseFor | src/services/cars.service.ts:105-120 | the response of a stored car is built from its joined model |
| CarsService.CarStore.GetCar | src/services/cars.service.ts:42-48 | NotFound '존재하지 않는 차량입니다.' exactly for an unknown id; otherwise the car's response |
| CarsService.CarStore.GetCars | src/services/cars.service.ts:24-41 | `totalItemCount` counts every selected car, `totalPages` is its ceiling over the page size, `currentPage` is the requested page, and `data` is the window of selected cars, each built with its model |
| CarsService.CarStore.CreateCar | src/services/cars.service.ts:49-56 | an unknown user is NotFound and an unknown model pair BadRequest, before any write; otherwise exactly one row is appended in the caller's company, in possession, and its response returned |
| CarsService.CarStore.UpdateCar | src/services/cars.service.ts:57-68 | an unknown id is NotFound and a bad model pair BadRequest, with nothing written; otherwise only that car is replaced by the patched row and its response returned |
| CarsService.CarStore.DeleteCar | src/services/cars.service.ts:69-75 | an unknown id is NotFound with nothing written; otherwise exactly that car is removed and the rest keep their order |
| CarsService.CarStore.GetCarModels | src/services/cars.service.ts:76-95 | one group per manufacturer, in first-seen order (not `Object.entries`' integer-key order), each holding that manufacturer's models in table order |
| CarsSchema.CarNumberFromParts | src/types/cars.schema.ts:19-22 | two or three digits, a Hangul syllable and four digits always make an accepted plate |
| CarsSchema.CarNumberHasParts | src/types/cars.schema.ts:19-22 | an accepted plate is exactly two or three digits, a Hangul syllable and four digits |
| CarsSchema.SamplePlates | src/types/cars.schema.ts:19-22 | '12가1234' and '123가1234' are accepted; 'invalid' and '1가12345' are not |
| CarsSchema.CarNumberField | src/types/cars.schema.ts:19-22 | the field is clean exactly for a text matching the plate pattern; a text that does not match reports the single message '차량 번호 형식이 올바르지 않습니다.' |
| CarsSchema.NullableText | src/types/cars.schema.ts:29-36 | clean exactly for an absent key or a text; the value is `null` for absent or empty text, so `""` is never stored |
| CarsSchema.ParseCarBody | src/types/cars.schema.ts:18-37 | succeeds exactly for an object whose every field is acceptable, returning each field's value; a failure has at least one issue |
| CarsSchema.ParsedBodyFitsTheTable | src/types/cars.schema.ts:25-36 | a parsed body has positive year, mileage and price, a non-negative accident count, and no empty text |
| CarsSchema.CarBodyRoundTrip | src/types/cars.schema.ts:18-37 | parsing the JSON body a client sends for a schema-shaped DTO gives that DTO back |
| CarsSchema.OptionalKey | src/controllers/cars.controller.ts:52 | under `.partial()` an absent key is accepted as absent, and a present one is parsed as before |
| CarsSchema.OptionalCarNumber | src/controllers/cars.controller.ts:52 | a given plate must match the pattern and is kept; an absent one stays absent |
| CarsSchema.OptionalString | src/controllers/cars.controller.ts:52 | a given key must be a text and is kept; an absent one stays absent |
| CarsSchema.OptionalPositive | src/types/cars.schema.ts:25-27 | a given number must be a positive whole number and is kept; an absent one stays absent |
| CarsSchema.OptionalNonNegative | src/types/cars.schema.ts:28 | a given count must be a non-negative whole number and is kept; an absent one stays absent |
| CarsSchema.OptionalText | src/types/cars.schema.ts:29-36 | a given text is kept, turned into `null` when empty; an absent key stays absent |
| CarsSchema.ParseCarPatch | src/controllers/cars.controller.ts:52 | `carsBodySchema.partial()` succeeds exactly for an object whose present keys are each acceptable; a failure has at least one issue |
| CarsSchema.PatchHoldsExactlyTheGivenKeys | src/controllers/cars.controller.ts:52 | the patch holds exactly the keys the body gives, with empty texts turned into `null` |
| CarsSchema.EmptyPatchChangesNothing | src/services/cars.service.ts:182-196 | an empty update body is accepted, needs no model lookup and leaves the car as it was |
| CarsSchema.CoercedPositive | src/types/cars.schema.ts:11-12 | an absent value takes its default; a present one must coerce to a positive whole number within the maximum, and is that number |
| CarsSchema.CarStatusFromName | src/types/cars.schema.ts:4-8 | each of the three wire names decodes to its status, and nothing else does |
| CarsSchema.SearchByFromName | src/types/cars.schema.ts:3 | 'carNumber' and 'model' decode to their search field, and nothing else does |
| CarsSchema.OptionalEnum | src/types/cars.schema.ts:13-14 | an absent value is accepted as absent; a present one must be one of the names and decodes to it |
| CarsSchema.ParseCarsQuery | src/types/cars.schema.ts:10-16 | succeeds exactly when page and pageSize coerce (pageSize at most 100) and status and searchBy, when given, are known names; the result carries the defaults 1 and 10 for absent numbers |
| CarsSchema.ParsedQueryIsServiceable | src/types/cars.schema.ts:11-12 | a parsed query has page at least 1 and pageSize between 1 and 100 |
| CarsSchema.EmptyQueryDefaults | src/types/cars.schema.ts:10-16 | an empty query is page 1 of 10, unfiltered |
| CustomErrors.NewBase | src/middlewares/custom-error.ts:1-16 | `new CustomError(message, statusCode?, isOperational?)` keeps the message, with status 500 and operational by default |
| CustomErrors.New | src/middlewares/custom-error.ts:18-58 | a subclass error has its class's status code, the given message or the class default, and is operational unless it is the server error |
| CustomErrors.StatusCodeClasses | src/middlewares/custom-error.ts:18-58 | the five client-error classes carry 4xx codes and are operational; `InternalServerError` is 500 and non-operational |
| ErrorHandler.PathText | src/shared/middlewares/error-handler.ts:46 | `path.join('.')`: empty for an empty path, the key itself for a one-key path |
| ErrorHandler.IssueBodies | src/shared/middlewares/error-handler.ts:52-55 | one `{path, message}` entry per issue, in order |
| ErrorHandler.Handle | src/shared/middlewares/error-handler.ts:28-112 | an `errors` list is sent exactly for a validation error, a stack only in development and only the one given |
| ErrorHandler.Fallback | src/shared/middlewares/error-handler.ts:100-112 | status 500; the error's own message and stack in development, '서버 오류가 발생했습니다' and no stack otherwise |
| ErrorHandler.NotFound | src/shared/middlewares/error-handler.ts:115-121 | 404 '요청한 경로를 찾을 수 없습니다' with the request path |
| ErrorHandler.CustomErrorsPassThrough | src/shared/middlewares/error-handler.ts:28-40 | under the one-class assumption, an application error answers with its own status and message, and the stack only in development |
| ErrorHandler.StatusIsClassification | src/shared/middlewares/error-handler.ts:28-112 | the status depends only on the kind of error: its own code, 400 for validation, 409, 400 and 404 for P2002, P2003 and P2025, 500 otherwise |
| ErrorHandler.UnrecognisedIsServerError | src/shared/middlewares/error-handler.ts:62-112 | any other error, including an unhandled Prisma code, is a 500 that hides message and stack outside development |
| ErrorHandler.ZodOneEntryPerIssue | src/shared/middlewares/error-handler.ts:42-59 | a validation error answers 400 with one entry per issue carrying that issue's message |
| ErrorHandler.ZodMessageIsFirstIssue | src/shared/middlewares/error-handler.ts:44-47 | the main message is the default for no issues, else the first issue prefixed by its path when the path is not empty |
| ErrorHandler.ZodMessageSingleKey | src/shared/middlewares/error-handler.ts:44-47 | an issue at key `name` reads "name: message" |
| ErrorHandler.UniqueViolationNamesField | src/shared/middlewares/error-handler.ts:63-81 | P2002 answers 409 naming the field: the Korean name of the four known fields, the raw first target otherwise, '필드' without a target |
| LegacyErrorHandler.Handle | src/middlewares/error-handler.ts:28-97 | an `errors` list is sent exactly for a validation error, a stack only in development and only the one given |
| LegacyErrorHandler.Fallback | src/middlewares/error-handler.ts:85-97 | status 500; the error's own message and stack in development, 'Internal server error' and no stack otherwise |
| LegacyErrorHandler.NotFound | src/middlewares/error-handler.ts:100-106 | 404 'Route not found' with the request path |
| LegacyErrorHandler.ZodOneEntryPerIssue | src/middlewares/error-handler.ts:42-54 | a validation error answers 400 'Validation failed' with exactly the issue entries |
| LegacyErrorHandler.UniqueViolationNamesField | src/middlewares/error-handler.ts:57-66 | P2002 answers 409 "<first target> already exists", or "field already exists" without a target |
| LegacyErrorHandler.AgreesWithFeatureHandler | src/middlewares/error-handler.ts:28-97 | both handlers give every error the same status, the same `errors` list and the same stack, and the same message for application errors |
| Cloudinary.AfterPivot | src/shared/middlewares/cloudinary.ts:85-92 | `None` exactly when the URL has no '/upload/'; otherwise the text right after its first occurrence |
| Cloudinary.DropVersion | src/shared/middlewares/cloudinary.ts:96-98 | the segments unchanged, or without their first segment when that is a version `v<digits>` |
| Cloudinary.DropLeadingIsSuffix | src/shared/middlewares/cloudinary.ts:101-107 | the longest suffix whose dropped prefix segments all contain ',' or '_' and no '.', and whose first segment does not |
| Cloudinary.WithoutExtension | src/shared/middlewares/cloudinary.ts:110-112 | a text without '.' is unchanged; otherwise the text before its last '.' |
| Cloudinary.PublicIdOf | src/shared/middlewares/cloudinary.ts:85-112 | `null` exactly when the URL has no '/upload/' |
| Cloudinary.ExtractPublicIdFromCloudinaryUrl | src/shared/middlewares/cloudinary.ts:81-116 | the shifting loop returns exactly `PublicIdOf` of the URL |
| Cloudinary.NoPivotNoPublicId | src/shared/middlewares/cloudinary.ts:86-90 | a URL that cannot hold '/upload/' has no public id |
| Cloudinary.ForeignUrlYieldsNull | src/shared/middlewares/cloudinary.ts:86-90 | 'https://example.com/image.png' has no public id |
| Cloudinary.VersionDroppedOnce | src/shared/middlewares/cloudinary.ts:96-98 | only the first of two version segments is removed |
| Cloudinary.FolderDroppedAsWritten | src/shared/middlewares/cloudinary.ts:101-107 | a folder containing '_' and no '.' after the version is dropped, leaving only the file name |
| Cloudinary.FolderDroppedFromTail | src/shared/middlewares/cloudinary.ts:93-112 | `version/folder/file` with such a folder gives the file name without its extension |
| Cloudinary.TestUrlLosesFolder | src/shared/middlewares/cloudinary.ts:101-107 | '/upload/v1/team4_images/test.png' gives 'test' as written |
| Cloudinary.DropTransformations | src/shared/middlewares/cloudinary.ts:100-107 | drops exactly the leading segments made of transformation parameters such as `c_fill,w_200` |
| Cloudinary.IntendedPublicIdOf | src/shared/middlewares/cloudinary.ts:74-79 | `null` exactly when the URL has no '/upload/' |
| Cloudinary.FolderKeptAsIntended | src/shared/middlewares/cloudinary.ts:74-79 | a folder that is not a transformation stays in the id, with only the extension cut |
| Cloudinary.Team4ImagesIsFolder | src/shared/middlewares/cloudinary.ts:18 | the upload folder 'team4_images' is not a transformation segment |
| Cloudinary.TestUrlKeepsFolderAsIntended | src/shared/middlewares/cloudinary.ts:74-79 | '/upload/v1/team4_images/test.png' gives 'team4_images/test' when folders are kept |
| LegacyCloudinary.SecondPart | src/utils/cloudinary.ts:21-23 | `parts[1]`: exists exactly when the URL has '/upload/'; it is the text after the first occurrence, cut at the next one |
| LegacyCloudinary.CutAtLastDot | src/utils/cloudinary.ts:25 | `substring(0, lastIndexOf('.'))`: empty without a '.', else the text before the last '.' |
| LegacyCloudinary.LegacyPublicIdOf | src/utils/cloudinary.ts:20-28 | `null` exactly when the URL has no '/upload/' |
| LegacyCloudinary.FirstSegmentAlwaysDropped | src/utils/cloudinary.ts:24 | the first path segment is dropped whether or not it is a version |
| LegacyCloudinary.SingleSegmentIsEmpty | src/utils/cloudinary.ts:24-25 | a path of one segment gives the empty id |
| LegacyCloudinary.AgreesWithSharedOnVersionedFile | src/utils/cloudinary.ts:20-28 | for `version/file.ext` both extractors give the file name without extension |
| LegacyCloudinary.DisagreesWithoutExtension | src/utils/cloudinary.ts:25 | for `version/name` without a '.', the legacy extractor gives '' where the shared one gives the name |
| UserRepository.FindUser | src/repositories/user.repository.ts:28-44 | the first row satisfying the lookup, or `None` exactly when no row does |
| UserRepository.UserById | src/repositories/user.repository.ts:28-32 | `findById`: a stored row with that id, or `None` exactly when there is none |
| UserRepository.CompanyByCode | src/services/user.service.ts:31-35 | the company with that code, or `None` exactly when there is none |
| UserRepository.CompanyById | src/features/users/user.service.ts:75-78 | the company with that id, or `None` exactly when there is none |
| UserRepository.Patched | src/repositories/user.repository.ts:46-51 | an update overwrites exactly the given columns and keeps id, email, admin flag, provider and company |
| UserRepository.NoChangeKeepsRow | src/repositories/user.repository.ts:46-51 | an update with no fields leaves the row as it was |
| UserRepository.ForgetOne | src/repositories/user.repository.ts:53-57 | deleting a row keeps the table invariant and leaves no row with its id |
| UserRepository.InsertedIsFound | src/repositories/user.repository.ts:22-32 | a created row is what a lookup of its id finds |
| UserRepository.ReplacedIsFound | src/repositories/user.repository.ts:28-51 | an updated row is what a lookup of its id finds |
| UserRepository.ReplaceKeepsTable | src/repositories/user.repository.ts:46-51 | an update that keeps the id and clashes with no other row's unique columns keeps the table invariant |
| UserRepository.UserDb.Create | src/repositories/user.repository.ts:22-26 | refused with P2002 on the email, else the employee number, exactly when one is taken, with nothing written; otherwise exactly one row is appended with the next id |
| UserRepository.UserDb.Update | src/repositories/user.repository.ts:46-51 | refused with P2002 exactly when the new employee number belongs to another user; otherwise only that row is patched |
| UserRepository.UserDb.Delete | src/repositories/user.repository.ts:53-57 | exactly that row is removed and its id is no longer found |
| AdminService.DeleteUser | src/features/admin/admin.service.ts:8-19 | an unknown id is NotFound '존재하지 않는 유저입니다' and an admin Forbidden '관리자는 삭제할 수 없습니다', with nothing written; otherwise exactly that user is removed |
| LegacyAdminService.DeleteUser | src/services/admin.service.ts:5-16 | an unknown id is NotFound 'User not found' and an admin Forbidden 'Cannot delete admin user', with nothing written; otherwise exactly that user is removed |
| UserService.OrUndefined | src/features/users/user.service.ts:33-34 | `value or undefined` keeps exactly a non-empty value |
| UserService.ToUserResponse | src/features/users/user.service.ts:24-41 | the response carries the row's columns without the password, drops a null or empty phone and image, and names the company |
| UserService.Profile | src/features/users/user.service.ts:69-81 | an unknown user is NotFound '존재하지 않는 유저입니다', a missing company '존재하지 않는 회사입니다'; otherwise that user's response with the company's name |
| UserService.Signup | src/features/users/user.service.ts:43-67 | an unknown company code is BadRequest, a used email Conflict, a used employee number the table's P2002, each with nothing written; otherwise one row appended with the hashed password and no image, read back by `Profile` |
| UserService.UpdateDataFor | src/features/users/user.service.ts:106-126 | a name only for a google user, a hashed password only for a non-google user with a non-empty new password, the other fields when given, and never a cleared image |
| UserService.UpdatePolicy | src/features/users/user.service.ts:92-126 | the patched row keeps id, email, admin flag and company; only a google user's name and only a non-google user's password can change |
| UserService.ParsedBodyNeverRenames | src/features/users/user.service.ts:108-111 | a body that came through the schema never renames anyone |
| UserService.EmptyBodyChangesNothing | src/features/users/user.service.ts:106-128 | an empty body leaves the row as it was |
| UserService.UpdateMe | src/features/users/user.service.ts:83-136 | an unknown user is NotFound, a non-google user's supplied current password that does not verify BadRequest, each with nothing written; otherwise the row is patched (or P2002 on a taken employee number) and the profile read back after the write |
| UserService.DeleteMe | src/features/users/user.service.ts:152-159 | an unknown user is NotFound with nothing written; any existing user, an admin included, is removed |
| UserService.UsersForContract | src/features/users/user.service.ts:160-167 | one entry per user, in order, with the user's id and the label `name(email)` |
| UserService.LabelsOfDifferentEmailsDiffer | src/features/users/user.service.ts:163-166 | two users with different emails (without '(') never share a label |
| LegacyUserService.ToUserData | src/services/user.service.ts:65-75 | the DTO carries the row's columns without the password, dropping a null or empty phone and image |
| LegacyUserService.Profile | src/services/user.service.ts:78-96 | an unknown user is NotFound 'User not found'; otherwise that user's DTO |
| LegacyUserService.Signup | src/services/user.service.ts:20-76 | company code, then email, then employee number are checked in that order, each refusal writing nothing; otherwise exactly one row is appended with the hashed password and read back by `Profile` |
| LegacyUserService.UpdateDataFor | src/services/user.service.ts:117-135 | a hashed password exactly for a non-empty new password; name, phone and image copied when given; the employee number never |
| LegacyUserService.UpdateNeverClashes | src/services/user.service.ts:117-138 | the legacy update never meets the employee-number constraint |
| LegacyUserService.PasswordOnlyChangesNothing | src/services/user.service.ts:117-138 | a body that only restates the current password leaves the row as it was |
| LegacyUserService.UpdateMe | src/services/user.service.ts:98-152 | an unknown user is NotFound and a current password that does not verify Unauthorized, each with nothing written; otherwise the row is patched and read back by `Profile` |
| UserSchema.LongKey | src/features/users/user.schema.ts:5-12 | no issue exactly for a string of at least the minimum length; a missing or mistyped key always has one |
| UserSchema.OptionalKey | src/features/users/user.schema.ts:8 | no issue exactly for an absent key or a string |
| UserSchema.EmailKey | src/features/users/user.schema.ts:6 | no issue exactly for a string the e-mail pattern accepts |
| UserSchema.SignupHeadIssues | src/features/users/user.schema.ts:5-8 | no issue exactly when name, email, employee number and phone all pass their checks |
| UserSchema.SignupTailIssues | src/features/users/user.schema.ts:9-12 | no issue exactly when password, confirmation, company name and code all pass their checks |
| UserSchema.SignupKeyIssues | src/features/users/user.schema.ts:3-13 | no issue exactly when every key passes its own check; a key of the wrong type always has one |
| UserSchema.ParseSignupWith | src/features/users/user.schema.ts:3-17 | succeeds exactly when every key passes and the two passwords agree, giving a password of at least 8 UTF-16 units equal to its confirmation |
| UserSchema.ParseSignup | src/features/users/user.schema.ts:3-17 | the feature schema succeeds exactly on the bodies `signupSchema` accepts |
| UserSchema.SignupMismatchReported | src/features/users/user.schema.ts:14-17 | on a well-typed body, differing passwords end the issue list with the mismatch at `passwordConfirmation` |
| UserSchema.SignupRefineSkippedWhenAborted | src/features/users/user.schema.ts:14-17 | a body with a mistyped key fails without the refinement's issue |
| UserSchema.ImageUrl | src/features/users/user.schema.ts:29-33 | accepts an absent key, a URL, and `null` exactly where the rules allow it, and hands on which of the three it was |
| UserSchema.OptionalStringAt | src/features/users/user.schema.ts:21-28 | no issue exactly for an absent key or a string |
| UserSchema.PasswordAt | src/features/users/user.schema.ts:24-27 | no issue exactly for an absent password or one of at least 8 characters |
| UserSchema.UpdateKeyIssues | src/features/users/user.schema.ts:19-34 | no issue exactly when every key passes its own check; a mistyped key always has one |
| UserSchema.UpdateRefineIssues | src/features/users/user.schema.ts:35-56 | no issue exactly when a given new password has an equal confirmation and a current password |
| UserSchema.ParseUpdateMeWith | src/features/users/user.schema.ts:19-56 | succeeds exactly on accepted bodies, and then a new password comes with its confirmation and the current password, and a `null` image only where allowed |
| UserSchema.ParseUpdateMe | src/features/users/user.schema.ts:19-56 | the feature schema succeeds exactly on the bodies `updateMeSchema` accepts |
| UserSchema.BareNewPasswordGetsBothIssues | src/features/users/user.schema.ts:35-56 | a new password without confirmation and current password gets both refinement issues, in order |
| UserSchema.NoNewPasswordNoRefinement | src/features/users/user.schema.ts:35-56 | without a new password neither refinement objects |
| UserSchema.NullImageAccepted | src/features/users/user.schema.ts:29-33 | `{imageUrl: null}` parses to an explicit null image |
| LegacyUserSchema.ParseLegacySignup | src/types/user.schema.ts:3-19 | succeeds exactly on the bodies `signupSchema` accepts |
| LegacyUserSchema.ParseLegacyUpdateMe | src/types/user.schema.ts:21-54 | succeeds exactly on accepted bodies, and never yields a `null` image |
| LegacyUserSchema.SignupAgreesWithFeature | src/types/user.schema.ts:3-19 | the legacy and feature signup schemas accept the same bodies with the same result |
| LegacyUserSchema.NullImageRejected | src/types/user.schema.ts:31 | `{imageUrl: null}` fails with one type issue at `imageUrl` |
| LegacyUserSchema.UpdateAgreesWithFeatureWithoutNull | src/types/user.schema.ts:21-54 | without a `null` image the two updateMe schemas accept the same bodies |
| CustomerCsv.AgeStart | src/shared/middlewares/customer-csv-parser.ts:32 | `split('-')[0]`: the text before the first '-', which holds no '-' |
| CustomerCsv.NormalizeAgeGroup | src/shared/middlewares/customer-csv-parser.ts:31-37 | non-empty exactly when the text before the first '-' is a non-empty run of digits, and then it is those digits followed by '대' |
| CustomerCsv.AgeStartOfRange | src/shared/middlewares/customer-csv-parser.ts:32 | whatever follows the first '-' is ignored |
| CustomerCsv.RangeBecomesLabel | src/shared/middlewares/customer-csv-parser.ts:31-37 | a range starting at 10, 20, … 80 becomes the schema's label '10대' … '80대' |
| CustomerCsv.LabelIsNotReread | src/shared/middlewares/customer-csv-parser.ts:31-37 | a row already holding a label such as '20대' is turned into '' |
| CustomerCsv.HeadIssues | src/features/customers/customer.schema.ts:4-6 | no issue exactly when name, gender and phone number pass their checks |
| CustomerCsv.TailIssues | src/features/customers/customer.schema.ts:7-37 | no issue exactly when age group, region, email and memo pass; a bad age group always has an issue |
| CustomerCsv.ParseCustomer | src/features/customers/customer.schema.ts:3-38 | succeeds exactly on the rows `createCustomerSchema` accepts, with the row's values; a failure has at least one issue |
| CustomerCsv.ConvertRow | src/shared/middlewares/customer-csv-parser.ts:30-52 | a row without `ageGroup` throws; otherwise it succeeds exactly when the row with its age group normalised is accepted |
| CustomerCsv.ConvertedRowKeepsFields | src/shared/middlewares/customer-csv-parser.ts:38-51 | a converted row holds the row's own texts, a normalised age group that is a schema label, and email and memo exactly when the row has them |
| CustomerCsv.NonNumericAgeGroupRejected | src/shared/middlewares/customer-csv-parser.ts:33-42 | a non-numeric age group is refused, the age group's issue coming first |
| CustomerCsv.ConvertRows | src/shared/middlewares/customer-csv-parser.ts:30 | every row converted in order, or the error of the first row that fails |
| CustomerCsv.ParseCustomerCsv | src/shared/middlewares/customer-csv-parser.ts:11-58 | no file is BadRequest '파일이 없습니다.'; otherwise exactly the converted rows, or the first row's error passed on |
| CarsCsv.IntOrZero | src/middlewares/cars-csv-parser.ts:25-28 | `parseInt(s, 10)` or else 0: the leading integer of the text, or 0 when there is none |
| CarsCsv.IntOrZeroReadsDecimal | src/middlewares/cars-csv-parser.ts:25-28 | a number written in decimal is read back |
| CarsCsv.IntOrZeroStopsAtNonDigit | src/middlewares/cars-csv-parser.ts:25-28 | reading stops at the first character that is not a digit |
| CarsCsv.NonNumericIsZero | src/middlewares/cars-csv-parser.ts:25-28 | a text that does not start like a number reads as 0 |
| CarsCsv.ConvertCarRow | src/middlewares/cars-csv-parser.ts:24-40 | the texts are kept, the four numbers read with `parseInt`, falling back to 0, and an empty free text becomes `null` |
| CarsCsv.ConvertCarRowOfRowOf | src/middlewares/cars-csv-parser.ts:24-40 | writing a car without empty texts as a row and converting it gives the car back |
| CarsCsv.ConvertCarRows | src/middlewares/cars-csv-parser.ts:24 | one car per row, in order |
| CarsCsv.ConvertCarRowsOfRowsOf | src/middlewares/cars-csv-parser.ts:24-40 | a whole file written from cars reads back as those cars |
| CarsCsv.ParseCarsCsv | src/middlewares/cars-csv-parser.ts:7-46 | fails exactly when there is no file, with BadRequest '파일이 없습니다.' (400); otherwise every row converted |
| EnvLoader.MatchAssignment | scripts/test-cloudinary.ts:22 | `/^([^=]+)=(.*)$/` matches exactly when there is a non-empty text before the first '=' and no line terminator after it, and splits the line there |
| EnvLoader.SliceInner | scripts/test-cloudinary.ts:31 | `slice(1, -1)`: the text without its first and last character, empty for a text shorter than two |
| EnvLoader.Unquote | scripts/test-cloudinary.ts:27-32 | a value not wrapped in matching quotes is unchanged, and unquoting never lengthens it |
| EnvLoader.UnquoteOfQuoted | scripts/test-cloudinary.ts:27-32 | a value wrapped in double or single quotes gives back its inside |
| EnvLoader.AssignedKeyIsPlain | scripts/test-cloudinary.ts:22-24 | an assigned key is never empty and holds no '=' |
| EnvLoader.ParseLineFollowsPattern | scripts/test-cloudinary.ts:19-32 | empty lines and comments are skipped; other lines assign exactly when they match, with the trimmed key and the trimmed, unquoted value |
| EnvLoader.SkippedLine | scripts/test-cloudinary.ts:20 | a blank line or a comment assigns nothing |
| EnvLoader.UnmatchedLine | scripts/test-cloudinary.ts:22-23 | a line the pattern does not match assigns nothing |
| EnvLoader.MatchedLine | scripts/test-cloudinary.ts:22-33 | a matched line assigns its trimmed key the trimmed, unquoted value |
| EnvLoader.AssignmentLine | scripts/test-cloudinary.ts:22-33 | `KEY=value` assigns `KEY` the trimmed, unquoted value |
| EnvLoader.PlainLineParses | scripts/test-cloudinary.ts:22-33 | `KEY=value` with a plain value assigns exactly that value |
| EnvLoader.QuotedLineParses | scripts/test-cloudinary.ts:27-33 | `KEY="inner"` and `KEY='inner'` assign the inside |
| EnvLoader.MatchOfKeyValue | scripts/test-cloudinary.ts:22 | the pattern splits `k=v` back into `k` and `v` when `k` has no '=' |
| EnvLoader.KeyIsFirst | scripts/test-cloudinary.ts:22 | in `k=v` with no '=' in `k`, the first '=' is right after `k` |
| EnvLoader.ApplyAllStep | scripts/test-cloudinary.ts:18-35 | applying one more line is assigning that line's result |
| EnvLoader.AssignOther | scripts/test-cloudinary.ts:33 | a line that does not assign a key leaves it as it was |
| EnvLoader.LastAssignmentWins | scripts/test-cloudinary.ts:18-35 | the last line assigning a key decides its value |
| EnvLoader.UnassignedKeyKept | scripts/test-cloudinary.ts:18-35 | a key no line assigns keeps its value, or stays absent |
| EnvLoader.ProcessEnv.LoadEnv | scripts/test-cloudinary.ts:14-39 | a failed read leaves `process.env` as it was; otherwise it is the old environment with every line applied in order |
| Cors.AllowedOrigins | src/app.ts:21-23 | unset or empty gives `['http://localhost:3000']`; otherwise at least one entry, none holding a comma |
| Cors.CheckOrigin | src/app.ts:26-47 | allows exactly a missing or empty origin, a listed one, or one ending in '.vercel.app' or '.onrender.com'; anything else is 'Not allowed by CORS' |
| Cors.DefaultAcceptsLocalFrontEnd | src/app.ts:21-47 | without `CORS_ORIGINS` the local front end is accepted and another local port is refused |
| Cors.AllowedOriginsRejoin | src/app.ts:21-23 | the allowed origins joined with commas give the variable back |
| Cors.ListedOriginsReadBack | src/app.ts:21-23 | a comma-free list written with commas is read back entry for entry |
| Cors.ListedOriginsAccepted | src/app.ts:21-36 | every origin written into `CORS_ORIGINS` is accepted |
| Cors.SpaceAfterCommaIsKept | src/app.ts:21-23 | `"a, b"` gives the entries `a` and `" b"`: entries are not trimmed |
| Cors.UntrimmedEntryRefusesOrigin | src/app.ts:21-47 | with `"a, b"` the origin `b` itself is refused unless it is `a` or a deployment host |
| Cors.DeploymentHostsAccepted | src/app.ts:38-45 | every Vercel or Render deployment host is accepted whatever the list holds |
| Cors.BareVercelDomainNeedsListing | src/app.ts:34-45 | the bare domain 'https://vercel.app' is accepted exactly when it is listed |
| Cors.MoreOriginsAcceptMore | src/app.ts:26-47 | listing more origins never refuses an origin that was accepted |
| CarsService.FindCar | src/services/cars.service.ts:43-44 | `findById`: the position of a car with that id, or none exactly when no car has it |
| CarsService.ModelById | src/services/cars.service.ts:105-111 | the `model` relation of a car: a model row with that id, or none exactly when no row has it |
| JsText.TrimStart | scripts/test-cloudinary.ts:19 | the result starts with no white space and only white space was removed from the front |
| JsText.TrimStartIsSuffix | scripts/test-cloudinary.ts:19 | what `trimStart` keeps is the input's suffix of that length |
| JsText.TrimEnd | scripts/test-cloudinary.ts:19 | the result ends with no white space and only white space was removed from the back |
| JsText.TrimEndIsPrefix | scripts/test-cloudinary.ts:19 | what `trimEnd` keeps is the input's prefix of that length |
| JsText.Trim | scripts/test-cloudinary.ts:19 | `trim()` leaves no white space at either end |
| JsText.TrimIsInfix | scripts/test-cloudinary.ts:19 | `trim()` keeps one contiguous slice and drops only white space around it |
| JsText.Utf16Length | src/features/users/user.schema.ts:9 | the length a zod `min` counts lies between the number of code points and twice it |
| JsText.IndexOf | src/shared/middlewares/cloudinary.ts:86 | `indexOf`: the first position where the pattern occurs, or none exactly when it never does |
| JsText.LastIndexOfChar | src/shared/middlewares/cloudinary.ts:110 | `lastIndexOf`: a position holding the character with none after it, or none exactly when it is absent |
| JsText.Split | src/app.ts:22 | `split` gives at least one part and no part holds the separator |
| JsText.SplitCons | src/app.ts:22 | splitting after a separator-free head gives the head and then the rest's parts |
| JsText.FirstIndexOfChar | scripts/test-cloudinary.ts:22 | the first occurrence of a character: it is there and none comes before it |
| JsText.JoinSplit | src/shared/middlewares/cloudinary.ts:93-109 | joining what `split` produced restores the string |
| JsText.SplitJoin | src/shared/middlewares/cloudinary.ts:93-109 | splitting a join of separator-free parts restores the parts |
| JsText.NatToString | src/middlewares/cars-csv-parser.ts:25-28 | decimal text of a natural number is all digits with no leading zero |
| JsText.DigitsValueOfNatToString | src/middlewares/cars-csv-parser.ts:25-28 | reading back the digits of a natural number gives the number |
| JsText.ParseIntOfIntToString | src/middlewares/cars-csv-parser.ts:25-28 | `parseInt` reads back what `String(n)` wrote |
| JsText.ParseIntOfDigitsThen | src/middlewares/cars-csv-parser.ts:25-28 | `parseInt` reads the leading digits and stops at the first non-digit |
| Seqs.MapOrThrow | src/shared/middlewares/customer-csv-parser.ts:30 | a `map` whose callback may throw: every element converted in order, or the error of an element that failed |
| Zod.PositiveInt | src/types/cars.schema.ts:25 | `z.number().int().positive()` is clean exactly on a positive whole number and yields that number |
| Zod.NonNegativeInt | src/types/cars.schema.ts:28 | `z.number().int().nonnegative()` is clean exactly on a whole number of zero or more |
| Zod.Str | src/features/users/user.schema.ts:5 | `z.string()` is clean exactly on a string and yields it |
| Zod.MinString | src/features/users/user.schema.ts:9 | `z.string().min(n)` is clean exactly on a string of at least n code units, and aborts only on a non-string |
| Zod.FormatString | src/features/users/user.schema.ts:31 | a string format check is clean exactly on a string that passes the format |
| Zod.EnumString | src/types/cars.schema.ts:43 | `z.enum` is clean exactly on one of its options and aborts otherwise |
| Zod.Optional | src/features/contracts/contract.schema.ts:21 | `.optional()` accepts an absent key and otherwise reports the inner schema's issues unchanged |
| Zod.NullableOptional | src/features/users/user.schema.ts:31-33 | `.nullable().optional()` accepts absent and `null` and otherwise reports the inner schema's issues |
| Zod.OptionalPositiveInt | src/types/cars.schema.ts:25 | an optional positive whole number: clean exactly when absent or positive and whole |
| Zod.DateTimeString | src/features/contracts/contract.schema.ts:4-11 | `z.string().datetime()` is clean exactly on a string in the date-time format and yields it |
| Zod.AllIssues | src/features/contracts/contract.schema.ts:12 | the collected issues are empty exactly when every part has none |
| Zod.ArrayOf | src/features/contracts/contract.schema.ts:12 | `z.array` is clean exactly when the value is an array whose every element is clean, and yields one value per element |

## Left out

- Prisma itself: queries are reads and writes of in-memory tables. A `$transaction` is all-or-nothing: the tables are snapshotted and restored when a write inside fails. Isolation levels and concurrent requests are not modelled.
- `Promise.all`: the fan-outs over meetings, alarms and documents run one after another. The first failure, in input order, is the one reported.
- JavaScript `Date`: `new Date(text)` is the parameter `parse`, and `toISOString` is the constructor `Iso`. Timestamps are epoch milliseconds. The creation clock is a counter in the tables.
- E-mail delivery (src/shared/middlewares/email.ts) is external I/O. Its outcome is the parameter `emailDelivered` of `ContractService.UpdateContract`. A failed delivery throws before the transaction, as in the source.
- ContractService.DeleteContract: models the evidently intended deletion of the contract by id. As written, the service calls `contractRepository.delete(tx, contractId)`, while the repository's `delete(id)` takes one parameter (src/features/contracts/contract.repository.ts:78-82). The transaction client therefore arrives as `id`, and Prisma refuses the query. The transaction rolls the car's `possession` reset back, and the caller gets a 500. No delete that passes the guards succeeds. `ContractService.DeleteContractAsWritten` models that behaviour (see "## Findings").
- ContractService.DeleteReleasesCar: holds of the intended deletion `DeletedTables`, not of the as-written call, which changes nothing.
- ContractService.CreateContract: the contract status comes from a database default that is not visible. It is the table's constant `defaultStatus`, and the initial status only derives the car status.
- ContractRepository.ContractDb.Update: the recomputed `contractName` is taken as input but never written, as in the source.
- The contract-document repositories and services are not part of this model. Documents are a table that is looked up by id, and `getContractDrafts` is not modelled.
- The document relink of the update path is an assumption. contract.service.ts:27-30 imports `unlinkDocumentsByContractId` and `linkDocumentsToContract` from the contract-document repository. That repository's export list (src/features/contract-documents/contract-document.repository.ts:77-82) names neither of them, and no source file defines them. The model gives them their evident meaning: detach every document of the contract, then attach the listed ones. The members below state that assumed meaning, not behaviour the source defines.
- ContractRepository.ContractDb.UnlinkDocuments: the assumed meaning of the undefined `unlinkDocumentsByContractId`.
- ContractRepository.ContractDb.LinkDocuments: the assumed meaning of the undefined `linkDocumentsToContract`.
- ContractRepository.Unlinked: the assumed detach, as a function on the documents table.
- ContractRepository.Linked: the assumed attach, as a function on the documents table.
- ContractService.RelinkedDocuments: proves properties of the two assumed helpers together.
- ContractService.RelinkDocuments: runs the two assumed helpers one after the other.
- ContractService.FullUpdateDocuments: states the outcome of the assumed relink.
- ContractService.UpdateFullContract: its success state includes the assumed document relink whenever `contractDocuments` is supplied.
- ContractService.UpdateContract: its full path with `contractDocuments` includes the assumed relink. The document lookup before it uses `findContractDocumentById`, which is exported.
- The customer, company and car-model repositories are reduced to tables. Car repositories' `updateInTx` is a status write in the store.
- `uploadCars` and `buildManyCarData` (src/services/cars.service.ts:96-103) are not modelled. The per-row CSV conversion they depend on is modelled in `CarsCsv`.
- CSV parsing: the `csv-parser` stream and its collection into `results` are I/O. Only the per-row conversion is modelled.
- CarsCsv.ConvertCarRow: every row has all of its columns, because the typed row leaves no key missing. An absent cell is the empty text.
- CarsCsv.IntOrZero: reads the integer exactly, with no rounding of numbers beyond 2^53.
- Zod's default issue messages: an issue carries its schema's own message when the schema gives one, and `None` otherwise. Zod's English default texts are not written out.
- The controller-side zod stripping of `updateContractSchema` (its placeholder meeting element) is not modelled. The service's input type is modelled directly.
- The `console.error` and `console.log` calls in both error handlers and in the `.env` loader are output only.
- The `.env` loader's file read is a parameter: either the file's text or a failed read (scripts/test-cloudinary.ts:15-17 and 36-38). `process.env` is the `ProcessEnv` object's map.
- The rest of scripts/test-cloudinary.ts (upload, destroy, temporary files) is not modelled.
- Cloudinary upload, destroy and signature calls (src/shared/middlewares/cloudinary.ts:20-71 and 122-194, src/utils/cloudinary.ts) are external I/O. Only the public-id extraction is modelled.
- JsText.ContainsInsensitive: folds only the ASCII letters A-Z. Prisma's `mode: 'insensitive'` leaves the fold to the database, which also folds other letters, such as 'É' and 'é'. A keyword that differs from a name only in a non-ASCII letter's case matches in the source but not in the model.
- ContractRepository.FindAllByCompanyIdIn: the name filter uses the ASCII-only fold of `JsText.ContainsInsensitive`, not the database's `mode: 'insensitive'` (src/features/contracts/contract.repository.ts:62,65).
- ContractRepository.ListingIsExact: "case-insensitive" means the ASCII-only fold of `JsText.ContainsInsensitive`.
- CarsService.QueryOptionsSelectRequestedCars: the keyword match uses the ASCII-only fold of `JsText.ContainsInsensitive`, not `mode: 'insensitive'` (src/services/cars.service.ts:230,233).
- CarsService.ListedCarsAreRequested: "requested" uses the ASCII-only keyword fold.
- CarsService.CarStore.GetCars: selects by the ASCII-only keyword fold.
- CarsService.CarStore.GetCarModels: `groupedData` is a map, not a JavaScript object. `Object.entries` (src/services/cars.service.ts:86) lists integer-like keys such as "2" or "10" first, in numeric order, so those manufacturers are not in first-seen order in the source. A manufacturer named after an `Object.prototype` member, such as "constructor", finds a function instead of `undefined` at lines 81-84, and `push` throws. The model keeps every manufacturer in first-seen order and never throws.
- CarsService.FirstSeenIsFirstOccurrenceOrder: first-seen order holds in the source only when no manufacturer name is integer-like or the name of an `Object.prototype` member.
- The `cors` package: only the `origin` callback's decisions are modelled.
- CORS_ORIGINS is the parameter `corsOrigins`. It is read once, when the module loads.
- JWT, argon2 and the auth services and guards are left out. Only `hash` and `verify` appear, as parameters of the user services.
- The dashboard is left out. It uses floating-point growth rates, module-load month boundaries and database aggregates.
- Express wiring is left out: routers, controllers apart from the `.partial()` car update schema, multer, swagger and server start-up.
- Delete failures raised by foreign keys are not modelled. A delete always succeeds once its guards pass.
- src/features/users/user.repository.ts is not part of this model. The feature user service is modelled over the `UserRepository` tables with the legacy repository's shape.
- src/shared/middlewares/custom-error.ts and src/utils/custom-error.ts are not part of this model. The feature code's error classes are modelled by `CustomErrors` (src/middlewares/custom-error.ts).
- One error class is assumed. The application throws errors from three modules: `@/shared/middlewares/custom-error` (the feature services), `@/middlewares/custom-error` (src/services/cars.service.ts:20) and `@/utils/custom-error` (the user, admin and CSV code). Each handler's `instanceof CustomError` test recognises only its own import (src/shared/middlewares/error-handler.ts:2, src/middlewares/error-handler.ts:2). The model's single `Thrown.Custom` assumes that all three paths name one class, for instance by re-exporting it. Nothing in the source files shows this. If the classes are distinct, an error from another module fails the test and gets the 500 answer.
- ErrorHandler.CustomErrorsPassThrough: holds under the one-class assumption above. An error class from another module would get the 500 answer.
- LegacyErrorHandler.AgreesWithFeatureHandler: the agreement on application errors rests on the one-class assumption above.

## Findings

| source | as written | input that shows it | evidently intended | confidence | as-written member | corrected member |
|---|---|---|---|---|---|---|
| src/shared/middlewares/cloudinary.ts:101-107 | after the version is dropped, every leading segment that contains `,` or `_` and no `.` is shifted off as a transformation, so a folder name with an underscore is lost | any URL whose path is `/upload/v1/team4_images/test.png` gives `test`; the doc comment's own example (line 77) gives `a.b.c` | the upload folder `team4_images` (line 18) is kept: `team4_images/test`, as the doc comment (lines 76-78) and the integration test (src/tests/integration/cloudinary.test.ts:75-78) expect | not executed | Cloudinary.TestUrlLosesFolder | Cloudinary.TestUrlKeepsFolderAsIntended |
| src/features/contracts/contract.service.ts:552 | `contractRepository.delete(tx, contractId)` passes the transaction client to `delete(id: number)` (src/features/contracts/contract.repository.ts:78-82), so Prisma receives an object as `id`, refuses the query, and the transaction rolls the car's reset back | any contract that exists and belongs to the caller: the request answers 500 and the contract stays | the contract is deleted by its id, inside the transaction, and the car returns to `possession` | not executed | ContractService.DeleteContractAsWritten | ContractService.DeleteContract |
