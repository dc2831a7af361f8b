/**
 * The per-row conversion of the customer CSV upload
 * (src/shared/middlewares/customer-csv-parser.ts). A row is what the CSV
 * reader yields: one string per header. Its `ageGroup` is turned into a
 * decade label (`"20-29"` becomes `"20대"`), the row is checked against the
 * customer creation schema, and seven fields are kept. Reading the file is
 * not modelled; a request without a file is refused.
 */
module CustomerCsv {
  import opened Wrappers
  import opened JsText
  import opened CustomErrors
  import opened Zod
  import opened Seqs

  type CsvRow = map<string, string>

  const NoFileMessage := "파일이 없습니다."
  const Decade := "대"

  const AgeGroups := ["10대", "20대", "30대", "40대", "50대", "60대", "70대", "80대"]
  const Genders := ["male", "female"]
  const Regions := ["서울", "경기", "인천", "강원", "충북", "충남", "세종", "대전", "전북",
                    "전남", "광주", "경북", "경남", "대구", "울산", "부산", "제주"]

  /** `ageGroup.split('-')[0]` */
  function AgeStart(ageGroup: string): (r: string)
    ensures '-' !in r
  {
    Split(ageGroup, '-')[0]
  }

  /** the decade label, or `''` when the text before the first `-` is not a run of digits */
  function NormalizeAgeGroup(ageGroup: string): (r: string)
    ensures r != "" <==> AllDigits(AgeStart(ageGroup))
    ensures r != "" ==> r == AgeStart(ageGroup) + Decade
  {
    var start := AgeStart(ageGroup);
    if start != "" && AllDigits(start) then start + Decade else ""
  }

  /** The text before the first `-` is what is read, whatever follows it. */
  lemma AgeStartOfRange(start: string, rest: string)
    requires '-' !in start
    ensures AgeStart(start + "-" + rest) == start
  {
    SplitCons(start, '-', rest);
  }

  /** A range `"<d>0-..."` with d from 1 to 8 becomes one of the schema's labels. */
  lemma RangeBecomesLabel(d: nat, rest: string)
    requires 1 <= d <= 8
    ensures NormalizeAgeGroup(NatToString(10 * d) + "-" + rest) == AgeGroups[d - 1]
  {
    var start := NatToString(10 * d);
    assert start == [DigitChar(d), '0'] by {
      assert NatToString(10 * d) == NatToString(d) + [DigitChar(0)];
    }
    AgeStartOfRange(start, rest);
    assert AllDigits(start);
  }

  /** `NormalizeAgeGroup` is not idempotent: a label already in the schema's form is turned into `''`. */
  lemma LabelIsNotReread(d: nat)
    requires 1 <= d <= 8
    ensures NormalizeAgeGroup(AgeGroups[d - 1]) == ""
  {
    var g := AgeGroups[d - 1];
    assert '-' !in g;
    assert Split(g, '-') == [g];
    assert !IsAsciiDigit(g[2]);
  }

  /** the row as the schema sees it: every value a JSON string */
  function AsJson(row: CsvRow): map<string, Json> {
    map k | k in row :: JStr(row[k])
  }

  /** what `createCustomerSchema.parse` returns */
  datatype CustomerInput = CustomerInput(
    name: string,
    gender: string,
    phoneNumber: string,
    ageGroup: string,
    region: string,
    email: Option<string>,
    memo: Option<string>)

  predicate OptionalEmail(v: Option<Json>, isEmail: string -> bool) {
    v.None? || (IsString(v) && isEmail(v.value.s))
  }

  predicate OptionalText(v: Option<Json>) {
    v.None? || IsString(v)
  }

  /** what `createCustomerSchema` accepts; `isEmail` is zod's e-mail pattern */
  predicate CustomerAccepted(f: map<string, Json>, isEmail: string -> bool) {
    && IsLongString(Get(f, "name"), 1)
    && IsString(Get(f, "gender")) && f["gender"].s in Genders
    && IsLongString(Get(f, "phoneNumber"), 1)
    && IsString(Get(f, "ageGroup")) && f["ageGroup"].s in AgeGroups
    && IsString(Get(f, "region")) && f["region"].s in Regions
    && OptionalEmail(Get(f, "email"), isEmail)
    && OptionalText(Get(f, "memo"))
  }

  function HeadIssues(f: map<string, Json>): (r: seq<SchemaIssue>)
    ensures r == [] <==>
      (&& IsLongString(Get(f, "name"), 1)
       && IsString(Get(f, "gender")) && f["gender"].s in Genders
       && IsLongString(Get(f, "phoneNumber"), 1))
  {
    MinString(Get(f, "name"), [Key("name")], 1, Some("이름을 입력해주세요")).issues
    + EnumString(Get(f, "gender"), [Key("gender")], Genders).issues
    + MinString(Get(f, "phoneNumber"), [Key("phoneNumber")], 1, Some("전화번호를 입력해주세요")).issues
  }

  function TailIssues(f: map<string, Json>, isEmail: string -> bool): (r: seq<SchemaIssue>)
    ensures r == [] <==>
      (&& IsString(Get(f, "ageGroup")) && f["ageGroup"].s in AgeGroups
       && IsString(Get(f, "region")) && f["region"].s in Regions
       && OptionalEmail(Get(f, "email"), isEmail)
       && OptionalText(Get(f, "memo")))
    ensures !(IsString(Get(f, "ageGroup")) && f["ageGroup"].s in AgeGroups) ==>
      |r| > 0 && r[0] == SchemaIssue([Key("ageGroup")], if IsString(Get(f, "ageGroup")) then InvalidEnum else if "ageGroup" in f then InvalidType else Required, None)
  {
    var email := Get(f, "email");
    var memo := Get(f, "memo");
    EnumString(Get(f, "ageGroup"), [Key("ageGroup")], AgeGroups).issues
    + EnumString(Get(f, "region"), [Key("region")], Regions).issues
    + Optional(email, FormatString(email, [Key("email")], isEmail, Some("올바른 이메일 형식이 아닙니다"))).issues
    + Optional(memo, Str(memo, [Key("memo")])).issues
  }

  function TextOf(f: map<string, Json>, k: string): string {
    if k in f && f[k].JStr? then f[k].s else ""
  }

  function OptionalTextOf(f: map<string, Json>, k: string): Option<string> {
    if k in f && f[k].JStr? then Some(f[k].s) else None
  }

  /** `createCustomerSchema.parse`: the keys' issues in shape order */
  function ParseCustomer(f: map<string, Json>, isEmail: string -> bool): (r: Result<CustomerInput, seq<SchemaIssue>>)
    ensures r.Success? <==> CustomerAccepted(f, isEmail)
    ensures r.Failure? ==> r.error != []
    ensures r.Success? ==> r.value == CustomerInput(f["name"].s, f["gender"].s, f["phoneNumber"].s, f["ageGroup"].s,
                                                    f["region"].s, OptionalTextOf(f, "email"), OptionalTextOf(f, "memo"))
  {
    var issues := HeadIssues(f) + TailIssues(f, isEmail);
    if issues == [] then
      Success(CustomerInput(TextOf(f, "name"), TextOf(f, "gender"), TextOf(f, "phoneNumber"), TextOf(f, "ageGroup"),
                            TextOf(f, "region"), OptionalTextOf(f, "email"), OptionalTextOf(f, "memo")))
    else Failure(issues)
  }

  /** why a row stops the upload: no `ageGroup` column (`split` of undefined throws), or the schema refused it */
  datatype RowError = AgeGroupMissing | Rejected(issues: seq<SchemaIssue>)

  /** the row with its age group rewritten */
  function Normalized(row: CsvRow): CsvRow
    requires "ageGroup" in row
  {
    row["ageGroup" := NormalizeAgeGroup(row["ageGroup"])]
  }

  /** one row of the `map`: normalise the age group, parse, keep seven fields */
  function ConvertRow(row: CsvRow, isEmail: string -> bool): (r: Result<CustomerInput, RowError>)
    ensures "ageGroup" !in row ==> r == Failure(AgeGroupMissing)
    ensures "ageGroup" in row ==> (r.Success? <==> CustomerAccepted(AsJson(Normalized(row)), isEmail))
  {
    if "ageGroup" !in row then Failure(AgeGroupMissing)
    else
      match ParseCustomer(AsJson(Normalized(row)), isEmail)
      case Success(c) => Success(c)
      case Failure(issues) => Failure(Rejected(issues))
  }

  /**
   * A converted row holds the row's own texts, its age group normalised to
   * one of the schema's labels, and `email` and `memo` exactly when the row
   * has those columns.
   */
  lemma ConvertedRowKeepsFields(row: CsvRow, isEmail: string -> bool)
    requires ConvertRow(row, isEmail).Success?
    ensures var c := ConvertRow(row, isEmail).value;
      && c.ageGroup == NormalizeAgeGroup(row["ageGroup"]) && c.ageGroup in AgeGroups
      && c.name == row["name"] && c.gender == row["gender"] && c.phoneNumber == row["phoneNumber"]
      && c.region == row["region"]
      && (c.email.Some? <==> "email" in row) && (c.email.Some? ==> c.email.value == row["email"])
      && (c.memo.Some? <==> "memo" in row) && (c.memo.Some? ==> c.memo.value == row["memo"])
  {
    var n := Normalized(row);
    var f := AsJson(n);
    assert CustomerAccepted(f, isEmail);
    assert "email" in f <==> "email" in row;
    assert "memo" in f <==> "memo" in row;
  }

  /**
   * An age group whose text before the first `-` is not a run of digits
   * is refused, and the first issue is the age group's.
   */
  lemma NonNumericAgeGroupRejected(row: CsvRow, isEmail: string -> bool)
    requires "ageGroup" in row && !AllDigits(AgeStart(row["ageGroup"]))
    requires IsLongString(Get(AsJson(row), "name"), 1) && "gender" in row && row["gender"] in Genders
    requires IsLongString(Get(AsJson(row), "phoneNumber"), 1)
    ensures ConvertRow(row, isEmail) == Failure(Rejected(TailIssues(AsJson(Normalized(row)), isEmail)))
    ensures TailIssues(AsJson(Normalized(row)), isEmail)[0] == SchemaIssue([Key("ageGroup")], InvalidEnum, None)
  {
    var n := Normalized(row);
    var f := AsJson(n);
    assert n["ageGroup"] == "";
    assert Get(f, "ageGroup") == Some(JStr(""));
    assert "" !in AgeGroups;
    assert n["name"] == row["name"] && n["gender"] == row["gender"] && n["phoneNumber"] == row["phoneNumber"];
    assert Get(f, "name") == Get(AsJson(row), "name") && Get(f, "phoneNumber") == Get(AsJson(row), "phoneNumber");
    assert Get(f, "gender") == Some(JStr(row["gender"]));
    assert HeadIssues(f) == [];
    var tail := TailIssues(f, isEmail);
    assert tail != [] && HeadIssues(f) + tail == tail;
    assert ParseCustomer(f, isEmail) == Failure(tail);
  }

  /** `rawData.map(...)`: every row converted in order, or the error of the first row that fails */
  function ConvertRows(rows: seq<CsvRow>, isEmail: string -> bool): (r: Result<seq<CustomerInput>, RowError>)
    ensures r.Success? <==> forall k :: 0 <= k < |rows| ==> ConvertRow(rows[k], isEmail).Success?
    ensures r.Success? ==> |r.value| == |rows| && forall k :: 0 <= k < |rows| ==> ConvertRow(rows[k], isEmail) == Success(r.value[k])
    ensures r.Failure? ==> exists k :: 0 <= k < |rows| && ConvertRow(rows[k], isEmail) == Failure(r.error)
                                       && forall j :: 0 <= j < k ==> ConvertRow(rows[j], isEmail).Success?
  {
    MapOrThrow(rows, (row: CsvRow) => ConvertRow(row, isEmail))
  }

  /** what the middleware stores for the next handler, or what it passes on as an error */
  datatype UploadError = NoFile(error: CustomError) | RowFailed(cause: RowError)

  /** `customerCsvParser`: `file` is the uploaded file's rows, `None` when no file was sent */
  function ParseCustomerCsv(file: Option<seq<CsvRow>>, isEmail: string -> bool): (r: Result<seq<CustomerInput>, UploadError>)
    ensures file.None? ==> r == Failure(NoFile(New(BadRequest, Some(NoFileMessage))))
    ensures file.Some? ==> (r.Success? <==> ConvertRows(file.value, isEmail).Success?)
    ensures file.Some? && r.Success? ==> r.value == ConvertRows(file.value, isEmail).value && |r.value| == |file.value|
    ensures file.Some? && r.Failure? ==> r.error == RowFailed(ConvertRows(file.value, isEmail).error)
  {
    match file
    case None => Failure(NoFile(New(BadRequest, Some(NoFileMessage))))
    case Some(rows) =>
      match ConvertRows(rows, isEmail)
      case Success(cs) => Success(cs)
      case Failure(e) => Failure(RowFailed(e))
  }
}
