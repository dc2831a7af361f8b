/**
 * The request schemas of the user feature (src/features/users/user.schema.ts):
 * `signupSchema` and `updateMeSchema` with their password refinements. The
 * legacy schemas of src/types/user.schema.ts have the same shape with other
 * messages and a stricter `imageUrl`; both are instances of the generic
 * parsers here, parameterised by their texts and rules.
 */
module UserSchema {
  import opened Wrappers
  import opened JsText
  import opened CustomErrors
  import opened Zod

  datatype SignupInput = SignupInput(
    name: string,
    email: string,
    employeeNumber: string,
    phoneNumber: Option<string>,
    password: string,
    passwordConfirmation: string,
    companyName: string,
    companyCode: string)

  /** `imageUrl`: `None` when absent, `Some(None)` for an explicit `null` */
  datatype UpdateMeInput = UpdateMeInput(
    employeeNumber: Option<string>,
    phoneNumber: Option<string>,
    currentPassword: Option<string>,
    password: Option<string>,
    passwordConfirmation: Option<string>,
    imageUrl: Option<Option<string>>)

  /** the messages of the signup schema's checks, key by key, and of its refinement */
  datatype SignupTexts = SignupTexts(
    name: string,
    email: string,
    employeeNumber: string,
    password: string,
    passwordConfirmation: string,
    companyName: string,
    companyCode: string)

  /** what tells the two `updateMeSchema`s apart */
  datatype UpdateRules = UpdateRules(passwordMessage: string, imageUrlMessage: Option<string>, imageNullable: bool)

  const MismatchMessage := "비밀번호와 비밀번호 확인이 일치하지 않습니다"
  const CurrentPasswordRequiredMessage := "현재 비밀번호가 필요합니다"
  const PasswordMinLength: nat := 8

  const SignupMessages := SignupTexts(
    "이름을 입력해주세요",
    "올바른 이메일 형식이 아닙니다",
    "사원번호를 입력해주세요",
    "비밀번호는 최소 8자 이상이어야 합니다",
    "비밀번호 확인을 입력해주세요",
    "회사명을 입력해주세요",
    "기업 인증코드를 입력해주세요")

  const UpdateMeRules := UpdateRules("비밀번호는 최소 8자 이상이어야 합니다", Some("올바른 URL 형식이 아닙니다"), true)

  /** JavaScript truthiness of an optional string: present and non-empty */
  predicate Given(s: Option<string>) {
    s.Some? && s.value != ""
  }

  function Text(f: map<string, Json>, k: string): string {
    if k in f && f[k].JStr? then f[k].s else ""
  }

  function OptionalText(f: map<string, Json>, k: string): Option<string> {
    if k in f && f[k].JStr? then Some(f[k].s) else None
  }

  const MismatchIssue := SchemaIssue([Key("passwordConfirmation")], CustomCheck, Some(MismatchMessage))
  const CurrentPasswordIssue := SchemaIssue([Key("currentPassword")], CustomCheck, Some(CurrentPasswordRequiredMessage))

  // ---------------------------------------------------------------- signup

  predicate OptionalString(v: Option<Json>) {
    v.None? || IsString(v)
  }

  /** every key of the signup shape has its type: the object is not aborted and the refinement runs */
  predicate SignupTyped(f: map<string, Json>) {
    && IsString(Get(f, "name")) && IsString(Get(f, "email")) && IsString(Get(f, "employeeNumber"))
    && OptionalString(Get(f, "phoneNumber")) && IsString(Get(f, "password"))
    && IsString(Get(f, "passwordConfirmation")) && IsString(Get(f, "companyName")) && IsString(Get(f, "companyCode"))
  }

  /** every key of the signup shape passes its own checks */
  predicate SignupKeysAccepted(f: map<string, Json>, isEmail: string -> bool) {
    && IsLongString(Get(f, "name"), 1)
    && IsString(Get(f, "email")) && isEmail(f["email"].s)
    && IsLongString(Get(f, "employeeNumber"), 1)
    && OptionalString(Get(f, "phoneNumber"))
    && IsLongString(Get(f, "password"), PasswordMinLength)
    && IsLongString(Get(f, "passwordConfirmation"), 1)
    && IsLongString(Get(f, "companyName"), 1)
    && IsLongString(Get(f, "companyCode"), 1)
  }

  /** what `signupSchema` accepts; `isEmail` is zod's e-mail pattern */
  predicate SignupAccepted(f: map<string, Json>, isEmail: string -> bool) {
    SignupKeysAccepted(f, isEmail) && f["password"].s == f["passwordConfirmation"].s
  }

  /** the issues of a required string key with a minimum length */
  function LongKey(f: map<string, Json>, k: string, n: nat, message: string): (r: seq<SchemaIssue>)
    ensures r == [] <==> IsLongString(Get(f, k), n)
    ensures !IsString(Get(f, k)) ==> r != []
    ensures NoCustom(r)
  {
    MinString(Get(f, k), [Key(k)], n, Some(message)).issues
  }

  /** the issues of an optional string key */
  function OptionalKey(f: map<string, Json>, k: string): (r: seq<SchemaIssue>)
    ensures r == [] <==> OptionalString(Get(f, k))
    ensures NoCustom(r)
  {
    Optional(Get(f, k), Str(Get(f, k), [Key(k)])).issues
  }

  /** the issues of the `email` key */
  function EmailKey(f: map<string, Json>, isEmail: string -> bool, message: string): (r: seq<SchemaIssue>)
    ensures r == [] <==> IsString(Get(f, "email")) && isEmail(f["email"].s)
    ensures !IsString(Get(f, "email")) ==> r != []
    ensures NoCustom(r)
  {
    FormatString(Get(f, "email"), [Key("email")], isEmail, Some(message)).issues
  }

  lemma NoCustomAppend(a: seq<SchemaIssue>, b: seq<SchemaIssue>)
    requires NoCustom(a) && NoCustom(b)
    ensures NoCustom(a + b)
  {
    forall k | 0 <= k < |a + b| ensures (a + b)[k].code != CustomCheck {
      if k >= |a| {
        assert (a + b)[k] == b[k - |a|];
      }
    }
  }

  /** the issues of the first four keys of the signup shape */
  function SignupHeadIssues(f: map<string, Json>, isEmail: string -> bool, m: SignupTexts): (r: seq<SchemaIssue>)
    ensures r == [] <==>
      (&& IsLongString(Get(f, "name"), 1)
       && IsString(Get(f, "email")) && isEmail(f["email"].s)
       && IsLongString(Get(f, "employeeNumber"), 1)
       && OptionalString(Get(f, "phoneNumber")))
    ensures !(IsString(Get(f, "name")) && IsString(Get(f, "email")) && IsString(Get(f, "employeeNumber")) && OptionalString(Get(f, "phoneNumber"))) ==> r != []
    ensures NoCustom(r)
  {
    var a := LongKey(f, "name", 1, m.name);
    var b := EmailKey(f, isEmail, m.email);
    var c := LongKey(f, "employeeNumber", 1, m.employeeNumber);
    var d := OptionalKey(f, "phoneNumber");
    NoCustomAppend(a, b);
    NoCustomAppend(a + b, c);
    NoCustomAppend(a + b + c, d);
    a + b + c + d
  }

  /** the issues of the last four keys of the signup shape */
  function SignupTailIssues(f: map<string, Json>, m: SignupTexts): (r: seq<SchemaIssue>)
    ensures r == [] <==>
      (&& IsLongString(Get(f, "password"), PasswordMinLength)
       && IsLongString(Get(f, "passwordConfirmation"), 1)
       && IsLongString(Get(f, "companyName"), 1)
       && IsLongString(Get(f, "companyCode"), 1))
    ensures !(IsString(Get(f, "password")) && IsString(Get(f, "passwordConfirmation")) && IsString(Get(f, "companyName")) && IsString(Get(f, "companyCode"))) ==> r != []
    ensures NoCustom(r)
  {
    var a := LongKey(f, "password", PasswordMinLength, m.password);
    var b := LongKey(f, "passwordConfirmation", 1, m.passwordConfirmation);
    var c := LongKey(f, "companyName", 1, m.companyName);
    var d := LongKey(f, "companyCode", 1, m.companyCode);
    NoCustomAppend(a, b);
    NoCustomAppend(a + b, c);
    NoCustomAppend(a + b + c, d);
    a + b + c + d
  }

  /** the issues of the signup shape's keys, in shape order */
  function SignupKeyIssues(f: map<string, Json>, isEmail: string -> bool, m: SignupTexts): (r: seq<SchemaIssue>)
    ensures r == [] <==> SignupKeysAccepted(f, isEmail)
    ensures !SignupTyped(f) ==> r != []
    ensures NoCustom(r)
  {
    var head := SignupHeadIssues(f, isEmail, m);
    var tail := SignupTailIssues(f, m);
    NoCustomAppend(head, tail);
    head + tail
  }

  /** the refinement's issue: `password === passwordConfirmation`, reported at `passwordConfirmation` */
  function SignupRefineIssues(f: map<string, Json>): seq<SchemaIssue> {
    if Text(f, "password") == Text(f, "passwordConfirmation") then [] else [MismatchIssue]
  }

  function SignupOf(f: map<string, Json>): SignupInput {
    SignupInput(Text(f, "name"), Text(f, "email"), Text(f, "employeeNumber"), OptionalText(f, "phoneNumber"),
                Text(f, "password"), Text(f, "passwordConfirmation"), Text(f, "companyName"), Text(f, "companyCode"))
  }

  /**
   * `signupSchema.parse(body)` with the messages `m`: the keys' issues in
   * shape order, then the refinement's when no key was aborted.
   */
  function ParseSignupWith(body: Json, isEmail: string -> bool, m: SignupTexts): (r: Result<SignupInput, seq<SchemaIssue>>)
    ensures r.Success? <==> body.JObj? && SignupAccepted(body.fields, isEmail)
    ensures r.Success? ==> r.value == SignupOf(body.fields)
    ensures r.Success? ==> Utf16Length(r.value.password) >= PasswordMinLength && r.value.password == r.value.passwordConfirmation
    ensures r.Failure? ==> r.error != []
  {
    match body
    case JObj(f) =>
      var keyIssues := SignupKeyIssues(f, isEmail, m);
      var issues := if SignupTyped(f) then keyIssues + SignupRefineIssues(f) else keyIssues;
      if issues == [] then Success(SignupOf(f)) else Failure(issues)
    case _ => Failure([SchemaIssue([], InvalidType, None)])
  }

  function ParseSignup(body: Json, isEmail: string -> bool): (r: Result<SignupInput, seq<SchemaIssue>>)
    ensures r.Success? <==> body.JObj? && SignupAccepted(body.fields, isEmail)
  {
    ParseSignupWith(body, isEmail, SignupMessages)
  }

  /** With every key well typed, differing passwords end the issue list with the refinement's issue. */
  lemma SignupMismatchReported(f: map<string, Json>, isEmail: string -> bool, m: SignupTexts)
    requires SignupTyped(f) && f["password"].s != f["passwordConfirmation"].s
    ensures var r := ParseSignupWith(JObj(f), isEmail, m);
            r.Failure? && r.error[|r.error| - 1] == MismatchIssue
  {
  }

  /** When a key is aborted the refinement does not run: no issue of the failure is the mismatch. */
  lemma SignupRefineSkippedWhenAborted(f: map<string, Json>, isEmail: string -> bool, m: SignupTexts)
    requires !SignupTyped(f)
    ensures var r := ParseSignupWith(JObj(f), isEmail, m);
            r.Failure? && NoCustom(r.error)
  {
  }

  // --------------------------------------------------------------- updateMe

  /** the `imageUrl` key: a URL, omitted, or (where nullable) `null` */
  function ImageUrl(v: Option<Json>, isUrl: string -> bool, rules: UpdateRules): (r: Outcome<Option<Option<string>>>)
    ensures r.Wf()
    ensures r.Clean() <==> v.None? || (rules.imageNullable && v == Some(JNull)) || (IsString(v) && isUrl(v.value.s))
    ensures r.value.None? <==> v.Some? && !IsString(v) && !(rules.imageNullable && v == Some(JNull))
    ensures r.value.Some? && r.value.value == Some(None) ==> rules.imageNullable && v == Some(JNull)
    ensures r.value.Some? && IsString(v) ==> r.value.value == Some(Some(v.value.s))
    ensures v.None? ==> r.value == Some(None)
  {
    var url := FormatString(v, [Key("imageUrl")], isUrl, rules.imageUrlMessage);
    if rules.imageNullable then NullableOptional(v, url)
    else
      var o := Optional(v, url);
      Outcome(if o.value.Some? then Some(if o.value.value.Some? then Some(Some(o.value.value.value)) else None) else None, o.issues)
  }

  /** the optional keys other than `password` and `imageUrl` hold strings */
  predicate UpdatePlainTyped(f: map<string, Json>) {
    && OptionalString(Get(f, "employeeNumber")) && OptionalString(Get(f, "phoneNumber"))
    && OptionalString(Get(f, "currentPassword")) && OptionalString(Get(f, "passwordConfirmation"))
  }

  predicate ImageTyped(v: Option<Json>, rules: UpdateRules) {
    v.None? || IsString(v) || (rules.imageNullable && v == Some(JNull))
  }

  /** no key of the updateMe shape is aborted: the refinements run */
  predicate UpdateTyped(f: map<string, Json>, rules: UpdateRules) {
    UpdatePlainTyped(f) && OptionalString(Get(f, "password")) && ImageTyped(Get(f, "imageUrl"), rules)
  }

  /** the first refinement: a given password needs a confirmation equal to it */
  predicate ConfirmationOk(password: Option<string>, confirmation: Option<string>) {
    Given(password) ==> confirmation == password
  }

  /** the second refinement: a given password needs the current password */
  predicate CurrentPasswordOk(password: Option<string>, current: Option<string>) {
    Given(password) ==> Given(current)
  }

  predicate UpdateKeysAccepted(f: map<string, Json>, isUrl: string -> bool, rules: UpdateRules) {
    && UpdatePlainTyped(f)
    && (Get(f, "password").None? || IsLongString(Get(f, "password"), PasswordMinLength))
    && ImageUrl(Get(f, "imageUrl"), isUrl, rules).Clean()
  }

  /** what `updateMeSchema` accepts */
  predicate UpdateAccepted(f: map<string, Json>, isUrl: string -> bool, rules: UpdateRules) {
    && UpdateKeysAccepted(f, isUrl, rules)
    && ConfirmationOk(OptionalText(f, "password"), OptionalText(f, "passwordConfirmation"))
    && CurrentPasswordOk(OptionalText(f, "password"), OptionalText(f, "currentPassword"))
  }

  function OptionalStringAt(f: map<string, Json>, k: string): (r: Outcome<Option<string>>)
    ensures r.Wf()
    ensures r.issues == [] <==> OptionalString(Get(f, k))
    ensures r.value.None? <==> !OptionalString(Get(f, k))
  {
    Optional(Get(f, k), Str(Get(f, k), [Key(k)]))
  }

  function PasswordAt(f: map<string, Json>, rules: UpdateRules): (r: Outcome<Option<string>>)
    ensures r.Wf()
    ensures r.issues == [] <==> Get(f, "password").None? || IsLongString(Get(f, "password"), PasswordMinLength)
    ensures r.value.None? <==> !OptionalString(Get(f, "password"))
  {
    var v := Get(f, "password");
    Optional(v, MinString(v, [Key("password")], PasswordMinLength, Some(rules.passwordMessage)))
  }

  /** the keys' issues in shape order */
  function UpdateKeyIssues(f: map<string, Json>, isUrl: string -> bool, rules: UpdateRules): (r: seq<SchemaIssue>)
    ensures r == [] <==> UpdateKeysAccepted(f, isUrl, rules)
    ensures !UpdateTyped(f, rules) ==> r != []
    ensures NoCustom(r)
  {
    OptionalStringAt(f, "employeeNumber").issues
    + OptionalStringAt(f, "phoneNumber").issues
    + OptionalStringAt(f, "currentPassword").issues
    + PasswordAt(f, rules).issues
    + OptionalStringAt(f, "passwordConfirmation").issues
    + ImageUrl(Get(f, "imageUrl"), isUrl, rules).issues
  }

  /** both refinements run, in order, on an object that was not aborted */
  function UpdateRefineIssues(f: map<string, Json>): (r: seq<SchemaIssue>)
    ensures r == [] <==>
      (ConfirmationOk(OptionalText(f, "password"), OptionalText(f, "passwordConfirmation"))
       && CurrentPasswordOk(OptionalText(f, "password"), OptionalText(f, "currentPassword")))
  {
    var password := OptionalText(f, "password");
    (if ConfirmationOk(password, OptionalText(f, "passwordConfirmation")) then [] else [MismatchIssue])
    + (if CurrentPasswordOk(password, OptionalText(f, "currentPassword")) then [] else [CurrentPasswordIssue])
  }

  function ImageOf(v: Option<Json>): Option<Option<string>> {
    if v.None? then None else if v.value.JStr? then Some(Some(v.value.s)) else Some(None)
  }

  function UpdateOf(f: map<string, Json>): UpdateMeInput {
    UpdateMeInput(OptionalText(f, "employeeNumber"), OptionalText(f, "phoneNumber"), OptionalText(f, "currentPassword"),
                  OptionalText(f, "password"), OptionalText(f, "passwordConfirmation"), ImageOf(Get(f, "imageUrl")))
  }

  /** `updateMeSchema.parse(body)` under `rules` */
  function ParseUpdateMeWith(body: Json, isUrl: string -> bool, rules: UpdateRules): (r: Result<UpdateMeInput, seq<SchemaIssue>>)
    ensures r.Success? <==> body.JObj? && UpdateAccepted(body.fields, isUrl, rules)
    ensures r.Success? ==> r.value == UpdateOf(body.fields)
    ensures r.Success? ==> ConfirmationOk(r.value.password, r.value.passwordConfirmation)
    ensures r.Success? ==> CurrentPasswordOk(r.value.password, r.value.currentPassword)
    ensures r.Success? && r.value.imageUrl == Some(None) ==> rules.imageNullable
    ensures r.Failure? ==> r.error != []
  {
    match body
    case JObj(f) =>
      var keyIssues := UpdateKeyIssues(f, isUrl, rules);
      var issues := if UpdateTyped(f, rules) then keyIssues + UpdateRefineIssues(f) else keyIssues;
      if issues == [] then Success(UpdateOf(f)) else Failure(issues)
    case _ => Failure([SchemaIssue([], InvalidType, None)])
  }

  function ParseUpdateMe(body: Json, isUrl: string -> bool): (r: Result<UpdateMeInput, seq<SchemaIssue>>)
    ensures r.Success? <==> body.JObj? && UpdateAccepted(body.fields, isUrl, UpdateMeRules)
  {
    ParseUpdateMeWith(body, isUrl, UpdateMeRules)
  }

  /**
   * A well-typed body with a new password and neither a confirmation nor
   * the current password gets both refinement issues, in order.
   */
  lemma BareNewPasswordGetsBothIssues(f: map<string, Json>, isUrl: string -> bool, rules: UpdateRules)
    requires UpdateTyped(f, rules) && IsString(Get(f, "password")) && f["password"].s != ""
    requires Get(f, "passwordConfirmation").None? && Get(f, "currentPassword").None?
    ensures var r := ParseUpdateMeWith(JObj(f), isUrl, rules);
            r.Failure? && r.error[|r.error| - 2..] == [MismatchIssue, CurrentPasswordIssue]
  {
  }

  /** Without a new password the refinements accept anything, whatever the other keys say. */
  lemma NoNewPasswordNoRefinement(f: map<string, Json>, isUrl: string -> bool, rules: UpdateRules)
    requires !Given(OptionalText(f, "password"))
    ensures UpdateRefineIssues(f) == []
  {
  }

  /** The feature schema takes `null` for the image and hands it on as an explicit null. */
  lemma NullImageAccepted(isUrl: string -> bool)
    ensures ParseUpdateMe(JObj(map["imageUrl" := JNull]), isUrl) == Success(UpdateMeInput(None, None, None, None, None, Some(None)))
  {
    var f := map["imageUrl" := JNull];
    assert UpdateKeyIssues(f, isUrl, UpdateMeRules) == [];
  }
}
