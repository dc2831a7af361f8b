/**
 * The legacy request schemas of src/types/user.schema.ts: the same shapes
 * and refinements as the feature schemas, with English messages for the
 * key checks, and an `imageUrl` that must be a URL when present (`null` is
 * refused).
 */
module LegacyUserSchema {
  import opened Wrappers
  import opened CustomErrors
  import opened Zod
  import opened UserSchema

  const LegacySignupMessages := SignupTexts(
    "Name is required",
    "Invalid email format",
    "Employee number is required",
    "Password must be at least 8 characters",
    "Password confirmation is required",
    "Company is required",
    "Company code is required")

  /** the URL check carries zod's default message, which is not modelled */
  const LegacyUpdateRules := UpdateRules("Password must be at least 8 characters", None, false)

  function ParseLegacySignup(body: Json, isEmail: string -> bool): (r: Result<SignupInput, seq<SchemaIssue>>)
    ensures r.Success? <==> body.JObj? && SignupAccepted(body.fields, isEmail)
  {
    ParseSignupWith(body, isEmail, LegacySignupMessages)
  }

  function ParseLegacyUpdateMe(body: Json, isUrl: string -> bool): (r: Result<UpdateMeInput, seq<SchemaIssue>>)
    ensures r.Success? <==> body.JObj? && UpdateAccepted(body.fields, isUrl, LegacyUpdateRules)
    ensures r.Success? ==> r.value.imageUrl != Some(None)
  {
    ParseUpdateMeWith(body, isUrl, LegacyUpdateRules)
  }

  /** The legacy signup schema accepts exactly the bodies the feature one does, with the same result. */
  lemma SignupAgreesWithFeature(body: Json, isEmail: string -> bool)
    ensures ParseLegacySignup(body, isEmail).Success? <==> ParseSignup(body, isEmail).Success?
    ensures ParseLegacySignup(body, isEmail).Success? ==> ParseLegacySignup(body, isEmail) == ParseSignup(body, isEmail)
  {
  }

  /** Where the feature schema takes a `null` image, the legacy one reports a type issue at `imageUrl`. */
  lemma NullImageRejected(isUrl: string -> bool)
    ensures ParseLegacyUpdateMe(JObj(map["imageUrl" := JNull]), isUrl) == Failure([SchemaIssue([Key("imageUrl")], InvalidType, None)])
  {
    var f := map["imageUrl" := JNull];
    assert !UpdateTyped(f, LegacyUpdateRules);
    assert UpdateKeyIssues(f, isUrl, LegacyUpdateRules) == ImageUrl(Get(f, "imageUrl"), isUrl, LegacyUpdateRules).issues;
  }

  /**
   * On a body without `imageUrl: null`, the two updateMe schemas accept the
   * same bodies when the URL check is the same.
   */
  lemma UpdateAgreesWithFeatureWithoutNull(body: Json, isUrl: string -> bool)
    requires body.JObj? ==> Get(body.fields, "imageUrl") != Some(JNull)
    ensures ParseLegacyUpdateMe(body, isUrl).Success? <==> ParseUpdateMe(body, isUrl).Success?
  {
  }
}
