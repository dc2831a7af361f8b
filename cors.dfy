/**
 * The CORS origin policy of src/app.ts. The list of allowed origins is read
 * once from `CORS_ORIGINS` (a comma-separated list whose entries are not
 * trimmed; unset or empty means the local front end only). A request's
 * origin is accepted when it is absent, listed, or a Vercel or Render
 * deployment host; otherwise the `cors` callback receives an error.
 * The environment variable is the parameter `corsOrigins`.
 */
module Cors {
  import opened Wrappers
  import opened JsText

  const DefaultOrigin := "http://localhost:3000"
  const VercelSuffix := ".vercel.app"
  const RenderSuffix := ".onrender.com"
  const NotAllowedMessage := "Not allowed by CORS"

  /** what the origin callback reports: `callback(null, true)` or `callback(new Error(message))` */
  datatype Verdict = Allow | Deny(message: string)

  /** `allowedOrigins`: a truthy `CORS_ORIGINS` split at every comma, else the default */
  function AllowedOrigins(corsOrigins: Option<string>): (r: seq<string>)
    ensures corsOrigins.None? || corsOrigins == Some("") ==> r == [DefaultOrigin]
    ensures corsOrigins.Some? && corsOrigins.value != "" ==>
      |r| >= 1 && forall k :: 0 <= k < |r| ==> ',' !in r[k]
  {
    if corsOrigins.Some? && corsOrigins.value != "" then Split(corsOrigins.value, ',') else [DefaultOrigin]
  }

  /** the `origin` callback of `corsOptions`, checked in the source's order */
  function CheckOrigin(allowed: seq<string>, origin: Option<string>): (r: Verdict)
    ensures r == Allow <==>
      || origin.None? || origin.value == ""
      || origin.value in allowed
      || EndsWith(origin.value, VercelSuffix)
      || EndsWith(origin.value, RenderSuffix)
    ensures r.Deny? ==> r.message == NotAllowedMessage
  {
    if origin.None? || origin.value == "" then Allow
    else if origin.value in allowed then Allow
    else if EndsWith(origin.value, VercelSuffix) then Allow
    else if EndsWith(origin.value, RenderSuffix) then Allow
    else Deny(NotAllowedMessage)
  }

  /** Without `CORS_ORIGINS`, the local front end is the one listed origin that is accepted. */
  lemma DefaultAcceptsLocalFrontEnd()
    ensures CheckOrigin(AllowedOrigins(None), Some(DefaultOrigin)) == Allow
    ensures CheckOrigin(AllowedOrigins(Some("")), Some(DefaultOrigin)) == Allow
    ensures CheckOrigin(AllowedOrigins(None), Some("http://localhost:5173")) == Deny(NotAllowedMessage)
  {
    assert !EndsWith("http://localhost:5173", VercelSuffix) by {
      assert "http://localhost:5173"[|"http://localhost:5173"| - |VercelSuffix|..] != VercelSuffix;
    }
    assert !EndsWith("http://localhost:5173", RenderSuffix) by {
      assert "http://localhost:5173"[|"http://localhost:5173"| - |RenderSuffix|..] != RenderSuffix;
    }
  }

  /** Joining the allowed origins with commas gives back the variable as it was set. */
  lemma AllowedOriginsRejoin(v: string)
    requires v != ""
    ensures Join(AllowedOrigins(Some(v)), ',') == v
  {
    JoinSplit(v, ',');
  }

  /** A comma-free list written out with commas is read back entry for entry. */
  lemma ListedOriginsReadBack(origins: seq<string>)
    requires |origins| >= 1 && forall k :: 0 <= k < |origins| ==> ',' !in origins[k]
    requires Join(origins, ',') != ""
    ensures AllowedOrigins(Some(Join(origins, ','))) == origins
  {
    SplitJoin(origins, ',');
  }

  /** Every origin written into `CORS_ORIGINS` is accepted. */
  lemma ListedOriginsAccepted(origins: seq<string>, k: nat)
    requires |origins| >= 1 && forall k :: 0 <= k < |origins| ==> ',' !in origins[k]
    requires Join(origins, ',') != "" && k < |origins|
    ensures CheckOrigin(AllowedOrigins(Some(Join(origins, ','))), Some(origins[k])) == Allow
  {
    ListedOriginsReadBack(origins);
    assert origins[k] in origins;
  }

  /** `split(',')` keeps the space after a comma as part of the next origin. */
  lemma SpaceAfterCommaIsKept(a: string, b: string)
    requires ',' !in a && ',' !in b
    ensures AllowedOrigins(Some(a + ", " + b)) == [a, " " + b]
  {
    var v := a + ", " + b;
    assert v == a + [','] + (" " + b);
    assert v != "" by { assert v[|a|] == ','; }
    SplitCons(a, ',', " " + b);
    assert ',' !in " " + b;
  }

  /**
   * Entries are not trimmed: with `CORS_ORIGINS="a, b"` the origin `b`
   * itself is refused unless it is `a` or a platform deployment host.
   */
  lemma UntrimmedEntryRefusesOrigin(a: string, b: string)
    requires ',' !in a && ',' !in b && b != "" && b != a
    requires !EndsWith(b, VercelSuffix) && !EndsWith(b, RenderSuffix)
    ensures CheckOrigin(AllowedOrigins(Some(a + ", " + b)), Some(b)) == Deny(NotAllowedMessage)
  {
    SpaceAfterCommaIsKept(a, b);
    assert b != " " + b by { assert |b| != |" " + b|; }
    assert b !in [a, " " + b];
  }

  /** Every Vercel or Render deployment host is accepted, whatever the list holds. */
  lemma DeploymentHostsAccepted(allowed: seq<string>, host: string)
    ensures CheckOrigin(allowed, Some(host + VercelSuffix)) == Allow
    ensures CheckOrigin(allowed, Some(host + RenderSuffix)) == Allow
  {
    var v := host + VercelSuffix;
    assert v[|v| - |VercelSuffix|..] == VercelSuffix;
    var w := host + RenderSuffix;
    assert w[|w| - |RenderSuffix|..] == RenderSuffix;
  }

  /** The suffix test needs the dot: the bare platform domain must be listed to be accepted. */
  lemma BareVercelDomainNeedsListing(allowed: seq<string>)
    ensures CheckOrigin(allowed, Some("https://vercel.app")) == Allow <==> "https://vercel.app" in allowed
  {
    var o := "https://vercel.app";
    assert !EndsWith(o, VercelSuffix) by { assert o[|o| - |VercelSuffix|..] != VercelSuffix; }
    assert !EndsWith(o, RenderSuffix) by { assert o[|o| - |RenderSuffix|..] != RenderSuffix; }
  }

  /** Listing more origins never refuses an origin that was accepted. */
  lemma MoreOriginsAcceptMore(allowed: seq<string>, more: seq<string>, origin: Option<string>)
    requires forall o :: o in allowed ==> o in more
    requires CheckOrigin(allowed, origin) == Allow
    ensures CheckOrigin(more, origin) == Allow
  {
  }
}
