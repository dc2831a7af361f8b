/**
 * The part of zod's parsing semantics the request schemas rely on, over a
 * JSON value. A schema either produces a value with no issue (valid), a
 * value with issues (zod's "dirty": a refinement or a check such as
 * `.positive()` failed, parsing went on), or no value ("aborted": the input
 * had the wrong type or a required key was missing). An object collects
 * the issues of all its keys, in the order the shape declares them, and is
 * aborted when one of its keys is; a refinement on an object runs only when
 * the object was not aborted.
 */
module Zod {
  import opened Wrappers
  import opened CustomErrors
  import opened JsText

  /** a parsed JSON request body; numbers are exact reals */
  datatype Json =
    | JNull
    | JBool(b: bool)
    | JNum(x: real)
    | JStr(s: string)
    | JArr(items: seq<Json>)
    | JObj(fields: map<string, Json>)

  /** zod's issue codes, as far as these schemas raise them */
  datatype IssueCode = Required | InvalidType | TooSmall | TooBig | NotInteger | InvalidString | InvalidEnum | InvalidUnion | CustomCheck

  /** one validation issue; `message` is the schema's own message when it gives one, zod's default text is not modelled */
  datatype SchemaIssue = SchemaIssue(path: seq<PathKey>, code: IssueCode, message: Option<string>)

  /** the outcome of one schema: `value` is `None` when parsing was aborted */
  datatype Outcome<+T> = Outcome(value: Option<T>, issues: seq<SchemaIssue>) {
    /** aborted outcomes always carry an issue */
    predicate Wf() {
      value.None? ==> issues != []
    }

    predicate Clean() {
      value.Some? && issues == []
    }
  }

  /** no issue of `issues` comes from a refinement */
  predicate NoCustom(issues: seq<SchemaIssue>) {
    forall k :: 0 <= k < |issues| ==> issues[k].code != CustomCheck
  }

  function Valid<T>(v: T): Outcome<T> {
    Outcome(Some(v), [])
  }

  function Abort<T>(path: seq<PathKey>, code: IssueCode, message: Option<string>): Outcome<T> {
    Outcome(None, [SchemaIssue(path, code, message)])
  }

  /** `v` is a number with no fractional part (`Number.isInteger`) */
  predicate IsInteger(x: real) {
    x.Floor as real == x
  }

  /** the key `k` of an object, `None` for `undefined` */
  function Get(fields: map<string, Json>, k: string): Option<Json> {
    if k in fields then Some(fields[k]) else None
  }

  /** a key that holds a positive whole number */
  predicate IsPositiveInt(v: Option<Json>) {
    v.Some? && v.value.JNum? && IsInteger(v.value.x) && v.value.x > 0.0
  }

  /**
   * `z.number().int().positive(...)`: both checks run and report their
   * issues; the value of a dirty outcome is never used.
   */
  function PositiveInt(v: Option<Json>, path: seq<PathKey>, message: Option<string>): (r: Outcome<int>)
    ensures r.Wf()
    ensures r.Clean() <==> IsPositiveInt(v)
    ensures r.Clean() ==> r.value.value as real == v.value.x
    ensures r.value.None? <==> !(v.Some? && v.value.JNum?)
    ensures forall k :: 0 <= k < |r.issues| ==> r.issues[k].path == path
  {
    match v
    case None => Abort(path, Required, None)
    case Some(JNum(x)) =>
      var intIssue := if IsInteger(x) then [] else [SchemaIssue(path, NotInteger, None)];
      var positiveIssue := if x > 0.0 then [] else [SchemaIssue(path, TooSmall, message)];
      Outcome(Some(x.Floor), intIssue + positiveIssue)
    case Some(_) => Abort(path, InvalidType, message)
  }

  /** a key that holds a whole number, zero or more */
  predicate IsNonNegativeInt(v: Option<Json>) {
    v.Some? && v.value.JNum? && IsInteger(v.value.x) && v.value.x >= 0.0
  }

  /** `z.number().int().nonnegative()` */
  function NonNegativeInt(v: Option<Json>, path: seq<PathKey>): (r: Outcome<int>)
    ensures r.Wf()
    ensures r.Clean() <==> IsNonNegativeInt(v)
    ensures r.Clean() ==> r.value.value as real == v.value.x
    ensures r.value.None? <==> !(v.Some? && v.value.JNum?)
  {
    match v
    case None => Abort(path, Required, None)
    case Some(JNum(x)) =>
      var intIssue := if IsInteger(x) then [] else [SchemaIssue(path, NotInteger, None)];
      var signIssue := if x >= 0.0 then [] else [SchemaIssue(path, TooSmall, None)];
      Outcome(Some(x.Floor), intIssue + signIssue)
    case Some(_) => Abort(path, InvalidType, None)
  }

  /** a key that holds a string */
  predicate IsString(v: Option<Json>) {
    v.Some? && v.value.JStr?
  }

  /** `z.string()` on a required key */
  function Str(v: Option<Json>, path: seq<PathKey>): (r: Outcome<string>)
    ensures r.Wf()
    ensures r.Clean() <==> IsString(v)
    ensures r.value.None? <==> !IsString(v)
    ensures r.Clean() ==> r.value.value == v.value.s
    ensures NoCustom(r.issues)
  {
    match v
    case None => Abort(path, Required, None)
    case Some(JStr(s)) => Valid(s)
    case Some(_) => Abort(path, InvalidType, None)
  }

  /** a key that holds a string of at least `n` UTF-16 code units */
  predicate IsLongString(v: Option<Json>, n: nat) {
    IsString(v) && Utf16Length(v.value.s) >= n
  }

  /** `z.string().min(n, message)` on a required key */
  function MinString(v: Option<Json>, path: seq<PathKey>, n: nat, message: Option<string>): (r: Outcome<string>)
    ensures r.Wf()
    ensures r.Clean() <==> IsLongString(v, n)
    ensures r.value.None? <==> !IsString(v)
    ensures r.value.Some? ==> r.value.value == v.value.s
    ensures NoCustom(r.issues)
  {
    match v
    case None => Abort(path, Required, None)
    case Some(JStr(s)) => Outcome(Some(s), if Utf16Length(s) >= n then [] else [SchemaIssue(path, TooSmall, message)])
    case Some(_) => Abort(path, InvalidType, None)
  }

  /**
   * A string check such as `.email(message)` or `.url(message)`: `ok` is
   * the format zod tests.
   */
  function FormatString(v: Option<Json>, path: seq<PathKey>, ok: string -> bool, message: Option<string>): (r: Outcome<string>)
    ensures r.Wf()
    ensures r.Clean() <==> IsString(v) && ok(v.value.s)
    ensures r.value.None? <==> !IsString(v)
    ensures r.value.Some? ==> r.value.value == v.value.s
    ensures NoCustom(r.issues)
  {
    match v
    case None => Abort(path, Required, None)
    case Some(JStr(s)) => Outcome(Some(s), if ok(s) then [] else [SchemaIssue(path, InvalidString, message)])
    case Some(_) => Abort(path, InvalidType, None)
  }

  /** `z.enum(options)` on a required key: anything else aborts */
  function EnumString(v: Option<Json>, path: seq<PathKey>, options: seq<string>): (r: Outcome<string>)
    ensures r.Wf()
    ensures r.Clean() <==> IsString(v) && v.value.s in options
    ensures r.value.None? <==> !(IsString(v) && v.value.s in options)
    ensures r.value.Some? ==> r.value.value == v.value.s
    ensures NoCustom(r.issues)
  {
    match v
    case None => Abort(path, Required, None)
    case Some(JStr(s)) => if s in options then Valid(s) else Abort(path, InvalidEnum, None)
    case Some(_) => Abort(path, InvalidType, None)
  }

  /** `.optional()`: an absent key is valid and gives `None`; a present one is parsed by `inner` */
  function Optional<T>(v: Option<Json>, inner: Outcome<T>): (r: Outcome<Option<T>>)
    requires inner.Wf()
    ensures r.Wf()
    ensures v.None? ==> r == Valid(None)
    ensures v.Some? ==> r.issues == inner.issues && (r.value.None? <==> inner.value.None?)
    ensures v.Some? && inner.value.Some? ==> r.value == Some(Some(inner.value.value))
    ensures NoCustom(inner.issues) ==> NoCustom(r.issues)
  {
    if v.None? then Valid(None)
    else Outcome(if inner.value.Some? then Some(Some(inner.value.value)) else None, inner.issues)
  }

  /** `.nullable().optional()`: absent gives `None`, `null` gives `Some(None)`, anything else is parsed by `inner` */
  function NullableOptional<T>(v: Option<Json>, inner: Outcome<T>): (r: Outcome<Option<Option<T>>>)
    requires inner.Wf()
    ensures r.Wf()
    ensures v.None? ==> r == Valid(None)
    ensures v == Some(JNull) ==> r == Valid(Some(None))
    ensures v.Some? && v != Some(JNull) ==> r.issues == inner.issues && (r.value.None? <==> inner.value.None?)
    ensures v.Some? && v != Some(JNull) && inner.value.Some? ==> r.value == Some(Some(Some(inner.value.value)))
    ensures NoCustom(inner.issues) ==> NoCustom(r.issues)
  {
    if v.None? then Valid(None)
    else if v == Some(JNull) then Valid(Some(None))
    else Outcome(if inner.value.Some? then Some(Some(Some(inner.value.value))) else None, inner.issues)
  }

  /** `.optional()` around `PositiveInt` */
  function OptionalPositiveInt(v: Option<Json>, path: seq<PathKey>): (r: Outcome<Option<int>>)
    ensures r.Wf()
    ensures r.Clean() <==> v.None? || IsPositiveInt(v)
    ensures r.Clean() ==> (r.value.value.None? <==> v.None?)
    ensures r.Clean() && v.Some? ==> r.value.value.value as real == v.value.x
    ensures r.value.None? <==> v.Some? && !v.value.JNum?
    ensures forall k :: 0 <= k < |r.issues| ==> r.issues[k].path == path
  {
    if v.None? then Valid(None)
    else
      var o := PositiveInt(v, path, None);
      Outcome(if o.value.Some? then Some(Some(o.value.value)) else None, o.issues)
  }

  /** `z.string().datetime(...)` on a required key; `isDateTime` is zod's ISO 8601 date-time pattern */
  function DateTimeString(v: Option<Json>, path: seq<PathKey>, message: string, isDateTime: string -> bool): (r: Outcome<string>)
    ensures r.Wf()
    ensures r.Clean() <==> v.Some? && v.value.JStr? && isDateTime(v.value.s)
    ensures r.Clean() ==> r.value.value == v.value.s
    ensures r.value.None? <==> !(v.Some? && v.value.JStr?)
    ensures forall k :: 0 <= k < |r.issues| ==> r.issues[k].path == path
  {
    match v
    case None => Abort(path, Required, None)
    case Some(JStr(s)) => Outcome(Some(s), if isDateTime(s) then [] else [SchemaIssue(path, InvalidString, Some(message))])
    case Some(_) => Abort(path, InvalidType, None)
  }

  /** the issues of `outs`, in order */
  function AllIssues<T>(outs: seq<Outcome<T>>): (r: seq<SchemaIssue>)
    ensures (forall k :: 0 <= k < |outs| ==> outs[k].issues == []) <==> r == []
  {
    if outs == [] then [] else AllIssues(outs[..|outs| - 1]) + outs[|outs| - 1].issues
  }

  /**
   * `z.array(element)`: each element parsed at its index. `parse(i, x)` is
   * the element schema applied to `x` at index `i`.
   */
  function ArrayOf<T>(v: Json, path: seq<PathKey>, element: (nat, Json) -> Outcome<T>): (r: Outcome<seq<T>>)
    requires v.JArr? ==> forall i :: 0 <= i < |v.items| ==> element(i, v.items[i]).Wf()
    ensures r.Wf()
    ensures r.Clean() <==> v.JArr? && forall i :: 0 <= i < |v.items| ==> element(i, v.items[i]).Clean()
    ensures r.Clean() ==> |r.value.value| == |v.items| && forall i :: 0 <= i < |v.items| ==> Some(r.value.value[i]) == element(i, v.items[i]).value
  {
    match v
    case JArr(items) =>
      var outs := seq(|items|, i requires 0 <= i < |items| => element(i, items[i]));
      var issues := AllIssues(outs);
      assert forall i :: 0 <= i < |outs| ==> outs[i] == element(i, items[i]) && outs[i].Wf();
      if forall i :: 0 <= i < |outs| ==> outs[i].value.Some? then
        Outcome(Some(seq(|outs|, i requires 0 <= i < |outs| => outs[i].value.value)), issues)
      else
        Outcome(None, issues)
    case _ => Abort(path, InvalidType, None)
  }
}
