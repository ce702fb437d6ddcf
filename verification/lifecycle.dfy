/**
 * What a provider operation can observe and produce. The dispatcher that
 * calls `validate`, `create`, `update` and `delete` lives in a library that is
 * not part of this model; here each operation is a function from the
 * validated properties, the old properties, the inbound physical id and the
 * state of the cloud to an `Outcome`.
 */
module Lifecycle {
  import opened Wrappers
  import opened Dicts
  import opened Values
  import Strings

  /** The typed error classes a cloud client raises. */
  datatype ApiError =
    | ParameterNotFound
    | ParameterAlreadyExists
    | ConditionalCheckFailed
    | ResourceNotFound
    | InvalidParameter
    | ClientException
    | GlobalTableAlreadyExists
    | ReplicaAlreadyExists
    | GlobalTableNotFound
    | Other(name: string)

  /** Python exceptions a provider raises, and `validate` returning False. */
  datatype Error =
    | KeyError(key: string)
    | ValueError(msg: string)
    | TypeError(msg: string)
    | RuntimeError(msg: string)
    | TimeoutError(msg: string)
    | IndexError
    | AttributeError(msg: string)
    | DomainValidationNotThere
    | Exception(msg: string)
    | Invalid
    | Api(api: ApiError)

  /**
   * The client library's refusal, before anything is sent, of a request
   * with missing, unknown, ill-typed or too short arguments.
   */
  const ParamValidation: ApiError := Other("ParamValidationError")

  /** One request sent through a cloud client: operation name and keyword arguments. */
  datatype ApiCall = ApiCall(op: string, args: Props)

  /** The cloud as seen by a provider: each request gets a response or a typed error. */
  type Api = ApiCall -> Result<Value, ApiError>

  /**
   * `has_property_changed(name)` of the dispatcher library, given the new and
   * the old property maps.
   */
  type Changed = (Props, Props, string) -> bool

  /**
   * `has_property_changed` as the library documents it: the two snapshots
   * hold different values for the key, a missing key counting as a value
   * different from every present one.
   */
  predicate ValueChanged(props: Props, oldProps: Props, k: string) {
    Get(props, k) != Get(oldProps, k)
  }

  /** What a lifecycle method did: returned (a mapping or None) or raised. */
  datatype Ret = Returned(data: Option<Props>) | Raised(err: Error)

  /**
   * The result of one lifecycle method: how it ended, the physical id it
   * left, the reason given to `fail()` if it was called, and the state of
   * the cloud afterwards (a store, or the requests made in order).
   */
  datatype Outcome<S> = Outcome(ret: Ret, id: Option<string>, failure: Option<string>, after: S)

  function Return<S>(data: Props, id: Option<string>, after: S): Outcome<S> {
    Outcome(Returned(Some(data)), id, None, after)
  }

  function ReturnNone<S>(id: Option<string>, after: S): Outcome<S> {
    Outcome(Returned(None), id, None, after)
  }

  function Raise<S>(err: Error, id: Option<string>, after: S): Outcome<S> {
    Outcome(Raised(err), id, None, after)
  }

  /** A `delete` that has nothing to remove: it returns None and sends nothing. */
  function DeleteNothing(id: string): (o: Outcome<seq<ApiCall>>)
    ensures o.ret == Returned(None) && o.after == [] && o.id == Some(id) && o.failure.None?
  {
    ReturnNone(Some(id), [])
  }

  /** A missing property read with `props['k']`. */
  function Require(props: Props, k: string): (r: Result<Value, Error>)
    ensures r.Ok? <==> HasKey(props, k)
    ensures r.Ok? ==> Get(props, k) == Some(r.value)
    ensures r.Err? ==> r.error == KeyError(k)
  {
    match Get(props, k)
    case Some(v) => Ok(v)
    case None => Err(KeyError(k))
  }

  /** `v[k]`: a mapping's entry, KeyError for a missing key, TypeError for anything else. */
  function Index(v: Value, k: string): (r: Result<Value, Error>)
    ensures r.Ok? <==> v.Obj? && HasKey(v.fields, k)
    ensures r.Ok? ==> Get(v.fields, k) == Some(r.value)
    ensures v.Obj? && r.Err? ==> r.error == KeyError(k)
    ensures !v.Obj? ==> r.Err? && r.error.TypeError?
  {
    if v.Obj? then Require(v.fields, k) else Err(TypeError("not subscriptable"))
  }

  /**
   * Send `calls` in order, stopping at the first error. Returns the
   * responses or the error, and the requests actually sent.
   */
  function Run(api: Api, calls: seq<ApiCall>): (r: (Result<seq<Value>, ApiError>, seq<ApiCall>))
    ensures r.0.Ok? ==> r.1 == calls && |r.0.value| == |calls|
    ensures r.0.Ok? ==> forall i :: 0 <= i < |calls| ==> api(calls[i]) == Ok(r.0.value[i])
    ensures r.0.Err? ==> 0 < |r.1| <= |calls| && r.1 == calls[..|r.1|]
    ensures r.0.Err? ==> api(r.1[|r.1| - 1]) == Err(r.0.error)
    ensures r.0.Err? ==> forall i :: 0 <= i < |r.1| - 1 ==> api(r.1[i]).Ok?
  {
    if |calls| == 0 then (Ok([]), [])
    else
      match api(calls[0])
      case Err(e) => (Err(e), [calls[0]])
      case Ok(v) =>
        var (rest, sent) := Run(api, calls[1..]);
        match rest
        case Ok(vs) => (Ok([v] + vs), calls)
        case Err(e) => (Err(e), [calls[0]] + sent)
  }

  /** The spellings `strtobool` accepts, compared after lower-casing. */
  const TrueWords: seq<string> := ["y", "yes", "t", "true", "on", "1"]
  const FalseWords: seq<string> := ["n", "no", "f", "false", "off", "0"]

  /**
   * `strtobool(v)`: a recognised spelling of yes or no, in any case, or
   * ValueError; a value that is not a string has no `lower()`.
   */
  function StrToBool(v: Value): (r: Result<bool, Error>)
    ensures r == Ok(true) <==> v.Str? && Strings.Lower(v.s) in TrueWords
    ensures r == Ok(false) <==> v.Str? && Strings.Lower(v.s) in FalseWords
    ensures r.Err? && v.Str? ==> r.error.ValueError?
    ensures !v.Str? ==> r.Err? && r.error.AttributeError?
  {
    match v
    case Str(s) =>
      var l := Strings.Lower(s);
      if l in TrueWords then Ok(true)
      else if l in FalseWords then Ok(false)
      else Err(ValueError("invalid truth value"))
    case _ => Err(AttributeError("lower"))
  }

  /** `strtobool(props.get(k, 'false'))` */
  function FlagOrFalse(props: Props, k: string): (r: Result<bool, Error>)
    ensures !HasKey(props, k) ==> r == Ok(false)
    ensures HasKey(props, k) ==> r == StrToBool(GetValue(props, k))
  {
    if HasKey(props, k) then StrToBool(GetValue(props, k)) else Ok(false)
  }
}
