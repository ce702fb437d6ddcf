/**
 * The DNS-validated certificate provider: request an ACM certificate with
 * DNS validation in a chosen region, tag it, and wait for the DNS records
 * that validate it, which become the DnsRecords attribute.
 *
 * Requests go through a regional ACM client (`Client`). The answers to the
 * wait loop's `describe_certificate` calls are a separate oracle indexed by
 * round, since they change while the loop waits. An operation's trace holds
 * the requests the client sent, in order; the reads of the wait loop are not
 * recorded.
 */
module AcmCertificate {
  import opened Wrappers
  import opened Dicts
  import opened Values
  import opened Lifecycle
  import Strings
  import SsmTags
  import Polling

  type Client = (Value, ApiCall) -> Result<Value, ApiError>

  /** The answer to round `k`'s `describe_certificate`. */
  type Describe = nat -> Result<Value, ApiError>

  /** A request the regional client sent: the region and the call. */
  datatype Sent = Sent(region: Value, call: ApiCall)

  type Trace = seq<Sent>

  /** The ACM client's methods; anything else is not an attribute of the client. */
  const Operations: set<string> := {
    "add_tags_to_certificate", "delete_certificate", "describe_certificate", "export_certificate",
    "get_account_configuration", "get_certificate", "import_certificate", "list_certificates",
    "list_tags_for_certificate", "put_account_configuration", "remove_tags_from_certificate",
    "renew_certificate", "request_certificate", "resend_validation_email", "revoke_certificate",
    "update_certificate_options"}

  /** The tag methods, whose Tags list must hold at least one tag. */
  const TagOperations: set<string> := {"add_tags_to_certificate", "remove_tags_from_certificate"}

  const StackIdTag: string := "cr:cloudformation:stack-id"

  /**
   * One request through the regional client. A method the client does not
   * have raises AttributeError, and a tag request with an empty Tags list is
   * refused by the client's parameter validation; neither is sent.
   */
  function Send(client: Client, region: Value, call: ApiCall, sent: Trace): (r: (Result<Value, Error>, Trace))
    ensures call.op !in Operations ==> r == (Err(AttributeError(call.op)), sent)
    ensures call.op in TagOperations && GetValue(call.args, "Tags") == List([]) ==> r == (Err(Api(ParamValidation)), sent)
    ensures Accepted(call) ==> r == (Lift(client(region, call)), sent + [Sent(region, call)])
  {
    if call.op !in Operations then (Err(AttributeError(call.op)), sent)
    else if call.op in TagOperations && GetValue(call.args, "Tags") == List([]) then (Err(Api(ParamValidation)), sent)
    else (Lift(client(region, call)), sent + [Sent(region, call)])
  }

  /** The client has the method and its own checks pass, so the request is sent. */
  predicate Accepted(call: ApiCall) {
    call.op in Operations && !(call.op in TagOperations && GetValue(call.args, "Tags") == List([]))
  }

  /** A service error raised as the client's exception. */
  function Lift(r: Result<Value, ApiError>): (r': Result<Value, Error>)
    ensures r.Ok? ==> r' == Ok(r.value)
    ensures r.Err? ==> r' == Err(Api(r.error))
  {
    match r
    case Ok(v) => Ok(v)
    case Err(e) => Err(Api(e))
  }

  /** Send the calls in order, stopping at the first error. */
  function SendAll(client: Client, region: Value, calls: seq<ApiCall>, sent: Trace): (r: (Result<(), Error>, Trace))
    ensures |sent| <= |r.1| <= |sent| + |calls| && r.1[..|sent|] == sent
    ensures r.0.Ok? ==> r.1 == sent + seq(|calls|, i requires 0 <= i < |calls| => Sent(region, calls[i]))
    decreases |calls|
  {
    if |calls| == 0 then (Ok(()), sent)
    else
      var (first, sent1) := Send(client, region, calls[0], sent);
      if first.Err? then (Err(first.error), sent1)
      else
        var (rest, sent2) := SendAll(client, region, calls[1..], sent1);
        assert rest.Ok? ==> sent2 == sent1 + seq(|calls| - 1, i requires 0 <= i < |calls| - 1 => Sent(region, calls[1..][i]));
        (rest, sent2)
  }

  // ---------------------------------------------------------------- validation records

  /** A KeyError caught and turned into "not there yet". */
  function NotThereOnKeyError<T>(r: Result<T, Error>): (r': Result<T, Error>)
    ensures r.Ok? ==> r' == r
    ensures r.Err? && r.error.KeyError? ==> r' == Err(DomainValidationNotThere)
    ensures r.Err? && !r.error.KeyError? ==> r' == r
  {
    if r.Err? && r.error.KeyError? then Err(DomainValidationNotThere) else r
  }

  /**
   * One validation option's record, `o['ResourceRecord']['Name']` mapped to
   * `o['ResourceRecord']['Value']`, the value read first as Python
   * evaluates an assignment; a missing key means the record is not there
   * yet.
   */
  function Record(o: Value): (r: Result<(string, Value), Error>)
    ensures r.Ok? <==> o.Obj? && HasKey(o.fields, "ResourceRecord") && RecordOf(GetValue(o.fields, "ResourceRecord")).Some?
    ensures r.Ok? ==> r.value == RecordOf(GetValue(o.fields, "ResourceRecord")).value
    ensures o.Obj? && !HasKey(o.fields, "ResourceRecord") ==> r == Err(DomainValidationNotThere)
  {
    var rr :- NotThereOnKeyError(Index(o, "ResourceRecord"));
    var value :- NotThereOnKeyError(Index(rr, "Value"));
    var name :- NotThereOnKeyError(Index(rr, "Name"));
    if name.Str? then Ok((name.s, value)) else Err(TypeError("record name"))
  }

  /** The name and value of a complete resource record. */
  function RecordOf(rr: Value): Option<(string, Value)> {
    if rr.Obj? && HasKey(rr.fields, "Value") && HasKey(rr.fields, "Name") && GetValue(rr.fields, "Name").Str?
    then Some((GetValue(rr.fields, "Name").s, GetValue(rr.fields, "Value")))
    else None
  }

  /** The records of all options, in order, stopping at the first that fails. */
  function Records(options: seq<Value>): (r: Result<Dict<Value>, Error>)
    ensures r.Ok? <==> forall i :: 0 <= i < |options| ==> Record(options[i]).Ok?
    ensures r.Ok? ==> |r.value| == |options| && forall i :: 0 <= i < |options| ==> Record(options[i]) == Ok(r.value[i])
    ensures r.Err? ==> exists i :: 0 <= i < |options| && Record(options[i]) == Err(r.error)
  {
    if |options| == 0 then Ok([])
    else
      var first :- Record(options[0]);
      assert forall i :: 1 <= i < |options| ==> options[1..][i - 1] == options[i];
      var rest :- Records(options[1..]);
      Ok([first] + rest)
  }

  /**
   * `get_validation_records`: the mapping from record name to record value
   * over the certificate's validation options. A description without
   * options yet, or with an option whose record is incomplete, means the
   * records are not there yet.
   */
  function ValidationRecords(desc: Value): (r: Result<Dict<Value>, Error>)
    ensures Index(desc, "Certificate").Err? ==> r == Err(Index(desc, "Certificate").error)
    ensures (Index(desc, "Certificate").Ok? && Index(desc, "Certificate").value.Obj? &&
             !HasKey(Index(desc, "Certificate").value.fields, "DomainValidationOptions")) ==> r == Err(DomainValidationNotThere)
    ensures r.Ok? ==> exists pairs :: OptionsOf(desc) == Some(pairs) && Records(pairs).Ok? && r.value == Dicts.Update([], Records(pairs).value)
  {
    var cert :- Index(desc, "Certificate");
    if !cert.Obj? then Err(TypeError("certificate description"))
    else if !HasKey(cert.fields, "DomainValidationOptions") then Err(DomainValidationNotThere)
    else
      match GetValue(cert.fields, "DomainValidationOptions")
      case List(options) =>
        var pairs :- Records(options);
        Ok(Dicts.Update([], pairs))
      case _ => Err(TypeError("not iterable"))
  }

  /** The certificate's validation options, when the description has a list of them. */
  function OptionsOf(desc: Value): Option<seq<Value>> {
    if desc.Obj? && HasKey(desc.fields, "Certificate") && GetValue(desc.fields, "Certificate").Obj? &&
       GetValue(GetValue(desc.fields, "Certificate").fields, "DomainValidationOptions").List?
    then Some(GetValue(GetValue(desc.fields, "Certificate").fields, "DomainValidationOptions").items)
    else None
  }

  /**
   * The DnsRecords mapping has a name exactly when some option's record has
   * it, and when the names are distinct each maps to its own record's value.
   */
  lemma ValidationRecordsContents(desc: Value, k: string)
    requires ValidationRecords(desc).Ok?
    ensures var pairs := Records(OptionsOf(desc).value).value;
      (HasKey(ValidationRecords(desc).value, k) <==> HasKey(pairs, k)) &&
      (UniqueKeys(pairs) ==> Get(ValidationRecords(desc).value, k) == Get(pairs, k))
  {
    var pairs := Records(OptionsOf(desc).value).value;
    UpdateUnique([], pairs);
    if UniqueKeys(pairs) {
      UpdateGet([], pairs, k);
    }
  }

  // ---------------------------------------------------------------- waiting for the records

  /**
   * One round of the wait loop: the rendered records once the description
   * has them, None while they are not there yet.
   */
  function Probe(describe: Describe, records: Value -> Result<Dict<Value>, Error>, dumps: Value -> string, k: nat): (r: Result<Option<string>, Error>)
    ensures describe(k).Err? ==> r == Err(Api(describe(k).error))
    ensures describe(k).Ok? && records(describe(k).value).Ok? ==>
      r == Ok(Some(dumps(Obj(records(describe(k).value).value))))
    ensures describe(k).Ok? && records(describe(k).value) == Err(DomainValidationNotThere) ==> r == Ok(None)
    ensures describe(k).Ok? && records(describe(k).value).Err? && records(describe(k).value) != Err(DomainValidationNotThere) ==>
      r == Err(records(describe(k).value).error)
  {
    match describe(k)
    case Err(e) => Err(Api(e))
    case Ok(desc) =>
      match records(desc)
      case Ok(d) => Ok(Some(dumps(Obj(d))))
      case Err(DomainValidationNotThere) => Ok(None)
      case Err(e) => Err(e)
  }

  function ProbeStep(describe: Describe, records: Value -> Result<Dict<Value>, Error>, dumps: Value -> string): (nat, Option<string>) -> Result<Option<string>, Error> {
    (k: nat, s: Option<string>) => Probe(describe, records, dumps, k)
  }

  predicate Ready(s: Option<string>) {
    s.Some?
  }

  const Timeout: Error := RuntimeError("Timeout waiting for DNS validation records")

  /**
   * `get_attributes`: describe the certificate until its validation records
   * are there, giving up when less than two poll intervals remain; the
   * records are the DnsRecords attribute.
   */
  function GetAttributesWith(describe: Describe, records: Value -> Result<Dict<Value>, Error>, dumps: Value -> string,
                             cost: nat -> nat, left: int): (r: Result<Props, Error>)
    ensures r.Ok? ==> exists k: nat, d :: describe(k).Ok? && records(describe(k).value) == Ok(d) &&
                                         r.value == [("DnsRecords", Str(dumps(Obj(d))))]
  {
    match Polling.Poll(ProbeStep(describe, records, dumps), Ready, Timeout, cost, 0, None, left)
    case Err(e) => Err(e)
    case Ok((s, k)) =>
      var x :| ProbeStep(describe, records, dumps)(k, x) == Ok(s);
      assert ProbeStep(describe, records, dumps)(k, x) == Probe(describe, records, dumps, k);
      Ok([("DnsRecords", Str(s.value))])
  }

  function GetAttributes(describe: Describe, dumps: Value -> string, cost: nat -> nat, left: int): Result<Props, Error> {
    GetAttributesWith(describe, ValidationRecords, dumps, cost, left)
  }

  /**
   * When every description can be read, the records are there from round
   * `n` on, and the Lambda has time for `n` sleeps, the wait ends with the
   * records.
   */
  lemma RecordsArriveInTime(describe: Describe, records: Value -> Result<Dict<Value>, Error>, dumps: Value -> string,
                            cost: nat -> nat, left: int, n: nat, c: nat)
    requires forall j: nat :: describe(j).Ok?
    requires forall j: nat :: records(describe(j).value).Ok? || records(describe(j).value) == Err(DomainValidationNotThere)
    requires forall j: nat :: j >= n ==> records(describe(j).value).Ok?
    requires forall j: nat :: cost(j) <= c
    requires left >= Polling.GuardMs + n * (Polling.PollIntervalMs + c)
    ensures GetAttributesWith(describe, records, dumps, cost, left).Ok?
  {
    var step := ProbeStep(describe, records, dumps);
    forall j: nat, x: Option<string> ensures step(j, x).Ok? {
      assert step(j, x) == Probe(describe, records, dumps, j);
    }
    forall j: nat, x: Option<string> | j >= n ensures Ready(step(j, x).value) {
      assert step(j, x) == Probe(describe, records, dumps, j);
    }
    Polling.ReadyInTime(step, Ready, Timeout, cost, 0, None, left, n, c);
  }

  // ---------------------------------------------------------------- validation

  /** What `validate` leaves on the resource. */
  datatype Config = Config(region: Value, domain: string, sans: Option<seq<string>>, tags: seq<Value>)

  /**
   * Where `add_or_replace_tag` puts the tag: the index of the first tag
   * with the key, or the end of the list; reading a tag's Key raises as in
   * the loop.
   */
  function FindTag(tags: seq<Value>, key: string): (r: Result<nat, Error>)
    ensures r.Ok? ==> r.value <= |tags|
    ensures r.Ok? ==> forall i :: 0 <= i < r.value ==> SsmTags.TagKey(tags[i]).Ok? && SsmTags.TagKey(tags[i]) != Ok(Str(key))
    ensures r.Ok? && r.value < |tags| ==> SsmTags.TagKey(tags[r.value]) == Ok(Str(key))
    ensures r.Err? ==> exists i :: 0 <= i < |tags| && SsmTags.TagKey(tags[i]) == Err(r.error)
  {
    if |tags| == 0 then Ok(0)
    else
      var k :- SsmTags.TagKey(tags[0]);
      if k == Str(key) then Ok(0)
      else
        var n :- FindTag(tags[1..], key);
        assert forall i :: 1 <= i < |tags| ==> tags[1..][i - 1] == tags[i];
        Ok(n + 1)
  }

  function NewTag(key: string, value: string): Value {
    Obj([("Key", Str(key)), ("Value", Str(value))])
  }

  /**
   * `add_or_replace_tag`: set the Value of the first tag with this Key, or
   * append a new tag when there is none.
   */
  function AddOrReplaceTag(tags: seq<Value>, key: string, value: string): (r: Result<seq<Value>, Error>)
    ensures r.Ok? <==> FindTag(tags, key).Ok?
    ensures r.Ok? && FindTag(tags, key).value == |tags| ==> r.value == tags + [NewTag(key, value)]
    ensures r.Ok? && FindTag(tags, key).value < |tags| ==>
      var n := FindTag(tags, key).value;
      r.value == tags[n := Obj(Put(tags[n].fields, "Value", Str(value)))]
  {
    var n :- FindTag(tags, key);
    if n == |tags| then Ok(tags + [NewTag(key, value)])
    else Ok(tags[n := Obj(Put(tags[n].fields, "Value", Str(value)))])
  }

  /** The new tag has the key and the value. */
  lemma NewTagFields(key: string, value: string)
    ensures SsmTags.TagKey(NewTag(key, value)) == Ok(Str(key))
    ensures Get(NewTag(key, value).fields, "Value") == Some(Str(value))
    ensures Put(NewTag(key, value).fields, "Value", Str(value)) == NewTag(key, value).fields
  {
    var t := NewTag(key, value).fields;
    assert t[0].0 == "Key" && t[1].0 == "Value";
    GetHead(t, "Value");
    PutAt(t, "Value", Str(value));
  }

  /**
   * Afterwards the tag with the key has the value, and every other tag is
   * as it was.
   */
  lemma AddOrReplaceTagSets(tags: seq<Value>, key: string, value: string)
    requires AddOrReplaceTag(tags, key, value).Ok?
    ensures var r := AddOrReplaceTag(tags, key, value).value;
      var n := FindTag(tags, key).value;
      n < |r| && SsmTags.TagKey(r[n]) == Ok(Str(key)) && Get(r[n].fields, "Value") == Some(Str(value)) &&
      forall i :: 0 <= i < |tags| && i != n ==> r[i] == tags[i]
  {
    var n := FindTag(tags, key).value;
    if n == |tags| {
      NewTagFields(key, value);
    } else {
      PutGet(tags[n].fields, "Value", Str(value), "Key");
      PutGet(tags[n].fields, "Value", Str(value), "Value");
    }
  }

  /** Setting a tag that is already set changes nothing. */
  lemma AddOrReplaceTagIdempotent(tags: seq<Value>, key: string, value: string)
    requires AddOrReplaceTag(tags, key, value).Ok?
    ensures AddOrReplaceTag(AddOrReplaceTag(tags, key, value).value, key, value) == AddOrReplaceTag(tags, key, value)
  {
    var r := AddOrReplaceTag(tags, key, value).value;
    var n := FindTag(tags, key).value;
    AddOrReplaceTagSets(tags, key, value);
    assert r[..n] == tags[..n];
    FindTagPrefix(tags, r, key, n);
    var r' := r[n := Obj(Put(r[n].fields, "Value", Str(value)))];
    assert AddOrReplaceTag(r, key, value) == Ok(r');
    if n == |tags| {
      NewTagFields(key, value);
      assert r[n] == NewTag(key, value);
    } else {
      assert r[n].fields == Put(tags[n].fields, "Value", Str(value));
      PutTwice(tags[n].fields, "Value", Str(value));
    }
    assert r'[n] == r[n];
    assert r' == r;
  }

  /** Two lists that agree before `n` and both have the key at `n` find it at `n`. */
  lemma {:induction false} FindTagPrefix(a: seq<Value>, b: seq<Value>, key: string, n: nat)
    requires FindTag(a, key) == Ok(n)
    requires n < |b| && b[..n] == a[..n] && SsmTags.TagKey(b[n]) == Ok(Str(key))
    ensures FindTag(b, key) == Ok(n)
    decreases n
  {
    if n > 0 {
      assert b[0] == a[0];
      assert a[1..][..n - 1] == a[..n][1..] && b[1..][..n - 1] == b[..n][1..];
      FindTagPrefix(a[1..], b[1..], key, n - 1);
    }
  }

  /** `d[k] = v` twice is `d[k] = v` once. */
  lemma PutTwice(d: Props, k: string, v: Value)
    ensures Put(Put(d, k, v), k, v) == Put(d, k, v)
  {
    PutGet(d, k, v, k);
    PutAt(Put(d, k, v), k, v);
    var d' := Put(d, k, v);
    var i := IndexOfKey(d', k);
    assert d'[i] == (k, v) by {
      GetFirst(d', k, i);
    }
    assert d'[i := (k, v)] == d';
  }

  /** The first entry with a key holds the value `Get` finds. */
  lemma {:induction false} GetFirst(d: Props, k: string, i: nat)
    requires i < |d| && d[i].0 == k && forall j :: 0 <= j < i ==> d[j].0 != k
    ensures Get(d, k) == Some(d[i].1)
    decreases i
  {
    GetHead(d, k);
    if i > 0 {
      GetFirst(d[1..], k, i - 1);
    }
  }

  /** `san[:-1] if san.endswith('.') else san` for each name, which must be a string. */
  function StripAll(sans: seq<Value>): (r: Result<seq<string>, Error>)
    ensures r.Ok? <==> forall i :: 0 <= i < |sans| ==> sans[i].Str?
    ensures r.Ok? ==> |r.value| == |sans| && forall i :: 0 <= i < |sans| ==> r.value[i] == Strings.StripTrailingDot(sans[i].s)
  {
    if |sans| == 0 then Ok([])
    else if !sans[0].Str? then Err(AttributeError("endswith"))
    else
      var rest :- StripAll(sans[1..]);
      assert forall i :: 1 <= i < |sans| ==> sans[1..][i - 1] == sans[i];
      Ok([Strings.StripTrailingDot(sans[0].s)] + rest)
  }

  function TagsOf(v: Value): Result<seq<Value>, Error> {
    if v.List? then Ok(v.items) else Err(TypeError("not a list"))
  }

  /**
   * `validate`: Region defaults to the function's own; DomainName is
   * required; the stack id tag is set on the Tags; one trailing dot is
   * stripped from the domain name and from each alternative name.
   */
  function Validate(props: Props, lambdaRegion: string, stackId: string): (r: Result<Config, Error>)
    ensures !HasKey(props, "DomainName") ==> r == Err(KeyError("DomainName"))
    ensures r.Ok? ==> r.value.region == GetOr(props, "Region", Str(lambdaRegion))
    ensures r.Ok? ==> GetValue(props, "DomainName").Str? && r.value.domain == Strings.StripTrailingDot(GetValue(props, "DomainName").s)
    ensures r.Ok? ==> (r.value.sans.None? <==> GetValue(props, "SubjectAlternativeNames").Null?)
    ensures r.Ok? && r.value.sans.Some? ==> (GetValue(props, "SubjectAlternativeNames").List? &&
      StripAll(GetValue(props, "SubjectAlternativeNames").items) == Ok(r.value.sans.value))
    ensures r.Ok? ==> TagsOf(GetOr(props, "Tags", List([]))).Ok?
    ensures r.Ok? ==> AddOrReplaceTag(TagsOf(GetOr(props, "Tags", List([]))).value, StackIdTag, stackId) == Ok(r.value.tags)
  {
    var domainV :- Require(props, "DomainName");
    var tags0 :- TagsOf(GetOr(props, "Tags", List([])));
    var tags :- AddOrReplaceTag(tags0, StackIdTag, stackId);
    if !domainV.Str? then Err(AttributeError("endswith"))
    else
      var sansV := GetValue(props, "SubjectAlternativeNames");
      var sans :- if sansV.Null? then Ok(None)
                  else if sansV.List? then (match StripAll(sansV.items) case Ok(ss) => Ok(Some(ss)) case Err(e) => Err(e))
                  else Err(TypeError("not iterable"));
      Ok(Config(GetOr(props, "Region", Str(lambdaRegion)), Strings.StripTrailingDot(domainV.s), sans, tags))
  }

  /** The validated tags carry the stack id under its key, wherever the template's tags had it. */
  lemma ValidateTagsStack(props: Props, lambdaRegion: string, stackId: string)
    requires Validate(props, lambdaRegion, stackId).Ok?
    ensures exists t :: (t in Validate(props, lambdaRegion, stackId).value.tags &&
      SsmTags.TagKey(t) == Ok(Str(StackIdTag)) && Get(t.fields, "Value") == Some(Str(stackId)))
  {
    var tags0 := TagsOf(GetOr(props, "Tags", List([]))).value;
    AddOrReplaceTagSets(tags0, StackIdTag, stackId);
    var r := AddOrReplaceTag(tags0, StackIdTag, stackId).value;
    var n := FindTag(tags0, StackIdTag).value;
    assert r[n] in r;
  }

  // ---------------------------------------------------------------- requests

  /** `re.sub(r'\W+', '', request_id)[:32]` */
  function Token(requestId: string): (t: string)
    ensures |t| <= 32
    ensures forall i :: 0 <= i < |t| ==> Strings.IsWordChar(t[i])
    ensures (forall i :: 0 <= i < |requestId| ==> Strings.IsWordChar(requestId[i])) && |requestId| <= 32 ==> t == requestId
  {
    Strings.Take(Strings.KeepWordChars(requestId), 32)
  }

  /** `request_certificate` with DNS validation; alternative names only when there are some. */
  function RequestCall(cfg: Config, token: string): (c: ApiCall)
    ensures c.op == "request_certificate"
    ensures Get(c.args, "DomainName") == Some(Str(cfg.domain))
    ensures Get(c.args, "ValidationMethod") == Some(Str("DNS"))
    ensures Get(c.args, "IdempotencyToken") == Some(Str(token))
    ensures HasKey(c.args, "SubjectAlternativeNames") <==> cfg.sans.Some? && |cfg.sans.value| > 0
  {
    var base := [("DomainName", Str(cfg.domain)), ("ValidationMethod", Str("DNS")), ("IdempotencyToken", Str(token))];
    assert base[0].0 == "DomainName" && base[1].0 == "ValidationMethod" && base[2].0 == "IdempotencyToken";
    GetHead(base, "ValidationMethod");
    GetHead(base[1..], "IdempotencyToken");
    GetHead(base, "IdempotencyToken");
    if cfg.sans.Some? && |cfg.sans.value| > 0 then
      PutGet(base, "SubjectAlternativeNames", StrList(cfg.sans.value), "DomainName");
      PutGet(base, "SubjectAlternativeNames", StrList(cfg.sans.value), "ValidationMethod");
      PutGet(base, "SubjectAlternativeNames", StrList(cfg.sans.value), "IdempotencyToken");
      PutGet(base, "SubjectAlternativeNames", StrList(cfg.sans.value), "SubjectAlternativeNames");
      ApiCall("request_certificate", Put(base, "SubjectAlternativeNames", StrList(cfg.sans.value)))
    else
      assert !HasKey(base, "SubjectAlternativeNames") by {
        assert forall i :: 0 <= i < 3 ==> base[i].0 != "SubjectAlternativeNames";
      }
      ApiCall("request_certificate", base)
  }

  /** The names of the two tag methods a variant of the provider calls. */
  datatype TagMethods = TagMethods(remove: string, add: string)

  const CertificateTagMethods: TagMethods := TagMethods("remove_tags_from_certificate", "add_tags_to_certificate")

  function TagCall(op: string, arn: string, tags: seq<Value>): ApiCall {
    ApiCall(op, [("CertificateArn", Str(arn)), ("Tags", List(tags))])
  }

  /** `{'Key': k}` for each dropped key: removal regardless of value. */
  function KeyOnly(keys: seq<Value>): (r: seq<Value>)
    ensures |r| == |keys| && forall i :: 0 <= i < |keys| ==> r[i] == Obj([("Key", keys[i])])
  {
    seq(|keys|, i requires 0 <= i < |keys| => Obj([("Key", keys[i])]))
  }

  /**
   * `update_tags(new_tags, old_tags)`: when there were old tags, remove the
   * keys no new tag has; then add the new tags if there are any.
   */
  function TagCalls(m: TagMethods, arn: string, newTags: seq<Value>, oldTags: seq<Value>): (r: Result<seq<ApiCall>, Error>)
    ensures r.Ok? ==> |r.value| <= 2
    ensures r.Ok? && |oldTags| == 0 ==> r.value == if |newTags| > 0 then [TagCall(m.add, arn, newTags)] else []
    ensures r.Ok? && |newTags| > 0 ==> |r.value| > 0 && r.value[|r.value| - 1] == TagCall(m.add, arn, newTags)
  {
    var removal :- if |oldTags| == 0 then Ok([])
                   else
                     match SsmTags.TagKeys(newTags)
                     case Err(e) => Err(e)
                     case Ok(keep) =>
                       match SsmTags.Dropped(oldTags, keep)
                       case Err(e) => Err(e)
                       case Ok(ds) => Ok(if |ds| > 0 then [TagCall(m.remove, arn, KeyOnly(ds))] else []);
    Ok(removal + if |newTags| > 0 then [TagCall(m.add, arn, newTags)] else [])
  }

  /**
   * With well-formed tags, the removal names exactly the old keys that no
   * new tag has, each without a value, and is left out when there are none.
   */
  lemma TagCallsRemoveExactly(m: TagMethods, arn: string, newTags: seq<Value>, oldTags: seq<Value>)
    requires |oldTags| > 0
    requires forall i :: 0 <= i < |newTags| ==> SsmTags.TagKey(newTags[i]).Ok?
    requires forall i :: 0 <= i < |oldTags| ==> SsmTags.TagKey(oldTags[i]).Ok?
    ensures TagCalls(m, arn, newTags, oldTags).Ok?
    ensures exists ds: seq<Value> ::
      (forall k :: k in ds <==> OldKey(oldTags, k) && !OldKey(newTags, k)) &&
      TagCalls(m, arn, newTags, oldTags).value ==
        (if |ds| > 0 then [TagCall(m.remove, arn, KeyOnly(ds))] else []) +
        (if |newTags| > 0 then [TagCall(m.add, arn, newTags)] else [])
  {
    var keep := SsmTags.TagKeys(newTags).value;
    forall k ensures k in keep <==> OldKey(newTags, k) {
      if OldKey(newTags, k) {
        var i :| 0 <= i < |newTags| && SsmTags.TagKey(newTags[i]) == Ok(k);
        assert keep[i] == k;
      }
    }
  }

  /** Some tag of the list has key `k`. */
  ghost predicate OldKey(tags: seq<Value>, k: Value) {
    exists i :: 0 <= i < |tags| && SsmTags.TagKey(tags[i]) == Ok(k)
  }

  // ---------------------------------------------------------------- operations

  /** The physical id: the certificate's ARN from the request's answer. */
  function CertificateArn(answer: Value): (r: Result<string, Error>)
    ensures r.Ok? <==> Index(answer, "CertificateArn").Ok? && Index(answer, "CertificateArn").value.Str?
    ensures r.Ok? ==> Index(answer, "CertificateArn").value == Str(r.value)
  {
    var v :- Index(answer, "CertificateArn");
    if v.Str? then Ok(v.s) else Err(TypeError("physical resource id"))
  }

  /**
   * `create` given how the variant tags a new certificate: request it, take
   * its ARN as the physical id, tag it, and wait for the records.
   */
  function CreateWith(region: Value, req: ApiCall, client: Client,
                      tagCalls: string -> Result<seq<ApiCall>, Error>, attrs: Result<Props, Error>): (o: Outcome<Trace>)
    ensures |o.after| >= 1 && o.after[0] == Sent(region, req)
    ensures o.ret.Returned? ==> o.id.Some? && attrs.Ok? && o.ret.data == Some(attrs.value)
    ensures client(region, req).Err? ==> o == Raise(Api(client(region, req).error), None, [Sent(region, req)])
    ensures client(region, req).Ok? && CertificateArn(client(region, req).value).Ok? ==>
      o.id == Some(CertificateArn(client(region, req).value).value)
  {
    var t1 := [Sent(region, req)];
    match client(region, req)
    case Err(e) => Raise(Api(e), None, t1)
    case Ok(answer) =>
      match CertificateArn(answer)
      case Err(e) => Raise(e, None, t1)
      case Ok(arn) => TagAndWait(client, region, arn, tagCalls(arn), attrs, t1)
  }

  /** The ARN of an answer that carries one as a string. */
  lemma ArnOfAnswer(arn: string)
    ensures CertificateArn(Obj([("CertificateArn", Str(arn))])) == Ok(arn)
  {
    var answer := Obj([("CertificateArn", Str(arn))]);
    assert answer.fields[0].0 == "CertificateArn";
    GetHead(answer.fields, "CertificateArn");
  }

  /** Tag the certificate `arn` and return its attributes. */
  function TagAndWait(client: Client, region: Value, arn: string, calls: Result<seq<ApiCall>, Error>,
                      attrs: Result<Props, Error>, t1: Trace): (o: Outcome<Trace>)
    ensures o.id == Some(arn)
    ensures |o.after| >= |t1| && o.after[..|t1|] == t1
    ensures o.ret.Returned? <==> calls.Ok? && SendAll(client, region, calls.value, t1).0.Ok? && attrs.Ok?
    ensures o.ret.Returned? ==> o.ret.data == Some(attrs.value) && o.after == SendAll(client, region, calls.value, t1).1
  {
    match calls
    case Err(e) => Raise(e, Some(arn), t1)
    case Ok(cs) =>
      var sent := SendAll(client, region, cs, t1);
      if sent.0.Err? then Raise(sent.0.error, Some(arn), sent.1)
      else
        match attrs
        case Err(e) => Raise(e, Some(arn), sent.1)
        case Ok(a) => Return(a, Some(arn), sent.1)
  }

  function Create(cfg: Config, requestId: string, client: Client, attrs: Result<Props, Error>): Outcome<Trace> {
    CreateWith(cfg.region, RequestCall(cfg, Token(requestId)), client, arn => TagCalls(CertificateTagMethods, arn, cfg.tags, []), attrs)
  }

  /**
   * A new certificate is tagged with exactly the configured tags, in one
   * request, after the certificate request; with no tags nothing is sent.
   */
  lemma CreateTags(cfg: Config, requestId: string, client: Client, attrs: Result<Props, Error>, arn: string)
    requires client(cfg.region, RequestCall(cfg, Token(requestId))) == Ok(Obj([("CertificateArn", Str(arn))]))
    requires forall c :: client(cfg.region, c).Ok?
    ensures var o := Create(cfg, requestId, client, attrs);
      o.id == Some(arn) &&
      o.after == [Sent(cfg.region, RequestCall(cfg, Token(requestId)))] +
                 (if |cfg.tags| > 0 then [Sent(cfg.region, TagCall("add_tags_to_certificate", arn, cfg.tags))] else [])
  {
    ArnOfAnswer(arn);
    var calls := TagCalls(CertificateTagMethods, arn, cfg.tags, []);
    var t1 := [Sent(cfg.region, RequestCall(cfg, Token(requestId)))];
    if |cfg.tags| > 0 {
      assert calls.value == [TagCall("add_tags_to_certificate", arn, cfg.tags)];
      TagsArgument("add_tags_to_certificate", arn, cfg.tags);
      assert SendAll(client, cfg.region, calls.value, t1).1 == t1 + [Sent(cfg.region, calls.value[0])];
    } else {
      assert calls.value == [];
    }
  }

  lemma TagsArgument(op: string, arn: string, tags: seq<Value>)
    ensures GetValue(TagCall(op, arn, tags).args, "Tags") == List(tags)
  {
    var args := TagCall(op, arn, tags).args;
    assert args[1].0 == "Tags";
    GetHead(args, "Tags");
    GetHead(args[1..], "Tags");
  }

  /**
   * `update`: a change of Region or DomainName, or a change of the
   * alternative names unless both the old and the new are empty, requests a
   * new certificate (CloudFormation then deletes the old one). Otherwise the
   * tags are synchronised with the old ones and the records fetched again.
   */
  function Update(cfg: Config, props: Props, oldProps: Props, id: string, changed: Changed, requestId: string,
                  client: Client, attrs: Result<Props, Error>): (o: Outcome<Trace>)
    ensures Replaces(props, oldProps, changed) ==> o == Create(cfg, requestId, client, attrs)
    ensures !Replaces(props, oldProps, changed) ==> o.id == Some(id)
  {
    if Replaces(props, oldProps, changed) then Create(cfg, requestId, client, attrs)
    else
      match TagsOf(GetOr(oldProps, "Tags", List([])))
      case Err(e) => Raise(e, Some(id), [])
      case Ok(oldTags) => TagAndWait(client, cfg.region, id, TagCalls(CertificateTagMethods, id, cfg.tags, oldTags), attrs, [])
  }

  /** The changes that need a new certificate. */
  predicate Replaces(props: Props, oldProps: Props, changed: Changed) {
    changed(props, oldProps, "Region") || changed(props, oldProps, "DomainName") ||
    (changed(props, oldProps, "SubjectAlternativeNames") &&
     (Truthy(GetValue(oldProps, "SubjectAlternativeNames")) || Truthy(GetValue(props, "SubjectAlternativeNames"))))
  }

  /**
   * CloudFormation may see a change between an absent and an empty list of
   * alternative names; both are empty, so the certificate is kept.
   */
  lemma EmptyNamesKeepCertificate(props: Props, oldProps: Props, changed: Changed)
    requires !changed(props, oldProps, "Region") && !changed(props, oldProps, "DomainName")
    requires !Truthy(GetValue(oldProps, "SubjectAlternativeNames")) && !Truthy(GetValue(props, "SubjectAlternativeNames"))
    ensures !Replaces(props, oldProps, changed)
  {
  }

  /**
   * `delete`: delete the certificate; one that is already gone counts as
   * deleted, any other error is raised.
   */
  function Delete(cfg: Config, id: string, client: Client): (o: Outcome<Trace>)
    ensures o.after == [Sent(cfg.region, ApiCall("delete_certificate", [("CertificateArn", Str(id))]))]
    ensures o.ret.Returned? <==> client(cfg.region, ApiCall("delete_certificate", [("CertificateArn", Str(id))])).Ok? ||
                                 client(cfg.region, ApiCall("delete_certificate", [("CertificateArn", Str(id))])) == Err(ResourceNotFound)
    ensures o.ret.Raised? ==> o.ret.err == Api(client(cfg.region, ApiCall("delete_certificate", [("CertificateArn", Str(id))])).error)
  {
    var (r, t) := Send(client, cfg.region, ApiCall("delete_certificate", [("CertificateArn", Str(id))]), []);
    if r.Ok? || r.error == Api(ResourceNotFound) then ReturnNone(Some(id), t)
    else Raise(r.error, Some(id), t)
  }
}
