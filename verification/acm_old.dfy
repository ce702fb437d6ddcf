/**
 * The two earlier versions of the DNS-validated certificate provider. Both
 * read the validation options outside the "not there yet" handler, and
 * neither adds the stack id tag or strips trailing dots the way the current
 * version does. The first calls tag methods under names the ACM client does
 * not have; the second tags every new certificate, even with no tags, and
 * replaces all tags on any change of them.
 */
module AcmCertificateOld {
  import opened Wrappers
  import opened Dicts
  import opened Values
  import opened Lifecycle
  import Strings
  import A = AcmCertificate

  /**
   * `get_validation_records` as first written: a description without the
   * DomainValidationOptions key raises KeyError, which the wait loop does
   * not catch.
   */
  function ValidationRecords(desc: Value): (r: Result<Dict<Value>, Error>)
    ensures Index(desc, "Certificate").Err? ==> r == Err(Index(desc, "Certificate").error)
    ensures (Index(desc, "Certificate").Ok? && Index(desc, "Certificate").value.Obj? &&
             !HasKey(Index(desc, "Certificate").value.fields, "DomainValidationOptions")) ==> r == Err(KeyError("DomainValidationOptions"))
    ensures r.Ok? ==> r == A.ValidationRecords(desc)
  {
    var cert :- Index(desc, "Certificate");
    var options :- Index(cert, "DomainValidationOptions");
    match options
    case List(items) =>
      var pairs :- A.Records(items);
      Ok(Dicts.Update([], pairs))
    case _ => Err(TypeError("not iterable"))
  }

  function GetAttributes(describe: A.Describe, dumps: Value -> string, cost: nat -> nat, left: int): Result<Props, Error> {
    A.GetAttributesWith(describe, ValidationRecords, dumps, cost, left)
  }

  /**
   * A certificate whose first description has no validation options yet
   * makes this version fail at once with KeyError, whatever the time left,
   * where the current version keeps waiting.
   */
  lemma OptionsMissingFails(describe: A.Describe, dumps: Value -> string, cost: nat -> nat, left: int, cert: Dict<Value>)
    requires describe(0) == Ok(Obj([("Certificate", Obj(cert))]))
    requires !HasKey(cert, "DomainValidationOptions")
    ensures GetAttributes(describe, dumps, cost, left) == Err(KeyError("DomainValidationOptions"))
    ensures A.ValidationRecords(describe(0).value) == Err(DomainValidationNotThere)
    ensures A.Probe(describe, A.ValidationRecords, dumps, 0) == Ok(None)
  {
    var desc := describe(0).value;
    assert desc.fields[0].0 == "Certificate";
    GetHead(desc.fields, "Certificate");
    assert Index(desc, "Certificate") == Ok(Obj(cert));
    assert A.ProbeStep(describe, ValidationRecords, dumps)(0, None) == A.Probe(describe, ValidationRecords, dumps, 0);
  }

  /** `validate` of this version: the template's tags as they are, trailing dots stripped. */
  function Validate(props: Props, lambdaRegion: string): (r: Result<A.Config, Error>)
    ensures !HasKey(props, "DomainName") ==> r == Err(KeyError("DomainName"))
    ensures r.Ok? ==> r.value.region == GetOr(props, "Region", Str(lambdaRegion))
    ensures r.Ok? ==> GetValue(props, "DomainName").Str? && r.value.domain == Strings.StripTrailingDot(GetValue(props, "DomainName").s)
    ensures r.Ok? ==> A.TagsOf(GetOr(props, "Tags", List([]))) == Ok(r.value.tags)
  {
    var domainV :- Require(props, "DomainName");
    var tags :- A.TagsOf(GetOr(props, "Tags", List([])));
    if !domainV.Str? then Err(AttributeError("endswith"))
    else
      var sansV := GetValue(props, "SubjectAlternativeNames");
      var sans :- if sansV.Null? then Ok(None)
                  else if sansV.List? then (match A.StripAll(sansV.items) case Ok(ss) => Ok(Some(ss)) case Err(e) => Err(e))
                  else Err(TypeError("not iterable"));
      Ok(A.Config(GetOr(props, "Region", Str(lambdaRegion)), Strings.StripTrailingDot(domainV.s), sans, tags))
  }

  /**
   * The current version validates the same template to the same
   * configuration, except that its tags carry the stack id.
   */
  lemma CurrentAddsStackTag(props: Props, lambdaRegion: string, stackId: string)
    requires A.Validate(props, lambdaRegion, stackId).Ok?
    ensures Validate(props, lambdaRegion).Ok?
    ensures Validate(props, lambdaRegion).value.(tags := A.Validate(props, lambdaRegion, stackId).value.tags) ==
            A.Validate(props, lambdaRegion, stackId).value
    ensures A.AddOrReplaceTag(Validate(props, lambdaRegion).value.tags, A.StackIdTag, stackId) ==
            Ok(A.Validate(props, lambdaRegion, stackId).value.tags)
  {
  }

  /** The tag methods this version calls; the ACM client has neither. */
  const ResourceTagMethods: A.TagMethods := A.TagMethods("remove_tags_from_resource", "add_tags_to_resource")

  /** Neither tag method of this version is a method of the ACM client. */
  lemma ResourceMethodsMissing()
    ensures ResourceTagMethods.add !in A.Operations && ResourceTagMethods.remove !in A.Operations
  {
  }

  function Create(cfg: A.Config, requestId: string, client: A.Client, attrs: Result<Props, Error>): Outcome<A.Trace> {
    A.CreateWith(cfg.region, A.RequestCall(cfg, A.Token(requestId)), client,
                 arn => A.TagCalls(ResourceTagMethods, arn, cfg.tags, []), attrs)
  }

  /**
   * A certificate created with tags is requested, and then the tag request
   * raises AttributeError: `create` fails after the certificate exists.
   */
  lemma TaggedCreateFails(cfg: A.Config, requestId: string, client: A.Client, attrs: Result<Props, Error>, arn: string)
    requires client(cfg.region, A.RequestCall(cfg, A.Token(requestId))) == Ok(Obj([("CertificateArn", Str(arn))]))
    requires |cfg.tags| > 0
    ensures Create(cfg, requestId, client, attrs) ==
            Raise(AttributeError("add_tags_to_resource"), Some(arn), [A.Sent(cfg.region, A.RequestCall(cfg, A.Token(requestId)))])
  {
    A.ArnOfAnswer(arn);
    var call := A.TagCall("add_tags_to_resource", arn, cfg.tags);
    assert A.TagCalls(ResourceTagMethods, arn, cfg.tags, []) == Ok([call]);
    var t1 := [A.Sent(cfg.region, A.RequestCall(cfg, A.Token(requestId)))];
    ResourceMethodsMissing();
    assert A.Send(client, cfg.region, call, t1) == (Err(AttributeError("add_tags_to_resource")), t1);
    assert A.SendAll(client, cfg.region, [call], t1) == (Err(AttributeError("add_tags_to_resource")), t1);
  }

  /**
   * `update` of this version: only a change of DomainName or of the
   * alternative names requests a new certificate; a new Region is not one of
   * them.
   */
  function Update(cfg: A.Config, oldProps: Props, id: string, changed: Changed, props: Props, requestId: string,
                  client: A.Client, attrs: Result<Props, Error>): (o: Outcome<A.Trace>)
    ensures Replaces(props, oldProps, changed) ==> o == Create(cfg, requestId, client, attrs)
    ensures !Replaces(props, oldProps, changed) ==> o.id == Some(id)
  {
    if Replaces(props, oldProps, changed) then Create(cfg, requestId, client, attrs)
    else
      match A.TagsOf(GetOr(oldProps, "Tags", List([])))
      case Err(e) => Raise(e, Some(id), [])
      case Ok(oldTags) => A.TagAndWait(client, cfg.region, id, A.TagCalls(ResourceTagMethods, id, cfg.tags, oldTags), attrs, [])
  }

  predicate Replaces(props: Props, oldProps: Props, changed: Changed) {
    changed(props, oldProps, "DomainName") || changed(props, oldProps, "SubjectAlternativeNames")
  }

  /**
   * Moving the certificate to another region keeps the old ARN as the
   * physical id, although the certificate stays in the old region; the
   * current version requests a new one.
   */
  lemma RegionChangeKeepsArn(cfg: A.Config, oldProps: Props, id: string, changed: Changed, props: Props, requestId: string,
                             client: A.Client, attrs: Result<Props, Error>)
    requires changed(props, oldProps, "Region")
    requires !changed(props, oldProps, "DomainName") && !changed(props, oldProps, "SubjectAlternativeNames")
    ensures Update(cfg, oldProps, id, changed, props, requestId, client, attrs).id == Some(id)
    ensures A.Replaces(props, oldProps, changed)
  {
  }
}

/**
 * The first, flat version of the provider: no dots stripped, the template's
 * tags added to every new certificate, and on a change of Tags all old tags
 * removed before the new ones are added.
 */
module AcmCertificateFlat {
  import opened Wrappers
  import opened Dicts
  import opened Values
  import opened Lifecycle
  import A = AcmCertificate
  import Old = AcmCertificateOld

  /** `validate`: the names as given, alternative names as a list of strings or absent. */
  function Validate(props: Props, lambdaRegion: string): (r: Result<A.Config, Error>)
    ensures !HasKey(props, "DomainName") ==> r == Err(KeyError("DomainName"))
    ensures r.Ok? ==> r.value.region == GetOr(props, "Region", Str(lambdaRegion))
    ensures r.Ok? ==> GetValue(props, "DomainName") == Str(r.value.domain)
    ensures r.Ok? ==> (r.value.sans.None? <==> GetValue(props, "SubjectAlternativeNames").Null?)
    ensures r.Ok? ==> A.TagsOf(GetOr(props, "Tags", List([]))) == Ok(r.value.tags)
  {
    var domainV :- Require(props, "DomainName");
    var tags :- A.TagsOf(GetOr(props, "Tags", List([])));
    if !domainV.Str? then Err(TypeError("DomainName"))
    else
      var sansV := GetValue(props, "SubjectAlternativeNames");
      var sans :- if sansV.Null? then Ok(None)
                  else if sansV.List? && forall i :: 0 <= i < |sansV.items| ==> sansV.items[i].Str?
                  then Ok(Some(seq(|sansV.items|, i requires 0 <= i < |sansV.items| => sansV.items[i].s)))
                  else Err(TypeError("SubjectAlternativeNames"));
      Ok(A.Config(GetOr(props, "Region", Str(lambdaRegion)), domainV.s, sans, tags))
  }

  function AddTags(arn: string, tags: seq<Value>): ApiCall {
    A.TagCall("add_tags_to_certificate", arn, tags)
  }

  function RemoveTags(arn: string, tags: seq<Value>): ApiCall {
    A.TagCall("remove_tags_from_certificate", arn, tags)
  }

  /** `create`: request the certificate, then add the template's tags, whatever they are. */
  function Create(cfg: A.Config, requestId: string, client: A.Client, attrs: Result<Props, Error>): Outcome<A.Trace> {
    A.CreateWith(cfg.region, A.RequestCall(cfg, A.Token(requestId)), client, arn => Ok([AddTags(arn, cfg.tags)]), attrs)
  }

  /**
   * A certificate created without tags is requested, and then the empty
   * tag request is refused by the client's parameter validation.
   */
  lemma UntaggedCreateRefused(cfg: A.Config, requestId: string, client: A.Client, attrs: Result<Props, Error>, arn: string)
    requires client(cfg.region, A.RequestCall(cfg, A.Token(requestId))) == Ok(Obj([("CertificateArn", Str(arn))]))
    requires cfg.tags == []
    ensures Create(cfg, requestId, client, attrs) ==
            Raise(Api(ParamValidation), Some(arn), [A.Sent(cfg.region, A.RequestCall(cfg, A.Token(requestId)))])
  {
    var answer := Obj([("CertificateArn", Str(arn))]);
    assert answer.fields[0].0 == "CertificateArn";
    GetHead(answer.fields, "CertificateArn");
    assert A.CertificateArn(answer) == Ok(arn);
    A.TagsArgument("add_tags_to_certificate", arn, []);
  }

  /**
   * `update`: a new DomainName or new alternative names request a new
   * certificate; new Tags remove every old tag and add every new one.
   */
  function Update(cfg: A.Config, oldProps: Props, id: string, changed: Changed, props: Props, requestId: string,
                  client: A.Client, attrs: Result<Props, Error>): (o: Outcome<A.Trace>)
    ensures Old.Replaces(props, oldProps, changed) ==> o == Create(cfg, requestId, client, attrs)
    ensures !Old.Replaces(props, oldProps, changed) ==> o.id == Some(id)
    ensures !Old.Replaces(props, oldProps, changed) && !changed(props, oldProps, "Tags") ==>
      o == A.TagAndWait(client, cfg.region, id, Ok([]), attrs, [])
  {
    if Old.Replaces(props, oldProps, changed) then Create(cfg, requestId, client, attrs)
    else if !changed(props, oldProps, "Tags") then A.TagAndWait(client, cfg.region, id, Ok([]), attrs, [])
    else
      match A.TagsOf(GetOr(oldProps, "Tags", List([])))
      case Err(e) => Raise(e, Some(id), [])
      case Ok(oldTags) => A.TagAndWait(client, cfg.region, id, Ok([RemoveTags(id, oldTags), AddTags(id, cfg.tags)]), attrs, [])
  }

  /**
   * With tags before and after and a client that accepts everything, a
   * change of Tags sends one removal of all the old tags and one addition
   * of all the new ones.
   */
  lemma UpdateReplacesAllTags(cfg: A.Config, oldProps: Props, id: string, changed: Changed, props: Props, requestId: string,
                              client: A.Client, attrs: Result<Props, Error>, oldTags: seq<Value>)
    requires !Old.Replaces(props, oldProps, changed) && changed(props, oldProps, "Tags")
    requires GetOr(oldProps, "Tags", List([])) == List(oldTags)
    requires |oldTags| > 0 && |cfg.tags| > 0
    requires forall c :: client(cfg.region, c).Ok?
    ensures Update(cfg, oldProps, id, changed, props, requestId, client, attrs).after ==
            [A.Sent(cfg.region, RemoveTags(id, oldTags)), A.Sent(cfg.region, AddTags(id, cfg.tags))]
  {
    A.TagsArgument("remove_tags_from_certificate", id, oldTags);
    A.TagsArgument("add_tags_to_certificate", id, cfg.tags);
    var calls := [RemoveTags(id, oldTags), AddTags(id, cfg.tags)];
    assert A.Accepted(calls[0]) && A.Accepted(calls[1]);
    var t1 := [A.Sent(cfg.region, calls[0])];
    var t2 := t1 + [A.Sent(cfg.region, calls[1])];
    assert A.Send(client, cfg.region, calls[0], []).1 == t1;
    assert A.Send(client, cfg.region, calls[1], t1).1 == t2;
    assert calls[1..][1..] == [];
    assert A.SendAll(client, cfg.region, calls[1..][1..], t2) == (Ok(()), t2);
    assert A.SendAll(client, cfg.region, calls[1..], t1) == (Ok(()), t2);
    var r := A.SendAll(client, cfg.region, calls, []);
    assert r.1 == [A.Sent(cfg.region, calls[0]), A.Sent(cfg.region, calls[1])];
  }

  function Delete(cfg: A.Config, id: string, client: A.Client): Outcome<A.Trace> {
    A.Delete(cfg, id, client)
  }
}
