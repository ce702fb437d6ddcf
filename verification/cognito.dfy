/**
 * Physical ids of the Cognito providers that live inside a user pool:
 * `<UserPoolId>/<name>`, taken apart again at the last '/'.
 */
module CognitoIds {
  import Strings

  /** The id a provider sets: `'/'.join([user_pool_id, name])`. */
  function ResourceId(userPoolId: string, name: string): string {
    Strings.Join([userPoolId, name], "/")
  }

  /**
   * `split_resource_id`: everything before the last '/' (rejoined with '/')
   * and the last segment; an id without '/' has an empty pool id.
   */
  function SplitResourceId(id: string): (r: (string, string))
    ensures '/' !in r.1
    ensures '/' !in id ==> r == ("", id)
  {
    var parts := Strings.Split(id, '/');
    (Strings.Join(parts[..|parts| - 1], "/"), parts[|parts| - 1])
  }

  /** Splitting undoes joining, when the name has no '/'. */
  lemma SplitResourceIdOf(userPoolId: string, name: string)
    requires '/' !in name
    ensures SplitResourceId(ResourceId(userPoolId, name)) == (userPoolId, name)
  {
    var id := ResourceId(userPoolId, name);
    assert [userPoolId, name][1..] == [name];
    assert Strings.Join([name], "/") == name;
    assert id == userPoolId + "/" + name;
    assert "/" == ['/'];
    Strings.SplitConcat(userPoolId, name, '/');
    assert Strings.IndexOf(name, '/').None?;
    var parts := Strings.Split(id, '/');
    assert parts == Strings.Split(userPoolId, '/') + [name];
    assert parts[..|parts| - 1] == Strings.Split(userPoolId, '/');
    Strings.JoinSplit(userPoolId, '/');
  }

  /** The example of the provider's tests: 'foo/bar/baz' gives ('foo/bar', 'baz'). */
  lemma SplitExample()
    ensures SplitResourceId("foo/bar/baz") == ("foo/bar", "baz")
  {
    assert ResourceId("foo/bar", "baz") == "foo/bar/baz";
    SplitResourceIdOf("foo/bar", "baz");
  }
}

/**
 * The user pool domain provider: creates a Cognito hosted-UI domain, either
 * the one given or a random 16-character label, retried while Cognito says
 * the label is taken.
 */
module CognitoUserPoolDomain {
  import opened Wrappers
  import opened Dicts
  import opened Values
  import opened Lifecycle
  import Strings
  import opened CognitoIds

  datatype Config = Config(userPoolId: Value, domain: Value)

  /** `validate`: UserPoolId is required; Domain defaults to None. */
  function Validate(props: Props): (r: Result<Config, Error>)
    ensures r.Ok? <==> HasKey(props, "UserPoolId")
    ensures r.Err? ==> r.error == Invalid
    ensures r.Ok? ==> r.value == Config(GetValue(props, "UserPoolId"), GetValue(props, "Domain"))
  {
    if HasKey(props, "UserPoolId") then Ok(Config(GetValue(props, "UserPoolId"), GetValue(props, "Domain")))
    else Err(Invalid)
  }

  /** `string.ascii_lowercase + string.digits` */
  const LabelAlphabet: string := "abcdefghijklmnopqrstuvwxyz0123456789"
  const LabelLength: nat := 16

  /**
   * `generate_random_domain_label`: `random.choices(alphabet, k=16)`, where
   * `draw(i)` is the random index behind the `i`-th character.
   */
  function RandomLabel(draw: nat -> nat): (l: string)
    ensures |l| == LabelLength
    ensures forall i :: 0 <= i < |l| ==> l[i] in LabelAlphabet
  {
    seq(LabelLength, i requires 0 <= i < LabelLength => LabelAlphabet[draw(i) % |LabelAlphabet|])
  }

  predicate LabelEndChar(c: char) {
    'a' <= c <= 'z' || '0' <= c <= '9'
  }

  /** The domain-label pattern `^[a-z0-9](?:[a-z0-9\-]{0,61}[a-z0-9])?$`. */
  predicate DnsLabel(s: string) {
    1 <= |s| <= 63 && LabelEndChar(s[0]) && LabelEndChar(s[|s| - 1]) &&
    forall i :: 0 <= i < |s| ==> LabelEndChar(s[i]) || s[i] == '-'
  }

  lemma AlphabetChars(c: char)
    requires c in LabelAlphabet
    ensures LabelEndChar(c)
  {
  }

  /** Every generated label is a valid domain label. */
  lemma RandomLabelIsDnsLabel(draw: nat -> nat)
    ensures DnsLabel(RandomLabel(draw))
  {
    var name := RandomLabel(draw);
    forall i | 0 <= i < |name| ensures LabelEndChar(name[i]) {
      AlphabetChars(name[i]);
    }
  }

  /** The draw that picks `c`. */
  function DrawOf(c: char): (n: nat)
    ensures c in LabelAlphabet ==> n < |LabelAlphabet| && LabelAlphabet[n] == c
  {
    match Strings.IndexOf(LabelAlphabet, c)
    case Some(n) => n
    case None => 0
  }

  lemma SmallMod(d: nat, m: nat)
    requires d < m
    ensures d % m == d
  {
  }

  /** Every 16-character label over the alphabet is one of the outcomes. */
  lemma EveryLabelCanBeDrawn(name: string)
    requires |name| == LabelLength
    requires forall i :: 0 <= i < |name| ==> name[i] in LabelAlphabet
    ensures exists draw :: RandomLabel(draw) == name
  {
    var draw := (i: nat) => if i < |name| then DrawOf(name[i]) else 0;
    forall i | 0 <= i < |name| ensures RandomLabel(draw)[i] == name[i] {
      var d := DrawOf(name[i]);
      assert draw(i) == d && d < |LabelAlphabet|;
      SmallMod(d, |LabelAlphabet|);
      assert RandomLabel(draw)[i] == LabelAlphabet[draw(i) % |LabelAlphabet|];
    }
    assert RandomLabel(draw) == name;
  }

  /** `try_domain`: the request creating `domain` in the pool. */
  function TryCall(userPoolId: Value, domain: Value): ApiCall {
    ApiCall("create_user_pool_domain", [("UserPoolId", userPoolId), ("Domain", domain)])
  }

  /** The domain a create request asks for. */
  lemma TryCallDomain(userPoolId: Value, domain: Value)
    ensures GetValue(TryCall(userPoolId, domain).args, "Domain") == domain
  {
    GetHead(TryCall(userPoolId, domain).args, "Domain");
    GetHead(TryCall(userPoolId, domain).args[1..], "Domain");
  }

  /** What stops the retry loop from outside: the Lambda's time runs out. */
  const Timeout: Error := TimeoutError("Task timed out")

  /**
   * The generated-domain loop from attempt `k` on, where `labels(k)` is the
   * label drawn in attempt `k`. The loop counter is never incremented, so
   * only success or an error other than InvalidParameter ends it; `budget`
   * is the number of attempts the Lambda's remaining time allows.
   */
  function Retry(api: Api, userPoolId: Value, labels: nat -> string, k: nat, budget: nat): (r: (Result<string, Error>, seq<ApiCall>))
    ensures |r.1| <= budget
    ensures forall i :: 0 <= i < |r.1| ==> r.1[i] == TryCall(userPoolId, Str(labels(k + i)))
    ensures forall i :: 0 <= i < |r.1| - 1 ==> api(r.1[i]) == Err(InvalidParameter)
    ensures r.0.Ok? ==> |r.1| > 0 && r.0.value == labels(k + |r.1| - 1) && api(r.1[|r.1| - 1]).Ok?
    ensures r.0.Err? && r.0 != Err(Timeout) ==>
      (|r.1| > 0 && api(r.1[|r.1| - 1]).Err? && api(r.1[|r.1| - 1]) != Err(InvalidParameter) &&
       r.0.error == Api(api(r.1[|r.1| - 1]).error))
    ensures r.0 == Err(Timeout) ==> |r.1| == budget && forall i :: 0 <= i < |r.1| ==> api(r.1[i]) == Err(InvalidParameter)
    decreases budget
  {
    if budget == 0 then (Err(Timeout), [])
    else
      var call := TryCall(userPoolId, Str(labels(k)));
      match api(call)
      case Ok(_) => (Ok(labels(k)), [call])
      case Err(InvalidParameter) =>
        var (res, sent) := Retry(api, userPoolId, labels, k + 1, budget - 1);
        assert forall i :: 1 <= i < |sent| + 1 ==> ([call] + sent)[i] == sent[i - 1];
        (res, [call] + sent)
      case Err(e) => (Err(Api(e)), [call])
  }

  /** The label of attempt `k`, each attempt with its own draws. */
  function Labels(draws: nat -> nat -> nat): nat -> string {
    (k: nat) => RandomLabel(draws(k))
  }

  /** The id and output once a domain exists; `'/'.join` needs strings. */
  function Finish(userPoolId: Value, domain: Value, sent: seq<ApiCall>): (o: Outcome<seq<ApiCall>>)
    ensures o.after == sent
    ensures o.ret.Returned? <==> userPoolId.Str? && domain.Str?
    ensures o.ret.Returned? ==>
      o.ret.data == Some([("Domain", domain)]) && o.id == Some(ResourceId(userPoolId.s, domain.s))
  {
    if userPoolId.Str? && domain.Str? then Return([("Domain", domain)], Some(ResourceId(userPoolId.s, domain.s)), sent)
    else Raise(TypeError("sequence item: expected str instance"), None, sent)
  }

  /**
   * `create`: a given Domain is tried once; otherwise random labels are
   * tried until one is accepted. The id is `<UserPoolId>/<domain>` and the
   * output Domain is that domain.
   */
  function Create(cfg: Config, api: Api, draws: nat -> nat -> nat, budget: nat): (o: Outcome<seq<ApiCall>>)
    ensures !cfg.domain.Null? ==> o.after == [TryCall(cfg.userPoolId, cfg.domain)]
    ensures !cfg.domain.Null? && api(TryCall(cfg.userPoolId, cfg.domain)).Err? ==>
      o == Raise(Api(api(TryCall(cfg.userPoolId, cfg.domain)).error), None, o.after)
    ensures cfg.domain.Null? ==> forall i :: 0 <= i < |o.after| ==>
      GetValue(o.after[i].args, "Domain").Str? && DnsLabel(GetValue(o.after[i].args, "Domain").s)
    ensures o.ret.Returned? ==> (|o.after| > 0 && api(o.after[|o.after| - 1]).Ok? &&
      exists d :: (o.after[|o.after| - 1] == TryCall(cfg.userPoolId, Str(d)) &&
                   o.ret.data == Some([("Domain", Str(d))]) && cfg.userPoolId.Str? &&
                   o.id == Some(ResourceId(cfg.userPoolId.s, d))))
  {
    if !cfg.domain.Null? then
      var call := TryCall(cfg.userPoolId, cfg.domain);
      match api(call)
      case Err(e) => Raise(Api(e), None, [call])
      case Ok(_) => Finish(cfg.userPoolId, cfg.domain, [call])
    else
      var (res, sent) := Retry(api, cfg.userPoolId, Labels(draws), 0, budget);
      forall i | 0 <= i < |sent| ensures GetValue(sent[i].args, "Domain").Str? && DnsLabel(GetValue(sent[i].args, "Domain").s) {
        TryCallDomain(cfg.userPoolId, Str(Labels(draws)(i)));
        RandomLabelIsDnsLabel(draws(i));
      }
      match res
      case Err(e) => Raise(e, None, sent)
      case Ok(name) => Finish(cfg.userPoolId, Str(name), sent)
  }

  /**
   * The loop stops at the first label that is not taken: with `n` labels
   * rejected as taken and the next one accepted, attempt `n` succeeds after
   * `n + 1` requests.
   */
  lemma {:induction false} FirstFreeLabel(api: Api, userPoolId: Value, labels: nat -> string, k: nat, budget: nat, n: nat)
    requires n < budget
    requires forall j :: k <= j < k + n ==> api(TryCall(userPoolId, Str(labels(j)))) == Err(InvalidParameter)
    requires api(TryCall(userPoolId, Str(labels(k + n)))).Ok?
    ensures Retry(api, userPoolId, labels, k, budget).0 == Ok(labels(k + n))
    ensures |Retry(api, userPoolId, labels, k, budget).1| == n + 1
    decreases n
  {
    if n > 0 {
      assert k + 1 + (n - 1) == k + n;
      FirstFreeLabel(api, userPoolId, labels, k + 1, budget - 1, n - 1);
    }
  }

  /**
   * `while attempt < 10` never stops the loop: ten taken labels in a row are
   * followed by an eleventh request, which succeeds here.
   */
  lemma RetriesPastTen(cfg: Config, api: Api, draws: nat -> nat -> nat, budget: nat)
    requires cfg.domain.Null? && cfg.userPoolId.Str? && budget > MaxAttempts
    requires forall j :: 0 <= j < MaxAttempts ==> api(TryCall(cfg.userPoolId, Str(Labels(draws)(j)))) == Err(InvalidParameter)
    requires api(TryCall(cfg.userPoolId, Str(Labels(draws)(MaxAttempts)))).Ok?
    ensures Create(cfg, api, draws, budget).ret.Returned?
    ensures |Create(cfg, api, draws, budget).after| == MaxAttempts + 1
  {
    FirstFreeLabel(api, cfg.userPoolId, Labels(draws), 0, budget, MaxAttempts);
  }

  /** The bound the loop condition names. */
  const MaxAttempts: nat := 10

  /**
   * The loop with `attempt` incremented, as evidently intended: at most ten
   * attempts; when all ten labels are taken the last rejection is raised.
   */
  function RetryBounded(api: Api, userPoolId: Value, labels: nat -> string, attempt: nat): (r: (Result<string, Error>, seq<ApiCall>))
    ensures attempt <= MaxAttempts ==> |r.1| <= MaxAttempts - attempt
    ensures forall i :: 0 <= i < |r.1| ==> r.1[i] == TryCall(userPoolId, Str(labels(attempt + i)))
    ensures r.0.Ok? ==> |r.1| > 0 && r.0.value == labels(attempt + |r.1| - 1) && api(r.1[|r.1| - 1]).Ok?
    decreases MaxAttempts - attempt
  {
    if attempt >= MaxAttempts then (Err(Api(InvalidParameter)), [])
    else
      var call := TryCall(userPoolId, Str(labels(attempt)));
      match api(call)
      case Ok(_) => (Ok(labels(attempt)), [call])
      case Err(InvalidParameter) =>
        var (res, sent) := RetryBounded(api, userPoolId, labels, attempt + 1);
        assert forall i :: 1 <= i < |sent| + 1 ==> ([call] + sent)[i] == sent[i - 1];
        (res, [call] + sent)
      case Err(e) => (Err(Api(e)), [call])
  }

  /** `create` with the bounded loop: never more than ten requests. */
  function CreateBounded(cfg: Config, api: Api, draws: nat -> nat -> nat): (o: Outcome<seq<ApiCall>>)
    ensures |o.after| <= MaxAttempts
    ensures o.ret.Returned? ==> |o.after| > 0 && api(o.after[|o.after| - 1]).Ok?
  {
    if !cfg.domain.Null? then
      var call := TryCall(cfg.userPoolId, cfg.domain);
      match api(call)
      case Err(e) => Raise(Api(e), None, [call])
      case Ok(_) => Finish(cfg.userPoolId, cfg.domain, [call])
    else
      var (res, sent) := RetryBounded(api, cfg.userPoolId, Labels(draws), 0);
      match res
      case Err(e) => Raise(e, None, sent)
      case Ok(name) => Finish(cfg.userPoolId, Str(name), sent)
  }

  /** The bounded loop also stops at the first label that is not taken. */
  lemma {:induction false} FirstFreeLabelBounded(api: Api, userPoolId: Value, labels: nat -> string, attempt: nat, n: nat)
    requires attempt + n < MaxAttempts
    requires forall j :: attempt <= j < attempt + n ==> api(TryCall(userPoolId, Str(labels(j)))) == Err(InvalidParameter)
    requires api(TryCall(userPoolId, Str(labels(attempt + n)))).Ok?
    ensures RetryBounded(api, userPoolId, labels, attempt).0 == Ok(labels(attempt + n))
    ensures |RetryBounded(api, userPoolId, labels, attempt).1| == n + 1
    decreases n
  {
    if n > 0 {
      assert attempt + 1 + (n - 1) == attempt + n;
      FirstFreeLabelBounded(api, userPoolId, labels, attempt + 1, n - 1);
    }
  }

  /** Within ten attempts the bounded loop does what the written one does. */
  lemma BoundedAgrees(api: Api, userPoolId: Value, labels: nat -> string, attempt: nat, budget: nat, n: nat)
    requires attempt + n < MaxAttempts && n < budget
    requires forall j :: attempt <= j < attempt + n ==> api(TryCall(userPoolId, Str(labels(j)))) == Err(InvalidParameter)
    requires api(TryCall(userPoolId, Str(labels(attempt + n)))).Ok?
    ensures RetryBounded(api, userPoolId, labels, attempt) == Retry(api, userPoolId, labels, attempt, budget)
  {
    FirstFreeLabel(api, userPoolId, labels, attempt, budget, n);
    FirstFreeLabelBounded(api, userPoolId, labels, attempt, n);
    var a := RetryBounded(api, userPoolId, labels, attempt);
    var b := Retry(api, userPoolId, labels, attempt, budget);
    assert a.1 == b.1;
  }

  /**
   * `update`: a changed UserPoolId or Domain creates a new domain (the old
   * one is deleted in the cleanup phase); otherwise the domain recorded in
   * the physical id is returned.
   */
  function Update(cfg: Config, props: Props, oldProps: Props, id: string, changed: Changed, api: Api,
                  draws: nat -> nat -> nat, budget: nat): (o: Outcome<seq<ApiCall>>)
    ensures changed(props, oldProps, "UserPoolId") || changed(props, oldProps, "Domain") ==>
      o == Create(cfg, api, draws, budget)
    ensures !changed(props, oldProps, "UserPoolId") && !changed(props, oldProps, "Domain") ==>
      o == Return([("Domain", Str(SplitResourceId(id).1))], Some(id), [])
  {
    if changed(props, oldProps, "UserPoolId") || changed(props, oldProps, "Domain") then Create(cfg, api, draws, budget)
    else Return([("Domain", Str(SplitResourceId(id).1))], Some(id), [])
  }

  /** An update that changes nothing reports the domain that was created. */
  lemma UpdateKeepsDomain(cfg: Config, props: Props, oldProps: Props, changed: Changed, api: Api,
                          draws: nat -> nat -> nat, budget: nat, userPoolId: string, domain: string)
    requires !changed(props, oldProps, "UserPoolId") && !changed(props, oldProps, "Domain")
    requires '/' !in domain
    ensures Update(cfg, props, oldProps, ResourceId(userPoolId, domain), changed, api, draws, budget).ret ==
            Returned(Some([("Domain", Str(domain))]))
  {
    SplitResourceIdOf(userPoolId, domain);
  }

  function DeleteCall(id: string): ApiCall {
    var (userPoolId, domain) := SplitResourceId(id);
    ApiCall("delete_user_pool_domain", [("UserPoolId", Str(userPoolId)), ("Domain", Str(domain))])
  }

  /** `delete`: a domain that is gone or rejected as invalid counts as deleted. */
  function Delete(id: string, api: Api): (o: Outcome<seq<ApiCall>>)
    ensures o.after == [DeleteCall(id)]
    ensures o.ret.Returned? <==> api(DeleteCall(id)).Ok? ||
                                 api(DeleteCall(id)) == Err(ResourceNotFound) || api(DeleteCall(id)) == Err(InvalidParameter)
    ensures o.ret.Raised? ==> o.ret.err == Api(api(DeleteCall(id)).error)
  {
    match api(DeleteCall(id))
    case Ok(_) => ReturnNone(Some(id), [DeleteCall(id)])
    case Err(e) =>
      if e == ResourceNotFound || e == InvalidParameter then ReturnNone(Some(id), [DeleteCall(id)])
      else Raise(Api(e), Some(id), [DeleteCall(id)])
  }

  /** Delete removes the domain that create made, in the pool it made it in. */
  lemma DeleteUndoesCreate(cfg: Config, api: Api, draws: nat -> nat -> nat, budget: nat)
    requires Create(cfg, api, draws, budget).ret.Returned?
    requires cfg.domain.Null? || (cfg.domain.Str? && '/' !in cfg.domain.s)
    ensures var o := Create(cfg, api, draws, budget);
      DeleteCall(o.id.value) ==
        ApiCall("delete_user_pool_domain", o.after[|o.after| - 1].args)
  {
    var o := Create(cfg, api, draws, budget);
    var d :| o.after[|o.after| - 1] == TryCall(cfg.userPoolId, Str(d)) &&
             o.ret.data == Some([("Domain", Str(d))]) && cfg.userPoolId.Str? &&
             o.id == Some(ResourceId(cfg.userPoolId.s, d));
    assert '/' !in d by {
      TryCallDomain(cfg.userPoolId, Str(d));
      assert GetValue(o.after[|o.after| - 1].args, "Domain") == Str(d);
      if cfg.domain.Null? {
        assert DnsLabel(d);
      } else {
        assert o.after == [TryCall(cfg.userPoolId, cfg.domain)];
      }
    }
    SplitResourceIdOf(cfg.userPoolId.s, d);
  }
}

/**
 * The user pool identity provider: a federated identity provider (SAML,
 * OIDC, social) registered in a user pool.
 */
module CognitoIdentityProvider {
  import opened Wrappers
  import opened Dicts
  import opened Values
  import opened Lifecycle
  import opened CognitoIds

  datatype Config = Config(userPoolId: Value, providerName: Value, providerType: Value, providerDetails: Value,
                           attributeMapping: Value, idpIdentifiers: Value)

  /**
   * `validate`: UserPoolId, ProviderName, ProviderType and ProviderDetails
   * are required; AttributeMapping defaults to None and IdpIdentifiers to [].
   */
  function Validate(props: Props): (r: Result<Config, Error>)
    ensures r.Ok? <==> HasKey(props, "UserPoolId") && HasKey(props, "ProviderName") &&
                       HasKey(props, "ProviderType") && HasKey(props, "ProviderDetails")
    ensures r.Err? ==> r.error == Invalid
    ensures r.Ok? ==> r.value.attributeMapping == GetValue(props, "AttributeMapping") &&
                      r.value.idpIdentifiers == GetOr(props, "IdpIdentifiers", List([]))
  {
    if HasKey(props, "UserPoolId") && HasKey(props, "ProviderName") &&
       HasKey(props, "ProviderType") && HasKey(props, "ProviderDetails")
    then Ok(Config(GetValue(props, "UserPoolId"), GetValue(props, "ProviderName"), GetValue(props, "ProviderType"),
                   GetValue(props, "ProviderDetails"), GetValue(props, "AttributeMapping"),
                   GetOr(props, "IdpIdentifiers", List([]))))
    else Err(Invalid)
  }

  /**
   * The keyword arguments of the create (`withType`) and update requests:
   * ProviderType only on create, AttributeMapping only when it is not None.
   */
  function Args(cfg: Config, withType: bool): Props {
    [("UserPoolId", cfg.userPoolId), ("ProviderName", cfg.providerName)] +
    (if withType then [("ProviderType", cfg.providerType)] else []) +
    [("ProviderDetails", cfg.providerDetails), ("IdpIdentifiers", cfg.idpIdentifiers)] +
    (if cfg.attributeMapping.Null? then [] else [("AttributeMapping", cfg.attributeMapping)])
  }

  /**
   * The request carries ProviderType exactly on create and AttributeMapping
   * exactly when it is not None, and the required values under their names.
   */
  lemma ArgsKeys(cfg: Config, withType: bool)
    ensures HasKey(Args(cfg, withType), "ProviderType") <==> withType
    ensures HasKey(Args(cfg, withType), "AttributeMapping") <==> !cfg.attributeMapping.Null?
    ensures Get(Args(cfg, withType), "UserPoolId") == Some(cfg.userPoolId)
    ensures Get(Args(cfg, withType), "ProviderName") == Some(cfg.providerName)
    ensures Get(Args(cfg, withType), "ProviderDetails") == Some(cfg.providerDetails)
  {
    ArgsOptional(cfg, withType);
    ArgsRequired(cfg, withType);
  }

  lemma ArgsOptional(cfg: Config, withType: bool)
    ensures HasKey(Args(cfg, withType), "ProviderType") <==> withType
    ensures HasKey(Args(cfg, withType), "AttributeMapping") <==> !cfg.attributeMapping.Null?
  {
    var a := Args(cfg, withType);
    if withType {
      assert a[2] == ("ProviderType", cfg.providerType);
    } else {
      forall i | 0 <= i < |a| ensures a[i].0 != "ProviderType" {
      }
    }
    if cfg.attributeMapping.Null? {
      forall i | 0 <= i < |a| ensures a[i].0 != "AttributeMapping" {
      }
    } else {
      assert a[|a| - 1].0 == "AttributeMapping";
    }
  }

  lemma ArgsRequired(cfg: Config, withType: bool)
    ensures Get(Args(cfg, withType), "UserPoolId") == Some(cfg.userPoolId)
    ensures Get(Args(cfg, withType), "ProviderName") == Some(cfg.providerName)
    ensures Get(Args(cfg, withType), "ProviderDetails") == Some(cfg.providerDetails)
  {
    var a := Args(cfg, withType);
    assert a[0].0 == "UserPoolId" && a[1].0 == "ProviderName";
    if withType {
      assert a[2].0 == "ProviderType";
      assert a[3].0 == "ProviderDetails";
      GetHead(a, "ProviderDetails");
      GetHead(a[1..], "ProviderDetails");
      GetHead(a[2..], "ProviderDetails");
      GetHead(a[3..], "ProviderDetails");
    } else {
      assert a[2].0 == "ProviderDetails";
      GetHead(a, "ProviderDetails");
      GetHead(a[1..], "ProviderDetails");
      GetHead(a[2..], "ProviderDetails");
    }
    GetHead(a, "UserPoolId");
    GetHead(a, "ProviderName");
    GetHead(a[1..], "ProviderName");
  }

  function CreateCall(cfg: Config): ApiCall {
    ApiCall("create_identity_provider", Args(cfg, true))
  }

  /** The id from the response: `response['IdentityProvider']` names the pool and the provider. */
  function IdOf(response: Value): (r: Result<string, Error>)
    ensures r.Ok? ==> exists pool, name :: (
      Index(response, "IdentityProvider").Ok? &&
      Index(Index(response, "IdentityProvider").value, "UserPoolId") == Ok(Str(pool)) &&
      Index(Index(response, "IdentityProvider").value, "ProviderName") == Ok(Str(name)) &&
      r.value == ResourceId(pool, name))
  {
    var idp :- Index(response, "IdentityProvider");
    var pool :- Index(idp, "UserPoolId");
    var name :- Index(idp, "ProviderName");
    if pool.Str? && name.Str? then Ok(ResourceId(pool.s, name.s))
    else Err(TypeError("sequence item: expected str instance"))
  }

  /** `create`: register the provider; the id is `<UserPoolId>/<ProviderName>` as Cognito reports them. */
  function Create(cfg: Config, id: Option<string>, api: Api): (o: Outcome<seq<ApiCall>>)
    ensures o.after == [CreateCall(cfg)]
    ensures o.ret.Returned? <==> api(CreateCall(cfg)).Ok? && IdOf(api(CreateCall(cfg)).value).Ok?
    ensures o.ret.Returned? ==> o.ret.data == Some([]) && o.id == Some(IdOf(api(CreateCall(cfg)).value).value)
    ensures o.ret.Raised? ==> o.id == id
  {
    match api(CreateCall(cfg))
    case Err(e) => Raise(Api(e), id, [CreateCall(cfg)])
    case Ok(response) =>
      match IdOf(response)
      case Err(e) => Raise(e, id, [CreateCall(cfg)])
      case Ok(newId) => Return([], Some(newId), [CreateCall(cfg)])
  }

  function UpdateCall(cfg: Config): ApiCall {
    ApiCall("update_identity_provider", Args(cfg, false))
  }

  /**
   * `update`: a new pool or name creates a new provider; a new type alone
   * is refused; anything else is updated in place, without ProviderType.
   */
  function Update(cfg: Config, props: Props, oldProps: Props, id: string, changed: Changed, api: Api): (o: Outcome<seq<ApiCall>>)
    ensures changed(props, oldProps, "UserPoolId") || changed(props, oldProps, "ProviderName") ==>
      o == Create(cfg, Some(id), api)
    ensures !changed(props, oldProps, "UserPoolId") && !changed(props, oldProps, "ProviderName") &&
            changed(props, oldProps, "ProviderType") ==>
      o.ret.Raised? && o.ret.err.RuntimeError? && o.after == []
    ensures o.ret.Returned? && !changed(props, oldProps, "UserPoolId") && !changed(props, oldProps, "ProviderName") ==>
      o.after == [UpdateCall(cfg)] && !HasKey(o.after[0].args, "ProviderType") && o.id == Some(id)
  {
    if changed(props, oldProps, "UserPoolId") || changed(props, oldProps, "ProviderName") then Create(cfg, Some(id), api)
    else if changed(props, oldProps, "ProviderType") then
      Raise(RuntimeError("ProviderType can not be changed. (Change ProviderName to create a new one)"), Some(id), [])
    else
      ArgsKeys(cfg, false);
      match api(UpdateCall(cfg))
      case Err(e) => Raise(Api(e), Some(id), [UpdateCall(cfg)])
      case Ok(_) => Return([], Some(id), [UpdateCall(cfg)])
  }

  function DeleteCall(id: string): ApiCall {
    var (userPoolId, name) := SplitResourceId(id);
    ApiCall("delete_identity_provider", [("UserPoolId", Str(userPoolId)), ("ProviderName", Str(name))])
  }

  /** `delete`: a provider that is gone or rejected as invalid counts as deleted. */
  function Delete(id: string, api: Api): (o: Outcome<seq<ApiCall>>)
    ensures o.after == [DeleteCall(id)]
    ensures o.ret.Returned? <==> api(DeleteCall(id)).Ok? ||
                                 api(DeleteCall(id)) == Err(ResourceNotFound) || api(DeleteCall(id)) == Err(InvalidParameter)
  {
    match api(DeleteCall(id))
    case Ok(_) => ReturnNone(Some(id), [DeleteCall(id)])
    case Err(e) =>
      if e == ResourceNotFound || e == InvalidParameter then ReturnNone(Some(id), [DeleteCall(id)])
      else Raise(Api(e), Some(id), [DeleteCall(id)])
  }

  /** Delete targets the pool and provider Cognito reported on create, when the name has no '/'. */
  lemma DeleteTargetsCreated(cfg: Config, api: Api, pool: string, name: string)
    requires api(CreateCall(cfg)) == Ok(Obj([("IdentityProvider", Obj([("UserPoolId", Str(pool)), ("ProviderName", Str(name))]))]))
    requires '/' !in name
    ensures Create(cfg, None, api).id == Some(ResourceId(pool, name))
    ensures DeleteCall(ResourceId(pool, name)) ==
            ApiCall("delete_identity_provider", [("UserPoolId", Str(pool)), ("ProviderName", Str(name))])
  {
    var idp: Dict<Value> := [("UserPoolId", Str(pool)), ("ProviderName", Str(name))];
    GetHead(idp, "ProviderName");
    GetHead(idp[1..], "ProviderName");
    SplitResourceIdOf(pool, name);
  }
}

/**
 * The user pool client provider (current version): an app client of a user
 * pool, whose id is the physical id and whose secret is an output.
 */
module CognitoUserPoolClient {
  import opened Wrappers
  import opened Dicts
  import opened Values
  import opened Lifecycle
  import Strings

  /** `convertToBool`: a string means true exactly when it is 'true' in any case; other values pass unchanged. */
  function ConvertToBool(v: Value): (r: Value)
    ensures v.Str? ==> r.Bool? && (r.b <==> Strings.Lower(v.s) == "true")
    ensures !v.Str? ==> r == v
  {
    if v.Str? then Bool(Strings.Lower(v.s) == "true") else v
  }

  /** The optional settings sent as given, in request order. */
  const SettingKeys: seq<string> := [
    "RefreshTokenValidity", "ReadAttributes", "WriteAttributes", "ExplicitAuthFlows",
    "SupportedIdentityProviders", "CallbackURLs", "LogoutURLs", "DefaultRedirectURI",
    "AllowedOAuthFlows", "AllowedOAuthScopes"]

  datatype Config = Config(userPoolId: Value, clientName: Value, generateSecret: Value, settings: Props,
                           allowedOAuthFlowsUserPoolClient: Value)

  /** The values of `keys` in `props`, None where missing. */
  function Pick(props: Props, keys: seq<string>): (r: Props)
    ensures |r| == |keys|
    ensures forall i :: 0 <= i < |keys| ==> r[i] == (keys[i], GetValue(props, keys[i]))
  {
    seq(|keys|, i requires 0 <= i < |keys| => (keys[i], GetValue(props, keys[i])))
  }

  /**
   * `validate`: ClientName and UserPoolId are required; GenerateSecret and
   * AllowedOAuthFlowsUserPoolClient go through `convertToBool`.
   */
  function Validate(props: Props): (r: Result<Config, Error>)
    ensures r.Ok? <==> HasKey(props, "ClientName") && HasKey(props, "UserPoolId")
    ensures r.Err? ==> r.error == Invalid
    ensures r.Ok? ==> r.value.generateSecret == ConvertToBool(GetValue(props, "GenerateSecret")) &&
                      r.value.allowedOAuthFlowsUserPoolClient == ConvertToBool(GetValue(props, "AllowedOAuthFlowsUserPoolClient")) &&
                      r.value.settings == Pick(props, SettingKeys)
  {
    if HasKey(props, "ClientName") && HasKey(props, "UserPoolId") then
      Ok(Config(GetValue(props, "UserPoolId"), GetValue(props, "ClientName"), ConvertToBool(GetValue(props, "GenerateSecret")),
                Pick(props, SettingKeys), ConvertToBool(GetValue(props, "AllowedOAuthFlowsUserPoolClient"))))
    else Err(Invalid)
  }

  /** All fields of a request before the None values are dropped; GenerateSecret only on create. */
  function Fields(cfg: Config, withSecret: bool): Props {
    [("UserPoolId", cfg.userPoolId), ("ClientName", cfg.clientName)] +
    (if withSecret then [("GenerateSecret", cfg.generateSecret)] else []) +
    cfg.settings + [("AllowedOAuthFlowsUserPoolClient", cfg.allowedOAuthFlowsUserPoolClient)]
  }

  /** `{k: v for k, v in params.items() if v is not None}` */
  function Params(cfg: Config, withSecret: bool): (r: Props)
    ensures forall i :: 0 <= i < |r| ==> !r[i].1.Null? && r[i] in Fields(cfg, withSecret)
    ensures forall k :: HasKey(r, k) <==> exists i :: (0 <= i < |Fields(cfg, withSecret)| &&
                        Fields(cfg, withSecret)[i].0 == k && !Fields(cfg, withSecret)[i].1.Null?)
  {
    var r := DropNone(Fields(cfg, withSecret));
    forall k ensures HasKey(r, k) <==> exists i :: (0 <= i < |Fields(cfg, withSecret)| &&
                     Fields(cfg, withSecret)[i].0 == k && !Fields(cfg, withSecret)[i].1.Null?) {
      FilterHasKey(Fields(cfg, withSecret), IsPresent, k);
    }
    r
  }

  function CreateCall(cfg: Config): ApiCall {
    ApiCall("create_user_pool_client", Params(cfg, true))
  }

  function UpdateCall(cfg: Config, id: string): ApiCall {
    ApiCall("update_user_pool_client", [("ClientId", Str(id))] + Params(cfg, false))
  }

  /** `response['UserPoolClient'].get('ClientSecret', '')` */
  function Secret(client: Value): (r: Result<Value, Error>)
    ensures client.Obj? ==> r == Ok(GetOr(client.fields, "ClientSecret", Str("")))
  {
    if client.Obj? then Ok(GetOr(client.fields, "ClientSecret", Str(""))) else Err(AttributeError("get"))
  }

  /** `create`: the id is the new ClientId and the output ClientSecret defaults to ''. */
  function Create(cfg: Config, api: Api): (o: Outcome<seq<ApiCall>>)
    ensures o.after == [CreateCall(cfg)]
    ensures o.ret.Returned? ==> exists client, clientId :: (
      api(CreateCall(cfg)) == Ok(client) && Index(client, "UserPoolClient").Ok? &&
      Index(Index(client, "UserPoolClient").value, "ClientId") == Ok(Str(clientId)) &&
      o.id == Some(clientId) &&
      o.ret.data == Some([("ClientSecret", GetOr(Index(client, "UserPoolClient").value.fields, "ClientSecret", Str("")))]))
  {
    match api(CreateCall(cfg))
    case Err(e) => Raise(Api(e), None, [CreateCall(cfg)])
    case Ok(response) =>
      match Index(response, "UserPoolClient")
      case Err(e) => Raise(e, None, [CreateCall(cfg)])
      case Ok(client) =>
        match Index(client, "ClientId")
        case Err(e) => Raise(e, None, [CreateCall(cfg)])
        case Ok(clientId) =>
          if !clientId.Str? then Raise(TypeError("physical resource id must be a string"), None, [CreateCall(cfg)])
          else Return([("ClientSecret", GetOr(client.fields, "ClientSecret", Str("")))], Some(clientId.s), [CreateCall(cfg)])
  }

  /**
   * `update`: a changed GenerateSecret is refused with ValueError and
   * nothing is sent; otherwise the client with the physical id is updated,
   * without GenerateSecret.
   */
  function Update(cfg: Config, props: Props, oldProps: Props, id: string, changed: Changed, api: Api): (o: Outcome<seq<ApiCall>>)
    ensures changed(props, oldProps, "GenerateSecret") ==> o.ret.Raised? && o.ret.err.ValueError? && o.after == []
    ensures !changed(props, oldProps, "GenerateSecret") ==> o.after == [UpdateCall(cfg, id)]
    ensures o.id == Some(id)
    ensures o.ret.Returned? ==> api(UpdateCall(cfg, id)).Ok?
  {
    if changed(props, oldProps, "GenerateSecret") then
      Raise(ValueError("Change of GenerateSecret is not supported for update, please delete and recreate your client"), Some(id), [])
    else
      match api(UpdateCall(cfg, id))
      case Err(e) => Raise(Api(e), Some(id), [UpdateCall(cfg, id)])
      case Ok(response) =>
        match Index(response, "UserPoolClient")
        case Err(e) => Raise(e, Some(id), [UpdateCall(cfg, id)])
        case Ok(client) =>
          match Secret(client)
          case Err(e) => Raise(e, Some(id), [UpdateCall(cfg, id)])
          case Ok(secret) => Return([("ClientSecret", secret)], Some(id), [UpdateCall(cfg, id)])
  }

  /** The update request targets the physical id and never carries GenerateSecret. */
  lemma UpdateCallShape(props: Props, id: string)
    requires Validate(props).Ok?
    ensures Get(UpdateCall(Validate(props).value, id).args, "ClientId") == Some(Str(id))
    ensures !HasKey(UpdateCall(Validate(props).value, id).args, "GenerateSecret")
  {
    var cfg := Validate(props).value;
    var args := UpdateCall(cfg, id).args;
    var fields := Fields(cfg, false);
    assert "GenerateSecret" !in SettingKeys;
    forall i | 0 <= i < |args| ensures args[i].0 != "GenerateSecret" {
      if i > 0 {
        var e := Params(cfg, false)[i - 1];
        assert e in fields;
        var j :| 0 <= j < |fields| && fields[j] == e;
        assert fields[j].0 != "GenerateSecret";
      }
    }
  }

  /** Every non-None field is sent on create. */
  lemma CreateSendsPresentFields(cfg: Config, k: string, v: Value)
    requires (k, v) in Fields(cfg, true) && !v.Null?
    ensures HasKey(CreateCall(cfg).args, k)
  {
  }

  function DeleteCall(cfg: Config, id: string): ApiCall {
    ApiCall("delete_user_pool_client", [("UserPoolId", cfg.userPoolId), ("ClientId", Str(id))])
  }

  /** `delete`: a ClientException counts as deleted. */
  function Delete(cfg: Config, id: string, api: Api): (o: Outcome<seq<ApiCall>>)
    ensures o.after == [DeleteCall(cfg, id)]
    ensures o.ret.Returned? <==> api(DeleteCall(cfg, id)).Ok? || api(DeleteCall(cfg, id)) == Err(ClientException)
  {
    match api(DeleteCall(cfg, id))
    case Ok(_) => ReturnNone(Some(id), [DeleteCall(cfg, id)])
    case Err(e) =>
      if e == ClientException then ReturnNone(Some(id), [DeleteCall(cfg, id)])
      else Raise(Api(e), Some(id), [DeleteCall(cfg, id)])
  }
}

/**
 * The earlier user pool client provider. Its validation builds the same
 * request parameters as the current one, and create and delete are the
 * same; update differs: it sends every create parameter, GenerateSecret
 * included, to `update_user_pool_client`.
 */
module CognitoUserPoolClientFlat {
  import opened Wrappers
  import opened Dicts
  import opened Values
  import opened Lifecycle
  import C = CognitoUserPoolClient

  /**
   * GenerateSecret is not a parameter of `update_user_pool_client`: the
   * client library refuses a request carrying it before sending anything.
   */
  predicate Refused(call: ApiCall) {
    call.op == "update_user_pool_client" && HasKey(call.args, "GenerateSecret")
  }

  function UpdateCall(cfg: C.Config, id: string): ApiCall {
    ApiCall("update_user_pool_client", [("ClientId", Str(id))] + C.Params(cfg, true))
  }

  /** `update` as written: the create parameters plus ClientId. */
  function Update(cfg: C.Config, id: string, api: Api): (o: Outcome<seq<ApiCall>>)
    ensures Refused(UpdateCall(cfg, id)) ==> o == Raise(Api(ParamValidation), Some(id), [])
    ensures !Refused(UpdateCall(cfg, id)) ==> o.after == [UpdateCall(cfg, id)]
    ensures o.ret.Returned? ==> api(UpdateCall(cfg, id)).Ok? && o.id == Some(id)
  {
    var call := UpdateCall(cfg, id);
    if Refused(call) then Raise(Api(ParamValidation), Some(id), [])
    else
      match api(call)
      case Err(e) => Raise(Api(e), Some(id), [call])
      case Ok(response) =>
        match Index(response, "UserPoolClient")
        case Err(e) => Raise(e, Some(id), [call])
        case Ok(client) =>
          match C.Secret(client)
          case Err(e) => Raise(e, Some(id), [call])
          case Ok(secret) => Return([("ClientSecret", secret)], Some(id), [call])
  }

  /**
   * Any update of a client whose template sets GenerateSecret fails before
   * reaching Cognito, whether or not the secret setting changed.
   */
  lemma UpdateWithSecretRefused(props: Props, id: string, api: Api)
    requires C.Validate(props).Ok? && !GetValue(props, "GenerateSecret").Null?
    ensures Update(C.Validate(props).value, id, api) == Raise(Api(ParamValidation), Some(id), [])
  {
    var cfg := C.Validate(props).value;
    assert !cfg.generateSecret.Null?;
    SecretRefused(cfg, id);
  }

  /** A present GenerateSecret puts the key into the update request. */
  lemma SecretRefused(cfg: C.Config, id: string)
    requires !cfg.generateSecret.Null?
    ensures Refused(UpdateCall(cfg, id))
  {
    var fields := C.Fields(cfg, true);
    var p := C.Params(cfg, true);
    assert HasKey(p, "GenerateSecret") by {
      assert fields[2] == ("GenerateSecret", cfg.generateSecret);
      assert 0 <= 2 < |fields| && fields[2].0 == "GenerateSecret" && !fields[2].1.Null?;
    }
    HasKeyAppend([("ClientId", Str(id))], p, "GenerateSecret");
  }

  /** The current version's update request is never refused this way. */
  lemma CurrentUpdateAccepted(props: Props, id: string)
    requires C.Validate(props).Ok?
    ensures !Refused(C.UpdateCall(C.Validate(props).value, id))
  {
    C.UpdateCallShape(props, id);
  }
}
