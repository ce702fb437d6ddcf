/**
 * The provider that lists the private addresses a network load balancer
 * sends traffic from: it finds the load balancer's network interfaces by
 * their description and returns their private IPv4 addresses, sorted, as a
 * list and one attribute per position.
 */
module NlbSourceIps {
  import opened Wrappers
  import opened Dicts
  import opened Values
  import opened Lifecycle
  import Strings
  import Ordering

  /** `validate`: LoadBalancerArn is required; a missing one raises KeyError. */
  function Validate(props: Props): (r: Result<Value, Error>)
    ensures r.Ok? <==> HasKey(props, "LoadBalancerArn")
    ensures r.Ok? ==> Get(props, "LoadBalancerArn") == Some(r.value)
    ensures r.Err? ==> r == Err(KeyError("LoadBalancerArn"))
  {
    Require(props, "LoadBalancerArn")
  }

  /**
   * `"ELB " + '/'.join(arn.split(':')[5].split('/')[1:])`: the resource
   * part of the load balancer's ARN without its leading `loadbalancer/`;
   * an ARN with fewer than six fields is an IndexError.
   */
  function Description(arn: string): (r: Result<string, Error>)
    ensures r.Ok? <==> Strings.Field(arn, ':', 5).Some?
    ensures r.Err? ==> r.error == IndexError
    ensures r.Ok? ==> Strings.StartsWith(r.value, "ELB ")
  {
    match Strings.Field(arn, ':', 5)
    case None => Err(IndexError)
    case Some(resource) =>
      var segments := Strings.Split(resource, '/');
      Ok("ELB " + Strings.Join(segments[1..], "/"))
  }

  /**
   * For an ARN `arn:partition:elasticloadbalancing:region:account:kind/name`
   * the description is `ELB ` followed by `name`, whatever slashes `name`
   * holds: `ELB net/<name>/<id>` for a network load balancer.
   */
  lemma DescriptionOfArn(fields: seq<string>, kind: string, name: string)
    requires |fields| == 5
    requires forall i :: 0 <= i < 5 ==> ':' !in fields[i]
    requires ':' !in kind && ':' !in name && '/' !in kind
    ensures Description(Strings.Join(fields + [kind + "/" + name], ":")) == Ok("ELB " + name)
  {
    var resource := kind + "/" + name;
    var all := fields + [resource];
    assert forall i :: 0 <= i < |all| ==> ':' !in all[i] by {
      forall i | 0 <= i < |all| ensures ':' !in all[i] {
        if i == 5 {
          assert resource == kind + ['/'] + name;
        }
      }
    }
    Strings.SplitJoin(all, ':');
    assert Strings.Field(Strings.Join(all, ":"), ':', 5) == Some(resource);
    assert resource == kind + ['/'] + name;
    Strings.SplitConcat(kind, name, '/');
    assert Strings.IndexOf(kind, '/') == None;
    assert Strings.Split(kind, '/') == [kind];
    var segments := Strings.Split(resource, '/');
    assert segments[1..] == Strings.Split(name, '/');
    Strings.JoinSplit(name, '/');
  }

  /** The request for the network interfaces with a given description. */
  function DescribeCall(description: string): ApiCall {
    ApiCall("describe_network_interfaces",
            [("Filters", List([Obj([("Name", Str("description")), ("Values", List([Str(description)]))])]))])
  }

  /** The interfaces a network load balancer owns: those of its type, attached by the AWS account. */
  predicate Owned(eni: Value) {
    Index(eni, "InterfaceType") == Ok(Str("network_load_balancer")) &&
    Index(eni, "Attachment").Ok? &&
    Index(Index(eni, "Attachment").value, "InstanceOwnerId") == Ok(Str("amazon-aws"))
  }

  /**
   * The filter condition on one interface, evaluated as Python's `and`
   * does: the attachment is only looked at for load balancer interfaces.
   */
  function Keep(eni: Value): (r: Result<bool, Error>)
    ensures r == Ok(true) <==> Owned(eni)
    ensures r.Err? <==> (Index(eni, "InterfaceType").Err? ||
                         (Index(eni, "InterfaceType") == Ok(Str("network_load_balancer")) &&
                          (Index(eni, "Attachment").Err? || Index(Index(eni, "Attachment").value, "InstanceOwnerId").Err?)))
  {
    var kind :- Index(eni, "InterfaceType");
    if kind != Str("network_load_balancer") then Ok(false)
    else
      var attachment :- Index(eni, "Attachment");
      var owner :- Index(attachment, "InstanceOwnerId");
      Ok(owner == Str("amazon-aws"))
  }

  /** The interfaces kept, in the order listed. */
  function OwnedOnly(enis: seq<Value>): (r: seq<Value>)
  {
    if |enis| == 0 then []
    else if Owned(enis[0]) then [enis[0]] + OwnedOnly(enis[1..])
    else OwnedOnly(enis[1..])
  }

  /** The interfaces kept are exactly the load balancer's own, none added. */
  lemma {:induction false} OwnedOnlyExact(enis: seq<Value>)
    ensures forall e :: e in OwnedOnly(enis) <==> e in enis && Owned(e)
    ensures multiset(OwnedOnly(enis)) <= multiset(enis)
    decreases |enis|
  {
    if |enis| > 0 {
      OwnedOnlyExact(enis[1..]);
      assert enis == [enis[0]] + enis[1..];
    }
  }

  /** The list comprehension over the interfaces: the first failing test fails it. */
  function KeepOwned(enis: seq<Value>): (r: Result<seq<Value>, Error>)
    ensures r.Ok? <==> forall i :: 0 <= i < |enis| ==> Keep(enis[i]).Ok?
    ensures r.Ok? ==> r.value == OwnedOnly(enis)
  {
    if |enis| == 0 then Ok([])
    else
      match Keep(enis[0])
      case Err(e) => Err(e)
      case Ok(keep) =>
        match KeepOwned(enis[1..])
        case Err(e) =>
          assert !(forall i :: 0 <= i < |enis| ==> Keep(enis[i]).Ok?) by {
            var j :| 0 <= j < |enis[1..]| && Keep(enis[1..][j]).Err?;
            assert enis[j + 1] == enis[1..][j];
          }
          Err(e)
        case Ok(rest) =>
          assert forall i :: 1 <= i < |enis| ==> enis[i] == enis[1..][i - 1];
          if keep then Ok([enis[0]] + rest) else Ok(rest)
  }

  /** `eni['PrivateIpAddress']` for every interface kept. */
  function Addresses(enis: seq<Value>): (r: Result<seq<string>, Error>)
    ensures r.Ok? <==> forall i :: 0 <= i < |enis| ==> Index(enis[i], "PrivateIpAddress").Ok? && Index(enis[i], "PrivateIpAddress").value.Str?
    ensures r.Ok? ==> |r.value| == |enis|
    ensures r.Ok? ==> forall i :: 0 <= i < |enis| ==> Index(enis[i], "PrivateIpAddress") == Ok(Str(r.value[i]))
  {
    if |enis| == 0 then Ok([])
    else
      var first :- Index(enis[0], "PrivateIpAddress");
      if !first.Str? then Err(TypeError("'<' not supported"))
      else
        var rest :- Addresses(enis[1..]);
        assert forall i :: 1 <= i < |enis| ==> enis[i] == enis[1..][i - 1];
        Ok([first.s] + rest)
  }

  function Id(s: string): string { s }

  /** The attribute name for the address at position `i`. */
  function IndexKey(i: nat): string {
    "IPv4Address" + Strings.NatToString(i)
  }

  /** The attributes returned: the whole list, then one attribute per position. */
  function Attributes(ips: seq<string>): (attrs: Props)
    ensures |attrs| == |ips| + 1
  {
    [("IPv4Addresses", StrList(ips))] +
    seq(|ips|, i requires 0 <= i < |ips| => (IndexKey(i), Str(ips[i])))
  }

  lemma IndexKeyInjective(i: nat, j: nat)
    requires IndexKey(i) == IndexKey(j)
    ensures i == j
  {
    assert IndexKey(i)[11..] == Strings.NatToString(i);
    assert IndexKey(j)[11..] == Strings.NatToString(j);
    Strings.NatToStringInjective(i, j);
  }

  /** Every attribute name occurs once. */
  lemma AttributesUnique(ips: seq<string>)
    ensures UniqueKeys(Attributes(ips))
  {
    var attrs := Attributes(ips);
    forall i, j | 0 <= i < j < |attrs| ensures attrs[i].0 != attrs[j].0 {
      var kj := attrs[j].0;
      assert kj == IndexKey(j - 1);
      if i == 0 {
        assert kj[11..] == Strings.NatToString(j - 1);
        assert Strings.IsDigit(kj[11]);
        assert "IPv4Addresses"[11] == 'e';
      } else if attrs[i].0 == kj {
        IndexKeyInjective(i - 1, j - 1);
      }
    }
  }

  /**
   * `IPv4Addresses` is the list and `IPv4Address{i}` the address at
   * position `i`, and there is no other attribute.
   */
  lemma AttributesLookup(ips: seq<string>)
    ensures Get(Attributes(ips), "IPv4Addresses") == Some(StrList(ips))
    ensures forall i :: 0 <= i < |ips| ==> Get(Attributes(ips), IndexKey(i)) == Some(Str(ips[i]))
    ensures forall k :: HasKey(Attributes(ips), k) <==> (k == "IPv4Addresses" || exists i :: 0 <= i < |ips| && k == IndexKey(i))
  {
    var attrs := Attributes(ips);
    AttributesUnique(ips);
    GetUnique(attrs, 0);
    forall i | 0 <= i < |ips| ensures Get(attrs, IndexKey(i)) == Some(Str(ips[i])) {
      GetUnique(attrs, i + 1);
    }
    forall k | HasKey(attrs, k) ensures k == "IPv4Addresses" || exists i :: 0 <= i < |ips| && k == IndexKey(i) {
      var p :| 0 <= p < |attrs| && attrs[p].0 == k;
      if p > 0 {
        assert k == IndexKey(p - 1);
      }
    }
  }

  /**
   * `create` (and `update`, which is the same): describe the interfaces
   * with the load balancer's description, keep the load balancer's own,
   * and return their private addresses sorted.
   */
  function Create(arn: Value, id: Option<string>, api: Api): (o: Outcome<seq<ApiCall>>)
    ensures !arn.Str? ==> o == Raise(AttributeError("split"), id, [])
    ensures arn.Str? && Description(arn.s).Err? ==> o == Raise(IndexError, id, [])
    ensures o.ret.Returned? ==> arn.Str? && Description(arn.s).Ok? && o.after == [DescribeCall(Description(arn.s).value)]
    ensures o.id == id
    ensures o.ret.Returned? ==> exists enis: seq<Value>, ips: seq<string> ::
      api(DescribeCall(Description(arn.s).value)).Ok? &&
      Index(api(DescribeCall(Description(arn.s).value)).value, "NetworkInterfaces") == Ok(List(enis)) &&
      KeepOwned(enis).Ok? && Addresses(KeepOwned(enis).value) == Ok(ips) &&
      o.ret.data == Some(Attributes(Ordering.SortBy(ips, Id)))
  {
    if !arn.Str? then Raise(AttributeError("split"), id, [])
    else
      match Description(arn.s)
      case Err(e) => Raise(e, id, [])
      case Ok(description) =>
        var call := DescribeCall(description);
        match api(call)
        case Err(e) => Raise(Api(e), id, [call])
        case Ok(response) =>
          match Index(response, "NetworkInterfaces")
          case Err(e) => Raise(e, id, [call])
          case Ok(listed) =>
            if !listed.List? then Raise(TypeError("not iterable"), id, [call])
            else
              match KeepOwned(listed.items)
              case Err(e) => Raise(e, id, [call])
              case Ok(kept) =>
                match Addresses(kept)
                case Err(e) => Raise(e, id, [call])
                case Ok(ips) => Return(Attributes(Ordering.SortBy(ips, Id)), id, [call])
  }

  /**
   * What the returned attributes say: `IPv4Addresses` holds the addresses
   * found, sorted, and `IPv4Address{i}` is the `i`-th of them.
   */
  lemma CreateAttributes(ips: seq<string>)
    ensures var sorted := Ordering.SortBy(ips, Id);
      var attrs := Attributes(sorted);
      Ordering.SortedBy(sorted, Id) && multiset(sorted) == multiset(ips) &&
      Get(attrs, "IPv4Addresses") == Some(StrList(sorted)) &&
      (forall i :: 0 <= i < |sorted| ==> Get(attrs, IndexKey(i)) == Some(Str(sorted[i])))
  {
    Ordering.SortBySorted(ips, Id);
    AttributesLookup(Ordering.SortBy(ips, Id));
  }

  /** Every address of a load balancer's own interface is among those returned. */
  lemma OwnedAddressListed(enis: seq<Value>, ips: seq<string>, e: Value)
    requires KeepOwned(enis).Ok? && Addresses(KeepOwned(enis).value) == Ok(ips)
    requires e in enis && Owned(e)
    ensures exists ip :: ip in Ordering.SortBy(ips, Id) && Index(e, "PrivateIpAddress") == Ok(Str(ip))
  {
    var kept := KeepOwned(enis).value;
    OwnedOnlyExact(enis);
    var i :| 0 <= i < |kept| && kept[i] == e;
    assert ips[i] in multiset(ips);
    assert ips[i] in multiset(Ordering.SortBy(ips, Id));
  }

  /**
   * The interfaces' order in the response does not matter: with distinct
   * addresses, any listing of the same interfaces gives the same attributes.
   */
  lemma OrderIndependent(a: seq<string>, b: seq<string>)
    requires multiset(a) == multiset(b)
    requires Ordering.DistinctKeys(a, Id)
    ensures Attributes(Ordering.SortBy(a, Id)) == Attributes(Ordering.SortBy(b, Id))
  {
    Ordering.SortByOrderIndependent(a, b, Id);
  }

  /**
   * `lookup_internal_ipv4`: it asks for the interface holding the public
   * address but returns the public address it was given.
   */
  function LookupInternal(publicIp: string, api: Api): (r: (string, seq<ApiCall>))
    ensures r.0 == publicIp
    ensures |r.1| == 1 && r.1[0].op == "describe_network_interfaces"
  {
    var call := ApiCall("describe_network_interfaces",
                        [("Filters", List([Obj([("Name", Str("addresses.association.public-ip")),
                                                ("Values", List([Str(publicIp)]))])]))]);
    var _ := api(call);
    (publicIp, [call])
  }

  /** `delete`: nothing to remove, nothing sent. */
  function Delete(id: string): (o: Outcome<seq<ApiCall>>)
    ensures o.ret == Returned(None) && o.after == [] && o.id == Some(id)
  {
    DeleteNothing(id)
  }
}
