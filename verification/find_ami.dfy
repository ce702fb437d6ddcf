/**
 * The AMI lookup provider: an image filter built from the properties, the
 * images EC2 reports for it, and the newest one's id as the physical id.
 */
module FindAmi {
  import opened Wrappers
  import opened Dicts
  import opened Values
  import opened Lifecycle
  import Ordering

  /**
   * `dict_element_copy_if_exists`: `target[tk] = source[sk]` when `sk` is
   * in `source`, else `target` unchanged.
   */
  function CopyIfExists(source: Props, sk: string, target: Props, tk: string): (r: Props)
    ensures HasKey(r, tk) <==> HasKey(source, sk) || HasKey(target, tk)
    ensures HasKey(source, sk) ==> Get(r, tk) == Get(source, sk)
    ensures !HasKey(source, sk) ==> r == target
    ensures HasKey(source, sk) && !HasKey(target, tk) ==> r == target + [(tk, GetValue(source, sk))]
  {
    if HasKey(source, sk) then
      PutGet(target, tk, GetValue(source, sk), tk);
      PutKeys(target, tk, GetValue(source, sk));
      Put(target, tk, GetValue(source, sk))
    else target
  }

  /** The keys of the filter's first part. */
  predicate OwnerKey(k: string) {
    k == "name" || k == "owner-alias" || k == "owner-id"
  }

  /** The keys of the filter's defaulted part. */
  predicate DefaultKey(k: string) {
    k == "architecture" || k == "root-device-type" || k == "virtualization-type" || k == "state"
  }

  /** The filter names the provider can send. */
  predicate FilterName(k: string) {
    OwnerKey(k) || DefaultKey(k)
  }

  /** The first part of the filter: the name, then the owner entries that are given. */
  function Owners(props: Props, name: Value): (r: Props)
    ensures forall i :: 0 <= i < |r| ==> OwnerKey(r[i].0)
    ensures UniqueKeys(r)
  {
    var alias := CopyIfExists(props, "OwnerAlias", [], "owner-alias");
    var owner := CopyIfExists(props, "OwnerId", [], "owner-id");
    [("name", name)] + alias + owner
  }

  /** The defaulted part of the filter. */
  function Defaults(props: Props): (r: Props)
    ensures forall i :: 0 <= i < |r| ==> DefaultKey(r[i].0)
    ensures UniqueKeys(r)
  {
    [("architecture", GetOr(props, "Architecture", Str("x86_64"))),
     ("root-device-type", GetOr(props, "DeviceType", Str("ebs"))),
     ("virtualization-type", GetOr(props, "VirtualizationType", Str("hvm"))),
     ("state", GetOr(props, "State", Str("available")))]
  }

  /**
   * The filter `validate` builds into `self.filter`, once Name is known.
   * Each assignment there is to a key the filter does not have yet, so
   * each appends an entry: the name, the owner entries when given, then
   * architecture, root-device-type, virtualization-type and state with
   * their defaults.
   */
  function BuildFilter(props: Props, name: Value): Props {
    Owners(props, name) + Defaults(props)
  }

  /** One entry per filter name, each a name the provider knows. */
  lemma BuildFilterKeys(props: Props, name: Value)
    ensures var f := BuildFilter(props, name);
      UniqueKeys(f) && (forall i :: 0 <= i < |f| ==> FilterName(f[i].0))
  {
    var o, t := Owners(props, name), Defaults(props);
    forall i, j | 0 <= i < |o| && 0 <= j < |t|
      ensures o[i].0 != t[j].0
    {
      assert OwnerKey(o[i].0) && DefaultKey(t[j].0);
    }
    UniqueConcat(o, t);
    var f := o + t;
    forall i | 0 <= i < |f|
      ensures FilterName(f[i].0)
    {
      if i >= |o| {
        assert f[i] == t[i - |o|];
      }
    }
  }

  /** `validate`: Name is required; a missing one makes it return False. */
  function Validate(props: Props): (r: Result<Props, Error>)
    ensures r.Ok? <==> HasKey(props, "Name")
    ensures r.Err? ==> r.error == Invalid
  {
    if HasKey(props, "Name") then Ok(BuildFilter(props, GetValue(props, "Name")))
    else Err(Invalid)
  }

  /**
   * What a validated filter holds: the name, each owner entry exactly when
   * its property is given, and the four entries with their defaults; one
   * entry per key, and no key outside the filter names.
   */
  lemma FilterEntries(props: Props)
    requires Validate(props).Ok?
    ensures var f := Validate(props).value;
      UniqueKeys(f) && (forall i :: 0 <= i < |f| ==> FilterName(f[i].0)) &&
      Get(f, "name") == Get(props, "Name") &&
      Get(f, "owner-alias") == Get(props, "OwnerAlias") &&
      Get(f, "owner-id") == Get(props, "OwnerId") &&
      Get(f, "architecture") == Some(GetOr(props, "Architecture", Str("x86_64"))) &&
      Get(f, "root-device-type") == Some(GetOr(props, "DeviceType", Str("ebs"))) &&
      Get(f, "virtualization-type") == Some(GetOr(props, "VirtualizationType", Str("hvm"))) &&
      Get(f, "state") == Some(GetOr(props, "State", Str("available")))
  {
    var name := GetValue(props, "Name");
    BuildFilterKeys(props, name);
    OwnerEntries(props, name);
    DefaultEntries(props, name);
  }

  /** The owner part is looked up first, and the defaulted part has none of its keys. */
  lemma OwnerEntries(props: Props, name: Value)
    requires HasKey(props, "Name") && name == GetValue(props, "Name")
    ensures var f := BuildFilter(props, name);
      Get(f, "name") == Get(props, "Name") &&
      Get(f, "owner-alias") == Get(props, "OwnerAlias") &&
      Get(f, "owner-id") == Get(props, "OwnerId")
  {
    var head := [("name", name)];
    var alias := CopyIfExists(props, "OwnerAlias", [], "owner-alias");
    var owner := CopyIfExists(props, "OwnerId", [], "owner-id");
    OwnerLookup(props, name, "name");
    OwnerLookup(props, name, "owner-alias");
    OwnerLookup(props, name, "owner-id");
    CopyOnlyTarget(props, "OwnerAlias", "owner-alias", "name");
    CopyOnlyTarget(props, "OwnerId", "owner-id", "name");
    CopyOnlyTarget(props, "OwnerId", "owner-id", "owner-alias");
  }

  /** Copying into an empty filter adds at most the target key. */
  lemma CopyOnlyTarget(source: Props, sk: string, tk: string, k: string)
    requires k != tk
    ensures !HasKey(CopyIfExists(source, sk, [], tk), k)
  {
    if HasKey(source, sk) {
      var r := CopyIfExists(source, sk, [], tk);
      assert r == [(tk, GetValue(source, sk))];
    }
  }

  /** Looking up an owner key: the name entry, then the alias entry, then the owner id entry. */
  lemma OwnerLookup(props: Props, name: Value, k: string)
    requires OwnerKey(k)
    ensures var head := [("name", name)];
      var alias := CopyIfExists(props, "OwnerAlias", [], "owner-alias");
      var owner := CopyIfExists(props, "OwnerId", [], "owner-id");
      Get(BuildFilter(props, name), k) ==
        if HasKey(head, k) then Get(head, k) else if HasKey(alias, k) then Get(alias, k) else Get(owner, k)
  {
    var o, t := Owners(props, name), Defaults(props);
    var head := [("name", name)];
    var alias := CopyIfExists(props, "OwnerAlias", [], "owner-alias");
    var owner := CopyIfExists(props, "OwnerId", [], "owner-id");
    assert o == head + alias + owner;
    GetAppend(o, t, k);
    assert !HasKey(t, k) by {
      forall j | 0 <= j < |t|
        ensures t[j].0 != k
      {
        assert DefaultKey(t[j].0);
      }
    }
    GetAppend(head + alias, owner, k);
    GetAppend(head, alias, k);
    HasKeyAppend(head, alias, k);
  }

  /** A defaulted key is looked up past the owner entries. */
  lemma DefaultLookup(props: Props, name: Value, k: string)
    requires DefaultKey(k)
    ensures Get(BuildFilter(props, name), k) == Get(Defaults(props), k)
  {
    var o, t := Owners(props, name), Defaults(props);
    GetAppend(o, t, k);
    assert !HasKey(o, k) by {
      forall j | 0 <= j < |o|
        ensures o[j].0 != k
      {
        assert OwnerKey(o[j].0);
      }
    }
  }

  /** The defaulted part comes after owner entries, whose keys differ. */
  lemma DefaultEntries(props: Props, name: Value)
    ensures var f := BuildFilter(props, name);
      Get(f, "architecture") == Some(GetOr(props, "Architecture", Str("x86_64"))) &&
      Get(f, "root-device-type") == Some(GetOr(props, "DeviceType", Str("ebs"))) &&
      Get(f, "virtualization-type") == Some(GetOr(props, "VirtualizationType", Str("hvm"))) &&
      Get(f, "state") == Some(GetOr(props, "State", Str("available")))
  {
    var o, t := Owners(props, name), Defaults(props);
    DefaultLookup(props, name, "architecture");
    DefaultLookup(props, name, "root-device-type");
    DefaultLookup(props, name, "virtualization-type");
    DefaultLookup(props, name, "state");
    GetUnique(t, 0);
    GetUnique(t, 1);
    GetUnique(t, 2);
    GetUnique(t, 3);
  }

  /** The `Filters` argument: one `{Name, Values: [value]}` per filter entry, in order. */
  function ApiFilters(filter: Props): (r: Value)
    ensures r.List? && |r.items| == |filter|
    ensures forall i :: 0 <= i < |filter| ==>
      r.items[i] == Obj([("Name", Str(filter[i].0)), ("Values", List([filter[i].1]))])
  {
    List(MapItems(filter, (k, v) => Obj([("Name", Str(k)), ("Values", List([v]))])))
  }

  function DescribeCall(filter: Props): ApiCall {
    ApiCall("describe_images", [("Filters", ApiFilters(filter))])
  }

  /** `k.get('CreationDate', '')`, for the images whose date is a string. */
  function CreationDate(image: Value): string {
    if image.Obj? && GetValue(image.fields, "CreationDate").Str? then GetValue(image.fields, "CreationDate").s
    else ""
  }

  const NoImage: string := "No image found matching filters."

  /** `ami_list['Images']` as a list of images, each a mapping. */
  function Images(response: Value): (r: Result<seq<Value>, Error>)
    ensures r.Ok? ==> Index(response, "Images").Ok? && Index(response, "Images").value.List? &&
                      r.value == Index(response, "Images").value.items
    ensures r.Ok? ==> forall i :: 0 <= i < |r.value| ==> r.value[i].Obj?
  {
    var images :- Index(response, "Images");
    if !images.List? then Err(TypeError("not iterable"))
    else if exists i :: 0 <= i < |images.items| && !images.items[i].Obj? then Err(AttributeError("get"))
    else Ok(images.items)
  }

  /**
   * `create` (and `update`, which is `create`): ask the client of `region`
   * for the images; with none, report failure and keep the physical id;
   * otherwise the newest image's ImageId becomes the physical id. `region`
   * is the Region property, defaulting to the Lambda's own region.
   */
  function Create(filter: Props, id: Option<string>, region: Value, apis: Value -> Api): (o: Outcome<seq<ApiCall>>)
    ensures o.after == [DescribeCall(filter)]
    ensures o.ret.Returned? ==> o.ret.data == Some([])
    ensures o.failure.Some? ==>
      o.failure == Some(NoImage) && o.ret.Returned? && o.id == id && apis(region)(DescribeCall(filter)).Ok? && Images(apis(region)(DescribeCall(filter)).value) == Ok([])
    ensures o.ret.Returned? && o.failure.None? ==> exists images: seq<Value>, i: nat, s: string :: (
      apis(region)(DescribeCall(filter)).Ok? && Images(apis(region)(DescribeCall(filter)).value) == Ok(images) &&
      0 <= i < |images| && GetValue(images[i].fields, "ImageId") == Str(s) && o.id == Some(s) &&
      (forall j :: 0 <= j < |images| ==> Ordering.LessEq(CreationDate(images[j]), CreationDate(images[i]))) &&
      (forall j :: 0 <= j < i ==> Ordering.Less(CreationDate(images[j]), CreationDate(images[i]))))
  {
    var call := DescribeCall(filter);
    match apis(region)(call)
    case Err(e) => Raise(Api(e), id, [call])
    case Ok(response) =>
      match Images(response)
      case Err(e) => Raise(e, id, [call])
      case Ok(images) =>
        if |images| == 0 then Outcome(Returned(Some([])), id, Some(NoImage), [call])
        else
          var latest := images[Ordering.FirstMaxBy(images, CreationDate)];
          match Require(latest.fields, "ImageId")
          case Err(e) => Raise(e, id, [call])
          case Ok(imageId) =>
            if imageId.Str? then Return([], Some(imageId.s), [call])
            else Raise(TypeError("physical resource id"), id, [call])
  }

  /**
   * When the creation dates are distinct the chosen image is the one with
   * the newest date, wherever it stands in the list.
   */
  lemma NewestWins(filter: Props, id: Option<string>, region: Value, apis: Value -> Api, images: seq<Value>, n: nat)
    requires apis(region)(DescribeCall(filter)).Ok? && Images(apis(region)(DescribeCall(filter)).value) == Ok(images)
    requires Ordering.DistinctKeys(images, CreationDate)
    requires n < |images| && forall j :: 0 <= j < |images| && j != n ==> Ordering.Less(CreationDate(images[j]), CreationDate(images[n]))
    requires GetValue(images[n].fields, "ImageId").Str?
    ensures Create(filter, id, region, apis) == Return([], Some(GetValue(images[n].fields, "ImageId").s), [DescribeCall(filter)])
  {
    var k := Ordering.FirstMaxBy(images, CreationDate);
    if k != n {
      assert Ordering.Less(CreationDate(images[k]), CreationDate(images[n]));
      assert Ordering.LessEq(CreationDate(images[n]), CreationDate(images[k]));
      Ordering.LessAsymmetric(CreationDate(images[k]), CreationDate(images[n]));
    }
    assert Require(images[n].fields, "ImageId") == Ok(GetValue(images[n].fields, "ImageId"));
  }

  /** `delete`: nothing to remove, nothing sent. */
  function Delete(id: Option<string>): (o: Outcome<seq<ApiCall>>)
    ensures o.ret == Returned(None) && o.after == [] && o.id == id
  {
    ReturnNone(id, [])
  }
}
