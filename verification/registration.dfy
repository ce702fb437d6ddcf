/**
 * The template side of the custom resources: the resource classes a
 * template instantiates, the IAM role and function settings each class
 * contributes to the custom-resources stack, the SSM parameter class's
 * property check, and the indirection that lets a template name the stack
 * holding the Lambda functions through a parameter.
 */
module Registration {
  import opened Wrappers
  import opened Dicts
  import opened Values
  import opened Lifecycle
  import SsmStore
  import SsmParameter
  import SsmParseDict

  /** What a resource class overrides: its extra IAM policy and the runtime it forces. */
  datatype ResourceClass = ResourceClass(resourceType: string, policy: Option<Value>, runtime: Option<string>)

  /** The base class: no extra policy, settings left as they are. */
  function Base(resourceType: string): ResourceClass {
    ResourceClass(resourceType, None, None)
  }

  /** Constructing a resource: ServiceToken is required among its properties. */
  function Construct(props: Props): (r: Result<Props, Error>)
    ensures r.Ok? <==> HasKey(props, "ServiceToken")
    ensures r.Ok? ==> r.value == props
    ensures r.Err? ==> r.error == ValueError("Error: CustomResource without ServiceToken")
  {
    if HasKey(props, "ServiceToken") then Ok(props) else Err(ValueError("Error: CustomResource without ServiceToken"))
  }

  datatype Policy = Policy(name: string, document: Value)

  datatype Role = Role(title: string, path: string, principal: string, policies: seq<Policy>)

  const WriteLogs: Policy := Policy("WriteLogs", Obj([("Version", Str("2012-10-17")), ("Statement", List([Obj([
    ("Effect", Str("Allow")),
    ("Action", List([Str("logs:CreateLogGroup"), Str("logs:CreateLogStream"), Str("logs:PutLogEvents")])),
    ("Resource", Str("arn:aws:logs:*:*:*"))])]))]))

  /**
   * `lambda_role`: the role the class's function runs with, assumable by
   * Lambda, allowed to write logs and, when the class asks for one, given
   * its extra policy as CustomResourcePermissions.
   */
  function LambdaRole(c: ResourceClass, title: string): (r: Role)
    ensures r.title == title && r.path == "/cfn-lambda/" && r.principal == "lambda.amazonaws.com"
    ensures |r.policies| >= 1 && r.policies[0] == WriteLogs
    ensures |r.policies| == 2 <==> c.policy.Some?
    ensures |r.policies| <= 2
    ensures c.policy.Some? ==> r.policies[1] == Policy("CustomResourcePermissions", c.policy.value)
  {
    var extra := match c.policy
      case Some(doc) => [Policy("CustomResourcePermissions", doc)]
      case None => [];
    Role(title, "/cfn-lambda/", "lambda.amazonaws.com", [WriteLogs] + extra)
  }

  /**
   * `function_settings`: Description, Handler and Runtime, then the class's
   * override of the runtime when it has one.
   */
  function FunctionSettings(c: ResourceClass): (r: Props)
    ensures Keys(r) == ["Description", "Handler", "Runtime"]
    ensures r[0].1 == Str(c.resourceType + " - ${AWS::StackName}")
    ensures r[1].1 == Str("index.handler")
    ensures c.runtime.None? ==> r[2].1 == Str("python3.6")
    ensures c.runtime.Some? ==> r[2].1 == Str(c.runtime.value)
  {
    var defaults := [("Description", Str(c.resourceType + " - ${AWS::StackName}")),
                     ("Handler", Str("index.handler")),
                     ("Runtime", Str("python3.6"))];
    match c.runtime
    case None => defaults
    case Some(runtime) => defaults[2 := ("Runtime", Str(runtime))]
  }

  /** The two copies of the SSM resource classes: the older forces python3.12, the newer leaves the runtime. */
  datatype Copy = Older | Newer

  /** A policy document with one statement allowing `actions` on `resource`. */
  function PolicyDocument(actions: seq<string>, resource: string): Value {
    Obj([("Version", Str("2012-10-17")), ("Statement", List([Obj([
      ("Effect", Str("Allow")), ("Action", List(Strs(actions))), ("Resource", Str(resource))])]))])
  }

  function Strs(xs: seq<string>): (r: seq<Value>)
    ensures |r| == |xs|
  {
    if xs == [] then [] else [Str(xs[0])] + Strs(xs[1..])
  }

  lemma {:induction false} StrsHas(xs: seq<string>, a: string)
    ensures Str(a) in Strs(xs) <==> a in xs
  {
    if xs != [] {
      StrsHas(xs[1..], a);
      assert xs == [xs[0]] + xs[1..];
    }
  }

  const SsmActions: seq<string> := ["ssm:PutParameter", "ssm:GetParameters", "ssm:DeleteParameter",
    "ssm:AddTagsToResource", "ssm:RemoveTagsFromResource", "ssm:GetParameter", "secretsmanager:GetSecretValue"]

  const SsmPolicy: Value := PolicyDocument(SsmActions, "*")

  const ParseDictPolicy: Value := PolicyDocument(["ssm:GetParameters"], "*")

  function SsmParameterClass(copy: Copy, resourceType: string): ResourceClass {
    ResourceClass(resourceType, Some(SsmPolicy), if copy == Older then Some("python3.12") else None)
  }

  function ParseDictClass(resourceType: string): ResourceClass {
    ResourceClass(resourceType, Some(ParseDictPolicy), None)
  }

  /** The actions the Allow statements among `statements` grant, in order. */
  function AllowedActions(statements: seq<Value>): seq<Value> {
    if statements == [] then []
    else
      var st := statements[0];
      var here := if st.Obj? && GetValue(st.fields, "Effect") == Str("Allow") && GetValue(st.fields, "Action").List?
        then GetValue(st.fields, "Action").items else [];
      here + AllowedActions(statements[1..])
  }

  /** A policy document allows an action when one of its Allow statements lists it. */
  predicate Allows(doc: Value, action: string) {
    doc.Obj? && GetValue(doc.fields, "Statement").List? &&
    Str(action) in AllowedActions(GetValue(doc.fields, "Statement").items)
  }

  /** The extra policy a class's role carries, if any. */
  function ExtraPolicy(r: Role): Option<Value> {
    if |r.policies| == 2 then Some(r.policies[1].document) else None
  }

  /** The IAM action that authorises an SSM or Secrets Manager client operation. */
  function IamAction(op: string): Option<string> {
    match op
    case "put_parameter" => Some("ssm:PutParameter")
    case "delete_parameter" => Some("ssm:DeleteParameter")
    case "add_tags_to_resource" => Some("ssm:AddTagsToResource")
    case "remove_tags_from_resource" => Some("ssm:RemoveTagsFromResource")
    case "get_parameter" => Some("ssm:GetParameter")
    case "get_parameters" => Some("ssm:GetParameters")
    case "get_secret_value" => Some("secretsmanager:GetSecretValue")
    case _ => None
  }

  /**
   * A class without overrides is deployed with a role that may only write
   * logs, and with the default python3.6 runtime.
   */
  lemma BaseDeployment(resourceType: string, title: string)
    ensures LambdaRole(Base(resourceType), title).policies == [WriteLogs]
    ensures Get(FunctionSettings(Base(resourceType)), "Runtime") == Some(Str("python3.6"))
  {
  }

  /**
   * Either copy of the SSM parameter class is deployed with a role that
   * writes logs and carries the SSM policy; only the older copy runs on
   * python3.12, the newer keeps the default runtime.
   */
  lemma SsmParameterDeployment(copy: Copy, resourceType: string, title: string)
    ensures var r := LambdaRole(SsmParameterClass(copy, resourceType), title);
      r.policies[0] == WriteLogs && ExtraPolicy(r) == Some(SsmPolicy)
    ensures Get(FunctionSettings(SsmParameterClass(copy, resourceType)), "Runtime") ==
      Some(Str(if copy == Older then "python3.12" else "python3.6"))
  {
  }

  /** A policy allows the IAM action that authorises an operation. */
  predicate OpAllowed(doc: Value, op: string) {
    IamAction(op).Some? && Allows(doc, IamAction(op).value)
  }

  /** A one-statement policy document allows exactly the actions it lists. */
  lemma PolicyDocumentAllows(actions: seq<string>, resource: string, a: string)
    ensures Allows(PolicyDocument(actions, resource), a) <==> a in actions
  {
    var stmt := Obj([("Effect", Str("Allow")), ("Action", List(Strs(actions))), ("Resource", Str(resource))]);
    var fields := PolicyDocument(actions, resource).fields;
    assert fields[0].0 == "Version" != "Statement";
    GetHead(fields, "Statement");
    GetHead(fields[1..], "Statement");
    assert GetValue(fields, "Statement") == List([stmt]);
    GetHead(stmt.fields, "Effect");
    assert stmt.fields[1].0 == "Action" != "Effect";
    GetHead(stmt.fields, "Action");
    GetHead(stmt.fields[1..], "Action");
    assert AllowedActions([stmt]) == Strs(actions) + AllowedActions([]);
    StrsHas(actions, a);
  }

  /** The SSM policy allows an operation whose action it lists. */
  lemma SsmOpAllowed(op: string)
    requires IamAction(op).Some? && IamAction(op).value in SsmActions
    ensures OpAllowed(SsmPolicy, op)
  {
    PolicyDocumentAllows(SsmActions, "*", IamAction(op).value);
  }

  lemma PutAllowed() ensures OpAllowed(SsmPolicy, "put_parameter") { SsmOpAllowed("put_parameter"); }
  lemma DeleteAllowed() ensures OpAllowed(SsmPolicy, "delete_parameter") { SsmOpAllowed("delete_parameter"); }
  lemma AddTagsAllowed() ensures OpAllowed(SsmPolicy, "add_tags_to_resource") { SsmOpAllowed("add_tags_to_resource"); }
  lemma RemoveTagsAllowed() ensures OpAllowed(SsmPolicy, "remove_tags_from_resource") { SsmOpAllowed("remove_tags_from_resource"); }
  lemma GetParameterAllowed() ensures OpAllowed(SsmPolicy, "get_parameter") { SsmOpAllowed("get_parameter"); }
  lemma GetSecretAllowed() ensures OpAllowed(SsmPolicy, "get_secret_value") { SsmOpAllowed("get_secret_value"); }

  /**
   * Every request the SSM parameter provider builds, whatever its
   * arguments, is for an operation the SSM policy allows: the puts, deletes
   * and tag changes on the parameter store, and the reads of a ValueFrom
   * parameter or secret.
   */
  lemma SsmPolicyCoversProvider(name: string, kind: Value, value: Value, description: Value, keyId: Value, overwrite: bool,
                                tags: Value, keys: seq<Value>, valueFrom: string, parts: seq<string>)
    ensures OpAllowed(SsmPolicy, SsmStore.PutCall(name, kind, value, description, keyId, overwrite).op)
    ensures OpAllowed(SsmPolicy, SsmStore.DeleteCall(name).op)
    ensures OpAllowed(SsmPolicy, SsmStore.AddTagsCall(name, tags).op)
    ensures OpAllowed(SsmPolicy, SsmStore.RemoveTagsCall(name, keys).op)
    ensures OpAllowed(SsmPolicy, SsmParameter.GetParameterCall(valueFrom).op)
    ensures |parts| >= 8 ==> OpAllowed(SsmPolicy, SsmParameter.GetSecretCall(parts).op)
  {
    PutAllowed();
    DeleteAllowed();
    AddTagsAllowed();
    RemoveTagsAllowed();
    GetParameterAllowed();
    GetSecretAllowed();
  }

  /**
   * The ParseDict class's role writes logs and allows `ssm:GetParameters`,
   * the one call its provider makes, and no other action; its runtime is
   * the default.
   */
  lemma ParseDictDeployment(resourceType: string, title: string)
    ensures var r := LambdaRole(ParseDictClass(resourceType), title);
      r.policies[0] == WriteLogs && ExtraPolicy(r) == Some(ParseDictPolicy)
    ensures forall a :: Allows(ParseDictPolicy, a) <==> a == "ssm:GetParameters"
    ensures Get(FunctionSettings(ParseDictClass(resourceType)), "Runtime") == Some(Str("python3.6"))
  {
    forall a
      ensures Allows(ParseDictPolicy, a) <==> a == "ssm:GetParameters"
    {
      PolicyDocumentAllows(["ssm:GetParameters"], "*", a);
    }
  }

  /** The one request the ParseDict provider builds is for the operation its policy allows. */
  lemma ParseDictPolicyCoversProvider(names: Value)
    ensures OpAllowed(ParseDictPolicy, SsmParseDict.GetCall(names).op)
  {
    PolicyDocumentAllows(["ssm:GetParameters"], "*", "ssm:GetParameters");
  }

  /** The logical names of the two classes' Lambda functions. */
  const SsmParameterName: seq<string> := ["SsmParameter"]
  const ParseDictName: seq<string> := ["SsmParseDict"]

  /** The properties the ParseDict resource requires: Names. */
  const ParseDictRequired: seq<string> := ["Names"]

  /**
   * `Parameter.validate` (both copies): the presence of Value, ValueFrom
   * and RandomValue XORed must be true.
   */
  function ValidateParameter(props: Props): (r: Result<(), Error>)
    ensures r.Err? ==> r.error == TypeError("Parameter: Value, ValueFrom and RandomValue are mutually exclusive")
  {
    var firstTwo := HasKey(props, "Value") != HasKey(props, "ValueFrom");
    if firstTwo != HasKey(props, "RandomValue") then Ok(())
    else Err(TypeError("Parameter: Value, ValueFrom and RandomValue are mutually exclusive"))
  }

  /** How many of the three value sources the properties give. */
  function SourceCount(props: Props): (n: nat)
    ensures n <= 3
  {
    (if HasKey(props, "Value") then 1 else 0) + (if HasKey(props, "ValueFrom") then 1 else 0) +
    (if HasKey(props, "RandomValue") then 1 else 0)
  }

  /**
   * What the XOR accepts: exactly one source, or all three; none or two
   * are refused.
   */
  lemma ValidateParameterCount(props: Props)
    ensures ValidateParameter(props).Ok? <==> SourceCount(props) == 1 || SourceCount(props) == 3
  {
  }

  /** The stack holding the functions: a literal name, or a reference to a template parameter. */
  datatype StackName = Literal(name: string) | Reference(parameter: string)

  const DefaultStackName: StackName := Literal("custom-resources")

  /** `_get_custom_resources_stack_name`: a reference renders as `${<parameter>}` for use inside a Sub. */
  function RenderStackName(s: StackName): string {
    match s
    case Literal(name) => name
    case Reference(p) => "${" + p + "}"
  }

  datatype Parameter = Parameter(title: string, typ: string, default: string, description: string)

  /** Some parameter of the template already has the title. */
  predicate HasTitle(parameters: seq<Parameter>, title: string) {
    exists i :: 0 <= i < |parameters| && parameters[i].title == title
  }

  /**
   * `use_custom_resources_stack_name_parameter`: add a String parameter to
   * the template's parameters and make the stack name refer to it; the
   * parameter added is returned. troposphere's `add_parameter` keys the
   * parameters by title and raises ValueError for a title already there,
   * before the stack name is touched.
   */
  function UseStackNameParameter(parameters: seq<Parameter>, title: string, default: string, description: string):
    Result<(StackName, seq<Parameter>, Parameter), Error>
  {
    if HasTitle(parameters, title) then Err(ValueError("duplicate key \"" + title + "\" detected"))
    else
      var p := Parameter(title, "String", default, description);
      Ok((Reference(title), parameters + [p], p))
  }

  /**
   * The parameter is added exactly when no parameter has its title; then
   * the rendered stack name refers to the parameter returned, a String
   * parameter that the template now holds after its earlier parameters,
   * unchanged. A duplicate title is a ValueError.
   */
  lemma StackNameRefersToParameter(parameters: seq<Parameter>, title: string, default: string, description: string)
    ensures var r := UseStackNameParameter(parameters, title, default, description);
      (r.Ok? <==> forall p :: p in parameters ==> p.title != title) &&
      (r.Err? ==> r.error == ValueError("duplicate key \"" + title + "\" detected")) &&
      (r.Ok? ==> var (name, after, added) := r.value;
         RenderStackName(name) == "${" + added.title + "}" && added.typ == "String" && added.default == default &&
         added in after && |after| == |parameters| + 1 && after[..|parameters|] == parameters)
  {
    if HasTitle(parameters, title) {
      var i :| 0 <= i < |parameters| && parameters[i].title == title;
      assert parameters[i] in parameters;
    }
  }

  /**
   * Before the parameter is used the stack name is `custom-resources`;
   * after it is used with its defaults in a template without a parameter of
   * that title, references render as `${CustomResourcesStack}` and the
   * parameter defaults to `custom-resources`.
   */
  lemma StackNameIndirection(parameters: seq<Parameter>)
    ensures RenderStackName(DefaultStackName) == "custom-resources"
    ensures (forall p :: p in parameters ==> p.title != "CustomResourcesStack") ==>
      var r := UseStackNameParameter(parameters, "CustomResourcesStack", "custom-resources", "Name of the custom resources stack");
      r.Ok? && RenderStackName(r.value.0) == "${CustomResourcesStack}" &&
      r.value.2.default == RenderStackName(DefaultStackName) && r.value.2 in r.value.1
  {
  }
}
