# custom-resources, modelled in Dafny

This project models the core of a collection of AWS CloudFormation custom
resources. Each resource is a Lambda handler that receives a CloudFormation
request (Create, Update or Delete), validates the resource properties, calls
AWS and responds with a physical resource id and output attributes.

The model covers:
- the providers for DynamoDB items and global tables, SSM parameters (three
  generations) and tags, ACM DNS-validated certificates (three generations),
  MySQL user grants, Cognito user pool clients, domains and identity
  providers, CloudFormation tags, Elastic Beanstalk solution stacks and tags,
  EC2 AMI lookup and the started-instance waiter, Transfer servers and users,
  NLB source addresses, Lambda layer versions, Elastic Transcoder pipelines,
  API Gateway VPC endpoint association, S3 objects and SSM ParseDict;
- the response the waiter builds and sends to CloudFormation;
- the build script (path splitting and joining, the collection of
  providers, the files zipped and the names of the entries inside each
  archive, and the VPC condition placed on the created objects), the
  registration of custom-resource types (`custom_resources/__init__.py`,
  `LambdaBackedCustomResource.py`, `ssm.py`), and the integration-test
  harness's stack states, wait loop, cleanup and parameter list.

The cloud is modelled in two ways. The DynamoDB item and SSM parameter
providers act on a store (a map of items or parameters). The other providers
act through an API oracle: a function from a call (operation name and
arguments) to a result or an API error. Those providers return the trace of
calls they made. The library's change test (`has_property_changed`), the
clock, random values, hashes, JSON rendering and Python's `str()` are
parameters. Every lifecycle operation returns an `Outcome`: its return value
or raised error, the physical id it set, and the state or trace after it.
Python dicts are association lists, so insertion order is kept.

## Model

| member | source | states |
|---|---|---|
| Response.FinishNoJson | lambda_code/ec2/StartedWaiter/index.py:98-119 | the physical id falls back to the log stream and an empty or missing reason to a note naming the log stream; the request identifiers are copied from the event, and a missing one is a KeyError; under RAISE_ON_FAILURE a failed request raises its reason instead of responding |
| Response.DataIsOutputs | lambda_code/ec2/StartedWaiter/index.py:105-107 | the response's Data holds exactly the resource's outputs, key by key |
| Response.Respond | lambda_code/ec2/StartedWaiter/index.py:118-124 | the response is handed to the send function exactly when it could be built; a failed send is swallowed |
| Response.OnlyFailureRaises | lambda_code/cloudformation/Tags/index.py:71-97 | finishing raises only for a missing event field or a failed request under RAISE_ON_FAILURE, never because the send failed |
| Polling.Poll | lambda_code/ec2/StartedWaiter/index.py:60-84 | a wait that ends well ends on a final answer that some round produced, and every sleep it took had at least two poll intervals of time left |
| Polling.ShortOnTimeOneRound | lambda_code/ec2/StartedWaiter/index.py:78-81 | with less than two poll intervals left the loop does not sleep: a non-final answer raises the timeout in that same round |
| Polling.ReadyInTime | lambda_code/ec2/StartedWaiter/index.py:60-84 | when every probe succeeds and the answer is final from round n on, n sleeps' worth of time is enough for the wait to succeed by round n |
| Polling.PollLoop | lambda_code/ec2/StartedWaiter/index.py:60-84 | the `while` loop computes the same result as the recursive definition |
| StartedWaiter.Validate | lambda_code/ec2/StartedWaiter/index.py:44-54 | without InstanceIds the properties are invalid; a list becomes the set of exactly its items and a single id a one-element set; an id that cannot go into a set raises TypeError |
| StartedWaiter.RunningIdsMembers | lambda_code/ec2/StartedWaiter/index.py:65-73 | an id is taken off exactly when some status in the answer reports it as running |
| StartedWaiter.TakeRunning | lambda_code/ec2/StartedWaiter/index.py:65-73 | a pass over one answer removes exactly the running ids from those still waited for, and raises KeyError on an id no longer there |
| StartedWaiter.TakeRunningSucceeds | lambda_code/ec2/StartedWaiter/index.py:71-73 | an answer whose running ids are distinct and all still waited for never raises |
| StartedWaiter.Round | lambda_code/ec2/StartedWaiter/index.py:62-73 | a round asks about the remaining ids and never adds an id back |
| StartedWaiter.Create | lambda_code/ec2/StartedWaiter/index.py:56-91 | a successful wait returns the InstanceIds property verbatim; with no ids it succeeds without asking; an id that is not a string raises TypeError from the join before anything is asked |
| StartedWaiter.PollSawAllRunning | lambda_code/ec2/StartedWaiter/index.py:60-76 | when the loop ends, every id it started with was reported running by a round that still waited for it |
| StartedWaiter.CreateSawAllRunning | lambda_code/ec2/StartedWaiter/index.py:56-88 | `create` succeeds only after every instance was seen running |
| StartedWaiter.RunningInTime | lambda_code/ec2/StartedWaiter/index.py:60-84 | string instance ids running from round n on, with time for n sleeps, make `create` succeed |
| Lifecycle.StrToBool | lambda_code/mysql/MySQLUserGrant/index.py:46 | true exactly for the yes spellings and false exactly for the no spellings, in any case; any other string is a ValueError and a non-string has no `lower()` |
| Lifecycle.FlagOrFalse | lambda_code/ssm/Parameter/index.py:83-84 | a missing flag reads as false; a present one is parsed as `strtobool` parses it |
| Registration.BaseDeployment | custom_resources/LambdaBackedCustomResource.py:20-91 | a class that overrides nothing is deployed with a role that may only write logs, on the default python3.6 runtime |
| Registration.Construct | custom_resources/LambdaBackedCustomResource.py:15-18 | a resource can be constructed exactly when ServiceToken is among its properties, and otherwise raises the ValueError |
| Registration.LambdaRole | custom_resources/LambdaBackedCustomResource.py:39-81 | the role sits under `/cfn-lambda/`, can be assumed by Lambda and can write logs; it has a second policy exactly when the class defines one |
| Registration.FunctionSettings | custom_resources/LambdaBackedCustomResource.py:83-91 | the settings are Description, Handler and Runtime, in that order; the runtime defaults to python3.6 unless the class overrides it |
| Registration.SsmParameterDeployment | custom_resources/ssm.py:34-58 | either SSM parameter class is deployed with a role that writes logs and carries the SSM policy; only the older copy runs on python3.12 |
| Registration.SsmPolicyCoversProvider | custom_resources/ssm.py:40-58 | for any arguments, the operation of every request the SSM parameter provider builds (put, delete, add tags, remove tags, get parameter and, for a secret reference, get secret value) maps to an IAM action the SSM policy allows |
| Registration.PolicyDocumentAllows | custom_resources/LambdaBackedCustomResource.py:59-65 | a one-statement policy document allows exactly the actions it lists |
| Registration.ParseDictDeployment | custom_resources/ssm.py:75-87 | the ParseDict class is deployed with a role that writes logs and allows `ssm:GetParameters`, the one call its provider makes, and nothing else; its runtime is the default |
| Registration.ParseDictPolicyCoversProvider | custom_resources/ssm.py:75-87 | for any names, the operation of the request the ParseDict provider builds maps to an IAM action the ParseDict policy allows |
| Registration.ValidateParameter | custom_resources/ssm.py:26-32 | a rejected property set raises the TypeError naming the three mutually exclusive sources |
| Registration.ValidateParameterCount | src/custom_resources/ssm.py:24-30 | the XOR accepts exactly one value source, or all three; none or two are refused |
| Registration.StackNameRefersToParameter | custom_resources/__init__.py:22-49 | using the parameter succeeds exactly when no parameter of the template already has its title, and otherwise is troposphere's duplicate-key ValueError; on success the rendered stack name refers to the parameter returned, a String parameter the template now holds after its earlier parameters |
| Registration.StackNameIndirection | custom_resources/__init__.py:19-49 | before the parameter is added the stack name is `custom-resources`; when no parameter is titled `CustomResourcesStack` adding it succeeds, the name renders as `${CustomResourcesStack}`, and the parameter defaults to the old name |
| IntegrationHarness.StatesPartition | integration_tests/conftest.py:11-42 | of the seventeen states nine are stable and seven in progress, disjointly, and only REVIEW_IN_PROGRESS is in neither; the states the teardown deletes are the stable ones except DELETE_COMPLETE and DELETE_FAILED |
| IntegrationHarness.Wait | integration_tests/conftest.py:71-82 | the loop returns a wanted state, read from an answer within the polls allowed, after answers that were all unwanted; a timeout means none of the answers it saw was wanted |
| IntegrationHarness.WaitUntilStackInState | integration_tests/conftest.py:45-82 | a stack the first answer does not list counts as DELETE_COMPLETE when that is wanted and is a ValueError otherwise; a returned state is wanted and came within `max_num_of_polls` sleeps |
| IntegrationHarness.WaitFindsFirst | integration_tests/conftest.py:71-82 | the wait ends exactly at the first answer in a wanted state, when that answer comes within the polls allowed |
| IntegrationHarness.WaitLoop | integration_tests/conftest.py:45-82 | the `while` loop computes the same result as the recursive definition |
| IntegrationHarness.Teardown | integration_tests/conftest.py:105-157 | a stack that does not exist is left alone and any other client error is re-raised; DELETE_COMPLETE needs nothing; a deletable state is deleted and the teardown succeeds exactly when the deletion completes; DELETE_FAILED and REVIEW_IN_PROGRESS raise RuntimeError; a stack is deleted only if it was not already gone |
| IntegrationHarness.TeardownAfterSettling | integration_tests/conftest.py:124-157 | a stack found in progress is waited on first; if it settles in DELETE_FAILED the teardown raises RuntimeError, and if it settles in a deletable state it is deleted |
| IntegrationHarness.ParamArray | integration_tests/conftest.py:202-206 | one ParameterKey/ParameterValue object per entry, in order, and the array reads back as the original mapping |
| BuildPaths.PathSplit | build.py:80 | `os.path.split`: the tail is the text after the last '/' and holds no '/' |
| BuildPaths.SplitShrinks | build.py:79-80 | on a relative path each split leaves a strictly shorter relative head, so the loop of `rec_split_path` ends |
| BuildPaths.AbsoluteNeverEmpties | build.py:79-80 | on an absolute path the head never becomes empty and stays absolute, so the loop of `rec_split_path` never ends |
| BuildPaths.RecSplitStep | build.py:79-81 | one round of the loop peels the last component off the head and puts it in front of those already found |
| BuildPaths.RecSplitPath | build.py:71-82 | the `while` loop returns the components of the path, first to last |
| BuildPaths.RecSplitJoin | build.py:71-82 | splitting a path made of components, joined with '/', gives back exactly those components |
| BuildPaths.RecJoin | build.py:85-98 | no components join to the empty path and one to itself, with the list left alone; with two or more the list is popped empty |
| BuildPaths.RecJoinIsJoin | build.py:85-98 | joining components with `os.path.join` one by one gives the components separated by '/' |
| BuildPaths.SplitJoinRoundTrip | build.py:71-98 | `rec_split_path` and `rec_join_path` are inverse on paths made of components |
| Build.HashRespectsSame | build.py:112-118 | equality and hashing look only at the class: changing name and code path changes neither |
| Build.Add | build.py:156-160 | `set.add` keeps one resource per class: the classes grow by the new one, and a resource whose class is present leaves the set unchanged |
| Build.AddAll | build.py:125-160 | adding the found resources one by one keeps at most one resource per class |
| Build.AddAllContents | build.py:125-160 | the set ends up with exactly the classes found, each represented by one of the found resources |
| Build.Stem | build.py:136 | `file[:-3]` of a `.py` file is a non-empty name that, with `.py` appended, gives the file back |
| Build.FsPath | build.py:137-138 | the module's path below the class directory is a non-empty relative path |
| Build.ModuleResources | build.py:146-160 | a module yields exactly the public classes whose code directory `lambda_dir/fs_path/class` exists, named by location plus class name |
| Build.DirResources | build.py:127-160 | a directory yields exactly what its files yield; non-module files yield nothing |
| Build.Found | build.py:126-160 | the walk yields exactly what its directories yield |
| Build.DefinedCustomResources | build.py:121-162 | `defined_custom_resources` holds no two resources of the same class |
| Build.DefinedSound | build.py:121-162 | every resource returned comes from a public class of a module file in the walk whose code directory exists, with that module's location and class name |
| Build.DefinedComplete | build.py:121-162 | every class found in the walk is represented in the result |
| Build.ModuleLocation | build.py:136-140 | a module file in the directory `a/b/...` is located at `[a, b, ..., stem]` |
| Build.LambdaCodeDirShape | build.py:154 | the code directory is `lambda_dir + "/" + fs_path + "/" + class_name` |
| Build.Collect | build.py:221-229 | every collected entry is a non-empty path of components |
| Build.CollectMembers | build.py:221-229 | a path is collected exactly when some entry accounts for it: a file itself, or a path inside a directory other than `__pycache__` |
| Build.CollectSkipsCache | build.py:224-226 | nothing below a `__pycache__` directory is zipped |
| Build.CollectComplete | build.py:221-229 | every file listed, and every file below a non-cache directory listed, is zipped |
| Build.TopEntries | build.py:183-207 | the code directory's top-level entries are kept except `requirements.txt` and `test` |
| Build.TopLevelExcluded | build.py:185-207 | no zipped path from the code directory starts with the top-level `requirements.txt` or `test` |
| Build.MetadataZipped | build.py:209-218 | the generated `_metadata.py` is always zipped at the top level |
| Build.ZipNameOfCode | build.py:231-234 | a file below the code directory is stored under its path relative to that directory |
| Build.ZipNameOfPip | build.py:231-236 | a file below the pip directory, outside the code directory, is stored under its path relative to the pip directory |
| Build.ZipPairs | build.py:230-238 | each zipped file is written from its path on disk under the name `ZipName` derives from that path |
| Build.ZipContents | build.py:172-238 | the ZIP holds one entry per collected code file and one per collected pip file |
| Build.CodeFilesKeepTheirPaths | build.py:221-238 | each code file keeps its path relative to the code directory, unless that path itself starts with the pip directory |
| Build.WithVpcCondition | build.py:331-335 | without a VPC nothing changes; with one the result fails, with "Can't handle multiple conditions", exactly when some created object already has a condition |
| Build.ApplyVpcCondition | build.py:331-335 | the loop over the created objects computes `WithVpcCondition` |
| Build.ConditionOnlyOnce | build.py:331-335 | conditioning the objects a second time fails |
| Build.CreatedObjects | build.py:264-330 | the created objects include the class's role, and no other object carries a condition |
| Build.VpcFailsIffRoleConditioned | build.py:264-335 | in a VPC the script fails exactly when the class gave its role a condition |
| DynamoDbItem.FirstShared | src/lambda_code/dynamodb/Item/index.py:42-44 | finds no attribute exactly when no ItemKey attribute is also in ItemValue, and what it finds is in both |
| DynamoDbItem.Validate | src/lambda_code/dynamodb/Item/index.py:35-44 | on success Overwrite is on exactly when given and `strtobool` reads it as true; ItemKey is taken as given; a missing Region falls back to the function's region; an ItemKey that is not a mapping fails with AttributeError, as its `keys()` call does (a non-string Region or TableName and a non-mapping ItemValue: see "## Left out") |
| DynamoDbItem.ValidateRejectsShared | src/lambda_code/dynamodb/Item/index.py:42-44 | for well-typed properties validation fails, always with ValueError, exactly when some attribute is in both ItemKey and ItemValue |
| DynamoDbItem.ConvertItem | src/lambda_code/dynamodb/Item/index.py:53-66 | converting the item keeps its attribute names in order and converts each value |
| DynamoDbItem.StringifyConvert | src/lambda_code/dynamodb/Item/index.py:52-66 | on values where every `BOOL` is "true" or "false", converting and writing back as CloudFormation sends them gives the input, and every `BOOL` becomes a real boolean |
| DynamoDbItem.ConvertAtKey | src/lambda_code/dynamodb/Item/index.py:56-63 | the round trip above for a value holding an `L` or `M` entry |
| DynamoDbItem.InnerStringifyConvert | src/lambda_code/dynamodb/Item/index.py:56-63 | the round trip above for the contents of a list or map |
| DynamoDbItem.ConstructItemContents | src/lambda_code/dynamodb/Item/index.py:46-68 | with distinct attribute names the item lists each ItemKey attribute, then each ItemValue attribute, every value converted |
| DynamoDbItem.MergedAttributes | src/lambda_code/dynamodb/Item/index.py:48-50 | with distinct attribute names the two `update` calls append the value attributes to the key attributes |
| DynamoDbItem.ConvertedAt | src/lambda_code/dynamodb/Item/index.py:53-66 | entry j of the converted item is entry j of the input with its value converted |
| DynamoDbItem.PhysicalIdOrderIndependent | src/lambda_code/dynamodb/Item/index.py:70-79 | the physical id does not depend on the order in which ItemKey lists its attributes |
| DynamoDbItem.PhysicalIdFields | src/lambda_code/dynamodb/Item/index.py:70-79 | the first two comma-separated fields of the id give back the region and the table |
| DynamoDbItem.PhysicalIdNotSentinel | src/lambda_code/dynamodb/Item/index.py:70-79 | the id always contains a ',', so it never equals "NOT CREATED" |
| DynamoDbItem.ConditionNamesKey | src/lambda_code/dynamodb/Item/index.py:89-100 | there is no condition exactly when Overwrite is on; otherwise it has one `attribute_not_exists(#i)` term per key attribute, and the distinct placeholders `#i` name exactly the key attributes |
| DynamoDbItem.PutItem | src/lambda_code/dynamodb/Item/index.py:89-106 | the put succeeds exactly with Overwrite, or when the key is not empty and no key attribute is stored at the address yet; it stores the item there; without Overwrite an empty key gives an empty ConditionExpression, refused as ValidationException, and a non-empty one fails ConditionalCheckFailed |
| DynamoDbItem.CreateWith | src/lambda_code/dynamodb/Item/index.py:84-109 | the id is the constructed one exactly when the put succeeds; a failed put leaves "NOT CREATED" and the table untouched |
| DynamoDbItem.UpdateWith | src/lambda_code/dynamodb/Item/index.py:111-124 | with an unchanged id the item is put unconditionally under the same id |
| DynamoDbItem.Delete | src/lambda_code/dynamodb/Item/index.py:126-133 | "NOT CREATED" leaves the table alone; any other id removes the item at its address; every other item is untouched |
| DynamoDbItem.UpdateReplaces | src/lambda_code/dynamodb/Item/index.py:111-115 | an update whose id changes is a create: same table afterwards, same id |
| DynamoDbItem.CreateConflict | src/lambda_code/dynamodb/Item/index.py:89-106 | without Overwrite a create fails exactly when an item with that key is already stored; with Overwrite the new item is stored regardless |
| DynamoDbItem.CreateThenDelete | src/lambda_code/dynamodb/Item/index.py:84-133 | deleting after a successful create removes exactly the created item; deleting after a failed create leaves the table as it was |
| DynamoDbItem.CreateOverwriteIdempotent | src/lambda_code/dynamodb/Item/index.py:84-109 | with Overwrite, creating twice leaves the same table and id as creating once |
| DynamoDbItem.CreateKeepsKeys | src/lambda_code/dynamodb/Item/index.py:46-106 | every stored item holds the key attributes of its address, before and after a create |
| DynamoDbItemOld.ReadOverwrite | lambda_code/dynamodb/Item/index.py:34 | Overwrite is on exactly when the property is present and truthy in Python's sense |
| DynamoDbItemOld.ConstructItemContents | lambda_code/dynamodb/Item/index.py:40-45 | with distinct attribute names the item is ItemKey followed by ItemValue, unconverted |
| DynamoDbItemOld.OverwriteFalseOverwrites | lambda_code/dynamodb/Item/index.py:34-83 | `Overwrite: "false"` sends no existence condition, so an item already stored is overwritten |
| DynamoDbItemOld.CurrentRefusesFalse | src/lambda_code/dynamodb/Item/index.py:40-106 | the current provider reads "false" as false and refuses to overwrite an item already stored |
| DynamoDbItemOld.ReadsFalse | src/lambda_code/dynamodb/Item/index.py:40 | `strtobool("false")` is false |
| DynamoDbItemOld.SameChecks | lambda_code/dynamodb/Item/index.py:29-38 | the two providers validate alike and differ only in the Overwrite flag they read |
| DynamoDbItemOld.BoolLeftAsString | lambda_code/dynamodb/Item/index.py:40-45 | an ItemValue attribute `{'BOOL': 'true'}` is stored as the string "true" here, but as the boolean true by the current provider |
| DynamoDbItemOld.ConvertTrueString | src/lambda_code/dynamodb/Item/index.py:54-55 | `{'BOOL': 'true'}` converts to the boolean true |
| SsmStore.StrArg | src/lambda_code/ssm/Parameter/index.py:151-161 | a request argument read as a string is found exactly when the argument is present and is a string |
| SsmStore.TagList | src/lambda_code/ssm/Parameter/index.py:198-202 | a readable tag list has one (key, value) pair per tag |
| SsmStore.TagItems | src/lambda_code/ssm/Parameter/index.py:198-202 | a readable list of tags has one pair per item |
| SsmStore.StrItems | src/lambda_code/ssm/Parameter/index.py:192-196 | a readable list of tag keys holds exactly the listed strings |
| SsmStore.RemoveKeysGet | src/lambda_code/ssm/Parameter/index.py:192-196 | after removing tag keys, a removed key has no value and every other key keeps its value |
| SsmStore.PutParameter | src/lambda_code/ssm/Parameter/index.py:148-161 | a successful `put_parameter` stores the named parameter and leaves every other parameter as it was |
| SsmStore.AddTags | src/lambda_code/ssm/Parameter/index.py:198-202 | `add_tags_to_resource` succeeds only with a well-formed `Tags` list on an existing parameter, whose tags it updates |
| SsmStore.RemoveTags | src/lambda_code/ssm/Parameter/index.py:192-196 | `remove_tags_from_resource` needs `TagKeys`; without it the request is refused as invalid |
| SsmStore.DeleteParameter | src/lambda_code/ssm/Parameter/index.py:247-251 | deleting removes exactly the named parameter and fails with ParameterNotFound exactly when it does not exist |
| SsmStore.ExecAppend | src/lambda_code/ssm/Parameter/index.py:148-202 | sending two batches of requests in turn is sending them together, stopping at the first error |
| SsmStore.PutCall | src/lambda_code/ssm/Parameter/index.py:150-160 | the put request carries the name and the Overwrite flag, and KeyId exactly when one is given |
| SsmStore.PutCallLeading | src/lambda_code/ssm/Parameter/index.py:151-157 | the request's Name and Overwrite arguments are the ones given |
| SsmStore.PutCallArgs | src/lambda_code/ssm/Parameter/index.py:151-160 | the request carries the given Type, Value, Description and, when present, KeyId |
| SsmStore.PutCallNames | src/lambda_code/ssm/Parameter/index.py:151-160 | the request names only arguments that `put_parameter` accepts |
| SsmStore.DeleteResource | src/lambda_code/ssm/Parameter/index.py:243-251 | `delete` always succeeds and leaves the store without the parameter, whether or not it existed |
| SsmTags.Items | src/lambda_code/ssm/Parameter/index.py:179-189 | iterating a tags property succeeds exactly when it is a list |
| SsmTags.TagKey | src/lambda_code/ssm/Parameter/index.py:181-188 | `tag['Key']` succeeds exactly when the tag is a mapping with a Key, and is a KeyError on a mapping without one |
| SsmTags.TagKeys | src/lambda_code/ssm/Parameter/index.py:180-183 | the new tags' keys are read in order, and reading fails at a tag without a key |
| SsmTags.Dropped | src/lambda_code/ssm/Parameter/index.py:185-189 | `to_delete` holds exactly the old keys that are not among the new keys; it fails only on an old tag without a key |
| SsmTags.SyncSteps | src/lambda_code/ssm/Parameter/index.py:168-202 | `update_tags` sends at most removals and then always ends by adding the resource's own tags, unless it fails before sending anything |
| SsmTags.SyncRemovesExactly | src/lambda_code/ssm/Parameter/index.py:179-202 | with well-formed lists the removal is sent exactly when some old key is missing from the new tags, and names exactly those keys |
| SsmTags.KeepIsNewKeys | src/lambda_code/ssm/Parameter/index.py:180-183 | the keys kept are exactly the new tags' keys |
| SsmTags.SyncLeavesNewTags | src/lambda_code/ssm/Parameter/index.py:168-202 | when the old tags cover the parameter's tags, syncing to well-formed new tags leaves the parameter tagged with exactly the new tags and changes nothing else |
| SsmTags.DroppedKeys | src/lambda_code/ssm/Parameter/index.py:185-189 | the removed keys are strings, and every key of an old tag that no new tag has is among them |
| SsmTags.SyncStepsShape | src/lambda_code/ssm/Parameter/index.py:179-202 | for well-formed lists, `update_tags` is a removal of the dropped keys, if any, followed by the add |
| SsmParameter.PyInt | src/lambda_code/ssm/Parameter/index.py:29 | `int(v)` returns an integer unchanged, parses a string exactly when it is a signed decimal, and is a TypeError on None, a list or a mapping |
| SsmParameter.GenerateRandom | src/lambda_code/ssm/Parameter/index.py:27-38 | a non-mapping spec is an AttributeError; success needs an integer length; a length of zero or less gives the empty string whatever the charset; a string charset gives `length` characters all from it (22 letters and digits by default), and an empty one with a positive length is an IndexError; a list charset succeeds exactly when it is non-empty and every item drawn is a string; a non-empty result came from a string or a list charset |
| SsmParameter.ListCharsetAsString | src/lambda_code/ssm/Parameter/index.py:27-38 | a charset given as a list of one-character strings draws exactly the string those characters spell, for every length and every draw |
| SsmParameter.JoinStrs | src/lambda_code/ssm/Parameter/index.py:34-37 | `''.join` of the drawn items succeeds exactly when every item is a string, and otherwise is a TypeError |
| Random.RandomStringCovers | src/lambda_code/ssm/Parameter/index.py:34-37 | every string of the requested length over the charset is a possible result |
| SsmParameter.ZipNonEmpty | src/lambda_code/ssm/Parameter/index.py:137 | the comprehension keeps at most as many entries as there are names and fields |
| SsmParameter.ZipNonEmptyGet | src/lambda_code/ssm/Parameter/index.py:137 | with distinct names, the i-th name is sent exactly when the i-th field exists and is not empty, and carries that field |
| SsmParameter.ZipNonEmptyAbsent | src/lambda_code/ssm/Parameter/index.py:137 | a name that is not listed is never sent |
| SsmParameter.VersionStageSentAsVersionId | src/lambda_code/ssm/Parameter/index.py:132-141 | a reference ending in a version stage, as the comment lays it out, is sent as `VersionId`; the corrected reading sends it as `VersionStage` |
| SsmParameter.SecretVersionArgsDocumented | src/lambda_code/ssm/Parameter/index.py:132-141 | in the corrected reading the ninth field, when not empty, is sent as `VersionStage` and the tenth as `VersionId` |
| SsmParameter.SecretIdFields | src/lambda_code/ssm/Parameter/index.py:135-139 | the SecretId sent has exactly the reference's first seven ':'-fields, without the JSON key |
| SsmParameter.FetchValue | src/lambda_code/ssm/Parameter/index.py:115-146 | the service is the third ':'-field; an 'ssm' reference returns the parameter's value, and ParameterNotFound becomes ValueError; a 'secretsmanager' reference needs eight fields, and ResourceNotFound becomes ValueError; any other service is a ValueError |
| SsmParameter.FetchSecretKey | src/lambda_code/ssm/Parameter/index.py:135-142 | a secret whose JSON is a mapping yields the entry under the eighth field, or None when the mapping has no such key |
| SsmParameter.EncodeValue | src/lambda_code/ssm/Parameter/index.py:21-24 | 'none' returns the value; 'base64' returns text that decodes, as Base64 and then UTF-8, to the value; an unknown encoding is a ValueError, or a TypeError when it cannot be a dict key |
| Base64.EncodeTextRoundTrip | src/lambda_code/ssm/Parameter/index.py:23 | decoding the Base64 text, then the UTF-8 bytes, gives the original text back |
| SsmParameter.Validate | src/lambda_code/ssm/Parameter/index.py:69-95 | validation succeeds exactly when the name is a string or absent (a name of any other type is refused with TypeError, see "## Left out") and every value source and the encoding succeed; the name is the given one or the generated id; the value is random exactly when RandomValue is given; the stored value is the encoding of the raw value |
| SsmParameter.ValueDefaults | src/lambda_code/ssm/Parameter/index.py:71-81 | with no properties the value is '' and the name is the generated id |
| SsmParameter.RandomOverrides | src/lambda_code/ssm/Parameter/index.py:81-90 | with RandomValue given, the stored value is the generated string, encoded, whatever Value and ValueFrom say |
| SsmParameter.ValueFromOverrides | src/lambda_code/ssm/Parameter/index.py:81-90 | without RandomValue, a fetched value wins over Value |
| SsmParameter.ResolveService | src/lambda_code/ssm/Parameter/index.py:106 | the reference uses 'ssm-secure' exactly for a SecureString |
| SsmParameter.Attributes | src/lambda_code/ssm/Parameter/index.py:97-113 | the attributes are Arn and Value; Arn is built from the region, the fifth field of the function's ARN and the name; Value is the dynamic reference for a random value and the value otherwise; a function ARN with fewer than five fields is an IndexError |
| SsmParameter.ArnFields | src/lambda_code/ssm/Parameter/index.py:101 | the Arn's ':'-fields are arn, aws, ssm, the region, the account, and 'parameter' followed by the name |
| SsmParameter.ResolveRefFields | src/lambda_code/ssm/Parameter/index.py:102-110 | the reference is `{{resolve:<service>:<id>}}` |
| SsmParameter.PutApplies | src/lambda_code/ssm/Parameter/index.py:148-161 | the put creates the parameter or, with overwrite, replaces its type, value, description and key and keeps its tags; without overwrite an existing name is refused |
| SsmParameter.PutThen | src/lambda_code/ssm/Parameter/index.py:148-166 | a failed put leaves the id as it was and changes nothing; success reports the attributes under the parameter's name |
| SsmParameter.PutThenSucceeds | src/lambda_code/ssm/Parameter/index.py:148-166 | a put and a tagging that both succeed return the attributes under the new name |
| SsmParameter.CreateRefusesExisting | src/lambda_code/ssm/Parameter/index.py:204-206 | creating a parameter whose name is taken fails with ParameterAlreadyExists and changes nothing |
| SsmParameter.AddInitialTags | src/lambda_code/ssm/Parameter/index.py:164-202 | with no old tags, tagging adds exactly the resource's tags |
| SsmParameter.PutStoresFresh | src/lambda_code/ssm/Parameter/index.py:148-166 | putting under a fresh name stores exactly the configured parameter and tags under that name and leaves every other parameter alone |
| SsmParameter.CreateStores | src/lambda_code/ssm/Parameter/index.py:204-206 | `create` of a fresh name stores exactly the configured parameter |
| SsmParameter.CreateThenDelete | src/lambda_code/ssm/Parameter/index.py:204-251 | deleting what `create` made gives back the store it started from |
| SsmParameter.DeleteRestores | src/lambda_code/ssm/Parameter/index.py:243-251 | deleting a name just written gives back the store it was written into |
| SsmParameter.Update | src/lambda_code/ssm/Parameter/index.py:208-241 | the id afterwards is the old id or the new name, and stays the old id when nothing stored changed |
| SsmParameter.RetagIf | src/lambda_code/ssm/Parameter/index.py:237-239 | when Tags did not change, nothing is sent |
| SsmParameter.UpdateRefusesRandomRegen | src/lambda_code/ssm/Parameter/index.py:210-227 | a change that needs a put, while the value is random and RandomValue is unchanged, is a RuntimeError before anything is sent |
| SsmParameter.UpdateRenameCreates | src/lambda_code/ssm/Parameter/index.py:229-231 | an allowed Name change stores the new parameter exactly as configured and takes the new name as id |
| SsmParameter.UpdateUnchanged | src/lambda_code/ssm/Parameter/index.py:208-241 | when nothing changed, nothing is sent and the id and store stay as they were |
| SsmParameter.UpdateOverwrites | src/lambda_code/ssm/Parameter/index.py:233-235 | a changed value, with Tags unchanged, overwrites the parameter in place and adds the resource's tags to those it had |
| SsmParameter.UpdateAfterPut | src/lambda_code/ssm/Parameter/index.py:233-241 | with Name and Tags unchanged and a put needed, `update` is the put with overwrite |
| SsmParameter.UpdateRetags | src/lambda_code/ssm/Parameter/index.py:237-241 | a change of Tags alone leaves the parameter with exactly the new tags, provided it held no tag keys beyond the old template's |
| SsmParameterOld.Validate | lambda_code/ssm/Parameter/index.py:64-84 | validation succeeds exactly when the name is a string or absent (a name of any other type is refused with TypeError, see "## Left out"), the random value can be generated and both flags are readable by `strtobool`; the value is the generated string for RandomValue and Value (default '') otherwise; each flag is on exactly when given and read as true |
| SsmParameterOld.NonStringFlagRejected | lambda_code/ssm/Parameter/index.py:83 | a ReturnValue that is not a string fails validation |
| SsmParameterOld.FlagsDefaultOff | lambda_code/ssm/Parameter/index.py:83-84 | both flags are off unless the template names them |
| SsmParameterOld.ValueHash | lambda_code/ssm/Parameter/index.py:95-106 | the hash of a random value is the current time; otherwise it is the MD5 of the value |
| SsmParameterOld.Attributes | lambda_code/ssm/Parameter/index.py:86-108 | the attributes fail only on a function ARN with fewer than five fields, which is an IndexError, or on a hash that cannot be computed |
| SsmParameterOld.AttributesContents | lambda_code/ssm/Parameter/index.py:86-108 | the attributes hold the Arn, the Value exactly when ReturnValue is on, and the ValueHash exactly when ReturnValueHash is on |
| SsmParameterOld.HashIgnoresClock | lambda_code/ssm/Parameter/index.py:101-106 | for a value that is not random, the attributes do not depend on when they are computed |
| SsmParameterOld.Update | lambda_code/ssm/Parameter/index.py:166-189 | the id afterwards is the old id or the new name |
| SsmParameterOld.UpdateRenameFirst | lambda_code/ssm/Parameter/index.py:167-169 | a Name change is a create, before any other check |
| SsmParameterOld.UpdateRefusesRandomRegen | lambda_code/ssm/Parameter/index.py:171-181 | for a random value whose RandomValue did not change, a Description, Type or KeyId change is a RuntimeError and nothing is sent |
| SsmParameterOld.UpdateValueAloneSendsNothing | lambda_code/ssm/Parameter/index.py:171-189 | a change of Value alone, or of RandomValue alone, sends nothing, so the stored value stays the old one |
| SsmParameterOld.CreateStores | lambda_code/ssm/Parameter/index.py:110-164 | creating under a fresh name stores exactly the configured parameter and tags |
| SsmParameterFlat.Validate | lambda_code/SsmParameter/index.py:61-76 | a missing Name is a KeyError; otherwise validation succeeds exactly when Name is a string (any other type is refused with TypeError, see "## Left out") and the random value, when asked for, can be generated; the name kept is the given one; each flag is on exactly when given and truthy |
| SsmParameterFlat.FalseStringReturnsValue | lambda_code/SsmParameter/index.py:75-82 | `ReturnValue: "false"` turns the Value attribute on |
| SsmParameterFlat.HashAsWritten | lambda_code/SsmParameter/index.py:84-95 | the hash is the MD5 of a random value and the current time for a given value |
| SsmParameterFlat.AttributesWith | lambda_code/SsmParameter/index.py:78-97 | the attributes fail only when the hash is switched on and cannot be computed |
| SsmParameterFlat.AttributesWithContents | lambda_code/SsmParameter/index.py:78-97 | the attributes hold exactly the switched-on entries: Value and ValueHash |
| SsmParameterFlat.HashFollowsClock | lambda_code/SsmParameter/index.py:84-95 | as written, a value given in the template reports a different hash at each request; with the branches the other way round it does not |
| SsmParameterFlat.DroppedTags | lambda_code/SsmParameter/index.py:133-137 | `to_delete` holds exactly the whole old tags whose key is not kept |
| SsmParameterFlat.SyncStepsAsWritten | lambda_code/SsmParameter/index.py:118-150 | `update_tags` ends by adding the current tags, unless it fails before sending anything |
| SsmParameterFlat.RemoveByTagsRefused | lambda_code/SsmParameter/index.py:140-144 | the removal request, which sends `Tags` rather than `TagKeys`, is refused by the client |
| SsmParameterFlat.DropSendsRemoval | lambda_code/SsmParameter/index.py:127-150 | when an old key is missing from the new tags, the removal request is sent first |
| SsmParameterFlat.DroppedAt | lambda_code/SsmParameter/index.py:135-137 | a tag whose key the new tags lack is among those to delete |
| SsmParameterFlat.DropRefused | lambda_code/SsmParameter/index.py:118-150 | whenever an update drops a tag key, the sync fails with the client's validation error and changes nothing; the sync that sends `TagKeys` leaves exactly the new tags |
| SsmParameterFlat.Update | lambda_code/SsmParameter/index.py:155-177 | the id afterwards is the old id or the new name |
| SsmParameterFlat.UpdateRenameCreates | lambda_code/SsmParameter/index.py:156-158 | a Name change is a create of the new name |
| SsmParameterFlat.UpdateRegeneratesRandom | lambda_code/SsmParameter/index.py:155-177 | an update that changes nothing stored still overwrites a random value with a freshly generated one |
| SsmParameterFlat.UpdateRefusesRandomRegen | lambda_code/SsmParameter/index.py:160-170 | for a random value whose RandomValue did not change, a Description, Type or KeyId change is a RuntimeError and nothing is sent |
| SsmParameterFlat.Delete | lambda_code/SsmParameter/index.py:179-186 | `delete` always succeeds and removes the named parameter |
| AcmCertificate.Send | src/lambda_code/acm/DnsValidatedCertificate/index.py:65-67 | a method the regional client lacks is an AttributeError and sends nothing; a tag request with an empty Tags list is refused by the client; any other request is sent to the region and answered by the service |
| AcmCertificate.Lift | src/lambda_code/acm/DnsValidatedCertificate/index.py:116 | a service answer passes through, and a service error is raised as the client's exception |
| AcmCertificate.SendAll | src/lambda_code/acm/DnsValidatedCertificate/index.py:91-101 | requests go out in order; the trace only grows, and when all succeed it records every request |
| AcmCertificate.NotThereOnKeyError | src/lambda_code/acm/DnsValidatedCertificate/index.py:28-32 | a KeyError becomes "not there yet" and any other outcome passes through |
| AcmCertificate.Record | src/lambda_code/acm/DnsValidatedCertificate/index.py:29-32 | an option yields its record exactly when it has a complete ResourceRecord; an option without one means "not there yet" |
| AcmCertificate.Records | src/lambda_code/acm/DnsValidatedCertificate/index.py:27-32 | the records of all options, in order, exist exactly when every option has one; otherwise some option's error is raised |
| AcmCertificate.ValidationRecords | src/lambda_code/acm/DnsValidatedCertificate/index.py:20-33 | a description without Certificate raises that KeyError; without options it means "not there yet"; on success the mapping is built from every option's record |
| AcmCertificate.ValidationRecordsContents | src/lambda_code/acm/DnsValidatedCertificate/index.py:20-33 | the mapping has a name exactly when some option's record has it and, when names are distinct, maps it to that record's value |
| AcmCertificate.Probe | src/lambda_code/acm/DnsValidatedCertificate/index.py:127-131 | one round ends with the rendered records once they are there, continues while they are not there yet, and raises any other error |
| AcmCertificate.GetAttributesWith | src/lambda_code/acm/DnsValidatedCertificate/index.py:124-137 | a successful wait returns DnsRecords rendered from a description whose records were there |
| AcmCertificate.RecordsArriveInTime | src/lambda_code/acm/DnsValidatedCertificate/index.py:124-137 | when every description can be read, the records are there from round n on, and the function has time for n sleeps plus the two-interval margin, the wait succeeds |
| AcmCertificate.FindTag | src/lambda_code/acm/DnsValidatedCertificate/index.py:36-41 | the search stops at the first tag with the key, or at the end; every tag before it has a different key |
| AcmCertificate.AddOrReplaceTag | src/lambda_code/acm/DnsValidatedCertificate/index.py:36-41 | the first tag with the key gets the value, or a new tag is appended when there is none |
| AcmCertificate.NewTagFields | src/lambda_code/acm/DnsValidatedCertificate/index.py:41 | the appended tag has the key and the value |
| AcmCertificate.AddOrReplaceTagSets | src/lambda_code/acm/DnsValidatedCertificate/index.py:36-41 | afterwards the tag with the key has the value and every other tag is as it was |
| AcmCertificate.AddOrReplaceTagIdempotent | src/lambda_code/acm/DnsValidatedCertificate/index.py:36-41 | setting a tag that is already set changes nothing |
| AcmCertificate.StripAll | src/lambda_code/acm/DnsValidatedCertificate/index.py:60-63 | every alternative name loses one trailing dot; the names must all be strings |
| AcmCertificate.Validate | src/lambda_code/acm/DnsValidatedCertificate/index.py:48-63 | Region defaults to the function's; a missing DomainName is a KeyError; the domain loses one trailing dot |
| AcmCertificate.ValidateTagsStack | src/lambda_code/acm/DnsValidatedCertificate/index.py:53-55 | the validated tags carry the stack id under `cr:cloudformation:stack-id` |
| AcmCertificate.Token | src/lambda_code/acm/DnsValidatedCertificate/index.py:104 | the idempotency token has at most 32 characters, all word characters, and is the request id itself when that already qualifies |
| AcmCertificate.RequestCall | src/lambda_code/acm/DnsValidatedCertificate/index.py:106-116 | the request asks for DNS validation of the domain, with the token, and with the alternative names exactly when there are some |
| AcmCertificate.KeyOnly | src/lambda_code/acm/DnsValidatedCertificate/index.py:86-89 | each removed tag is sent as its key alone |
| AcmCertificate.TagCalls | src/lambda_code/acm/DnsValidatedCertificate/index.py:69-101 | at most a removal and an add; with no old tags only the add, and only when there are new tags |
| AcmCertificate.TagCallsRemoveExactly | src/lambda_code/acm/DnsValidatedCertificate/index.py:76-101 | with well-formed tags the removal names exactly the old keys no new tag has, and is left out when there are none |
| AcmCertificate.CertificateArn | src/lambda_code/acm/DnsValidatedCertificate/index.py:118 | the physical id is the answer's CertificateArn string |
| AcmCertificate.CreateWith | src/lambda_code/acm/DnsValidatedCertificate/index.py:103-122 | the certificate request goes first; a refused request is raised with no physical id; success returns the attributes |
| AcmCertificate.ArnOfAnswer | src/lambda_code/acm/DnsValidatedCertificate/index.py:118 | an answer with a CertificateArn yields that ARN |
| AcmCertificate.TagAndWait | src/lambda_code/acm/DnsValidatedCertificate/index.py:118-122 | the ARN is the physical id; the result is returned exactly when the tag requests and the wait succeed |
| AcmCertificate.CreateTags | src/lambda_code/acm/DnsValidatedCertificate/index.py:103-122 | a new certificate is tagged with exactly the configured tags in one request after the certificate request; with no tags nothing more is sent |
| AcmCertificate.Update | src/lambda_code/acm/DnsValidatedCertificate/index.py:139-160 | a change that needs a new certificate is a create; otherwise the physical id is kept |
| AcmCertificate.EmptyNamesKeepCertificate | src/lambda_code/acm/DnsValidatedCertificate/index.py:144-153 | a change between an absent and an empty list of alternative names keeps the certificate |
| AcmCertificate.Delete | src/lambda_code/acm/DnsValidatedCertificate/index.py:162-169 | `delete` sends one delete request; it succeeds when the certificate is deleted or already gone, and raises any other error |
| AcmCertificateOld.ValidationRecords | lambda_code/acm/DnsValidatedCertificate/index.py:20-28 | a description without Certificate raises that KeyError; one without DomainValidationOptions raises KeyError rather than "not there yet"; otherwise it agrees with the current version |
| AcmCertificateOld.OptionsMissingFails | lambda_code/acm/DnsValidatedCertificate/index.py:20-28 | when the first description has no validation options yet, the wait fails at once with KeyError whatever the time left; the current version keeps waiting |
| AcmCertificateOld.Validate | lambda_code/acm/DnsValidatedCertificate/index.py:35-48 | Region defaults to the function's; a missing DomainName is a KeyError; the domain loses one trailing dot; the tags are the template's |
| AcmCertificateOld.CurrentAddsStackTag | src/lambda_code/acm/DnsValidatedCertificate/index.py:48-63 | the current version validates a template to the same configuration, except that its tags also carry the stack id |
| AcmCertificateOld.ResourceMethodsMissing | lambda_code/acm/DnsValidatedCertificate/index.py:77-86 | `add_tags_to_resource` and `remove_tags_from_resource` are not methods of the ACM client |
| AcmCertificateOld.TaggedCreateFails | lambda_code/acm/DnsValidatedCertificate/index.py:88-107 | a certificate created with tags is requested, then the tag request raises AttributeError, so `create` fails after the certificate exists |
| AcmCertificateOld.Update | lambda_code/acm/DnsValidatedCertificate/index.py:124-135 | a change of DomainName or of the alternative names is a create; otherwise the physical id is kept |
| AcmCertificateOld.RegionChangeKeepsArn | lambda_code/acm/DnsValidatedCertificate/index.py:124-135 | a change of Region alone keeps the old ARN as the physical id; the current version requests a new certificate |
| AcmCertificateFlat.Validate | lambda_code/AcmDnsValidatedCertificate/index.py:32-37 | Region defaults to the function's; a missing DomainName is a KeyError; the domain is kept as given |
| AcmCertificateFlat.UntaggedCreateRefused | lambda_code/AcmDnsValidatedCertificate/index.py:43-65 | a certificate created without tags is requested, then the empty tag request is refused by the client's parameter validation |
| AcmCertificateFlat.Update | lambda_code/AcmDnsValidatedCertificate/index.py:82-99 | a change of DomainName or of the alternative names is a create; otherwise the id is kept, and without a Tags change only the wait runs |
| AcmCertificateFlat.UpdateReplacesAllTags | lambda_code/AcmDnsValidatedCertificate/index.py:88-97 | a change of Tags sends one removal of all the old tags, then one addition of all the new ones |
| MySqlUserGrant.Validate | lambda_code/mysql/MySQLUserGrant/index.py:42-51 | an unreadable WithGrantOption fails first; otherwise the properties are accepted exactly when Grant is given and not empty |
| MySqlUserGrant.UserHostOfAccount | lambda_code/mysql/MySQLUserGrant/index.py:115-120 | an account `name@host`, with no '@' in the name or host, splits back into its name and host |
| MySqlUserGrant.UserWithoutHost | lambda_code/mysql/MySQLUserGrant/index.py:115-120 | an account without '@' is the user name itself, on host '%' |
| MySqlUserGrant.ToSqlFormat | lambda_code/mysql/MySQLUserGrant/index.py:122-123 | joining succeeds on a list exactly when every item is a string, always on a string, and never on anything else |
| MySqlUserGrant.SqlFormatSplits | lambda_code/mysql/MySQLUserGrant/index.py:122-123 | privilege names without commas come back out of the joined list |
| MySqlUserGrant.GrantAndRevoke | lambda_code/mysql/MySQLUserGrant/index.py:125-151 | the GRANT ends with " WITH GRANT OPTION" exactly when the option is set, and the REVOKE names the same privileges, level and account |
| MySqlUserGrant.PhysicalIdFields | lambda_code/mysql/MySQLUserGrant/index.py:111-113 | with no ':' in database, user and level, the id splits back into `mysql`, the database, `grants`, the user and the level |
| MySqlUserGrant.PasswordSourceOf | lambda_code/mysql/MySQLUserGrant/index.py:53-61 | the password comes from Password when that key is there, else from the SSM parameter, else from the secret |
| MySqlUserGrant.Password | lambda_code/mysql/MySQLUserGrant/index.py:80-94 | a literal password is used as it is; a service error while reading the parameter or the secret becomes ValueError |
| MySqlUserGrant.Connect | lambda_code/mysql/MySQLUserGrant/index.py:63-73 | every failure to connect, reading the password included, is a ValueError; success needs a readable password |
| MySqlUserGrant.ConnectAndRun | lambda_code/mysql/MySQLUserGrant/index.py:125-151 | a statement runs exactly when the connection and the statement both succeed, and only then is it recorded |
| MySqlUserGrant.Create | lambda_code/mysql/MySQLUserGrant/index.py:163-173 | `create` succeeds exactly when the grant runs, then takes the constructed id and records the GRANT; otherwise it reports a failure under "NOT CREATED"; when the connection could not be made, `close()` afterwards raises AttributeError |
| MySqlUserGrant.Update | lambda_code/mysql/MySQLUserGrant/index.py:175-188 | a changed id is a create; an unchanged id always ends in a reported failure with nothing run, and raises AttributeError from `close()` exactly when the connection could not be made |
| MySqlUserGrant.InPlaceUpdateAlwaysFails | lambda_code/mysql/MySQLUserGrant/index.py:104-105 | even with a reachable server that accepts every statement, an update that keeps the id fails and grants nothing |
| MySqlUserGrant.UpdateRevokingOld | lambda_code/mysql/MySQLUserGrant/index.py:153-161 | the corrected update is a create when the id changes, and keeps the id otherwise |
| MySqlUserGrant.UpdateRevokingOldRegrants | lambda_code/mysql/MySQLUserGrant/index.py:175-188 | with a reachable server and well-formed grants, the corrected update revokes the old grant and then grants the new one |
| MySqlUserGrant.Delete | lambda_code/mysql/MySQLUserGrant/index.py:190-200 | "NOT CREATED" runs nothing; otherwise the REVOKE runs, a failure is reported exactly when it does not succeed, and `close()` raises AttributeError exactly when the connection could not be made |
| MySqlUserGrant.FailedCreateDeletesNothing | lambda_code/mysql/MySQLUserGrant/index.py:163-192 | a grant whose creation failed is deleted without touching the database |
| CloudFormationTags.Validate | lambda_code/cloudformation/Tags/index.py:22-24 | Omit defaults to an empty list and Set to an empty mapping |
| CloudFormationTags.StackRegion | lambda_code/cloudformation/Tags/index.py:27 | the region is found exactly when the stack id has more than three ':'-fields, and it is the fourth |
| CloudFormationTags.StackRegionOfFields | lambda_code/cloudformation/Tags/index.py:27 | a stack id made of colon-free fields has the fourth field as its region |
| CloudFormationTags.Collect | lambda_code/cloudformation/Tags/index.py:40-43 | the comprehension succeeds exactly when every stack tag has a string Key and a Value |
| CloudFormationTags.CollectKeys | lambda_code/cloudformation/Tags/index.py:40-43 | the collected mapping has unique keys, exactly those of the stack tags |
| CloudFormationTags.CollectLastWins | lambda_code/cloudformation/Tags/index.py:40-43 | a key listed twice keeps the value of its last tag |
| CloudFormationTags.CollectStep | lambda_code/cloudformation/Tags/index.py:40-43 | one round of the comprehension puts the first tag and collects the rest |
| CloudFormationTags.CollectUntouched | lambda_code/cloudformation/Tags/index.py:40-43 | tags without a key leave its value alone |
| CloudFormationTags.RemoveAll | lambda_code/cloudformation/Tags/index.py:47-48 | popping the omitted keys never adds an entry |
| CloudFormationTags.RemoveAllGet | lambda_code/cloudformation/Tags/index.py:47-48 | an omitted key is gone and every other key keeps its value |
| CloudFormationTags.Merge | lambda_code/cloudformation/Tags/index.py:47-51 | the merge succeeds exactly when Omit is a list and Set a mapping |
| CloudFormationTags.MergeGet | lambda_code/cloudformation/Tags/index.py:47-51 | after the merge a key of Set has its Set value, a key in Omit but not in Set is gone, and any other key keeps the stack's value |
| CloudFormationTags.TagList | lambda_code/cloudformation/Tags/index.py:58-61 | TagList has one `{'Key': k, 'Value': v}` per entry, in order |
| CloudFormationTags.Create | lambda_code/cloudformation/Tags/index.py:26-65 | a stack id without a region is an IndexError; success means the stack was described in its own region and returns TagDict and TagList of the merged stack tags |
| CloudFormationTags.OutputsAgree | lambda_code/cloudformation/Tags/index.py:56-62 | the two outputs describe the same tags: one TagList pair per TagDict entry, in order |
| SolutionStackName.Span | lambda_code/elasticbeanstalk/SolutionStackName/index.py:23 | the run matched by a character class is the longest prefix of such characters |
| SolutionStackName.DigitsOf | lambda_code/elasticbeanstalk/SolutionStackName/index.py:24 | `\d+` reads back the number a decimal numeral spells, leaving the rest |
| SolutionStackName.TailStart | lambda_code/elasticbeanstalk/SolutionStackName/index.py:24-25 | whatever may follow the AMI starts with a space and then 'v' or 'r' |
| SolutionStackName.RunningTailOf | lambda_code/elasticbeanstalk/SolutionStackName/index.py:25 | ' running ' followed by the platform matches the platform group and not the version group |
| SolutionStackName.VersionTailOf | lambda_code/elasticbeanstalk/SolutionStackName/index.py:24-25 | ' vX.Y.Z running P' gives back the version X, Y, Z and the platform P |
| SolutionStackName.TailOfName | lambda_code/elasticbeanstalk/SolutionStackName/index.py:24-25 | the text after the AMI gives back the optional version and the platform |
| SolutionStackName.LazyFindsAmi | lambda_code/elasticbeanstalk/SolutionStackName/index.py:23 | the lazy AMI group stops at the whole AMI once no shorter one lets the rest match |
| SolutionStackName.SplitName | lambda_code/elasticbeanstalk/SolutionStackName/index.py:22-64 | splitting a well-formed name gives back its architecture, AMI, version and platform |
| SolutionStackName.SplitAfterArch | lambda_code/elasticbeanstalk/SolutionStackName/index.py:23 | a word and a space are taken as the architecture and the remainder is searched lazily for the AMI |
| SolutionStackName.NoEarlierSplitOf | lambda_code/elasticbeanstalk/SolutionStackName/index.py:23-25 | an AMI with no space followed by 'v' or 'r' cannot be cut short by the lazy match |
| SolutionStackName.SplitExample | lambda_code/elasticbeanstalk/SolutionStackName/test/test_index.py:4-15 | the sample name splits into 64bit, Amazon Linux 2018.03, 2.7.4 and Python 3.6 |
| SolutionStackName.IntOf | lambda_code/elasticbeanstalk/SolutionStackName/index.py:41-45 | `int()` of an integer is itself, of a string succeeds exactly when it spells an integer |
| SolutionStackName.Validate | lambda_code/elasticbeanstalk/SolutionStackName/index.py:33-52 | a missing Platform makes validation fail; otherwise the filter holds platform and architecture (default 64bit) first, and AmiStartsWith defaults to '' |
| SolutionStackName.StartsWithValue | lambda_code/elasticbeanstalk/SolutionStackName/index.py:68 | `startswith` answers the prefix test on strings and is an AttributeError on anything else |
| SolutionStackName.GroupDictValues | lambda_code/elasticbeanstalk/SolutionStackName/index.py:60-64 | the group dict holds the parts as strings and the versions as integers or None |
| SolutionStackName.FilterWithoutVersions | lambda_code/elasticbeanstalk/SolutionStackName/index.py:66-72 | without version filters a stack passes exactly when its platform, architecture and AMI start with the requested ones |
| SolutionStackName.VersionFilterRaises | lambda_code/elasticbeanstalk/SolutionStackName/index.py:40-68 | a version filter makes every stack that gets that far raise AttributeError |
| SolutionStackName.EntriesMatchIntended | lambda_code/elasticbeanstalk/SolutionStackName/index.py:66-69 | the intended filter accepts exactly when every entry holds |
| SolutionStackName.FilterStackIntended | lambda_code/elasticbeanstalk/SolutionStackName/index.py:66-72 | the intended filter accepts exactly when every entry holds and the AMI starts with AmiStartsWith |
| SolutionStackName.Filtered | lambda_code/elasticbeanstalk/SolutionStackName/index.py:79-83 | the comprehension keeps exactly the accepted names, in listing order, and fails on the first error |
| SolutionStackName.Create | lambda_code/elasticbeanstalk/SolutionStackName/index.py:74-89 | the physical id is the first listed stack that passes the filter |
| SolutionStackName.NoMatchRaises | lambda_code/elasticbeanstalk/SolutionStackName/index.py:85 | when no stack passes, create raises IndexError |
| CognitoIds.SplitResourceId | lambda_code/cognito/UserPoolDomain/index.py:15-20 | the name part never contains '/', and an id without '/' has an empty pool id |
| CognitoIds.SplitResourceIdOf | lambda_code/cognito/UserPoolDomain/index.py:15-20 | splitting `'/'.join([pool, name])` gives back pool and name when the name has no '/' |
| CognitoIds.SplitExample | lambda_code/cognito/UserPoolDomain/test/test_index.py:19-23 | 'foo/bar/baz' splits into ('foo/bar', 'baz') |
| CognitoUserPoolDomain.Validate | lambda_code/cognito/UserPoolDomain/index.py:33-41 | validation succeeds exactly when UserPoolId is present; Domain defaults to None |
| CognitoUserPoolDomain.RandomLabel | lambda_code/cognito/UserPoolDomain/index.py:23-26 | a generated label has 16 characters, all lower-case letters or digits |
| CognitoUserPoolDomain.RandomLabelIsDnsLabel | lambda_code/cognito/UserPoolDomain/index.py:24 | every generated label matches the domain-label pattern |
| CognitoUserPoolDomain.EveryLabelCanBeDrawn | lambda_code/cognito/UserPoolDomain/index.py:26 | every 16-character label over the alphabet is a possible outcome |
| CognitoUserPoolDomain.Retry | lambda_code/cognito/UserPoolDomain/index.py:54-62 | each attempt asks for the next label; only a taken label (InvalidParameter) leads to another attempt; success returns the last label tried; any other error is raised; only the time budget stops a run of taken labels |
| CognitoUserPoolDomain.Finish | lambda_code/cognito/UserPoolDomain/index.py:64-67 | with string pool and domain the id is `<pool>/<domain>` and the output is the domain |
| CognitoUserPoolDomain.Create | lambda_code/cognito/UserPoolDomain/index.py:49-67 | a given domain is tried once and its error raised; generated requests all carry valid labels; success names the domain last accepted, in id and output |
| CognitoUserPoolDomain.FirstFreeLabel | lambda_code/cognito/UserPoolDomain/index.py:55-59 | with n taken labels followed by a free one the loop succeeds with that label after n+1 requests |
| CognitoUserPoolDomain.RetriesPastTen | lambda_code/cognito/UserPoolDomain/index.py:54-55 | ten taken labels in a row do not stop the loop: an eleventh request is sent |
| CognitoUserPoolDomain.RetryBounded | lambda_code/cognito/UserPoolDomain/index.py:54-62 | with the counter incremented the loop sends at most ten requests and returns the label accepted |
| CognitoUserPoolDomain.CreateBounded | lambda_code/cognito/UserPoolDomain/index.py:49-67 | create with the counter incremented never sends more than ten requests |
| CognitoUserPoolDomain.FirstFreeLabelBounded | lambda_code/cognito/UserPoolDomain/index.py:55-59 | the bounded loop also stops at the first free label |
| CognitoUserPoolDomain.BoundedAgrees | lambda_code/cognito/UserPoolDomain/index.py:54-62 | within ten attempts the bounded and written loops agree |
| CognitoUserPoolDomain.Update | lambda_code/cognito/UserPoolDomain/index.py:69-78 | a changed pool or domain re-runs create; otherwise the domain is read back from the physical id and nothing is sent |
| CognitoUserPoolDomain.UpdateKeepsDomain | lambda_code/cognito/UserPoolDomain/index.py:74-78 | an update changing nothing reports the domain recorded at create |
| CognitoUserPoolDomain.Delete | lambda_code/cognito/UserPoolDomain/index.py:80-92 | delete succeeds exactly when Cognito accepts it or says the domain is gone or invalid |
| CognitoUserPoolDomain.DeleteUndoesCreate | lambda_code/cognito/UserPoolDomain/index.py:49-92 | delete names the same pool and domain as the successful create request |
| CognitoIdentityProvider.Validate | src/lambda_code/cognito/UserPoolIdentityProvider/index.py:22-34 | validation succeeds exactly when UserPoolId, ProviderName, ProviderType and ProviderDetails are present; AttributeMapping defaults to None and IdpIdentifiers to [] |
| CognitoIdentityProvider.ArgsKeys | src/lambda_code/cognito/UserPoolIdentityProvider/index.py:39-48 | the request carries ProviderType exactly on create and AttributeMapping exactly when it is not None |
| CognitoIdentityProvider.IdOf | src/lambda_code/cognito/UserPoolIdentityProvider/index.py:52-55 | the id is `<UserPoolId>/<ProviderName>` as the create response reports them |
| CognitoIdentityProvider.Create | src/lambda_code/cognito/UserPoolIdentityProvider/index.py:36-56 | create sends one request; success means it and the id lookup succeeded, with empty output |
| CognitoIdentityProvider.Update | src/lambda_code/cognito/UserPoolIdentityProvider/index.py:58-80 | a new pool or name re-runs create; a new type alone raises RuntimeError without a request; otherwise one update request without ProviderType |
| CognitoIdentityProvider.Delete | src/lambda_code/cognito/UserPoolIdentityProvider/index.py:82-94 | delete succeeds exactly when Cognito accepts it or says the provider is gone or invalid |
| CognitoIdentityProvider.DeleteTargetsCreated | src/lambda_code/cognito/UserPoolIdentityProvider/index.py:52-94 | delete names the pool and provider that create reported |
| CognitoUserPoolClient.ConvertToBool | lambda_code/cognito/UserPoolClient/index.py:16-20 | a string becomes true exactly when it lower-cases to 'true'; other values pass unchanged |
| CognitoUserPoolClient.Validate | lambda_code/cognito/UserPoolClient/index.py:27-50 | validation succeeds exactly when ClientName and UserPoolId are present; both flags are converted, the other settings kept as given |
| CognitoUserPoolClient.Params | lambda_code/cognito/UserPoolClient/index.py:62-63 | the request keeps exactly the fields that are not None |
| CognitoUserPoolClient.Secret | lambda_code/cognito/UserPoolClient/index.py:72 | ClientSecret defaults to '' |
| CognitoUserPoolClient.Create | lambda_code/cognito/UserPoolClient/index.py:52-73 | on success the physical id is the new ClientId and ClientSecret its secret or '' |
| CognitoUserPoolClient.Update | lambda_code/cognito/UserPoolClient/index.py:75-98 | a changed GenerateSecret raises ValueError and sends nothing; otherwise one update request for the physical id |
| CognitoUserPoolClient.UpdateCallShape | lambda_code/cognito/UserPoolClient/index.py:80-95 | the update request targets the physical id and never carries GenerateSecret |
| CognitoUserPoolClient.CreateSendsPresentFields | lambda_code/cognito/UserPoolClient/index.py:52-67 | every field that is not None reaches the create request |
| CognitoUserPoolClient.Delete | lambda_code/cognito/UserPoolClient/index.py:100-107 | delete succeeds exactly when Cognito accepts it or raises ClientException |
| CognitoUserPoolClientFlat.Update | lambda_code/CognitoUserPoolClient/index.py:70-78 | an update request carrying GenerateSecret is refused before it is sent; otherwise one request for the physical id |
| CognitoUserPoolClientFlat.UpdateWithSecretRefused | lambda_code/CognitoUserPoolClient/index.py:38-78 | any update of a client whose template sets GenerateSecret fails |
| CognitoUserPoolClientFlat.SecretRefused | lambda_code/CognitoUserPoolClient/index.py:38-52 | a GenerateSecret that is not None puts the key into the update request |
| CognitoUserPoolClientFlat.CurrentUpdateAccepted | lambda_code/cognito/UserPoolClient/index.py:80-95 | the current update request is never refused this way |
| FindAmi.CopyIfExists | lambda_code/ec2/FindAmi/index.py:23-27 | the target gains the source's value under the target key exactly when the source has the key; otherwise it is unchanged |
| FindAmi.Owners | lambda_code/ec2/FindAmi/index.py:38-46 | the first part of the filter holds only name and owner keys, each once |
| FindAmi.Defaults | lambda_code/ec2/FindAmi/index.py:47-50 | the defaulted part holds only architecture, root-device-type, virtualization-type and state, each once |
| FindAmi.BuildFilterKeys | lambda_code/ec2/FindAmi/index.py:35-50 | the filter has one entry per key, each a filter name the provider knows |
| FindAmi.Validate | lambda_code/ec2/FindAmi/index.py:34-54 | validation succeeds exactly when Name is present |
| FindAmi.FilterEntries | lambda_code/ec2/FindAmi/index.py:35-50 | the filter holds the name, each owner entry exactly when given, and the four entries with their defaults x86_64, ebs, hvm and available |
| FindAmi.ApiFilters | lambda_code/ec2/FindAmi/index.py:62-67 | one `{Name, Values: [value]}` per filter entry, in order |
| FindAmi.Images | lambda_code/ec2/FindAmi/index.py:72-74 | the image list is the response's Images, each a mapping |
| FindAmi.Create | lambda_code/ec2/FindAmi/index.py:56-87 | one describe request; no image reports failure 'No image found matching filters.' and keeps the id; otherwise the id is the ImageId of the first image with the newest creation date |
| FindAmi.NewestWins | lambda_code/ec2/FindAmi/index.py:72-83 | with distinct creation dates the image with the newest date is chosen wherever it stands |
| FindAmi.Delete | lambda_code/ec2/FindAmi/index.py:89-91 | delete sends nothing and returns nothing |
| TransferServer.Validate | lambda_code/transfer/Server/index.py:25-43 | validation succeeds exactly when a VPC endpoint has details, a public one has none, an API Gateway provider has details and a service managed one has none; each violation is a ValueError |
| TransferServer.DefaultsAccepted | lambda_code/transfer/Server/index.py:26-28 | with neither types nor details the server is PUBLIC and SERVICE_MANAGED and validation succeeds |
| TransferServer.BuildParams | lambda_code/transfer/Server/index.py:50-54 | the request starts with the endpoint type and the identity provider type |
| TransferServer.ParamsGet | lambda_code/transfer/Server/index.py:45-60 | the request holds both types and each optional parameter exactly when it is not None |
| TransferServer.DetailsFollowTypes | lambda_code/transfer/Server/index.py:33-60 | after validation EndpointDetails is sent for a VPC endpoint and not for a public one, and likewise the identity provider details |
| TransferServer.Create | lambda_code/transfer/Server/index.py:65-72 | create succeeds exactly when Transfer returns a string ServerId, which becomes the physical id and the ServerId attribute |
| TransferServer.Update | lambda_code/transfer/Server/index.py:74-81 | the server is updated in place; the physical id and attribute stay |
| TransferServer.Delete | lambda_code/transfer/Server/index.py:83-86 | delete sends the physical id as ServerId |
| TransferServer.LaterCallsTargetCreated | lambda_code/transfer/Server/index.py:65-86 | update and delete send the ServerId create returned, and update sends the create parameters besides it |
| TransferUser.Validate | lambda_code/transfer/User/index.py:18-24 | Role, ServerId, SshPublicKeyBody and UserName are required, in that order, each missing one a KeyError; HomeDirectory defaults to '/' + UserName |
| TransferUser.PhysicalIdInjective | lambda_code/transfer/User/index.py:31-32 | two users share a physical id exactly when their server ids and user names agree, given server ids without '/' |
| TransferUser.Params | lambda_code/transfer/User/index.py:34-43 | Policy is included exactly when it is not None, and the public key never is |
| TransferUser.CreateCall | lambda_code/transfer/User/index.py:48-53 | create_user carries the public key |
| TransferUser.UpdateCall | lambda_code/transfer/User/index.py:67-68 | update_user never carries the public key |
| TransferUser.Create | lambda_code/transfer/User/index.py:48-56 | the physical id `<ServerId>/<UserName>` is set only once the user exists |
| TransferUser.Update | lambda_code/transfer/User/index.py:58-70 | a changed physical id re-runs create; otherwise the user is updated in place |
| TransferUser.UpdateInPlaceIff | lambda_code/transfer/User/index.py:58-70 | the user is updated in place exactly when server id and user name stay; otherwise it is created anew |
| TransferUser.Delete | lambda_code/transfer/User/index.py:72-75 | delete sends one request for the user |
| TransferUser.DeleteTargetsCreated | lambda_code/transfer/User/index.py:48-75 | delete names the same server and user as create |
| JoinGlobalTable.RemoveEmpty | lambda_code/dynamodb/JoinGlobalTable/index.py:26-28 | popping a key leaves nothing exactly when every property has that key |
| JoinGlobalTable.Validate | lambda_code/dynamodb/JoinGlobalTable/index.py:24-32 | validation succeeds exactly when TableName is present and no other property is; TableName is popped |
| JoinGlobalTable.Arn | lambda_code/dynamodb/JoinGlobalTable/index.py:55 | the physical id is the GlobalTableArn of the response's description, and only a string one is accepted |
| JoinGlobalTable.Finish | lambda_code/dynamodb/JoinGlobalTable/index.py:55-57 | the physical id comes from the response when its ARN is readable; otherwise the error is raised and the id kept |
| JoinGlobalTable.Create | lambda_code/dynamodb/JoinGlobalTable/index.py:34-57 | a successful create_global_table gives the ARN; an existing global table is joined with update_global_table; an existing replica raises RuntimeError |
| JoinGlobalTable.Update | lambda_code/dynamodb/JoinGlobalTable/index.py:59-66 | a changed TableName re-runs create; otherwise nothing is sent and the id is kept |
| JoinGlobalTable.UnchangedUpdateFails | lambda_code/dynamodb/JoinGlobalTable/index.py:26-62 | because TableName was popped, an update keeping the name re-creates and, with this region joined, raises RuntimeError |
| JoinGlobalTable.IntendedUpdateKeeps | lambda_code/dynamodb/JoinGlobalTable/index.py:59-66 | compared before the pop, an update that keeps the name sends nothing and keeps the id; one that changes it re-creates |
| JoinGlobalTable.Delete | lambda_code/dynamodb/JoinGlobalTable/index.py:68-79 | delete sends one request removing this region's replica and succeeds when it is accepted or the global table is gone |
| JoinGlobalTable.DeleteLeavesJoined | lambda_code/dynamodb/JoinGlobalTable/index.py:46-76 | the replica delete removes is the one create joined: same table, same region |
| NlbSourceIps.Validate | lambda_code/elasticloadbalancingv2/NlbSourceIps/index.py:26-27 | LoadBalancerArn is required; a missing one is a KeyError |
| NlbSourceIps.Description | lambda_code/elasticloadbalancingv2/NlbSourceIps/index.py:32-34 | the description exists exactly when the ARN has a sixth ':'-field (IndexError otherwise) and starts with 'ELB ' |
| NlbSourceIps.DescriptionOfArn | lambda_code/elasticloadbalancingv2/NlbSourceIps/index.py:32-34 | for `arn:...:kind/name` the description is 'ELB ' followed by the name, slashes included |
| NlbSourceIps.Keep | lambda_code/elasticloadbalancingv2/NlbSourceIps/index.py:52-53 | an interface is kept exactly when it is a network_load_balancer interface attached by amazon-aws; the attachment is only read for load balancer interfaces |
| NlbSourceIps.OwnedOnlyExact | lambda_code/elasticloadbalancingv2/NlbSourceIps/index.py:49-54 | the interfaces kept are exactly the listed ones the load balancer owns, none added |
| NlbSourceIps.KeepOwned | lambda_code/elasticloadbalancingv2/NlbSourceIps/index.py:49-54 | the comprehension succeeds exactly when every interface can be examined, and keeps the owned ones in order |
| NlbSourceIps.Addresses | lambda_code/elasticloadbalancingv2/NlbSourceIps/index.py:57-60 | one PrivateIpAddress per kept interface, in order |
| NlbSourceIps.Attributes | lambda_code/elasticloadbalancingv2/NlbSourceIps/index.py:66-70 | one attribute for the list plus one per address |
| NlbSourceIps.AttributesUnique | lambda_code/elasticloadbalancingv2/NlbSourceIps/index.py:66-70 | every attribute name occurs once |
| NlbSourceIps.AttributesLookup | lambda_code/elasticloadbalancingv2/NlbSourceIps/index.py:66-70 | IPv4Addresses is the list, IPv4Address{i} the i-th address, and there is no other attribute |
| NlbSourceIps.Create | lambda_code/elasticloadbalancingv2/NlbSourceIps/index.py:29-77 | a non-string ARN raises AttributeError and a short one IndexError, with nothing sent; success sends one describe request and returns the attributes of the owned interfaces' addresses, sorted |
| NlbSourceIps.CreateAttributes | lambda_code/elasticloadbalancingv2/NlbSourceIps/index.py:65-70 | the returned list is sorted and a permutation of the addresses found, and IPv4Address{i} is its i-th entry |
| NlbSourceIps.OwnedAddressListed | lambda_code/elasticloadbalancingv2/NlbSourceIps/index.py:49-70 | every address of an owned interface is among those returned |
| NlbSourceIps.OrderIndependent | lambda_code/elasticloadbalancingv2/NlbSourceIps/index.py:65 | with distinct addresses the order of the interfaces in the response does not change the attributes |
| NlbSourceIps.LookupInternal | lambda_code/elasticloadbalancingv2/NlbSourceIps/index.py:10-20 | lookup_internal_ipv4 sends one describe request and returns the public address it was given |
| NlbSourceIps.Delete | lambda_code/elasticloadbalancingv2/NlbSourceIps/index.py:79-80 | delete sends nothing |
| LayerVersion.Validate | lambda_code/awslambda/LayerVersion/index.py:14-36 | validation succeeds exactly when LayerName, Content, Content.S3Bucket and Content.S3Key are present; a Content that is not a mapping is a TypeError; success gives the publish arguments |
| LayerVersion.KwargsCopy | lambda_code/awslambda/LayerVersion/index.py:16-32 | the arguments carry LayerName and Content once each, and each optional property exactly as the template gives it |
| LayerVersion.KwargsKeys | lambda_code/awslambda/LayerVersion/index.py:16-32 | the arguments hold no key besides LayerName, Content and the optional properties given |
| LayerVersion.ContentCopied | lambda_code/awslambda/LayerVersion/index.py:18-24 | Content carries the bucket and key as given and S3ObjectVersion exactly when given |
| LayerVersion.Create | lambda_code/awslambda/LayerVersion/index.py:38-44 | one publish request; success means a string LayerVersionArn, which becomes the physical id |
| LayerVersion.VersionOf | lambda_code/awslambda/LayerVersion/index.py:51 | the version text holds no ':' |
| LayerVersion.SendDelete | lambda_code/awslambda/LayerVersion/index.py:49-52 | a request the client refuses is never sent; otherwise delete succeeds exactly when Lambda accepts it |
| LayerVersion.Delete | lambda_code/awslambda/LayerVersion/index.py:46-52 | a retained layer sends nothing; a missing LayerName is a KeyError; otherwise the version after the last ':' of the id is sent as text |
| LayerVersion.DeleteAlwaysRefused | lambda_code/awslambda/LayerVersion/index.py:49-52 | a delete that is not retained never reaches Lambda, because the version is a string |
| LayerVersion.DeleteIntended | lambda_code/awslambda/LayerVersion/index.py:46-52 | with the version converted by `int()`, the delete request carries an integer version, or fails with ValueError |
| LayerVersion.DeleteTargetsPublished | lambda_code/awslambda/LayerVersion/index.py:40-52 | for the ARN of version n, the intended delete removes version n of the same layer |
| ElasticTranscoderPipeline.Len | lambda_code/ElasticTranscoderPipeline/index.py:26 | `len()` is defined exactly for strings, lists and mappings |
| ElasticTranscoderPipeline.Validate | lambda_code/ElasticTranscoderPipeline/index.py:22-40 | validation succeeds exactly when Name has a length of at most 40 and InputBucket, OutputBucket, Role and Notifications are present; a longer Name raises ValueError instead of returning False |
| ElasticTranscoderPipeline.PipelineId | lambda_code/ElasticTranscoderPipeline/index.py:53 | the physical id is the response's Pipeline.Id |
| ElasticTranscoderPipeline.Create | lambda_code/ElasticTranscoderPipeline/index.py:42-55 | one create request; success means a string pipeline id, which becomes the physical id |
| ElasticTranscoderPipeline.Update | lambda_code/ElasticTranscoderPipeline/index.py:57-69 | one update request for the pipeline the physical id names; the id stays |
| ElasticTranscoderPipeline.Delete | lambda_code/ElasticTranscoderPipeline/index.py:71-76 | one delete request for the physical id |
| ElasticTranscoderPipeline.LaterCallsTargetCreated | lambda_code/ElasticTranscoderPipeline/index.py:42-76 | update and delete address the pipeline create returned, and update sends the settings create did |
| AssociateVpcEndpoint.Validate | lambda_code/apigateway/AssociateVPCEndpoint/index.py:11-13 | RestApiId and VpcEndpointId are required, in that order, each missing one a KeyError |
| AssociateVpcEndpoint.PhysicalId | lambda_code/apigateway/AssociateVPCEndpoint/index.py:19 | the id is `<RestApiId>/<VpcEndpointId>`, defined exactly when both are strings |
| AssociateVpcEndpoint.PhysicalIdInjective | lambda_code/apigateway/AssociateVPCEndpoint/index.py:19 | with API ids free of '/', equal physical ids mean the same API and endpoint |
| AssociateVpcEndpoint.Create | lambda_code/apigateway/AssociateVPCEndpoint/index.py:18-33 | the physical id is set before the one add request, so a failing request leaves it in place; success returns no attributes |
| AssociateVpcEndpoint.Update | lambda_code/apigateway/AssociateVPCEndpoint/index.py:35-42 | a change of either id re-runs create; otherwise nothing is sent and the id stays |
| AssociateVpcEndpoint.UpdateSendsIffChanged | lambda_code/apigateway/AssociateVPCEndpoint/index.py:35-42 | an update sends a request exactly when one of the ids changed, and then it is the add |
| AssociateVpcEndpoint.Delete | lambda_code/apigateway/AssociateVPCEndpoint/index.py:44-55 | one remove request on the API's endpoint list |
| AssociateVpcEndpoint.DeleteUndoesCreate | lambda_code/apigateway/AssociateVPCEndpoint/index.py:18-55 | delete patches the same API, path and endpoint as create, with remove instead of add |
| S3Object.Validate | lambda_code/s3/Object/index.py:22-27 | a missing Bucket or Key is a KeyError; with both present, calling the property mapping at line 27 is a TypeError |
| S3Object.ValidateAlwaysFails | lambda_code/s3/Object/index.py:22-27 | no properties get past validation as written |
| S3Object.ValidateIntended | lambda_code/s3/Object/index.py:22-30 | with ObjectMetadata read by `get`, validation succeeds exactly when Bucket and Key are present; Region defaults to the Lambda's region, Body to '' and a non-string Body is written as JSON |
| S3Object.Create | lambda_code/s3/Object/index.py:32-44 | the physical id is set before the one put request in the configured region; nothing is returned |
| S3Object.Delete | lambda_code/s3/Object/index.py:46-51 | one delete request in the configured region |
| S3Object.DeleteRemovesWritten | lambda_code/s3/Object/index.py:22-51 | the object deleted is the one written: same region, bucket and key as the template gives |
| S3Object.PhysicalIdInjective | lambda_code/s3/Object/index.py:33 | for bucket names without '/', the physical id names one bucket and key |
| SsmParseDict.Validate | lambda_code/ssm/ParseDict/index.py:31-35 | validation succeeds exactly when Names is truthy |
| SsmParseDict.FirstHaving | lambda_code/ssm/ParseDict/index.py:41 | a chain of mappings answers a key exactly when one of them holds it |
| SsmParseDict.MergeGet | lambda_code/ssm/ParseDict/index.py:41 | the merged mapping gives each key the value of the earliest parameter holding it |
| SsmParseDict.MergeKeys | lambda_code/ssm/ParseDict/index.py:41 | the merged mapping holds each key of every parameter, once |
| SsmParseDict.ParseAll | lambda_code/ssm/ParseDict/index.py:41 | every parameter's Value is a string that parses to a JSON object, one mapping per parameter, in order |
| SsmParseDict.Create | lambda_code/ssm/ParseDict/index.py:37-46 | one get_parameters request; success returns the merged mapping of the parsed parameters |
| SsmParseDict.Delete | lambda_code/ssm/ParseDict/index.py:48-50 | delete sends nothing |
| ElasticBeanstalkTags.Validate | lambda_code/elasticbeanstalk/Tags/index.py:5-7 | EnvironmentArn and Tags are required, in that order, each missing one a KeyError |
| ElasticBeanstalkTags.TagsToUpdate | lambda_code/elasticbeanstalk/Tags/index.py:9-11 | one `{'Key': k, 'Value': v}` per tag, in order, exactly for a mapping; anything else is an AttributeError |
| ElasticBeanstalkTags.TagsRoundTrip | lambda_code/elasticbeanstalk/Tags/index.py:11 | reading the list back gives the tag mapping, in order |
| ElasticBeanstalkTags.UpdateTags | lambda_code/elasticbeanstalk/Tags/index.py:13-25 | create and update send one request adding the tags and return the same list as TagsToUpdate |
| ElasticBeanstalkTags.Delete | lambda_code/elasticbeanstalk/Tags/index.py:27-29 | delete sends nothing |

## Left out

- The `cfn_custom_resource` library that every provider extends is not part of this model. Its request dispatch, `fail`, unique-id generation and response sending are modelled only by what the providers rely on. `has_property_changed` is a parameter.
- `lambda_shared.strtobool` is not part of this model. It is assumed to behave like `distutils.util.strtobool`.
- boto3, the MySQL connector and the network are oracles. Transient failures, throttling and eventual consistency are not modelled beyond what the oracle returns.
- Randomness, the clock, MD5, `json.dumps`/`json.loads`, `str()` and UTF-8 encoding are parameters. The model proves nothing about their internals.
- Regular expressions are modelled by hand for the patterns the providers use. `\w` and `\W` are ASCII only, and `lower()` is ASCII only.
- The Lambda timeout is a remaining-time budget. Each sleep consumes its nominal seconds plus an oracle amount.
- `int()` is modelled on decimal digits with an optional sign. Surrounding whitespace and underscores are not modelled.
- Log and print messages are not modelled. MySQL error messages are kept only as error kinds.
- FindAmi.Create: an image whose CreationDate is not a string sorts as the empty string. Python would raise TypeError when comparing mixed types.
- DynamoDbItem.PutItem: the table is a store of items by address, with no key schema and no table list. A missing table (ResourceNotFound) and an ItemKey that is not the table's key (ValidationException) are not refused.
- SsmParameter.FetchValue: sends the version fields of a secret reference in the corrected order, the ninth as VersionStage and the tenth as VersionId. The code as written zips them the other way round; `SsmParameter.VersionStageSentAsVersionId` shows the difference and Findings lists it.
- SsmParameter.FetchSecretKey: relies on `SsmParameter.FetchValue`, so the same corrected order of the version fields applies.
- SsmParameter.Validate: reads ValueFrom through `SsmParameter.FetchValue`, so the same corrected order of the version fields applies.
- SsmParameter.Validate: refuses a Name that is present but neither a string nor null with TypeError. The code stores it unchecked and only `put_parameter`'s client-side parameter validation refuses it, before any request. The model's configuration holds the name as a string.
- SsmParameterOld.Validate: refuses a Name that is neither a string nor null with TypeError, for the same reason as `SsmParameter.Validate`; the code fails later, in `put_parameter`.
- SsmParameterFlat.Validate: refuses a Name that is not a string with TypeError, for the same reason as `SsmParameter.Validate`; the code fails later, in `put_parameter`.
- SsmParameter.GenerateRandom: a mapping charset with entries is a KeyError whose payload, the drawn position, is not kept.
- DynamoDbItem.Validate: refuses a Region or TableName that is not a string with TypeError; the code fails later, when it creates the client or calls `put_item`. It also refuses an ItemValue that is not a mapping once ItemKey is one. The code's `key in item_value` test accepts a list or a string, so such an ItemValue fails only later, in `construct_item`, and passes validation when ItemKey is empty.
- CognitoUserPoolClientFlat: only its `update` differs from the current client provider, so its validate, create and delete are the current ones.
- The unused `convertToBool` helper of the Elastic Transcoder pipeline is not modelled.
- The build script's filesystem walk, `importlib`, pip, zipfile and troposphere are parameters. The order of entries inside a zip is not modelled.
- The build script's directory walk is assumed to list directories below the class directory, without a trailing '/', and file names without '/', as `os.walk` does.
- The build script's file name for each archive, the CloudFormation Outputs and Exports it adds, and the rest of the template it writes are not modelled.
- The integration harness's naming of the test stacks is not modelled.
- IntegrationHarness.Wait: each `describe_stacks` answer is a stack or an empty list. A ClientError raised by the call itself, such as the one for a stack name that does not exist, is not modelled.
- AcmCertificateFlat.Validate: refuses a DomainName that is not a string, and SubjectAlternativeNames that is not a list of strings, with TypeError. The code stores both unchecked and passes them to `request_certificate`, whose client-side parameter validation refuses them before any request. The model's configuration holds strings only.
- The integration harness's sleeps, wall-clock time and warnings are not modelled. Its thin boto3 adapters are not modelled either.
- The Elastic Beanstalk EnvironmentResources provider is not modelled. It refers to an undefined client and never runs.
- The property tables of the remaining `custom_resources` modules are declarative data. They are not modelled.
- `tasks.py` and `setup.py` are packaging and deployment scripts and are not modelled.
- Concurrent invocations of the same resource are not modelled.
- ACM's limit of 50 tags per certificate is not modelled.
- The integration-test scenarios are used only to choose the properties proved. They are not modelled as tests.

## Findings

| source | as written | input that shows it | evidently intended | confidence | as-written member | corrected member |
|---|---|---|---|---|---|---|
| lambda_code/dynamodb/Item/index.py:34 | `Overwrite` is read by Python truthiness | a template with `Overwrite: false`, which arrives as the string "false", overwrites an existing item | parse it as a boolean, so "false" refuses to overwrite | not executed | DynamoDbItemOld.OverwriteFalseOverwrites | DynamoDbItem.Validate |
| lambda_code/dynamodb/Item/index.py:40-45 | `BOOL` attribute values are passed through unchanged | `{'BOOL': 'true'}` is stored as the string 'true' | convert it to the boolean true, as the sibling unit test expects | not executed | DynamoDbItemOld.BoolLeftAsString | DynamoDbItem.ConstructItemContents |
| src/lambda_code/ssm/Parameter/index.py:137 | the version-stage part of a secret reference is sent as `VersionId` | a reference naming only a version stage, in the documented layout | send the stage as `VersionStage` | not executed | SsmParameter.VersionStageSentAsVersionId | SsmParameter.SecretVersionArgsDocumented |
| lambda_code/ssm/Parameter/index.py:171-173 | an update puts the parameter only when Description, Type or KeyId changed (a Name change re-creates it) | an update that changes only Value | overwrite the stored value | not executed | SsmParameterOld.UpdateValueAloneSendsNothing | SsmParameter.UpdateOverwrites |
| lambda_code/SsmParameter/index.py:172 | every update puts the configured parameter, including a freshly drawn random value | an update of a random parameter that changes only ReturnValue | keep the stored random value unless RandomValue changed | not executed | SsmParameterFlat.UpdateRegeneratesRandom | SsmParameter.UpdateRefusesRandomRegen |
| lambda_code/SsmParameter/index.py:84-95 | the hash is the value's MD5 for a random value and the request time for a given value | two requests with the same template value get different hashes | the reverse, as the branch comments say | not executed | SsmParameterFlat.HashFollowsClock | SsmParameterOld.ValueHash |
| lambda_code/SsmParameter/index.py:140-144 | `remove_tags_from_resource` is called with `Tags=` | an update that drops a tag key | call it with `TagKeys=` | not executed | SsmParameterFlat.DropRefused | SsmTags.SyncLeavesNewTags |
| lambda_code/acm/DnsValidatedCertificate/index.py:22 | `DomainValidationOptions` is indexed outside the `try`, so its absence raises KeyError instead of DomainValidationNotThere | a certificate whose first description has no validation options yet | keep polling until they appear | not executed | AcmCertificateOld.OptionsMissingFails | AcmCertificate.ValidationRecords |
| lambda_code/acm/DnsValidatedCertificate/index.py:77-86 | the tags are added with `add_tags_to_resource`, which the ACM client does not have | a certificate created with tags | call `add_tags_to_certificate` | not executed | AcmCertificateOld.TaggedCreateFails | AcmCertificate.CreateTags |
| lambda_code/acm/DnsValidatedCertificate/index.py:125-126 | a region change is not a replacement | an update that changes only Region | request a new certificate in the new region | not executed | AcmCertificateOld.RegionChangeKeepsArn | AcmCertificate.Update |
| lambda_code/AcmDnsValidatedCertificate/index.py:60-63 | tags are always added after the request | a certificate created without tags sends an empty tag list | add tags only when there are some | not executed | AcmCertificateFlat.UntaggedCreateRefused | AcmCertificate.CreateTags |
| lambda_code/mysql/MySQLUserGrant/index.py:104-105 | `user_old` lacks `@property`, so the revoke query is built from a bound method instead of the old user | any update that keeps the physical id | revoke the old grant with the old properties, then grant again | not executed | MySqlUserGrant.InPlaceUpdateAlwaysFails | MySqlUserGrant.UpdateRevokingOldRegrants |
| lambda_code/elasticbeanstalk/SolutionStackName/index.py:40-68 | the major-version filter calls `startswith` on an integer or None | any listing with a major-version filter and a stack whose platform and architecture match | compare the version with the requested major version | not executed | SolutionStackName.VersionFilterRaises | SolutionStackName.FilterStackIntended |
| lambda_code/cognito/UserPoolDomain/index.py:54-62 | `attempt` is never incremented | ten taken domain labels in a row are followed by an eleventh request | give up after ten attempts | not executed | CognitoUserPoolDomain.RetriesPastTen | CognitoUserPoolDomain.CreateBounded |
| lambda_code/CognitoUserPoolClient/index.py:38-78 | GenerateSecret is sent to `update_user_pool_client` | any update of a client whose template sets GenerateSecret | drop GenerateSecret from the update request | not executed | CognitoUserPoolClientFlat.UpdateWithSecretRefused | CognitoUserPoolClientFlat.CurrentUpdateAccepted |
| lambda_code/dynamodb/JoinGlobalTable/index.py:26-62 | `validate` pops TableName before the update asks whether it changed | an update that keeps the table name in a region already joined | compare TableName before removing it | not executed | JoinGlobalTable.UnchangedUpdateFails | JoinGlobalTable.IntendedUpdateKeeps |
| lambda_code/awslambda/LayerVersion/index.py:51 | the version number parsed from the physical id is passed as a string | any delete that is not retained | pass it as an integer | not executed | LayerVersion.DeleteAlwaysRefused | LayerVersion.DeleteTargetsPublished |
| lambda_code/s3/Object/index.py:27 | the property mapping itself is called, `resource_properties('ObjectMetadata', {})` | any properties with Bucket and Key | `resource_properties.get('ObjectMetadata', {})` | not executed | S3Object.ValidateAlwaysFails | S3Object.ValidateIntended |
