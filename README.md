# platform-engineering: a Dafny model of the AWS wrapper's decision logic

The tool is a command-line wrapper over AWS DNS (Route 53), compute (EC2) and object
storage (S3). What it adds to the SDK is the local logic that runs before a request is made.
That logic decides whether a request is sent at all and what the request carries. This
project models that logic and proves what it promises.

Every SDK call is abstracted the same way. The provider's answer is an input, such as
`HostedZoneReply`, `DescribeReply`, `ChangeReply` or `ListReply`. The request the tool would
send is a returned datatype value, such as `CreateHostedZoneRequest`, `ChangeRequest`,
`RunRequest` or `S3Request`. "No request was sent" is therefore a statement about a result:
`sent.None?`. Python's exceptions become a `Completion` value, either `Returns(v)` or
`Raises(e)`. The exception kinds that matter are `ValueError`, `ClientError`, `KeyError` and
the plain `Exception` of the quota. The configuration document `config.json` is the record
`Settings.Config`, in which an absent key is `None`.

Modules:

- `Wrappers`: `Option`, Python truthiness of an optional string, and the exception kinds.
- `Tags`: instance and bucket tags. `FirstValue` is Python's `next(...)` over a tag list.
- `Settings`: the configuration record.
- `Ipv4`: `is_valid_ip` as a character-level predicate. It is proved equal to the anchored
  regular expression, written out as a ghost predicate. Lemmas show which addresses the
  predicate accepts.
- `Route53`: the class `Route53Manager`. It holds the allow-list `createdZones`, a `seq` that
  `CreateZone` appends to, and the zones file's contents. Its predicate `Valid` states that the
  file mirrors the list. The `Manages` membership test gates the three record operations
  before any change request is built.
- `Ec2`: the manager's settings as a value, with the quota and ownership gates as functions.
  `_count_running_instances` and `list_instances` are methods with nested loops, proved
  against the functions `Selected`/`RunningCount` and `AllInstances`/`DisplayName`.
- `S3`: region-conditional bucket creation and the public-read policy. The policy's JSON text
  follows `json.dumps` with its default `ensure_ascii` escaping and its ", " and ": "
  separators. Every escaped string body is proved to decode back to the original string. For
  a bucket name that needs no escaping, the whole public-read policy text is proved equal to
  the exact text `json.dumps` writes. The module also covers the creator-tag filter of `list_buckets`, a
  loop method, and the object-key default of `upload_file`.
- `Cli`: the argument checks at the top of the `ec2 create` command.

Two points of the code are kept as written:

- Creation (`create_instance`) and ownership validation (`_validate_instance`) use the
  configured `username_tag_key`. Listing, lookup and counting filter on the fixed key
  `tag:CreatedByCLIUser`. The model keeps both keys. Counting and listing return their
  describe request, and start and stop return the lookup request they send. `Ec2.FilterKeyIgnoresConfiguredKey`
  states the mismatch whenever the configured key differs.
- `_count_running_instances` reads a failed describe call as 0 instances. The quota therefore
  fails open, which `Ec2.FailedCountNeverBlocks` states.

## Model

| member | source | states |
|---|---|---|
| Tags.FirstValue | platform_engineering/plat_manager.py:154-158 | None exactly when no tag has the key; otherwise the value of the first tag with that key (`next` over a generator) |
| Ipv4.IsValidIp | platform_engineering/route53_manager.py:25-28 | an accepted text is 7 to 15 characters of digits and dots, followed by at most one newline |
| Ipv4.IsValidIpMatchesPattern | platform_engineering/route53_manager.py:25-28 | the character-level predicate holds exactly when the anchored pattern `((octet)\.){3}(octet)$` matches, `$` included |
| Ipv4.RepeatMatchIsFields | platform_engineering/route53_manager.py:27 | the text matches the pattern's `(octet\.)`-repetition shape with n octets exactly when it splits on '.' into n fields that are all octets |
| Ipv4.OctetPatternIsByte | platform_engineering/route53_manager.py:27 | a field matches the octet alternation exactly when it is 1 to 3 ASCII digits with decimal value at most 255, leading zeros allowed |
| Ipv4.JoinedOctetsAreValid | platform_engineering/route53_manager.py:25-28 | four octets joined by dots are accepted, with or without one trailing newline |
| Ipv4.RenderedAddressIsValid | platform_engineering/route53_manager.py:25-28 | any four numbers up to 255 written in decimal and joined by dots are accepted |
| Ipv4.TrailingNewline | platform_engineering/route53_manager.py:27-28 | `s + "\n"` is accepted exactly when `s` is a dotted quad; two trailing newlines are never accepted |
| Ipv4.BadFirstFieldRejected | platform_engineering/route53_manager.py:25-28 | four fields whose first is not an octet are rejected |
| Ipv4.LeadingZerosAccepted | platform_engineering/route53_manager.py:25-28 | "001.2.3.4" is accepted |
| Ipv4.OneNewlineAccepted | platform_engineering/route53_manager.py:25-28 | "1.2.3.4\n" is accepted |
| Ipv4.OutOfRangeRejected | platform_engineering/route53_manager.py:25-28 | "256.1.1.1" and "1000.1.1.1" are rejected |
| Ipv4.TooFewFieldsRejected | platform_engineering/route53_manager.py:25-28 | "1.2.3" and "" are rejected |
| Route53.CreateZoneRequest | platform_engineering/route53_manager.py:56-70 | PrivateZone holds exactly when the type is "private"; a VPC block is present exactly when the type is "private" and the VPC id is truthy, and it carries the manager's region; the comment is "Created by " + username |
| Route53.Route53Manager.constructor | platform_engineering/route53_manager.py:32-44 | the allow-list is the zones file's contents, or empty when there is no file; region, username and default VPC come from the configuration with defaults "us-east-1", "unknown" and None; the file mirrors the list |
| Route53.Route53Manager.CreateZone | platform_engineering/route53_manager.py:56-77 | on a provider id: exactly one entry {id, name} is appended at the end, earlier entries unchanged, the file is rewritten to the new list, the id is returned, list_zones grows by that entry, and the managed ids are the old ones plus the new id; on a refusal the error propagates and list and file are unchanged |
| Route53.Route53Manager.ListZones | platform_engineering/route53_manager.py:79-82 | same length as the allow-list and entry i is entry i projected to {Name, Id}; as a function of the list alone, two calls with no create_zone between them are equal |
| Route53.Route53Manager.GetZoneIdByName | platform_engineering/route53_manager.py:84-88 | the id of the first entry with that name, or None exactly when no entry has it; a returned id is managed |
| Route53.Route53Manager.CreateRecord | platform_engineering/route53_manager.py:90-111 | a change request is sent exactly when the zone is managed; otherwise ValueError with the message; the request is one CREATE of a single-value record set with TTL 300; the provider's answer is returned or its error propagates |
| Route53.Route53Manager.UpdateRecord | platform_engineering/route53_manager.py:113-138 | a change request is sent exactly when the zone is managed, otherwise False; the request is one UPSERT with the caller's TTL; the result is whether the status is "PENDING" |
| Route53.Route53Manager.DeleteRecord | platform_engineering/route53_manager.py:145-171 | a change request is sent exactly when the zone is managed, otherwise False; the request is one DELETE with TTL 300; the result is whether the status is "PENDING" |
| Route53.ManagedStaysManaged | platform_engineering/route53_manager.py:72-77 | the allow-list only grows by appending, so a managed zone stays managed |
| Ec2.NewManager | platform_engineering/plat_manager.py:22-31 | a truthy region argument wins, else the configured region, else "us-east-1"; the tag key is the configured one, else "CreatedByCLIUser"; the username is the configured one, with no default; the quota is the configured `max_running_instances`, else 2 |
| Ec2.FilterKeyIgnoresConfiguredKey | platform_engineering/plat_manager.py:29-50 | when the configured key is not "CreatedByCLIUser", the count request `create_instance` sends filters on `tag:CreatedByCLIUser`, while the launch it sends is tagged with the configured key, so the new instance is not one its own count selects; the lookup of start and stop filters on the same fixed key; no describe filter depends on the configured key |
| Ec2.FirstInstanceIsFromFirstNonEmptyReservation | platform_engineering/plat_manager.py:119-122 | the first instance of the flattened reservations is the first instance of the first reservation that has any |
| Ec2.SelectedIsCountedPart | platform_engineering/plat_manager.py:141-145 | the counted instances are exactly the running and stopped ones, with multiplicity |
| Ec2.CountRunningInstances | platform_engineering/plat_manager.py:130-152 | the describe request sent filters on `tag:CreatedByCLIUser` with the username; the nested loops count the running and stopped instances across all reservations; 0 when the call fails |
| Ec2.OtherStatesNotCounted | platform_engineering/plat_manager.py:144-145 | adding instances in any other state leaves the count unchanged |
| Ec2.CreateInstance | platform_engineering/plat_manager.py:29-56 | the count's describe request filters on the fixed key; no launch request is sent exactly when the count has reached the quota, and then a plain Exception "Instance limit reached." propagates; otherwise one request with min = max = 1, tagged {configured key: username} and {Name: name}, and the result is the first new id or None on a refusal |
| Ec2.QuotaRefusesNextLaunch | platform_engineering/plat_manager.py:31-33 | with as many running or stopped instances as the quota, no launch request is sent |
| Ec2.FailedCountNeverBlocks | platform_engineering/plat_manager.py:150-152 | a failed count never blocks creation while the quota is positive |
| Ec2.ValidateInstance | platform_engineering/plat_manager.py:154-158 | true exactly when the first tag with the configured key carries the username, or when there is no such tag and the username is unset |
| Ec2.InstanceIdByName | platform_engineering/plat_manager.py:111-128 | the first instance id in reservation order; None exactly when the call fails or nothing matches |
| Ec2.ChangePowerState | platform_engineering/plat_manager.py:58-88 | a lookup by name happens exactly when the given id is not truthy; a start or stop is sent exactly when the id in use, the given one if truthy and else the lookup's, is truthy and the instance passes ownership validation; it carries that id and the requested action |
| Ec2.OtherUsersInstancesUntouched | platform_engineering/plat_manager.py:64-72 | an instance whose owner tag names another user is neither started nor stopped |
| Ec2.ListInstances | platform_engineering/plat_manager.py:90-109 | the describe request sent filters on `tag:CreatedByCLIUser` with the username; one {ID, Name} per instance in reservation order, the name being the first Name tag's value or "Unnamed"; [] when the call fails |
| S3.EscapeText | platform_engineering/s3_manager.py:66 | the escaped text is printable ASCII, and text without quotes, backslashes or other characters outside printable ASCII is unchanged |
| S3.EscapeTextJoin | platform_engineering/s3_manager.py:66 | escaping works character by character: escaping a concatenation gives the concatenation of the escapes |
| S3.EscapeTextInverts | platform_engineering/s3_manager.py:66 | decoding the escaped text as a JSON string body gives back the original, surrogate pairs included |
| S3.JsonString | platform_engineering/s3_manager.py:66 | a JSON string literal is printable ASCII, and plain text appears between quotes as it is |
| S3.PolicyText | platform_engineering/s3_manager.py:66 | the policy document's JSON text is printable ASCII |
| S3.StatementLayout | platform_engineering/s3_manager.py:58-66 | a statement whose values need no escaping is written as `{"Effect": "…", "Principal": "…", "Action": "…", "Resource": "…"}`, keys in that order, ": " after each key and ", " between members |
| S3.PolicyLayout | platform_engineering/s3_manager.py:55-66 | a policy with a plain version and one statement is written as `{"Version": "…", "Statement": [<statement>]}` |
| S3.PublicReadPolicyText | platform_engineering/s3_manager.py:53-66 | for a bucket name that needs no escaping, the text is exactly `{"Version": "2012-10-17", "Statement": [{"Effect": "Allow", "Principal": "*", "Action": "s3:GetObject", "Resource": "arn:aws:s3:::<name>/*"}]}` |
| S3.PublicReadPolicy | platform_engineering/s3_manager.py:55-65 | version "2012-10-17" and one statement: Allow, principal "*", action "s3:GetObject", resource "arn:aws:s3:::" + name + "/*" |
| S3.PublicReadResourceText | platform_engineering/s3_manager.py:62-66 | for a name needing no escaping, the resource appears in the JSON text as `"arn:aws:s3:::<name>/*"` |
| S3.MakeBucketPublic | platform_engineering/s3_manager.py:53-68 | the policy request targets the bucket and carries the public-read policy, version "2012-10-17" included, whatever the name |
| S3.BucketPlan | platform_engineering/s3_manager.py:21-45 | creation first, with no location constraint exactly when the region is "us-east-1" and the region otherwise; then the public-read policy when public; tagging last with the single tag CreatedBy = user |
| S3.CreateBucket | platform_engineering/s3_manager.py:21-51 | returns the name exactly when all requests succeed; otherwise None, with the requests up to and including the refused one sent and nothing undone |
| S3.TagsDict | platform_engineering/s3_manager.py:78 | the keys of the dictionary are exactly the tags' keys |
| S3.LastTagWins | platform_engineering/s3_manager.py:78 | with duplicate keys, the dictionary holds the value of the last tag with that key |
| S3.OwnedMembers | platform_engineering/s3_manager.py:74-83 | a name is listed exactly when some bucket of that name has a tag fetch that succeeded and a CreatedBy tag equal to the username |
| S3.OwnedDistributes | platform_engineering/s3_manager.py:74-85 | filtering keeps listing order: the result for a concatenation of listings is the concatenation of the results |
| S3.ListBuckets | platform_engineering/s3_manager.py:70-85 | a failed listing propagates; with a username, the loop returns the owned buckets in listing order and skips buckets whose tag fetch fails; with no username, KeyError at the first successful tag fetch, or [] when there is none |
| S3.UploadFile | platform_engineering/s3_manager.py:87-98 | the object key is the given name, else the whole file path; the result is whether the provider accepted the upload |
| Cli.ResolveAmi | platform_engineering/cli.py:62 | an alias resolves to the AMI id the table gives it; anything else passes through unchanged |
| Cli.CreateCommand | platform_engineering/cli.py:46-69 | an unknown instance type is rejected before anything else; then a missing AMI table raises KeyError; a dispatch or an AMI refusal carries the resolved AMI, and a refusal happens only for an AMI that is not a configured id; a dispatched launch has a known type, an AMI id among the configured ones, the subnet option or the configured default subnet, and the name option or "Rachel's_instance" |
| Cli.DispatchIffKnownAmi | platform_engineering/cli.py:62-67 | with a known type, the launch is dispatched exactly when the AMI option is an alias or a known AMI id, an alias is replaced by the id it names, and anything else is carried as given |

## Left out

- All boto3 calls. Provider answers are parameters and requests are returned values. AWS semantics such as propagation, value matching on DELETE and eventual consistency are not modelled. Which calls raise ClientError is an input.
- File and configuration I/O. The zones file (`load_zones`/`save_zones`) is the field `zonesFile`, and the JSON layout of its entries is not modelled. Each module's import-time read of `config.json` is the `Config` parameter. JSON `null` values in the configuration are not distinguished from absent keys.
- The module-level reads `config['default_region']`, `config['username']` and `config['default_vpc_id']` in route53_manager.py (lines 20-22) raise KeyError at import time when a key is absent. The model applies the constructor's defaults instead.
- `config_loader.py` is not part of this model. It only checks that the file exists and reads it.
- The `CallerReference` of `create_zone` is a fresh uuid. It is a parameter.
- Logging and all `click` output and prompts. This includes every other command of cli.py and route53_cli.py, and the second `cli` group at cli.py:155 that shadows the populated one. The private-zone VPC default of route53_cli.py (lines 34-35) is also left out. The model's `CreateZone` takes whatever VPC id it is given.
- `list_records` (route53_manager.py:140-143) is not gated and passes the provider's answer straight through, so it has nothing to prove.
- Concurrency. Two processes writing the zones file (last writer wins) are not modelled, and `Route53Manager.Valid` assumes one process.
- Ec2.CreateInstance: `Launched` carries the first new instance's id. The IndexError that `instances[0]` would raise on an empty launch result is not modelled.
- Ec2.ChangePowerState: the instance's tags are an input, and errors from loading the instance are not modelled. The result of the start or stop call is only logged, so it is not modelled either.
- S3.CreateBucket: botocore's parameter validation, which refuses a tag value of None before any request, is not modelled. A `None` user is carried in the tag request as it is.
