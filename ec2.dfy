/** The compute manager: a running-instance quota and an ownership-tag gate in front of
    instance creation, start and stop, plus listing and lookup by name.

    Provider replies are parameters and requests are returned as values. Two tag keys
    are kept apart on purpose: creation and ownership validation use the configured
    `usernameTagKey`, while listing, lookup and counting filter on the fixed key
    `CreatedByCLIUser`. */
module Ec2 {
  import opened Wrappers
  import opened Settings
  import opened Tags

  /** The tag key the describe filters use, written into the code rather than configured. */
  const CliUserTagKey := "CreatedByCLIUser"
  const DefaultRegion := "us-east-1"
  const DefaultMaxRunningInstances := 2
  const LimitMessage := "Instance limit reached."
  const NameTagKey := "Name"
  const Unnamed := "Unnamed"

  /** What an `EC2Manager` holds besides its provider clients. */
  datatype Ec2Manager = Ec2Manager(region: string, usernameTagKey: string, username: Option<string>, maxRunningInstances: int)

  datatype Instance = Instance(instanceId: string, state: string, tags: seq<Tag>)
  datatype Reservation = Reservation(instances: seq<Instance>)

  /** The provider's answer to `describe_instances`. */
  datatype DescribeReply = Described(reservations: seq<Reservation>) | DescribeFailed(message: string)

  datatype Filter = Filter(name: string, values: seq<Option<string>>)
  datatype DescribeRequest = DescribeRequest(filters: seq<Filter>)

  datatype TagSpecification = TagSpecification(resourceType: string, tags: seq<RequestTag>)
  datatype RunRequest = RunRequest(instanceType: string, imageId: string, subnetId: Option<string>,
                                   minCount: nat, maxCount: nat, tagSpecifications: seq<TagSpecification>)

  /** The provider's answer to `create_instances`: the first new instance's id, or a refusal. */
  datatype LaunchReply = Launched(instanceId: string) | LaunchFailed(message: string)

  /** What `create_instance` did: the describe request of its count, the launch request it
      sent, if any, and how it ended. */
  datatype CreateOutcome = CreateOutcome(counted: DescribeRequest, sent: Option<RunRequest>, result: Completion<Option<string>>)

  datatype PowerAction = Start | Stop
  datatype PowerRequest = PowerRequest(action: PowerAction, instanceId: string)

  /** What `start_instance` / `stop_instance` did: the lookup it sent, if any, and the start or stop it sent, if any. */
  datatype PowerOutcome = PowerOutcome(lookup: Option<DescribeRequest>, sent: Option<PowerRequest>)

  datatype InstanceSummary = InstanceSummary(id: string, name: string)

  /** `EC2Manager(region)` over the configuration. */
  function NewManager(cfg: Config, region: Option<string>): (m: Ec2Manager)
    ensures Truthy(region) ==> m.region == region.value
    ensures !Truthy(region) ==> m.region == cfg.defaultRegion.GetOr(DefaultRegion)
    ensures cfg.usernameTagKey.Some? ==> m.usernameTagKey == cfg.usernameTagKey.value
    ensures cfg.usernameTagKey.None? ==> m.usernameTagKey == CliUserTagKey
    ensures m.username == cfg.username
    ensures cfg.maxRunningInstances.Some? ==> m.maxRunningInstances == cfg.maxRunningInstances.value
    ensures cfg.maxRunningInstances.None? ==> m.maxRunningInstances == DefaultMaxRunningInstances
  {
    Ec2Manager(
      if Truthy(region) then region.value else cfg.defaultRegion.GetOr(DefaultRegion),
      cfg.usernameTagKey.GetOr(CliUserTagKey),
      cfg.username,
      cfg.maxRunningInstances.GetOr(DefaultMaxRunningInstances))
  }

  // ---------------------------------------------------------------------------
  // Requests

  function OwnerFilter(m: Ec2Manager): Filter {
    Filter("tag:" + CliUserTagKey, [m.username])
  }

  /** The describe request of `list_instances` and `_count_running_instances`. */
  function ListRequest(m: Ec2Manager): DescribeRequest {
    DescribeRequest([OwnerFilter(m)])
  }

  /** The describe request of `get_instance_id_by_name`. */
  function LookupRequest(m: Ec2Manager, name: Option<string>): DescribeRequest {
    DescribeRequest([Filter("tag:" + NameTagKey, [name]), OwnerFilter(m)])
  }

  /** The launch request of `create_instance`: one instance, tagged with its owner and its name. */
  function LaunchRequest(m: Ec2Manager, instanceType: string, amiId: string, subnetId: Option<string>, name: string): RunRequest {
    RunRequest(instanceType, amiId, subnetId, 1, 1,
      [TagSpecification("instance", [RequestTag(m.usernameTagKey, m.username), RequestTag(NameTagKey, Some(name))])])
  }

  // ---------------------------------------------------------------------------
  // Reservations

  /** Every instance of every reservation, in reservation order. */
  function AllInstances(rs: seq<Reservation>): seq<Instance> {
    if rs == [] then [] else AllInstances(rs[..|rs| - 1]) + rs[|rs| - 1].instances
  }

  /** The first instance overall is the first instance of the first reservation that has any. */
  lemma {:induction false} FirstInstanceIsFromFirstNonEmptyReservation(rs: seq<Reservation>)
    requires AllInstances(rs) != []
    ensures exists i :: (0 <= i < |rs| && rs[i].instances != [] &&
                         (forall j :: 0 <= j < i ==> rs[j].instances == []) &&
                         AllInstances(rs)[0] == rs[i].instances[0])
  {
    var init := rs[..|rs| - 1];
    if AllInstances(init) == [] {
      var i := |rs| - 1;
      assert rs[i].instances != [];
      forall j | 0 <= j < i
        ensures rs[j].instances == []
      {
        NoInstancesInEmptyPrefix(init, j);
        assert init[j] == rs[j];
      }
    } else {
      FirstInstanceIsFromFirstNonEmptyReservation(init);
      var i :| 0 <= i < |init| && init[i].instances != [] &&
        (forall j :: 0 <= j < i ==> init[j].instances == []) &&
        AllInstances(init)[0] == init[i].instances[0];
      assert rs[i] == init[i];
      assert forall j :: 0 <= j < i ==> rs[j] == init[j];
    }
  }

  lemma {:induction false} NoInstancesInEmptyPrefix(rs: seq<Reservation>, j: nat)
    requires AllInstances(rs) == [] && j < |rs|
    ensures rs[j].instances == []
  {
    if j < |rs| - 1 {
      NoInstancesInEmptyPrefix(rs[..|rs| - 1], j);
      assert rs[..|rs| - 1][j] == rs[j];
    }
  }

  lemma AllInstancesStep(rs: seq<Reservation>, i: nat)
    requires i < |rs|
    ensures AllInstances(rs[..i + 1]) == AllInstances(rs[..i]) + rs[i].instances
  {
    assert rs[..i + 1][..i] == rs[..i];
  }

  // ---------------------------------------------------------------------------
  // _count_running_instances

  /** The states the quota counts. */
  predicate Counted(x: Instance) {
    x.state == "running" || x.state == "stopped"
  }

  /** The counted instances, in order. */
  function Selected(xs: seq<Instance>): seq<Instance> {
    if xs == [] then [] else Selected(xs[..|xs| - 1]) + if Counted(xs[|xs| - 1]) then [xs[|xs| - 1]] else []
  }

  lemma SelectedStep(xs: seq<Instance>, x: Instance)
    ensures Selected(xs + [x]) == Selected(xs) + if Counted(x) then [x] else []
  {
    assert (xs + [x])[..|xs|] == xs;
  }

  /** `Selected` keeps every running or stopped instance, as often as it occurs, and nothing else. */
  lemma {:induction false} SelectedIsCountedPart(xs: seq<Instance>)
    ensures forall x :: multiset(Selected(xs))[x] == if Counted(x) then multiset(xs)[x] else 0
  {
    if xs != [] {
      var init, last := xs[..|xs| - 1], xs[|xs| - 1];
      assert xs == init + [last];
      SelectedIsCountedPart(init);
    }
  }

  /** The number `_count_running_instances` reports for a describe reply. */
  function RunningCount(reply: DescribeReply): nat {
    match reply
    case Described(rs) => |Selected(AllInstances(rs))|
    case DescribeFailed(_) => 0
  }

  /** `_count_running_instances`: the instances across all reservations whose state is running
      or stopped; 0 when the describe call fails. */
  method CountRunningInstances(m: Ec2Manager, reply: DescribeReply) returns (request: DescribeRequest, count: nat)
    ensures request == ListRequest(m)
    ensures reply.DescribeFailed? ==> count == 0
    ensures reply.Described? ==> count == |Selected(AllInstances(reply.reservations))|
  {
    request := ListRequest(m);
    if reply.DescribeFailed? {
      return request, 0;
    }
    var rs := reply.reservations;
    count := 0;
    var i := 0;
    while i < |rs|
      invariant 0 <= i <= |rs|
      invariant count == |Selected(AllInstances(rs[..i]))|
    {
      var xs := rs[i].instances;
      ghost var done := AllInstances(rs[..i]);
      var j := 0;
      assert done + xs[..0] == done;
      while j < |xs|
        invariant 0 <= j <= |xs|
        invariant count == |Selected(done + xs[..j])|
      {
        assert done + xs[..j + 1] == (done + xs[..j]) + [xs[j]];
        SelectedStep(done + xs[..j], xs[j]);
        if xs[j].state == "running" || xs[j].state == "stopped" {
          count := count + 1;
        }
        j := j + 1;
      }
      assert xs[..j] == xs;
      AllInstancesStep(rs, i);
      i := i + 1;
    }
    assert rs[..i] == rs;
  }

  /** Instances in any other state never count: adding them changes nothing. */
  lemma {:induction false} OtherStatesNotCounted(xs: seq<Instance>, others: seq<Instance>)
    requires forall k :: 0 <= k < |others| ==> !Counted(others[k])
    ensures Selected(xs + others) == Selected(xs)
    decreases |others|
  {
    if others != [] {
      var init, last := others[..|others| - 1], others[|others| - 1];
      assert xs + others == (xs + init) + [last];
      SelectedStep(xs + init, last);
      assert !Counted(last);
      assert forall k :: 0 <= k < |init| ==> init[k] == others[k];
      OtherStatesNotCounted(xs, init);
      assert Selected(xs + init) + [] == Selected(xs + init);
    } else {
      assert xs + others == xs;
    }
  }

  // ---------------------------------------------------------------------------
  // create_instance

  /** `create_instance`: when the count of running or stopped instances has reached the
      quota, a plain Exception propagates and nothing is launched; otherwise one instance is
      requested, and its id is returned, or None when the provider refuses. */
  function CreateInstance(m: Ec2Manager, instanceType: string, amiId: string, subnetId: Option<string>, name: string,
                          countReply: DescribeReply, launchReply: LaunchReply): (r: CreateOutcome)
    ensures r.counted == ListRequest(m)
    ensures r.sent.None? <==> RunningCount(countReply) >= m.maxRunningInstances
    ensures r.sent.None? ==> r.result == Raises(PlainException(LimitMessage))
    ensures r.sent.Some? ==> r.sent.value == LaunchRequest(m, instanceType, amiId, subnetId, name)
    ensures r.sent.Some? ==> r.result == Returns(if launchReply.Launched? then Some(launchReply.instanceId) else None)
  {
    if RunningCount(countReply) >= m.maxRunningInstances then
      CreateOutcome(ListRequest(m), None, Raises(PlainException(LimitMessage)))
    else
      var request := LaunchRequest(m, instanceType, amiId, subnetId, name);
      match launchReply
      case Launched(id) => CreateOutcome(ListRequest(m), Some(request), Returns(Some(id)))
      case LaunchFailed(_) => CreateOutcome(ListRequest(m), Some(request), Returns(None))
  }

  /** Creation tags with the configured key, but counting (and likewise listing and lookup,
      whose requests are `ListRequest` and `LookupRequest`) filters on the fixed key: whenever
      the two differ, the owner tag `create_instance` writes is not the one its own count selects. */
  lemma FilterKeyIgnoresConfiguredKey(m: Ec2Manager, instanceType: string, amiId: string, subnetId: Option<string>,
                                      name: string, countReply: DescribeReply, launchReply: LaunchReply,
                                      action: PowerAction, lookupName: Option<string>, lookupReply: DescribeReply,
                                      instanceTags: seq<Tag>)
    requires m.usernameTagKey != CliUserTagKey
    requires RunningCount(countReply) < m.maxRunningInstances
    ensures var r := CreateInstance(m, instanceType, amiId, subnetId, name, countReply, launchReply);
      && r.counted.filters == [Filter("tag:" + CliUserTagKey, [m.username])]
      && r.sent.Some?
      && r.sent.value.tagSpecifications[0].tags[0] == RequestTag(m.usernameTagKey, m.username)
      && "tag:" + r.sent.value.tagSpecifications[0].tags[0].key != r.counted.filters[0].name
    ensures var r := ChangePowerState(m, action, lookupName, None, lookupReply, instanceTags);
      r.lookup.Some? && r.lookup.value.filters[1] == Filter("tag:" + CliUserTagKey, [m.username])
    ensures forall k :: ListRequest(m.(usernameTagKey := k)) == ListRequest(m)
  {
    DistinctAfterPrefix("tag:", m.usernameTagKey, CliUserTagKey);
  }

  lemma DistinctAfterPrefix(prefix: string, a: string, b: string)
    requires a != b
    ensures prefix + a != prefix + b
  {
    assert (prefix + a)[|prefix|..] == a;
    assert (prefix + b)[|prefix|..] == b;
  }

  /** Quota: with N instances already running or stopped and a quota of N, the next creation
      is refused and no launch request is sent. */
  lemma QuotaRefusesNextLaunch(m: Ec2Manager, rs: seq<Reservation>, instanceType: string, amiId: string,
                               subnetId: Option<string>, name: string, launchReply: LaunchReply)
    requires |Selected(AllInstances(rs))| == m.maxRunningInstances
    ensures CreateInstance(m, instanceType, amiId, subnetId, name, Described(rs), launchReply).sent.None?
  {
  }

  /** A failed count reads as 0, so with a positive quota creation goes ahead. */
  lemma FailedCountNeverBlocks(m: Ec2Manager, message: string, instanceType: string, amiId: string,
                               subnetId: Option<string>, name: string, launchReply: LaunchReply)
    requires m.maxRunningInstances > 0
    ensures CreateInstance(m, instanceType, amiId, subnetId, name, DescribeFailed(message), launchReply).sent.Some?
  {
  }

  // ---------------------------------------------------------------------------
  // Ownership, lookup, start and stop

  /** `_validate_instance`: the first tag with the configured key carries the configured
      username; with no such tag, only a missing username matches. */
  function ValidateInstance(m: Ec2Manager, tags: seq<Tag>): (ok: bool)
    ensures ok <==>
      || (exists i :: 0 <= i < |tags| && tags[i].key == m.usernameTagKey && Some(tags[i].value) == m.username &&
            forall j :: 0 <= j < i ==> tags[j].key != m.usernameTagKey)
      || (m.username.None? && forall i :: 0 <= i < |tags| ==> tags[i].key != m.usernameTagKey)
  {
    var found := FirstValue(tags, m.usernameTagKey);
    if found.Some? then
      var i :| 0 <= i < |tags| && tags[i].key == m.usernameTagKey && tags[i].value == found.value &&
        forall j :: 0 <= j < i ==> tags[j].key != m.usernameTagKey;
      assert forall i' :: (0 <= i' < |tags| && tags[i'].key == m.usernameTagKey &&
                           (forall j :: 0 <= j < i' ==> tags[j].key != m.usernameTagKey)) ==> i' == i;
      found == m.username
    else
      found == m.username
  }

  /** `get_instance_id_by_name` on the lookup's reply: the first instance id in reservation
      order; None when nothing matches or the call fails. */
  function InstanceIdByName(reply: DescribeReply): (id: Option<string>)
    ensures id.Some? <==> reply.Described? && AllInstances(reply.reservations) != []
    ensures id.Some? ==>
      exists i :: 0 <= i < |reply.reservations| && reply.reservations[i].instances != [] &&
        (forall j :: 0 <= j < i ==> reply.reservations[j].instances == []) &&
        id.value == reply.reservations[i].instances[0].instanceId
  {
    match reply
    case DescribeFailed(_) => None
    case Described(rs) =>
      var all := AllInstances(rs);
      if all == [] then None
      else
        FirstInstanceIsFromFirstNonEmptyReservation(rs);
        Some(all[0].instanceId)
  }

  /** `start_instance` / `stop_instance`: use the given id when truthy, else look it up by name;
      with no id, do nothing; otherwise send the start or stop only when the instance's tags
      pass ownership validation. */
  function ChangePowerState(m: Ec2Manager, action: PowerAction, name: Option<string>, instanceId: Option<string>,
                            lookupReply: DescribeReply, instanceTags: seq<Tag>): (r: PowerOutcome)
    ensures r.lookup.Some? <==> !Truthy(instanceId)
    ensures r.lookup.Some? ==> r.lookup.value == LookupRequest(m, name)
    ensures r.sent.Some? ==> ValidateInstance(m, instanceTags) && r.sent.value.action == action
    ensures r.sent.Some? && Truthy(instanceId) ==> r.sent.value.instanceId == instanceId.value
    ensures r.sent.Some? && !Truthy(instanceId) ==> Some(r.sent.value.instanceId) == InstanceIdByName(lookupReply)
    ensures Truthy(instanceId) ==> (r.sent.Some? <==> ValidateInstance(m, instanceTags))
    ensures !Truthy(instanceId) ==> (r.sent.Some? <==> Truthy(InstanceIdByName(lookupReply)) && ValidateInstance(m, instanceTags))
  {
    var lookup := if Truthy(instanceId) then None else Some(LookupRequest(m, name));
    var id := if Truthy(instanceId) then instanceId else InstanceIdByName(lookupReply);
    if !Truthy(id) then PowerOutcome(lookup, None)
    else if ValidateInstance(m, instanceTags) then PowerOutcome(lookup, Some(PowerRequest(action, id.value)))
    else PowerOutcome(lookup, None)
  }

  /** Ownership: an instance whose owner tag names another user is never started or stopped. */
  lemma OtherUsersInstancesUntouched(m: Ec2Manager, action: PowerAction, name: Option<string>, instanceId: Option<string>,
                                     lookupReply: DescribeReply, instanceTags: seq<Tag>, owner: string)
    requires FirstValue(instanceTags, m.usernameTagKey) == Some(owner)
    requires m.username != Some(owner)
    ensures ChangePowerState(m, action, name, instanceId, lookupReply, instanceTags).sent.None?
  {
  }

  // ---------------------------------------------------------------------------
  // list_instances

  /** The name `list_instances` shows: the first Name tag's value, else "Unnamed". */
  function DisplayName(tags: seq<Tag>): string {
    FirstValue(tags, NameTagKey).GetOr(Unnamed)
  }

  /** `list_instances`: one `{ID, Name}` per instance, in reservation order; [] when the call fails. */
  method ListInstances(m: Ec2Manager, reply: DescribeReply) returns (request: DescribeRequest, details: seq<InstanceSummary>)
    ensures request == ListRequest(m)
    ensures reply.DescribeFailed? ==> details == []
    ensures reply.Described? ==>
      var all := AllInstances(reply.reservations);
      |details| == |all| &&
      forall k :: 0 <= k < |all| ==> details[k] == InstanceSummary(all[k].instanceId, DisplayName(all[k].tags))
  {
    request := ListRequest(m);
    if reply.DescribeFailed? {
      return request, [];
    }
    var rs := reply.reservations;
    details := [];
    var i := 0;
    while i < |rs|
      invariant 0 <= i <= |rs|
      invariant |details| == |AllInstances(rs[..i])|
      invariant forall k :: 0 <= k < |details| ==>
        details[k] == InstanceSummary(AllInstances(rs[..i])[k].instanceId, DisplayName(AllInstances(rs[..i])[k].tags))
    {
      var xs: seq<Instance> := rs[i].instances;
      var done: seq<Instance> := AllInstances(rs[..i]);
      var j := 0;
      while j < |xs|
        invariant 0 <= j <= |xs|
        invariant |details| == |done| + j
        invariant forall k :: 0 <= k < |details| ==>
          details[k] == InstanceSummary((done + xs)[k].instanceId, DisplayName((done + xs)[k].tags))
      {
        details := details + [InstanceSummary(xs[j].instanceId, DisplayName(xs[j].tags))];
        j := j + 1;
      }
      AllInstancesStep(rs, i);
      i := i + 1;
    }
    assert rs[..i] == rs;
  }
}
