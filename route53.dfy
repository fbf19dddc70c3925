/** The DNS zone manager: a local allow-list of the zones this tool created, which
    gates every record mutation before any change request reaches the provider.

    The provider is abstracted: its replies are parameters and the requests the
    manager would send are returned as values, so "no request was sent" is a
    statement about a result. */
module Route53 {
  import opened Wrappers
  import opened Settings

  /** TTL of the record sets `create_record` and `delete_record` send. */
  const DefaultTtl := 300
  const PendingStatus := "PENDING"
  const PrivateZoneType := "private"

  /** An entry of the allow-list, `{'Id': id, 'Name': name}`. */
  datatype Zone = Zone(id: string, name: string)

  /** An entry of `list_zones`' result, `{"Name": name, "Id": id}`. */
  datatype ListedZone = ListedZone(name: string, id: string)

  datatype HostedZoneConfig = HostedZoneConfig(comment: string, privateZone: bool)
  datatype VpcAssociation = VpcAssociation(vpcId: string, vpcRegion: string)
  datatype CreateHostedZoneRequest = CreateHostedZoneRequest(
    name: string, callerReference: string, config: HostedZoneConfig, vpc: Option<VpcAssociation>)

  /** The provider's answer to `create_hosted_zone`. */
  datatype HostedZoneReply = HostedZoneCreated(zoneId: string) | HostedZoneRefused(message: string)

  datatype ChangeAction = Create | Upsert | Delete
  datatype ResourceRecordSet = ResourceRecordSet(name: string, recordType: string, ttl: int, values: seq<string>)
  datatype Change = Change(action: ChangeAction, recordSet: ResourceRecordSet)
  datatype ChangeRequest = ChangeRequest(hostedZoneId: string, changes: seq<Change>)

  /** The provider's answer to `change_resource_record_sets`: the change's status, or a refusal. */
  datatype ChangeReply = ChangeInfo(status: string) | ChangeRefused(message: string)

  /** What a record operation did: the change request it sent, if any, and how it ended for its caller. */
  datatype RecordOutcome<T> = RecordOutcome(sent: Option<ChangeRequest>, result: Completion<T>)

  /** `any(zone['Id'] == zone_id for zone in zones)`. */
  predicate Manages(zones: seq<Zone>, zoneId: string) {
    exists i :: 0 <= i < |zones| && zones[i].id == zoneId
  }

  /** The single-change batch every record operation sends: one record set carrying one value. */
  function SingleChange(zoneId: string, action: ChangeAction, name: string, recordType: string, ttl: int, value: string): ChangeRequest {
    ChangeRequest(zoneId, [Change(action, ResourceRecordSet(name, recordType, ttl, [value]))])
  }

  /** The request `create_zone` sends. */
  function CreateZoneRequest(name: string, zoneType: string, vpcId: Option<string>, callerReference: string,
                             username: string, region: string): (r: CreateHostedZoneRequest)
    ensures r.name == name && r.callerReference == callerReference
    ensures r.config.comment == "Created by " + username
    ensures r.config.privateZone <==> zoneType == PrivateZoneType
    ensures r.vpc.Some? <==> zoneType == PrivateZoneType && Truthy(vpcId)
    ensures r.vpc.Some? ==> r.vpc.value == VpcAssociation(vpcId.value, region)
  {
    var vpc := if zoneType == PrivateZoneType && Truthy(vpcId) then Some(VpcAssociation(vpcId.value, region)) else None;
    CreateHostedZoneRequest(name, callerReference, HostedZoneConfig("Created by " + username, zoneType == PrivateZoneType), vpc)
  }

  /** The allow-list projected to `list_zones`' shape, in order. */
  function ProjectZones(zones: seq<Zone>): (r: seq<ListedZone>)
    ensures |r| == |zones|
    ensures forall i :: 0 <= i < |zones| ==> r[i].name == zones[i].name && r[i].id == zones[i].id
  {
    if zones == [] then [] else [ListedZone(zones[0].name, zones[0].id)] + ProjectZones(zones[1..])
  }

  class Route53Manager {
    /** The allow-list, in creation order. */
    var createdZones: seq<Zone>
    /** The zones file: None while it does not exist, else the list it holds. */
    var zonesFile: Option<seq<Zone>>
    const region: string
    const username: string
    const defaultVpcId: Option<string>

    /** The zones file mirrors the allow-list (one process at a time). */
    ghost predicate Valid()
      reads this
    {
      zonesFile == Some(createdZones) || (zonesFile.None? && createdZones == [])
    }

    /** `__init__`: load the zones file when it exists, then read the configuration. */
    constructor (cfg: Config, file: Option<seq<Zone>>)
      ensures Valid()
      ensures zonesFile == file
      ensures createdZones == (if file.Some? then file.value else [])
      ensures region == cfg.defaultRegion.GetOr("us-east-1")
      ensures username == cfg.username.GetOr("unknown")
      ensures defaultVpcId == cfg.defaultVpcId
    {
      zonesFile := file;
      createdZones := if file.Some? then file.value else [];
      region := cfg.defaultRegion.GetOr("us-east-1");
      username := cfg.username.GetOr("unknown");
      defaultVpcId := cfg.defaultVpcId;
    }

    /** `create_zone`: send the creation request; when the provider returns an id, append
        `{Id, Name}` to the allow-list, rewrite the zones file and return the id. A refusal
        propagates and leaves everything as it was. */
    method CreateZone(name: string, zoneType: string, vpcId: Option<string>, callerReference: string,
                      reply: HostedZoneReply)
      returns (request: CreateHostedZoneRequest, result: Completion<string>)
      requires Valid()
      modifies this
      ensures Valid()
      ensures request == CreateZoneRequest(name, zoneType, vpcId, callerReference, username, region)
      ensures reply.HostedZoneCreated? ==>
        && result == Returns(reply.zoneId)
        && createdZones == old(createdZones) + [Zone(reply.zoneId, name)]
        && zonesFile == Some(createdZones)
        && ListZones() == old(ListZones()) + [ListedZone(name, reply.zoneId)]
        && forall id :: Manages(createdZones, id) <==> Manages(old(createdZones), id) || id == reply.zoneId
      ensures reply.HostedZoneRefused? ==>
        && result == Raises(ClientError(reply.message))
        && createdZones == old(createdZones)
        && zonesFile == old(zonesFile)
    {
      request := CreateZoneRequest(name, zoneType, vpcId, callerReference, username, region);
      match reply {
        case HostedZoneRefused(message) =>
          result := Raises(ClientError(message));
        case HostedZoneCreated(zoneId) =>
          ghost var before := createdZones;
          createdZones := createdZones + [Zone(zoneId, name)];
          zonesFile := Some(createdZones);
          result := Returns(zoneId);
          assert createdZones[|before|] == Zone(zoneId, name);
          forall id | Manages(before, id)
            ensures Manages(createdZones, id)
          {
            var i :| 0 <= i < |before| && before[i].id == id;
            assert createdZones[i] == before[i];
          }
          forall id | Manages(createdZones, id)
            ensures Manages(before, id) || id == zoneId
          {
            var i :| 0 <= i < |createdZones| && createdZones[i].id == id;
            if i < |before| { assert createdZones[i] == before[i]; }
          }
          assert ProjectZones(createdZones) == ProjectZones(before) + [ListedZone(name, zoneId)];
      }
    }

    /** `list_zones`: every allow-list entry, in order, as `{Name, Id}`. */
    function ListZones(): (zones: seq<ListedZone>)
      reads this
      ensures |zones| == |createdZones|
      ensures forall i :: 0 <= i < |zones| ==> zones[i] == ListedZone(createdZones[i].name, createdZones[i].id)
    {
      ProjectZones(createdZones)
    }

    /** `get_zone_id_by_name`: the id of the first entry named `zoneName`, or None. */
    method GetZoneIdByName(zoneName: string) returns (id: Option<string>)
      ensures id.None? <==> forall i :: 0 <= i < |createdZones| ==> createdZones[i].name != zoneName
      ensures id.Some? ==>
        exists i :: 0 <= i < |createdZones| && createdZones[i].name == zoneName && createdZones[i].id == id.value &&
          forall j :: 0 <= j < i ==> createdZones[j].name != zoneName
      ensures id.Some? ==> Manages(createdZones, id.value)
    {
      var k := 0;
      while k < |createdZones|
        invariant 0 <= k <= |createdZones|
        invariant forall j :: 0 <= j < k ==> createdZones[j].name != zoneName
      {
        if createdZones[k].name == zoneName {
          return Some(createdZones[k].id);
        }
        k := k + 1;
      }
      return None;
    }

    /** `create_record`: a zone outside the allow-list raises ValueError before any request;
        otherwise one CREATE of a single-value record set with TTL 300 is sent and the
        provider's answer is handed back (a refusal propagates). */
    function CreateRecord(zoneId: string, recordName: string, recordType: string, recordValue: string,
                          reply: ChangeReply): (r: RecordOutcome<string>)
      reads this
      ensures r.sent.Some? <==> Manages(createdZones, zoneId)
      ensures r.sent.Some? ==> r.sent.value == SingleChange(zoneId, Create, recordName, recordType, DefaultTtl, recordValue)
      ensures r.sent.None? ==>
        r.result == Raises(ValueError("Zone ID " + zoneId + " is not allowed. It must be created by you via the CLI."))
      ensures r.sent.Some? ==> r.result == (if reply.ChangeInfo? then Returns(reply.status) else Raises(ClientError(reply.message)))
    {
      if !Manages(createdZones, zoneId) then
        RecordOutcome(None, Raises(ValueError("Zone ID " + zoneId + " is not allowed. It must be created by you via the CLI.")))
      else
        var request := SingleChange(zoneId, Create, recordName, recordType, DefaultTtl, recordValue);
        match reply
        case ChangeInfo(status) => RecordOutcome(Some(request), Returns(status))
        case ChangeRefused(message) => RecordOutcome(Some(request), Raises(ClientError(message)))
    }

    /** `update_record`: a zone outside the allow-list returns False with no request; otherwise
        one UPSERT with the caller's TTL is sent and the result is whether the change is PENDING. */
    function UpdateRecord(zoneId: string, recordName: string, recordType: string, newValue: string, newTtl: int,
                          reply: ChangeReply): (r: RecordOutcome<bool>)
      reads this
      ensures r.sent.Some? <==> Manages(createdZones, zoneId)
      ensures r.sent.Some? ==> r.sent.value == SingleChange(zoneId, Upsert, recordName, recordType, newTtl, newValue)
      ensures r.sent.None? ==> r.result == Returns(false)
      ensures r.sent.Some? ==> r.result == (if reply.ChangeInfo? then Returns(reply.status == PendingStatus) else Raises(ClientError(reply.message)))
    {
      if !Manages(createdZones, zoneId) then RecordOutcome(None, Returns(false))
      else Mutate(SingleChange(zoneId, Upsert, recordName, recordType, newTtl, newValue), reply)
    }

    /** `delete_record`: as `update_record`, but a DELETE with TTL 300. */
    function DeleteRecord(zoneId: string, recordName: string, recordType: string, recordValue: string,
                          reply: ChangeReply): (r: RecordOutcome<bool>)
      reads this
      ensures r.sent.Some? <==> Manages(createdZones, zoneId)
      ensures r.sent.Some? ==> r.sent.value == SingleChange(zoneId, Delete, recordName, recordType, DefaultTtl, recordValue)
      ensures r.sent.None? ==> r.result == Returns(false)
      ensures r.sent.Some? ==> r.result == (if reply.ChangeInfo? then Returns(reply.status == PendingStatus) else Raises(ClientError(reply.message)))
    {
      if !Manages(createdZones, zoneId) then RecordOutcome(None, Returns(false))
      else Mutate(SingleChange(zoneId, Delete, recordName, recordType, DefaultTtl, recordValue), reply)
    }
  }

  /** Send `request` and report whether the provider says the change is PENDING. */
  function Mutate(request: ChangeRequest, reply: ChangeReply): RecordOutcome<bool> {
    match reply
    case ChangeInfo(status) => RecordOutcome(Some(request), Returns(status == PendingStatus))
    case ChangeRefused(message) => RecordOutcome(Some(request), Raises(ClientError(message)))
  }

  /** The allow-list only grows, so once a zone is managed it stays managed. */
  lemma ManagedStaysManaged(before: seq<Zone>, after: seq<Zone>, zoneId: string)
    requires |before| <= |after| && after[..|before|] == before
    requires Manages(before, zoneId)
    ensures Manages(after, zoneId)
  {
    var i :| 0 <= i < |before| && before[i].id == zoneId;
    assert after[i] == after[..|before|][i];
  }

  /** Allow-list closure: right after `create_zone` returns an id, a record created in that zone
      is sent, while a record in a zone id that was never created is refused with no request. */
  method AllowListScenario(cfg: Config, callerReference: string, reply: ChangeReply)
  {
    var m := new Route53Manager(cfg, None);
    var _, created := m.CreateZone("example.com", "public", None, callerReference, HostedZoneCreated("Z123"));
    assert created == Returns("Z123");
    assert m.createdZones == [Zone("Z123", "example.com")];
    assert !Manages(m.createdZones, "Z999");
    assert m.CreateRecord("Z999", "www", "A", "1.2.3.4", reply).sent.None?;
    assert m.createdZones[0].id == "Z123";
    assert m.CreateRecord("Z123", "www", "A", "1.2.3.4", reply).sent.Some?;
  }
}
