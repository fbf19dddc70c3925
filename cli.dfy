/** The input checks of the `ec2 create` command: the instance type must be one of the
    configured types and the AMI, after alias resolution, one of the configured AMI ids. */
module Cli {
  import opened Wrappers
  import opened Settings

  const DefaultAmi := "ubuntu"
  const DefaultInstanceName := "Rachel's_instance"

  /** The command's options; None is an option left out on the command line. */
  datatype CreateArgs = CreateArgs(instanceType: string, ami: Option<string>, subnet: Option<string>, name: Option<string>)

  /** What the command does: refuse the type, refuse the AMI, or hand the launch to the EC2 manager. */
  datatype Decision =
    | RejectType(instanceType: string)
    | RejectAmi(amiId: string)
    | Dispatch(instanceType: string, amiId: string, subnetId: Option<string>, name: string)

  /** The option defaults, read from the configuration at start-up. */
  function AmiOption(cfg: Config, args: CreateArgs): string {
    args.ami.GetOr(cfg.defaultAmi.GetOr(DefaultAmi))
  }

  function InstanceTypes(cfg: Config): seq<string> {
    cfg.instanceTypes.GetOr([])
  }

  /** An alias names its AMI id; anything else is taken as an AMI id itself. */
  function ResolveAmi(amiIds: map<string, string>, ami: string): (id: string)
    ensures id == ami || id in amiIds.Values
    ensures ami in amiIds ==> id == amiIds[ami] && id in amiIds.Values
    ensures ami !in amiIds ==> id == ami
  {
    if ami in amiIds then amiIds[ami] else ami
  }

  /** `ec2 create`: the type is checked first; only then is the AMI table read, which raises
      KeyError when the configuration has none. */
  function CreateCommand(cfg: Config, args: CreateArgs): (r: Completion<Decision>)
    ensures args.instanceType !in InstanceTypes(cfg) ==> r == Returns(RejectType(args.instanceType))
    ensures args.instanceType in InstanceTypes(cfg) && cfg.amiIds.None? ==> r == Raises(KeyError("ami_ids"))
    ensures r.Returns? && (r.value.Dispatch? || r.value.RejectAmi?) ==>
      cfg.amiIds.Some? && r.value.amiId == ResolveAmi(cfg.amiIds.value, AmiOption(cfg, args))
    ensures r.Returns? && r.value.RejectAmi? ==> r.value.amiId !in cfg.amiIds.value.Values
    ensures r.Returns? && r.value.Dispatch? ==>
      && args.instanceType in InstanceTypes(cfg)
      && cfg.amiIds.Some? && r.value.amiId in cfg.amiIds.value.Values
      && r.value.instanceType == args.instanceType
      && r.value.subnetId == (if args.subnet.Some? then args.subnet else cfg.defaultSubnetId)
      && r.value.name == args.name.GetOr(DefaultInstanceName)
  {
    if args.instanceType !in InstanceTypes(cfg) then Returns(RejectType(args.instanceType))
    else if cfg.amiIds.None? then Raises(KeyError("ami_ids"))
    else
      var amiId := ResolveAmi(cfg.amiIds.value, AmiOption(cfg, args));
      if amiId !in cfg.amiIds.value.Values then Returns(RejectAmi(amiId))
      else Returns(Dispatch(args.instanceType, amiId, if args.subnet.Some? then args.subnet else cfg.defaultSubnetId,
                            args.name.GetOr(DefaultInstanceName)))
  }

  /** With an accepted type, the launch goes ahead exactly when the AMI option is an alias or a
      known AMI id; an alias is replaced by the id it names, and anything else, dispatched or
      refused, is carried as it was given. */
  lemma DispatchIffKnownAmi(cfg: Config, args: CreateArgs)
    requires args.instanceType in InstanceTypes(cfg) && cfg.amiIds.Some?
    ensures var ami := AmiOption(cfg, args);
      CreateCommand(cfg, args).Returns?
      && (CreateCommand(cfg, args).value.Dispatch? <==> ami in cfg.amiIds.value || ami in cfg.amiIds.value.Values)
    ensures var ami := AmiOption(cfg, args);
      ami in cfg.amiIds.value ==> CreateCommand(cfg, args).value.amiId == cfg.amiIds.value[ami]
    ensures var ami := AmiOption(cfg, args);
      ami !in cfg.amiIds.value ==> CreateCommand(cfg, args).value.amiId == ami
  {
    var ami := AmiOption(cfg, args);
    if ami in cfg.amiIds.value {
      assert cfg.amiIds.value[ami] in cfg.amiIds.value.Values;
    }
  }
}
