/** The flat key/value configuration document (config.json) as a record.
    A field is None when its key is absent from the document. */
module Settings {
  import opened Wrappers

  datatype Config = Config(
    defaultRegion: Option<string>,       // 'default_region'
    username: Option<string>,            // 'username'
    usernameTagKey: Option<string>,      // 'username_tag_key'
    maxRunningInstances: Option<int>,    // 'max_running_instances'
    defaultVpcId: Option<string>,        // 'default_vpc_id'
    defaultAmi: Option<string>,          // 'default_ami'
    defaultSubnetId: Option<string>,     // 'default_subnet_id'
    instanceTypes: Option<seq<string>>,  // 'instance_types'
    amiIds: Option<map<string, string>>  // 'ami_ids': alias -> AMI id
  )
}
