/**
 The instance records returned by the cloud provider and the flattened
 summaries the dashboard shows for them.
 */
module Instances {
  import opened Optional
  import StringOrder

  /**
   A raw instance record, reduced to the attributes the classifier reads.
   `tags` is `None` when the record has no `tags` attribute at all; the two
   IP addresses may be absent (the provider leaves them unset).
   */
  datatype Instance = Instance(
    id: string,
    tags: Option<map<string, string>>,
    rootDeviceType: string,
    state: string,
    keyName: string,
    privateIpAddress: Option<string>,
    ipAddress: Option<string>,
    placement: string,
    launchTime: string,
    instanceType: string)

  /**
   The presentation record built per instance. `deviceType` is the entry the
   dashboard calls `type`.
   */
  datatype Summary = Summary(
    id: string,
    role: string,
    deviceType: string,
    state: string,
    keypair: string,
    privateIp: Option<string>,
    publicIp: Option<string>,
    zone: string,
    launchTime: string,
    size: string)

  /** The group and role used when a record lacks the tag. */
  const Unknown: string := "unknown"

  /**
   Looks up a tag. A record without a `tags` attribute and a tags map
   without the key both raise the same lookup error in the dashboard, so both
   give `None` here.
   */
  function Tag(inst: Instance, key: string): (r: Option<string>)
    ensures r.Some? <==> inst.tags.Some? && key in inst.tags.value
    ensures r.Some? ==> r.value == inst.tags.value[key]
  {
    match inst.tags
    case None => None
    case Some(m) => if key in m then Some(m[key]) else None
  }

  /** The group an instance belongs to: its `env` tag, else `"unknown"`. */
  function EnvOf(inst: Instance): string {
    Tag(inst, "env").GetOr(Unknown)
  }

  /** The role an instance is shown and sorted with: its `role` tag, else `"unknown"`. */
  function RoleOf(inst: Instance): string {
    Tag(inst, "role").GetOr(Unknown)
  }

  /** The group is the record's `env` tag when its tag map has one, and `"unknown"` otherwise. */
  lemma EnvOfDefault(inst: Instance)
    ensures inst.tags.Some? && "env" in inst.tags.value ==> EnvOf(inst) == inst.tags.value["env"]
    ensures !(inst.tags.Some? && "env" in inst.tags.value) ==> EnvOf(inst) == Unknown
  {
  }

  /** The role is the record's `role` tag when its tag map has one, and `"unknown"` otherwise. */
  lemma RoleOfDefault(inst: Instance)
    ensures inst.tags.Some? && "role" in inst.tags.value ==> RoleOf(inst) == inst.tags.value["role"]
    ensures !(inst.tags.Some? && "role" in inst.tags.value) ==> RoleOf(inst) == Unknown
  {
  }

  /**
   Builds the summary of one record: the role, and nine attributes copied
   unchanged under their presentation names.
   */
  function Summarize(inst: Instance): (s: Summary)
    ensures inst.tags.Some? && "role" in inst.tags.value ==> s.role == inst.tags.value["role"]
    ensures !(inst.tags.Some? && "role" in inst.tags.value) ==> s.role == Unknown
    ensures s.id == inst.id && s.deviceType == inst.rootDeviceType && s.state == inst.state
    ensures s.keypair == inst.keyName && s.privateIp == inst.privateIpAddress
    ensures s.publicIp == inst.ipAddress && s.zone == inst.placement
    ensures s.launchTime == inst.launchTime && s.size == inst.instanceType
  {
    Summary(
      id := inst.id,
      role := RoleOf(inst),
      deviceType := inst.rootDeviceType,
      state := inst.state,
      keypair := inst.keyName,
      privateIp := inst.privateIpAddress,
      publicIp := inst.ipAddress,
      zone := inst.placement,
      launchTime := inst.launchTime,
      size := inst.instanceType)
  }

  /**
   The comparator the groups are sorted with: 1, -1 or 0 as the first
   summary's role is greater than, less than or equal to the second's.
   */
  function CompareByRole(x: Summary, y: Summary): (c: int)
    ensures c == 0 || c == 1 || c == -1
    ensures c == 0 <==> x.role == y.role
    ensures c < 0 <==> StringOrder.Less(x.role, y.role)
    ensures c > 0 <==> StringOrder.Less(y.role, x.role)
  {
    StringOrder.LessIrreflexive(x.role);
    if StringOrder.Less(y.role, x.role) then
      StringOrder.LessAsymmetric(y.role, x.role);
      1
    else if StringOrder.Less(x.role, y.role) then
      -1
    else
      StringOrder.NotLessEitherWayEqual(x.role, y.role);
      0
  }

  /** The comparator is antisymmetric, as a sort comparator must be. */
  lemma CompareAntisymmetric(x: Summary, y: Summary)
    ensures CompareByRole(x, y) == -CompareByRole(y, x)
  {
  }

  /** Comparing "at most" is transitive, as a sort comparator must be. */
  lemma CompareAtMostTransitive(x: Summary, y: Summary, z: Summary)
    requires CompareByRole(x, y) <= 0 && CompareByRole(y, z) <= 0
    ensures CompareByRole(x, z) <= 0
  {
    StringOrder.AtMostTransitive(x.role, y.role, z.role);
  }

  /** A record with no `tags` attribute is classified like one with an empty tags map. */
  lemma MissingTagsLikeEmptyTags(inst: Instance)
    requires inst.tags.None?
    ensures EnvOf(inst) == EnvOf(inst.(tags := Some(map[]))) == Unknown
    ensures Summarize(inst) == Summarize(inst.(tags := Some(map[])))
  {
  }
}
