/**
 * The datastore entities the instance lifecycle reads and writes.
 *
 * InstanceTemplate -> InstanceTemplateRevision -> InstanceGroupManager is a
 * chain of parent keys; an Instance is keyed by one flat string that spells
 * out that chain followed by the instance's own name.
 */
module Models {
  import opened Wrappers

  datatype TemplateKey = TemplateKey(baseName: string)
  datatype RevisionKey = RevisionKey(parent: TemplateKey, revision: string)
  datatype ManagerKey = ManagerKey(parent: RevisionKey, zone: string)
  datatype InstanceKey = InstanceKey(id: string)

  /** `drained`: revisions of this template taken out of rotation. */
  datatype InstanceTemplate = InstanceTemplate(drained: set<RevisionKey>)

  /** `drained`: instance group managers of this revision taken out of rotation. */
  datatype InstanceTemplateRevision = InstanceTemplateRevision(project: string, drained: set<ManagerKey>)

  /** `instances` is treated as a set: it is written from the values of a dictionary. */
  datatype InstanceGroupManager = InstanceGroupManager(url: string, instances: set<InstanceKey>)

  /** The metadata queued for the VM when a Pub/Sub subscription is attached. */
  datatype MetadataUpdate = MetadataUpdate(
    pubsubServiceAccount: string,
    pubsubSubscription: string,
    pubsubSubscriptionProject: string)

  /**
   * One VM. Timestamps are integers; an unset timestamp is None, an unset
   * string is "" (both read as false in the source's truth tests).
   */
  datatype Instance = Instance(
    url: string,
    hostname: string,
    instanceGroupManager: ManagerKey,
    pendingDeletion: bool,
    deletionTs: Option<int>,
    leaseExpirationTs: Option<int>,
    cataloged: bool,
    pubsubSubscription: string,
    pubsubServiceAccount: string,
    pendingMetadataUpdates: seq<MetadataUpdate>)

  /** A freshly created Instance entity: only its URL and manager are set. */
  function NewInstance(url: string, manager: ManagerKey): Instance {
    Instance(url, "", manager, false, None, None, false, "", "", [])
  }
}
