/** The DDS quality-of-service record and the predicates on it that decide about routes. */
module QosTypes {
  import opened Wrappers

  datatype DurabilityKind = Volatile | TransientLocal | Transient | Persistent
  datatype ReliabilityKind = BestEffort | Reliable
  datatype HistoryKind = KeepLast | KeepAll
  datatype AccessScope = InstanceScope | TopicScope | GroupScope
  datatype OwnershipKind = Shared | Exclusive
  datatype LivelinessKind = Automatic | ManualByParticipant | ManualByTopic
  datatype DestinationOrder = ByReception | BySource
  datatype IgnoreLocalKind = IgnoreNone | IgnoreParticipant | IgnoreProcess

  datatype Reliability = Reliability(kind: ReliabilityKind, maxBlockingTime: int)
  datatype History = History(kind: HistoryKind, depth: int)
  datatype Presentation = Presentation(scope: AccessScope, coherent: bool, ordered: bool)
  datatype Liveliness = Liveliness(kind: LivelinessKind, lease: int)
  datatype DurabilityService = DurabilityService(
    cleanupDelay: int, history: History, maxSamples: int, maxInstances: int, maxSamplesPerInstance: int)

  /** Every policy is optional; an absent one stands for its default. */
  datatype Qos = Qos(
    durability: Option<DurabilityKind>,
    durabilityService: Option<DurabilityService>,
    presentation: Option<Presentation>,
    deadline: Option<int>,
    latencyBudget: Option<int>,
    ownership: Option<OwnershipKind>,
    ownershipStrength: Option<int>,
    liveliness: Option<Liveliness>,
    timeBasedFilter: Option<int>,
    partition: Option<seq<string>>,
    reliability: Option<Reliability>,
    transportPriority: Option<int>,
    lifespan: Option<int>,
    destinationOrder: Option<DestinationOrder>,
    history: Option<History>,
    writerDataLifecycle: Option<bool>,
    readerDataLifecycle: Option<(int, int)>,
    writerBatching: Option<bool>,
    properties: Option<map<string, string>>,
    entityName: Option<string>,
    ignoreLocal: Option<IgnoreLocalKind>)

  predicate PartitionIsEmpty(partition: Option<seq<string>>) {
    partition.None? || partition.value == []
  }

  predicate PartitionContains(partition: Option<seq<string>>, name: string) {
    partition.Some? && name in partition.value
  }

  predicate IsTransientLocal(q: Qos) {
    q.durability == Some(TransientLocal)
  }

  /** One entry per partition, or a single one without partition. */
  function PartitionList(partition: Option<seq<string>>): (r: seq<Option<string>>)
    ensures r != []
    ensures None in r <==> PartitionIsEmpty(partition)
    ensures forall p :: Some(p) in r <==> PartitionContains(partition, p)
    ensures |r| == 1 || None !in r
  {
    if PartitionIsEmpty(partition) then [None]
    else
      var r := seq(|partition.value|, i requires 0 <= i < |partition.value| => Some(partition.value[i]));
      assert forall i :: 0 <= i < |r| ==> r[i] == Some(partition.value[i]);
      r
  }
}
