/** What the bridge makes of a discovered quality of service for the DDS readers and writers of its routes. */
module QosAdaptation {
  import opened Wrappers
  import opened QosTypes

  const INFINITE := 0x7fff_ffff_ffff_ffff
  const UNLIMITED := -1
  const ONE_SECOND := 1_000_000_000
  const HUNDRED_MS := 100_000_000
  const DEFAULT_HISTORY := History(KeepLast, 1)

  /** Durations are 64-bit integers, of which the largest stands for infinity. */
  function SaturatingAdd(d: int, n: nat): int {
    if d + n > INFINITE then INFINITE else d + n
  }

  predicate IsWriterReliable(reliability: Option<Reliability>) {
    reliability.None? || reliability.value.kind == Reliable
  }

  predicate IsReaderReliable(reliability: Option<Reliability>) {
    reliability.Some? && reliability.value.kind == Reliable
  }

  function AdaptWriterQosForReader(q: Qos): Qos {
    q.(durabilityService := None, ownershipStrength := None, transportPriority := None, lifespan := None,
       writerDataLifecycle := None, writerBatching := None, properties := None, entityName := None, ignoreLocal := None,
       reliability := if q.reliability.None? then Some(Reliability(BestEffort, HUNDRED_MS)) else q.reliability)
  }

  function AdaptWriterQosForProxyWriter(q: Qos): Qos {
    q.(properties := None, entityName := None, ignoreLocal := Some(IgnoreParticipant))
  }

  function AdaptReaderQosForWriter(q: Qos): Qos {
    var history := if q.history.None? then DEFAULT_HISTORY else q.history.value;
    var reliability := if q.reliability.None? then Reliability(Reliable, HUNDRED_MS) else q.reliability.value;
    q.(timeBasedFilter := None, readerDataLifecycle := None, properties := None, entityName := None,
       ignoreLocal := Some(IgnoreParticipant),
       durabilityService := if IsTransientLocal(q) then
         Some(DurabilityService(60 * ONE_SECOND, history, UNLIMITED, UNLIMITED, UNLIMITED))
                            else q.durabilityService,
       reliability := Some(reliability.(maxBlockingTime := SaturatingAdd(reliability.maxBlockingTime, 1))))
  }

  function AdaptReaderQosForProxyReader(q: Qos): Qos {
    q.(properties := None, entityName := None, ignoreLocal := None)
  }

  /** Writers are created reliable whatever was asked for: an absent policy stands for RELIABLE. */
  function AsWriter(q: Qos): Qos {
    if q.reliability.Some? && q.reliability.value.kind == BestEffort then q.(reliability := None) else q
  }

  /** A reader polled at intervals keeps the last sample only. */
  function AsReader(q: Qos, periodic: bool): Qos {
    if periodic then q.(history := Some(History(KeepLast, 1))) else q
  }

  function Narrow(q: Qos, part: Option<string>): Qos {
    if part.None? then q else q.(partition := Some([part.value]))
  }

  /** What a DDS entity was created from. */
  datatype Spec = Spec(topic: string, typeName: string, qos: Qos)

  /** What the DDS entities made for one discovered entity have in common, before the split by partition. */
  datatype Template = Template(typeName: string, qos: Qos, reader: bool)
  {
    function For(topic: string, part: Option<string>, periodic: bool): Spec {
      Spec(topic, typeName, if reader then AsReader(Narrow(qos, part), periodic) else AsWriter(Narrow(qos, part)))
    }
  }
}
