/**
Forward discovery mode against the events of a run: what is stored is what DDS has discovered and not taken back, where the
announcement could be encoded.
*/
module ForwardHistory {
  import opened BridgeKeys
  import opened Bridge
  import opened Linking
  import opened BridgeState
  import opened LocalMode
  import opened EventLog
  import opened ForwardMode
  import opened ForwardRuns
  import opened Network

  /** A discovery that cannot be announced is not stored either. */
  function Stored(ev: FwdEvent): Log {
    match ev
    case Dds(e, serializable) => if e.Discovered? && !serializable then [] else [e]
    case _ => []
  }

  /** What the bridge was told by state `i` and could announce. */
  ghost function ForwardLog(events: seq<(FwdEvent, Oracle)>, i: nat): Log
    requires i <= |events|
  {
    if i == 0 then [] else ForwardLog(events, i - 1) + Stored(events[i - 1].0)
  }

  lemma StepRemembers(cfg: Config, s: State, ev: FwdEvent, oracle: Oracle, log: Log)
    requires Remembers(log, s)
    ensures Remembers(log + Stored(ev), FwdStep(cfg, s, ev, oracle))
  {
    assert log + [] == log;
    hide Remembers, FwdDds, OnSample, OnLeft;
    match ev
    case Dds(e, serializable) =>
      if e.Discovered? && !serializable {
        UnencodedEntities(cfg, s, e.side, e.e, oracle);
        RemembersSame(log, s, FwdStep(cfg, s, ev, oracle));
      } else {
        EncodingIrrelevant(cfg, s, e, serializable, oracle);
        DdsEntities(cfg, s, e, oracle);
        RemembersNext(log, s, FwdStep(cfg, s, ev, oracle), e);
      }
    case Sample(ke, payload) =>
      HandleEntities(cfg, s, "", Disco(ke, payload), oracle);
      HandleParticipants(cfg, s, "", Disco(ke, payload), oracle);
      RemembersSame(log, s, FwdStep(cfg, s, ev, oracle));
    case MemberLeft(zid) =>
      HandleEntities(cfg, s, zid, Gone, oracle);
      HandleParticipants(cfg, s, zid, Gone, oracle);
      RemembersSame(log, s, FwdStep(cfg, s, ev, oracle));
  }

  lemma EncodingIrrelevant(cfg: Config, s: State, ev: DdsEvent, serializable: bool, oracle: Oracle)
    requires ev.Discovered? ==> serializable
    ensures FwdDds(cfg, s, ev, serializable, oracle) == FwdDds(cfg, s, ev, true, oracle)
  {
    hide FwdDiscoverReader, FwdUndiscoverReader, AdminKey;
  }

  lemma UnencodedEntities(cfg: Config, s: State, side: Side, e: DdsEntity, oracle: Oracle)
    ensures var s' := FwdDds(cfg, s, Discovered(side, e), false, oracle);
            s'.from.entities == s.from.entities && s'.to.entities == s.to.entities && s'.participants == s.participants
  {
    if side.ToDds? {
      ReaderDiscovered(cfg, s, e, false, oracle);
      LinkLocalEntities(SetupOf(cfg, e), LocalTemplate(ToDds, e), s.to, e.key, e.Parts(), false, oracle);
    }
    hide FwdDiscoverReader, LinkLocal, SetupOf, LocalTemplate;
  }

  /**
  Over every run: exactly those entities and participants are stored that were discovered, announced and not taken back, each
  as it was discovered last.
  */
  lemma {:induction false} ForwardRemembers(cfg: Config, states: seq<State>, events: seq<(FwdEvent, Oracle)>, i: nat)
    requires FwdRun(cfg, states, events) && i < |states|
    ensures |states| == |events| + 1 && Remembers(ForwardLog(events, i), states[i])
  {
    hide *;
    RunStart(cfg, states, events);
    LogNext(events, i);
    if i == 0 {
      RemembersNothing();
    } else {
      ForwardRemembers(cfg, states, events, i - 1);
      RunStep(cfg, states, events, i - 1);
      StepRemembers(cfg, states[i - 1], events[i - 1].0, events[i - 1].1, ForwardLog(events, i - 1));
    }
  }

  lemma LogNext(events: seq<(FwdEvent, Oracle)>, i: nat)
    requires i <= |events|
    ensures ForwardLog(events, i) == if i == 0 then [] else ForwardLog(events, i - 1) + Stored(events[i - 1].0)
  {
  }
}
