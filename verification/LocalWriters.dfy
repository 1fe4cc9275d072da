/**
What becomes of the local writers noted on the routes from DDS in forward mode. A writer that vanishes is taken
off no route, so it lingers there; and no other writer lingers.
*/
module LocalWriters {
  import opened Wrappers
  import opened BridgeKeys
  import opened Bridge
  import opened Linking
  import opened BridgeState
  import opened LocalMode
  import opened ForwardMode
  import opened ForwardRuns

  /** Routes from DDS only mention discovered writers. */
  ghost predicate WritersTracked(s: State) {
    forall ke :: Local(s.from, ke) <= s.from.entities.Keys
  }

  ghost predicate Vanishes(ev: FwdEvent, k: string) {
    ev.Dds? && ev.ev == Undiscovered(FromDds, k)
  }

  /** A writer vanishes that is noted on a route. */
  ghost predicate LeavesWriter(s: State, ev: FwdEvent) {
    exists k, ke :: Vanishes(ev, k) && k in Local(s.from, ke)
  }

  /** No step notes a writer that is not discovered, and only vanishing ends the discovery of one. */
  ghost predicate WritersStay(h: Half, h': Half, ev: FwdEvent) {
    && (forall ke, k :: k in Local(h', ke) ==> k in Local(h, ke) || k in h.entities)
    && (forall k :: k in h.entities && !Vanishes(ev, k) ==> k in h'.entities)
  }

  lemma StepWriters(cfg: Config, s: State, ev: FwdEvent, oracle: Oracle)
    ensures WritersStay(s.from, FwdStep(cfg, s, ev, oracle).from, ev)
  {
    match ev
    case Dds(e, serializable) => DdsWriters(cfg, s, e, serializable, oracle);
    case Sample(ke, payload) => SampleWriters(cfg, s, ke, payload, oracle);
    case MemberLeft(zid) => LeftWriters(s, zid);
  }

  lemma DdsWriters(cfg: Config, s: State, ev: DdsEvent, serializable: bool, oracle: Oracle)
    ensures WritersStay(s.from, FwdDds(cfg, s, ev, serializable, oracle).from, Dds(ev, serializable))
  {
    hide FwdDiscoverReader, FwdUndiscoverReader, AdminKey;
    match ev
    case Discovered(ToDds, e) => ReaderDiscovered(cfg, s, e, serializable, oracle);
    case Undiscovered(ToDds, key) => ReaderUndiscovered(s, key);
    case _ =>
  }

  lemma SampleWriters(cfg: Config, s: State, ke: string, payload: Payload, oracle: Oracle)
    ensures WritersStay(s.from, OnSample(cfg, s, ke, payload, oracle).from, Sample(ke, payload))
  {
    hide OnAnnounce, OnDelete, FullAdminKey, ParseFwdKey;
    if ParseFwdKey(ke).Some? {
      var p := ParseFwdKey(ke).value;
      var side, ref := SideOf(p.kind), FullAdminKey(p.uuid, p.rest);
      if payload.Announce? { AnnounceWriters(cfg, s, side, ref, payload.e, payload.scope, oracle); }
      DeleteWriters(s, side, ref);
    }
  }

  lemma AnnounceWriters(cfg: Config, s: State, side: Side, ref: string, e: DdsEntity, scope: Option<string>, oracle: Oracle)
    ensures var h, h' := s.from, OnAnnounce(cfg, s, side, ref, e, scope, oracle).from;
            h'.entities.Keys == h.entities.Keys && forall ke :: Local(h', ke) <= Local(h, ke) + h.entities.Keys
  {
    LinkRemoteEffect(RemoteSetup(cfg, e, scope), RemoteTemplate(side, e), Get(s, side), ref, e.Parts(), oracle);
    hide LinkRemote, Reindex;
  }

  lemma DeleteWriters(s: State, side: Side, ref: string)
    ensures var h, h' := s.from, OnDelete(s, side, ref).from;
            h'.entities == h.entities && forall ke :: Local(h', ke) <= Local(h, ke)
  {
    hide Reindex, Conserved;
  }

  lemma LeftWriters(s: State, zid: string)
    ensures var h, h' := s.from, OnLeft(s, zid).from;
            h'.entities == h.entities && forall ke :: Local(h', ke) <= Local(h, ke)
  {
    hide Reindex, Conserved;
  }

  /** A writer that vanishes stays on its routes. */
  lemma VanishedStays(cfg: Config, s: State, k: string, serializable: bool, oracle: Oracle)
    ensures var h' := FwdStep(cfg, s, Dds(Undiscovered(FromDds, k), serializable), oracle).from;
            h'.entities.Keys == s.from.entities.Keys - {k} && forall ke :: Local(h', ke) == Local(s.from, ke)
  {
    hide AdminKey;
  }

  /** Every step keeps the writers on routes discovered, if and only if it is not that one of them vanishes. */
  lemma StepKeepsWritersTrackedIff(cfg: Config, s: State, ev: FwdEvent, oracle: Oracle)
    requires WritersTracked(s)
    ensures WritersTracked(FwdStep(cfg, s, ev, oracle)) <==> !LeavesWriter(s, ev)
  {
    hide FwdStep, Local, WritersStay, WritersTracked;
    if k :| Vanishes(ev, k) {
      VanishedStays(cfg, s, k, ev.serializable, oracle);
      TrackedUnlessOn(s, FwdStep(cfg, s, ev, oracle), ev, k);
    } else {
      hide Vanishes;
      StepWriters(cfg, s, ev, oracle);
      TrackedIfAllStay(s, FwdStep(cfg, s, ev, oracle), ev);
    }
  }

  lemma TrackedUnlessOn(s: State, s': State, ev: FwdEvent, k: string)
    requires WritersTracked(s) && Vanishes(ev, k)
    requires s'.from.entities.Keys == s.from.entities.Keys - {k} && forall ke :: Local(s'.from, ke) == Local(s.from, ke)
    ensures WritersTracked(s') <==> !LeavesWriter(s, ev)
  {
    hide Local;
  }

  lemma TrackedIfAllStay(s: State, s': State, ev: FwdEvent)
    requires WritersTracked(s) && WritersStay(s.from, s'.from, ev) && forall k :: !Vanishes(ev, k)
    ensures WritersTracked(s') && !LeavesWriter(s, ev)
  {
    hide Local, Vanishes;
  }

  /** The writer vanished before this moment of the run. */
  ghost predicate VanishedBefore(events: seq<(FwdEvent, Oracle)>, i: nat, k: string) {
    exists j: nat :: j < i && j < |events| && Vanishes(events[j].0, k)
  }

  /** Over every run: a writer on a route is discovered, or vanished earlier. */
  lemma {:induction false} LingeringWritersVanished(cfg: Config, states: seq<State>, events: seq<(FwdEvent, Oracle)>, i: nat,
          ke: string, k: string)
    requires FwdRun(cfg, states, events) && i < |states| && k in Local(states[i].from, ke)
    ensures k in states[i].from.entities || VanishedBefore(events, i, k)
  {
    hide FwdRun, FwdStep, FwdEventOk;
    RunStart(cfg, states, events);
    if i > 0 {
      RunStep(cfg, states, events, i - 1);
      StepWriters(cfg, states[i - 1], events[i - 1].0, events[i - 1].1);
      if k in Local(states[i - 1].from, ke) { LingeringWritersVanished(cfg, states, events, i - 1, ke, k); }
    }
  }

  /** As long as no writer vanishes while it is on a route, every writer a route mentions is discovered. */
  lemma {:induction false} WritersTrackedInRuns(cfg: Config, states: seq<State>, events: seq<(FwdEvent, Oracle)>, i: nat)
    requires FwdRun(cfg, states, events) && i < |states|
    requires forall j :: 0 <= j < i ==> !LeavesWriter(states[j], events[j].0)
    ensures WritersTracked(states[i])
  {
    hide FwdRun, FwdStep, FwdEventOk, LeavesWriter;
    RunStart(cfg, states, events);
    if i > 0 {
      WritersTrackedInRuns(cfg, states, events, i - 1);
      RunStep(cfg, states, events, i - 1);
      StepKeepsWritersTrackedIff(cfg, states[i - 1], events[i - 1].0, events[i - 1].1);
    }
  }
}
