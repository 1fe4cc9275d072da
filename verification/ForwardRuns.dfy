/** What holds in every state a bridge in forward discovery mode can reach. */
module ForwardRuns {
  import opened Wrappers
  import opened QosAdaptation
  import opened BridgeKeys
  import opened Bridge
  import opened Linking
  import opened BridgeState
  import opened LocalMode
  import opened RosGraph
  import opened ForwardMode

  /** A run from the start, with any outcome of each creation and any serialization failure. */
  ghost predicate FwdRun(cfg: Config, states: seq<State>, events: seq<(FwdEvent, Oracle)>) {
    && |states| == |events| + 1
    && states[0] == INIT
    && forall i :: 0 <= i < |events| ==> FwdNext(cfg, states, events, i)
  }

  ghost predicate FwdNext(cfg: Config, states: seq<State>, events: seq<(FwdEvent, Oracle)>, i: nat)
    requires |states| == |events| + 1 && i < |events|
  {
    FwdEventOk(states[i], events[i].0) && states[i + 1] == FwdStep(cfg, states[i], events[i].0, events[i].1)
  }

  lemma RunStart(cfg: Config, states: seq<State>, events: seq<(FwdEvent, Oracle)>)
    requires FwdRun(cfg, states, events)
    ensures |states| == |events| + 1 && states[0] == INIT
  {
    hide FwdNext;
  }

  lemma RunStep(cfg: Config, states: seq<State>, events: seq<(FwdEvent, Oracle)>, i: nat)
    requires FwdRun(cfg, states, events) && i < |events|
    ensures |states| == |events| + 1 && FwdEventOk(states[i], events[i].0)
    ensures states[i + 1] == FwdStep(cfg, states[i], events[i].0, events[i].1)
  {
    assert FwdNext(cfg, states, events, i);
  }

  /** One more event makes the run longer. */
  lemma RunExtends(cfg: Config, states: seq<State>, events: seq<(FwdEvent, Oracle)>, ev: (FwdEvent, Oracle))
    requires FwdRun(cfg, states, events) && FwdEventOk(states[|events|], ev.0)
    ensures FwdRun(cfg, states + [FwdStep(cfg, states[|events|], ev.0, ev.1)], events + [ev])
  {
    hide FwdStep, FwdEventOk;
    var states', events' := states + [FwdStep(cfg, states[|events|], ev.0, ev.1)], events + [ev];
    forall i | 0 <= i < |events'| ensures FwdNext(cfg, states', events', i) {
      if i < |events| { assert FwdNext(cfg, states, events, i); }
    }
  }

  // ---------- what the program makes of its events ----------

  /** What DDS and zenoh may deliver: graphs are keyed by namespace and name. */
  ghost predicate Deliverable(s: State, ev: FwdEvent) {
    match ev
    case Dds(e, _) => EventOk(s, e)
    case Sample(_, RosInfo(nodes, _)) => forall k :: k in nodes ==> k == nodes[k].namespace + nodes[k].name
    case _ => true
  }

  /** A received graph stands for itself with what remapping made of it; on a key that is not for graphs it is not understood. */
  ghost predicate Means(ev: FwdEvent, meant: FwdEvent) {
    if ev.Sample? && ev.payload.RosInfo? then
      && meant.Sample? && meant.ke == ev.ke
      && if ParseFwdKey(ev.ke).Some? && ParseFwdKey(ev.ke).value.kind.RosDisco? then
           meant.payload.RosInfo? && meant.payload.nodes == ev.payload.nodes
         else meant.payload == Garbage
    else meant == ev
  }

  ghost predicate AllMean(events: seq<(FwdEvent, Oracle)>, meant: seq<(FwdEvent, Oracle)>) {
    |meant| <= |events| && forall j :: 0 <= j < |meant| ==> Means(events[j].0, meant[j].0) && events[j].1 == meant[j].1
  }

  /** Wherever the first events lead, the next one may be delivered there. */
  ghost predicate AllDeliverable(cfg: Config, events: seq<(FwdEvent, Oracle)>) {
    forall states, meant :: FwdRun(cfg, states, meant) && |meant| < |events| && AllMean(events, meant) ==>
      Deliverable(states[|meant|], events[|meant|].0)
  }

  lemma StepKeepsFwdInv(cfg: Config, s: State, ev: FwdEvent, oracle: Oracle)
    requires FwdInv(s) && FwdEventOk(s, ev)
    ensures FwdInv(FwdStep(cfg, s, ev, oracle))
  {
    hide FwdInv, FwdDds, OnSample, OnLeft;
    match ev
    case Dds(e, serializable) => DdsKeepsInv(cfg, s, e, serializable, oracle);
    case Sample(ke, payload) => SampleKeepsInv(cfg, s, ke, payload, oracle);
    case MemberLeft(zid) => LeftKeepsInv(s, zid);
  }

  lemma InitFwdInv(cfg: Config)
    ensures FwdInv(INIT)
  {
    LocalMode.InitInv(cfg);
  }

  lemma {:induction false} RunKeepsFwdInv(cfg: Config, states: seq<State>, events: seq<(FwdEvent, Oracle)>, i: nat)
    requires FwdRun(cfg, states, events) && i < |states|
    ensures FwdInv(states[i])
  {
    hide *;
    RunStart(cfg, states, events);
    if i == 0 {
      InitFwdInv(cfg);
    } else {
      RunKeepsFwdInv(cfg, states, events, i - 1);
      RunStep(cfg, states, events, i - 1);
      StepKeepsFwdInv(cfg, states[i - 1], events[i - 1].0, events[i - 1].1);
    }
  }

  /**
  A route to DDS has a DDS writer exactly while it has a remote writer, and stands only for a remote
  writer or a local reader; a route from DDS always has its DDS reader and a remote reader.
  */
  lemma ForwardRoutes(cfg: Config, states: seq<State>, events: seq<(FwdEvent, Oracle)>, i: nat)
    requires FwdRun(cfg, states, events) && i < |states|
    ensures forall ke :: ke in states[i].to.routes ==> var r := states[i].to.routes[ke];
              (r.entity != 0 <==> r.remote != {}) && (r.local != {} || r.remote != {})
    ensures forall ke :: ke in states[i].from.routes ==> var r := states[i].from.routes[ke];
              r.entity != 0 && r.remote != {}
  {
    RunKeepsFwdInv(cfg, states, events, i);
    forall ke | ke in states[i].from.routes ensures var r := states[i].from.routes[ke]; r.entity != 0 && r.remote != {} {
      assert RouteOk(false, states[i].from.routes[ke]);
    }
    forall ke | ke in states[i].to.routes
      ensures var r := states[i].to.routes[ke]; (r.entity != 0 <==> r.remote != {}) && (r.local != {} || r.remote != {})
    {
      assert RouteOk(true, states[i].to.routes[ke]);
    }
  }

  /**
  Live DDS readers and writers are exactly those of the routes, one each, and the admin space agrees with all
  that is stored.
  */
  lemma ForwardConservation(cfg: Config, states: seq<State>, events: seq<(FwdEvent, Oracle)>, i: nat, side: Side)
    requires FwdRun(cfg, states, events) && i < |states|
    ensures var h := Get(states[i], side);
            && (forall x :: x in h.live <==> x != 0 && exists ke :: Owns(h, ke, x))
            && (forall a, b :: a in h.routes && b in h.routes && h.routes[a].entity == h.routes[b].entity != 0 ==> a == b)
            && AdminAgrees(states[i])
  {
    RunKeepsFwdInv(cfg, states, events, i);
    var h := Get(states[i], side);
    forall x ensures x in h.live <==> x != 0 && exists ke :: Owns(h, ke, x) {
      if x != 0 && exists ke :: Owns(h, ke, x) {
        var ke :| Owns(h, ke, x);
        assert h.routes[ke].entity in h.live;
      }
    }
  }

  /** Whatever gid a route serves, that route has a live DDS entity: the remapping loop never waits for one. */
  lemma ServingRoutesHaveGuids(cfg: Config, states: seq<State>, events: seq<(FwdEvent, Oracle)>, i: nat, side: Side,
          ke: string, gid: string)
    requires FwdRun(cfg, states, events) && i < |states|
    requires var h := Get(states[i], side); ke in h.routes && IsRouting(h.routes[ke], gid)
    ensures var h := Get(states[i], side); exists guid :: GuidOf(h, ke, guid)
  {
    RunKeepsFwdInv(cfg, states, events, i);
    var h := Get(states[i], side);
    assert RouteOk(side.ToDds?, h.routes[ke]);
    assert GuidOf(h, ke, h.live[h.routes[ke].entity]);
  }

  // ---------- the published ROS graph ----------

  /** Some route of this side had an entity with this GUID at a moment of the run up to `i`. */
  ghost predicate WasRouteGuid(states: seq<State>, i: nat, side: Side, guid: string) {
    exists j, ke :: 0 <= j <= i && j < |states| && GuidOf(Get(states[j], side), ke, guid)
  }

  ghost predicate IssuedNow(h: Half, h': Half) {
    forall g :: g in h'.issued && g !in h.issued ==> exists x :: x in h'.live && h'.live[x] == g
  }

  lemma AnnounceIssues(cfg: Config, s: State, at: Side, ref: string, e: DdsEntity, scope: Option<string>,
          oracle: Oracle, side: Side)
    ensures IssuedNow(Get(s, side), Get(OnAnnounce(cfg, s, at, ref, e, scope, oracle), side))
  {
    LinkRemoteIssues(RemoteSetup(cfg, e, scope), RemoteTemplate(at, e), Get(s, at), ref, e.Parts(), oracle);
  }

  /** What a step issues is the GUID of an entity live after it. */
  lemma StepIssues(cfg: Config, s: State, ev: FwdEvent, oracle: Oracle, side: Side)
    ensures IssuedNow(Get(s, side), Get(FwdStep(cfg, s, ev, oracle), side))
  {
    match ev
    case Dds(e, serializable) => DdsIssues(cfg, s, e, serializable, oracle, side);
    case Sample(ke, payload) => SampleIssues(cfg, s, ke, payload, oracle, side);
    case MemberLeft(zid) =>
  }

  lemma DdsIssues(cfg: Config, s: State, ev: DdsEvent, serializable: bool, oracle: Oracle, side: Side)
    ensures IssuedNow(Get(s, side), Get(FwdDds(cfg, s, ev, serializable, oracle), side))
  {
    hide FwdDiscoverReader, FwdUndiscoverReader, AdminKey;
    match ev
    case Discovered(ToDds, e) =>
      ReaderDiscovered(cfg, s, e, serializable, oracle);
      LinkLocalIssues(SetupOf(cfg, e), LocalTemplate(ToDds, e), s.to, e.key, e.Parts(), false, oracle);
      hide LinkLocal;
    case Undiscovered(ToDds, key) => ReaderUndiscovered(s, key);
    case _ =>
  }

  lemma SampleIssues(cfg: Config, s: State, ke: string, payload: Payload, oracle: Oracle, side: Side)
    ensures IssuedNow(Get(s, side), Get(OnSample(cfg, s, ke, payload, oracle), side))
  {
    hide OnAnnounce, FullAdminKey;
    if ParseFwdKey(ke).Some? && payload.Announce? {
      var p := ParseFwdKey(ke).value;
      AnnounceIssues(cfg, s, SideOf(p.kind), FullAdminKey(p.uuid, p.rest), payload.e, payload.scope, oracle, side);
    }
  }

  lemma IssuedNowOwned(h: Half, h': Half, g: string)
    requires IssuedNow(h, h') && Conserved(h') && g in h'.issued && g !in h.issued
    ensures exists ke :: GuidOf(h', ke, g)
  {
    var x :| x in h'.live && h'.live[x] == g;
    var ke :| Owns(h', ke, x);
    assert GuidOf(h', ke, g);
  }

  /** A GUID is that of a route's entity at the moment it is issued. */
  lemma IssuedAtStep(cfg: Config, states: seq<State>, events: seq<(FwdEvent, Oracle)>, i: nat, side: Side, g: string)
    requires FwdRun(cfg, states, events) && i < |events|
    requires g in Get(states[i + 1], side).issued && g !in Get(states[i], side).issued
    ensures var h := Get(states[i + 1], side); exists ke :: GuidOf(h, ke, g)
  {
    RunStep(cfg, states, events, i);
    RunKeepsFwdInv(cfg, states, events, i + 1);
    StepIssues(cfg, states[i], events[i].0, events[i].1, side);
    hide FwdRun, FwdStep, FwdEventOk, GuidOf, IssuedNow, Conserved, Agreed, GraphOk, RoutesOk;
    IssuedNowOwned(Get(states[i], side), Get(states[i + 1], side), g);
  }

  lemma InitIssuedNothing(side: Side)
    ensures Get(INIT, side).issued == map[]
  {
  }

  lemma WasBefore(states: seq<State>, i: nat, side: Side, g: string)
    requires i > 0 && WasRouteGuid(states, i - 1, side, g)
    ensures WasRouteGuid(states, i, side, g)
  {
  }

  lemma IsNow(states: seq<State>, i: nat, side: Side, g: string)
    requires i < |states| && exists ke :: GuidOf(Get(states[i], side), ke, g)
    ensures WasRouteGuid(states, i, side, g)
  {
  }

  lemma {:induction false} IssuedWasRouteGuid(cfg: Config, states: seq<State>, events: seq<(FwdEvent, Oracle)>,
          i: nat, side: Side, g: string)
    requires FwdRun(cfg, states, events) && i < |states| && g in Get(states[i], side).issued
    ensures WasRouteGuid(states, i, side, g)
  {
    hide *;
    RunStart(cfg, states, events);
    if i == 0 {
      InitIssuedNothing(side);
    } else {
      RunStep(cfg, states, events, i - 1);
      if g in Get(states[i - 1], side).issued {
        IssuedWasRouteGuid(cfg, states, events, i - 1, side, g);
        WasBefore(states, i, side, g);
      } else {
        IssuedAtStep(cfg, states, events, i - 1, side, g);
        IsNow(states, i, side, g);
      }
    }
  }

  /** Every gid of the graph was the GUID of one of this bridge's own route entities, and no node lacks readers or writers. */
  lemma GraphSafety(cfg: Config, states: seq<State>, events: seq<(FwdEvent, Oracle)>, i: nat, k: string)
    requires FwdRun(cfg, states, events) && i < |states| && k in states[i].info
    ensures states[i].info[k].readers != [] && states[i].info[k].writers != []
    ensures forall g :: g in states[i].info[k].readers ==> WasRouteGuid(states, i, FromDds, g)
    ensures forall g :: g in states[i].info[k].writers ==> WasRouteGuid(states, i, ToDds, g)
  {
    RunKeepsFwdInv(cfg, states, events, i);
    forall g | g in states[i].info[k].readers ensures WasRouteGuid(states, i, FromDds, g) {
      IssuedWasRouteGuid(cfg, states, events, i, FromDds, g);
    }
    forall g | g in states[i].info[k].writers ensures WasRouteGuid(states, i, ToDds, g) {
      IssuedWasRouteGuid(cfg, states, events, i, ToDds, g);
    }
  }

  /** When a bridge leaves, the GUIDs of the entities deleted with it are gone from the graph in the same step. */
  lemma DepartureCleansGraph(s: State, zid: string, k: string, x: int)
    requires GraphOk(s) && k in OnLeft(s, zid).info
    ensures x in s.to.live && x !in OnLeft(s, zid).to.live ==> s.to.live[x] !in OnLeft(s, zid).info[k].writers
    ensures x in s.from.live && x !in OnLeft(s, zid).from.live ==> s.from.live[x] !in OnLeft(s, zid).info[k].readers
  {
    var to, from := HalfLeave(s.to, zid), HalfLeave(s.from, zid);
    if x in s.to.live && x !in to.live {
      assert s.to.live[x] in GoneGuids(s.to, to);
    }
    if x in s.from.live && x !in from.live {
      assert s.from.live[x] in GoneGuids(s.from, from);
    }
  }

  // ---------- tracking of local readers ----------

  /** Routes to DDS only mention discovered readers. */
  ghost predicate ReadersTracked(s: State) {
    forall ke :: Local(s.to, ke) <= s.to.entities.Keys
  }

  lemma TrackingStep(cfg: Config, s: State, ev: FwdEvent, oracle: Oracle)
    requires ReadersTracked(s) && FwdEventOk(s, ev)
    requires ev.Dds? ==> ev.serializable
    ensures ReadersTracked(FwdStep(cfg, s, ev, oracle))
  {
    match ev
    case Dds(e, serializable) => DdsTracking(cfg, s, e, oracle);
    case Sample(ke, payload) =>
      hide OnAnnounce, OnDelete, FullAdminKey;
      if ParseFwdKey(ke).Some? {
        var p := ParseFwdKey(ke).value;
        SampleTracking(cfg, s, SideOf(p.kind), FullAdminKey(p.uuid, p.rest), payload, oracle);
      }
    case MemberLeft(zid) => LeftTracking(s, zid);
  }

  lemma LeftTracking(s: State, zid: string)
    requires ReadersTracked(s)
    ensures ReadersTracked(OnLeft(s, zid))
  {
    hide Reindex;
    assert forall ke :: Local(OnLeft(s, zid).to, ke) <= Local(s.to, ke);
  }

  lemma DdsTracking(cfg: Config, s: State, ev: DdsEvent, oracle: Oracle)
    requires ReadersTracked(s)
    ensures ReadersTracked(FwdDds(cfg, s, ev, true, oracle))
  {
    hide FwdDiscoverReader, FwdUndiscoverReader, AdminKey;
    match ev
    case Discovered(ToDds, e) =>
      ReaderDiscovered(cfg, s, e, true, oracle);
      LinkLocalEffect(SetupOf(cfg, e), LocalTemplate(ToDds, e), s.to, e.key, e.Parts(), false, oracle);
      hide LinkLocal, RoutedTo, DomainEffect, OwnersEffect, StandingRouted, StatusesFor;
      var l, s' := LinkLocal(SetupOf(cfg, e), LocalTemplate(ToDds, e), s.to, e.key, e.Parts(), false, oracle),
        FwdDds(cfg, s, ev, true, oracle);
      forall ke ensures Local(s'.to, ke) <= s'.to.entities.Keys {
        assert Local(s'.to, ke) == Local(l.half, ke) == Local(s.to, ke) + if RoutedTo(l.statuses, ke) then {e.key} else {};
      }
    case Undiscovered(ToDds, key) =>
      ReaderUndiscovered(s, key);
      UndiscoveredReaderNowhere(cfg, s, key, true, oracle);
      var s' := FwdDds(cfg, s, ev, true, oracle);
      assert forall ke :: Local(s'.to, ke) <= Local(s.to, ke);
    case _ =>
  }

  lemma SampleTracking(cfg: Config, s: State, side: Side, ref: string, payload: Payload, oracle: Oracle)
    requires ReadersTracked(s)
    ensures payload.Announce? ==> ReadersTracked(OnAnnounce(cfg, s, side, ref, payload.e, payload.scope, oracle))
    ensures ReadersTracked(OnDelete(s, side, ref))
  {
    hide Reindex;
    assert forall ke :: Local(OnDelete(s, side, ref).to, ke) <= Local(s.to, ke);
    if payload.Announce? {
      LinkRemoteEffect(RemoteSetup(cfg, payload.e, payload.scope), RemoteTemplate(side, payload.e),
                       Get(s, side), ref, payload.e.Parts(), oracle);
      hide LinkRemote;
      var s' := OnAnnounce(cfg, s, side, ref, payload.e, payload.scope, oracle);
      assert forall ke :: Local(s'.to, ke) <= Local(s.to, ke) + s.to.entities.Keys;
    }
  }

  /** An undiscovered reader is on no route afterwards, even one that was never stored. */
  lemma UndiscoveredReaderNowhere(cfg: Config, s: State, key: string, serializable: bool, oracle: Oracle)
    ensures forall ke :: key !in Local(FwdStep(cfg, s, Dds(Undiscovered(ToDds, key), serializable), oracle).to, ke)
  {
    hide Reindex;
  }

  /** As long as announcements can be encoded, every reader a route mentions is discovered. */
  lemma {:induction false} ReadersTrackedInRuns(cfg: Config, states: seq<State>, events: seq<(FwdEvent, Oracle)>, i: nat)
    requires FwdRun(cfg, states, events) && i < |states|
    requires forall j :: 0 <= j < i && events[j].0.Dds? ==> events[j].0.serializable
    ensures ReadersTracked(states[i])
  {
    if i > 0 {
      ReadersTrackedInRuns(cfg, states, events, i - 1);
      RunStep(cfg, states, events, i - 1);
      TrackingStep(cfg, states[i - 1], events[i - 1].0, events[i - 1].1);
    }
  }

  /** The bridge would route a part of the entity: its key is allowed, and has a route already or zenoh lets it have one. */
  ghost predicate GetsRoute(cfg: Config, h: Half, e: DdsEntity, oracle: Oracle, i: nat)
    requires i < |e.Parts()|
  {
    var ke := SetupOf(cfg, e).Key(e.Parts()[i]);
    cfg.Allowed(ke) && (ke in h.routes || oracle(i).sessionOk)
  }

  ghost predicate AnyRouted(statuses: map<string, RouteStatus>) {
    exists ke :: RoutedTo(statuses, ke)
  }

  /** Links that ask for no DDS entity yield a route if and only if some part gets one. */
  lemma {:induction false} LinkRoutesIff(cfg: Config, h: Half, e: DdsEntity, oracle: Oracle, n: nat)
    requires n <= |e.Parts()|
    ensures AnyRouted(LinkLocal(SetupOf(cfg, e), LocalTemplate(ToDds, e), h, e.key, e.Parts()[..n], false, oracle).statuses) <==>
            exists i: nat :: i < n && GetsRoute(cfg, h, e, oracle, i)
  {
    hide *;
    if n == 0 {
      NoPartsNoRoute(SetupOf(cfg, e), LocalTemplate(ToDds, e), h, e.key, oracle);
      assert e.Parts()[..0] == [];
    } else {
      LinkRoutesIff(cfg, h, e, oracle, n - 1);
      PartRoutes(cfg, h, e, oracle, n - 1);
    }
  }

  lemma NoPartsNoRoute(u: Setup, make: Template, h: Half, key: string, oracle: Oracle)
    ensures !AnyRouted(LinkLocal(u, make, h, key, [], false, oracle).statuses)
  {
  }

  lemma PartRoutes(cfg: Config, h: Half, e: DdsEntity, oracle: Oracle, i: nat)
    requires i < |e.Parts()|
    ensures var u, make, parts := SetupOf(cfg, e), LocalTemplate(ToDds, e), e.Parts();
            AnyRouted(LinkLocal(u, make, h, e.key, parts[..i + 1], false, oracle).statuses) <==>
            AnyRouted(LinkLocal(u, make, h, e.key, parts[..i], false, oracle).statuses) || GetsRoute(cfg, h, e, oracle, i)
  {
    var u, make, parts := SetupOf(cfg, e), LocalTemplate(ToDds, e), e.Parts();
    var before, spec := LinkLocal(u, make, h, e.key, parts[..i], false, oracle), u.SpecFor(make, parts[i]);
    LinkLocalEffect(u, make, h, e.key, parts[..i], false, oracle);
    assert RoutedExist(before.half, before.statuses, false) && DomainEffect(h, false, before);
    assert u.cfg == cfg && StatusesFor(u, parts[..i], before.statuses);
    LinkLocalLast(u, make, h, e.key, parts, i, oracle);
    var status := TryAdd(cfg, before.half, u.Key(parts[i]), false, oracle(i), spec).0;
    assert GetsRoute(cfg, h, e, oracle, i) <==>
      cfg.Allowed(u.Key(parts[i])) && (u.Key(parts[i]) in h.routes || oracle(i).sessionOk);
    hide *;
    StatusStep(u, parts, i, before.half, before.statuses, false, oracle(i), spec);
    AnyRoutedStep(before.statuses, before.statuses[Label(parts[i]) := status], status, Label(parts[i]));
    LastPartRoutes(cfg, h, before, u.Key(parts[i]), oracle(i), spec);
  }

  lemma LinkLocalLast(u: Setup, make: Template, h: Half, key: string, parts: seq<Option<string>>, i: nat, oracle: Oracle)
    requires i < |parts|
    ensures var before := LinkLocal(u, make, h, key, parts[..i], false, oracle);
            var status := TryAdd(u.cfg, before.half, u.Key(parts[i]), false, oracle(i), u.SpecFor(make, parts[i])).0;
            LinkLocal(u, make, h, key, parts[..i + 1], false, oracle).statuses == before.statuses[Label(parts[i]) := status]
  {
    hide TryAdd, AddLocal, TopicToKeyExpr, Conserved;
    assert parts[..i + 1][..i] == parts[..i];
  }

  lemma AnyRoutedStep(before: map<string, RouteStatus>, after: map<string, RouteStatus>, status: RouteStatus, l: string)
    requires forall ke :: RoutedTo(after, ke) <==> RoutedTo(before, ke) || status == Routed(ke)
    requires l in after && after[l] == status
    ensures AnyRouted(after) <==> AnyRouted(before) || status.Routed?
  {
    hide RoutedTo;
    if status.Routed? { assert RoutedTo(after, status.ke); }
  }

  lemma LastPartRoutes(cfg: Config, h: Half, before: Linked, ke: string, o: Outcome, spec: Spec)
    requires DomainEffect(h, false, before)
    ensures var status := TryAdd(cfg, before.half, ke, false, o, spec).0;
            AnyRouted(before.statuses) || status.Routed? <==>
            AnyRouted(before.statuses) || (cfg.Allowed(ke) && (ke in h.routes || o.sessionOk))
  {
    hide Conserved, RoutedTo;
  }

  /**
  A discovery whose announcement cannot be encoded leaves the reader on routes without storing it. Tracking survives
  it if and only if the reader is stored from an earlier discovery, or none of its parts gets a route.
  */
  lemma UnencodedKeepsTrackingIff(cfg: Config, s: State, e: DdsEntity, oracle: Oracle)
    requires ReadersTracked(s)
    ensures ReadersTracked(FwdStep(cfg, s, Dds(Discovered(ToDds, e), false), oracle)) <==>
            e.key in s.to.entities || forall i: nat :: i < |e.Parts()| ==> !GetsRoute(cfg, s.to, e, oracle, i)
  {
    var n, l := |e.Parts()|, LinkLocal(SetupOf(cfg, e), LocalTemplate(ToDds, e), s.to, e.key, e.Parts(), false, oracle);
    LinkRoutesIff(cfg, s.to, e, oracle, n);
    assert e.Parts()[..n] == e.Parts();
    UnencodedLocals(cfg, s, e, oracle);
    hide FwdStep, LinkLocal, RoutedTo, GetsRoute, Local;
    var s' := FwdStep(cfg, s, Dds(Discovered(ToDds, e), false), oracle);
    if ke :| RoutedTo(l.statuses, ke) { assert e.key in Local(s'.to, ke); }
  }

  lemma UnencodedLocals(cfg: Config, s: State, e: DdsEntity, oracle: Oracle)
    ensures var s' := FwdStep(cfg, s, Dds(Discovered(ToDds, e), false), oracle);
            var l := LinkLocal(SetupOf(cfg, e), LocalTemplate(ToDds, e), s.to, e.key, e.Parts(), false, oracle);
            s'.to.entities == s.to.entities
            && forall ke :: Local(s'.to, ke) == Local(s.to, ke) + if RoutedTo(l.statuses, ke) then {e.key} else {}
  {
    LinkLocalEffect(SetupOf(cfg, e), LocalTemplate(ToDds, e), s.to, e.key, e.Parts(), false, oracle);
    hide Reindex, LinkLocal, RoutedTo, StatusesFor;
  }

  /** The stored entity is on that topic and that part is one of its own. */
  predicate HasPart(f: DdsEntity, topic: string, part: Option<string>) {
    f.topic == topic && part in f.Parts()
  }

  lemma ConcernsIff(f: DdsEntity, topic: string, part: Option<string>)
    ensures Concerns(f, topic, part) <==> HasPart(f, topic, part)
  {
  }

  /**
  After an announcement, a part of which got its route: a stored entity of that side is on the route if and only if it was there
  before or it is on the announced topic and the part is one of its own; and then its status for the part says so.
  */
  lemma AnnouncementNotesIff(cfg: Config, s: State, side: Side, ref: string, e: DdsEntity, scope: Option<string>,
          oracle: Oracle, part: Option<string>, k: string)
    requires part in e.Parts() && k in Get(s, side).entities
    requires var r := HalfAnnounce(cfg, side, Get(s, side), ref, e, scope, oracle);
             Label(part) in r.statuses && r.statuses[Label(part)].Routed?
    ensures var h, h' := Get(s, side), Get(OnAnnounce(cfg, s, side, ref, e, scope, oracle), side);
            var ke := TopicToKeyExpr(e.topic, scope, part);
            && (k in Local(h', ke) <==> k in Local(h, ke) || HasPart(h.entities[k], e.topic, part))
            && k in h'.entities
            && (HasPart(h.entities[k], e.topic, part) ==>
                  Label(part) in h'.entities[k].routes && h'.entities[k].routes[Label(part)] == Routed(ke))
  {
    var u, make, h := RemoteSetup(cfg, e, scope), RemoteTemplate(side, e), Get(s, side);
    var r := LinkRemote(u, make, h, ref, e.Parts(), oracle);
    var ke := u.Key(part);
    ConcernsIff(h.entities[k], e.topic, part);
    LinkRemoteLocals(u, make, h, ref, e.Parts(), oracle, ke, k);
    LinkRemoteStatuses(u, make, h, ref, e.Parts(), oracle, k, Label(part));
    assert Get(OnAnnounce(cfg, s, side, ref, e, scope, oracle), side) == r.half by { hide LinkRemote, Reindex; }
    hide LinkRemote, OnAnnounce, TopicToKeyExpr, Local, Concerns, HasPart;
    assert k in Hits(h.entities, e.topic, part) <==> Concerns(h.entities[k], e.topic, part);
    NotedForPart(u, h, e.Parts(), r, k, part);
  }

  /** With one part per key and one per label, what is noted for a part is noted on its key and under its label. */
  lemma NotedForPart(u: Setup, h: Half, parts: seq<Option<string>>, r: Linked, k: string, part: Option<string>)
    requires Homogeneous(parts) && part in parts && Label(part) in r.statuses && r.statuses[Label(part)].Routed?
    requires k in h.entities && StatusUnder(u, h, parts, r, k, Label(part))
    ensures NotedAt(u, h, parts, r.statuses, k, u.Key(part)) <==> k in Hits(h.entities, u.topic, part)
    ensures k in r.half.entities
    ensures k in Hits(h.entities, u.topic, part) ==>
              Label(part) in r.half.entities[k].routes && r.half.entities[k].routes[Label(part)] == Routed(u.Key(part))
  {
    hide Hits, TopicToKeyExpr;
    if p :| NotedOn(u, h, parts, r.statuses, k, p) && u.Key(p) == u.Key(part) { KeyDeterminesPart(u, parts, p, part); }
    if k in Hits(h.entities, u.topic, part) { assert NotedOn(u, h, parts, r.statuses, k, part); }
  }
}
