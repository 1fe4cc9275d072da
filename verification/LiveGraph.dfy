/**
The ROS graph a bridge publishes, against the DDS entities of its routes. The graph names GUIDs of live entities only,
but for those of entities given up on a deletion, which stay in the graph: only a departure cleans it.
*/
module LiveGraph {
  import opened Wrappers
  import opened KeyExprs
  import opened BridgeKeys
  import opened Bridge
  import opened Linking
  import opened BridgeState
  import opened LocalMode
  import opened RosGraph
  import opened ForwardMode
  import opened ForwardRuns
  import opened Announcements

  /** Readers of the graph stand for routes from DDS, writers for routes to DDS. */
  function GidsOf(n: Node, side: Side): seq<string> {
    if side.FromDds? then n.readers else n.writers
  }

  ghost predicate Named(info: Graph, side: Side, gid: string) {
    exists k :: k in info && gid in GidsOf(info[k], side)
  }

  ghost predicate IsLive(h: Half, guid: string) {
    exists x :: x in h.live && h.live[x] == guid
  }

  /** Whatever the graph names is the GUID of a live entity. */
  ghost predicate GraphLive(s: State) {
    forall side, gid :: Named(s.info, side, gid) ==> IsLive(Get(s, side), gid)
  }

  // ---------- deletions ----------

  /** The entity with this GUID is that of a route that serves this one remote entity only. */
  ghost predicate ServesOnly(h: Half, ref: string, guid: string) {
    exists ke :: ke in h.routes && h.routes[ke].remote == {ref} && GuidOf(h, ke, guid)
  }

  lemma OwnerOf(h: Half, guid: string) returns (ke: string)
    requires Conserved(h) && IsLive(h, guid)
    ensures GuidOf(h, ke, guid) && h.routes[ke].entity != 0
    ensures forall c :: GuidOf(h, c, guid) ==> c == ke
  {
    var x :| x in h.live && h.live[x] == guid;
    ke :| Owns(h, ke, x);
  }

  /** The entity of a route outlives a deletion if and only if the route serves anybody else. */
  lemma OwnerDeletedIff(h: Half, side: Side, ref: string, ke: string)
    requires HalfInv(side.ToDds?, h) && ke in h.routes && h.routes[ke].entity != 0
    ensures h.routes[ke].entity in HalfDelete(h, side, ref).live <==> h.routes[ke].remote != {ref}
  {
    var need := if side.ToDds? then NeedEither else NeedRemote;
    SweepOutcome(h, CutRemote(ref), need, side.ToDds?, ke);
    assert RouteOk(side.ToDds?, h.routes[ke]) && h.routes[ke].remote != {};
    hide Conserved, Sweep;
    var h' := HalfDelete(h, side, ref);
    if h.routes[ke].remote != {ref} {
      var x :| x in h.routes[ke].remote && x != ref;
      assert x in Remote(h, ke) && !Cuts(CutRemote(ref), true, x);
      assert x in Remote(h', ke);
    }
  }

  lemma DeleteOnlyDeletes(h: Half, side: Side, ref: string)
    ensures var h' := HalfDelete(h, side, ref); forall x :: x in h'.live ==> x in h.live && h'.live[x] == h.live[x]
  {
    hide Conserved;
  }

  lemma LiveAfterDeleteIff(h: Half, side: Side, ref: string, guid: string)
    requires HalfInv(side.ToDds?, h) && IsLive(h, guid)
    ensures IsLive(HalfDelete(h, side, ref), guid) <==> !ServesOnly(h, ref, guid)
  {
    var h' := HalfDelete(h, side, ref);
    var ke := OwnerOf(h, guid);
    OwnerDeletedIff(h, side, ref, ke);
    DeleteOnlyDeletes(h, side, ref);
    hide HalfDelete, RoutesOk;
    var x := h.routes[ke].entity;
    assert x in h.live && h.live[x] == guid;
    if IsLive(h', guid) {
      var y :| y in h'.live && h'.live[y] == guid;
      assert y == x;
    }
    if x in h'.live { assert h'.live[x] == guid; }
  }

  // ---------- what every event does to the entities ----------

  /** A GUID that was given away is that of the same entity or of none. */
  ghost predicate Follows(h: Half, h': Half) {
    && h.issued.Keys <= h'.issued.Keys
    && forall x :: x in h'.live ==> (x in h.live && h'.live[x] == h.live[x]) || h'.live[x] !in h.issued
  }

  ghost predicate KeepsLive(h: Half, h': Half) {
    forall x :: x in h.live ==> x in h'.live && h'.live[x] == h.live[x]
  }

  lemma CreatedFollows(h: Half, h': Half)
    requires OnlyCreates(h, h')
    ensures Follows(h, h') && KeepsLive(h, h')
  {
  }

  /** When a reader vanishes, the routes that go have no DDS writer. */
  lemma UndiscoverDeletesNothing(h: Half, key: string)
    requires HalfInv(true, h)
    ensures Sweep(h, CutLocal(key), NeedEither, false).live == h.live
  {
    assert forall ke :: ke in h.routes ==> RouteOk(true, h.routes[ke]);
  }

  lemma DdsLive(cfg: Config, s: State, ev: DdsEvent, serializable: bool, oracle: Oracle, side: Side)
    requires FwdInv(s)
    ensures var h, h' := Get(s, side), Get(FwdDds(cfg, s, ev, serializable, oracle), side); Follows(h, h') && KeepsLive(h, h')
    ensures FwdDds(cfg, s, ev, serializable, oracle).info == s.info
  {
    hide FwdDiscoverReader, FwdUndiscoverReader, AdminKey, HalfInv, Agreed, GraphOk;
    match ev
    case Discovered(ToDds, e) =>
      ReaderDiscovered(cfg, s, e, serializable, oracle);
      LinkLocalIssues(SetupOf(cfg, e), LocalTemplate(ToDds, e), s.to, e.key, e.Parts(), false, oracle);
      hide LinkLocal;
      CreatedFollows(s.to, LinkLocal(SetupOf(cfg, e), LocalTemplate(ToDds, e), s.to, e.key, e.Parts(), false, oracle).half);
    case Undiscovered(ToDds, key) =>
      ReaderUndiscovered(s, key);
      StoreKeepsHalf(true, s.to, s.to.entities - {key});
      UndiscoverDeletesNothing(s.to.(entities := s.to.entities - {key}), key);
      hide Sweep;
    case _ =>
  }

  lemma AnnounceLive(cfg: Config, s: State, at: Side, ref: string, e: DdsEntity, scope: Option<string>, oracle: Oracle,
          side: Side)
    ensures var h, h' := Get(s, side), Get(OnAnnounce(cfg, s, at, ref, e, scope, oracle), side);
            Follows(h, h') && KeepsLive(h, h')
    ensures OnAnnounce(cfg, s, at, ref, e, scope, oracle).info == s.info
  {
    LinkRemoteIssues(RemoteSetup(cfg, e, scope), RemoteTemplate(at, e), Get(s, at), ref, e.Parts(), oracle);
    CreatedFollows(Get(s, at), HalfAnnounce(cfg, at, Get(s, at), ref, e, scope, oracle).half);
    hide LinkRemote, OnlyCreates, Reindex;
  }

  lemma DeleteLive(s: State, at: Side, ref: string, side: Side)
    ensures var h, h' := Get(s, side), Get(OnDelete(s, at, ref), side);
            Follows(h, h') && h' == if side == at then HalfDelete(h, at, ref) else h
    ensures OnDelete(s, at, ref).info == s.info
  {
    DeleteOnlyDeletes(Get(s, at), at, ref);
    hide Reindex, Conserved;
  }

  /** The deletion of the last remote entity of a route, which gives up the entity with this GUID. */
  ghost predicate Strands(s: State, ev: FwdEvent, side: Side, guid: string) {
    && ev.Sample? && ev.payload.Delete? && ParseFwdKey(ev.ke).Some?
    && var p := ParseFwdKey(ev.ke).value;
    && !p.kind.RosDisco? && SideOf(p.kind) == side
    && ServesOnly(Get(s, side), FullAdminKey(p.uuid, p.rest), guid)
  }

  lemma SampleLive(cfg: Config, s: State, ke: string, payload: Payload, oracle: Oracle, side: Side, guid: string)
    requires FwdInv(s)
    ensures var h, h' := Get(s, side), Get(OnSample(cfg, s, ke, payload, oracle), side);
            Follows(h, h') && (IsLive(h, guid) ==> (IsLive(h', guid) <==> !Strands(s, Sample(ke, payload), side, guid)))
  {
    hide OnAnnounce, OnDelete, HalfDelete, FullAdminKey, ParseFwdKey, HalfInv, Agreed, GraphOk, ServesOnly, UpdateWith;
    if ParseFwdKey(ke).Some? && !ParseFwdKey(ke).value.kind.RosDisco? {
      var p := ParseFwdKey(ke).value;
      var at, ref := SideOf(p.kind), FullAdminKey(p.uuid, p.rest);
      if payload.Announce? { AnnounceLive(cfg, s, at, ref, payload.e, payload.scope, oracle, side); }
      if payload.Delete? {
        DeleteLive(s, at, ref, side);
        if side == at && IsLive(Get(s, side), guid) { LiveAfterDeleteIff(Get(s, side), side, ref, guid); }
      }
    }
  }

  lemma LeaveLive(s: State, zid: string, side: Side, guid: string)
    ensures var h, h' := Get(s, side), Get(OnLeft(s, zid), side);
            Follows(h, h') && (IsLive(h, guid) && Named(OnLeft(s, zid).info, side, guid) ==> IsLive(h', guid))
  {
    var h, h' := Get(s, side), Get(OnLeft(s, zid), side);
    assert h' == HalfLeave(h, zid) by { hide Reindex, HalfLeave, GoneGuids, Cleanup, RemoveGids; }
    if IsLive(h, guid) && !IsLive(h', guid) {
      var x :| x in h.live && h.live[x] == guid;
      assert guid in GoneGuids(h, h');
      GoneFromGraph(s, zid, side, guid);
    }
    hide OnLeft, Conserved;
  }

  /** A departure takes the GUIDs it deletes out of the graph, and puts none in. */
  lemma GoneFromGraph(s: State, zid: string, side: Side, guid: string)
    ensures Named(OnLeft(s, zid).info, side, guid) ==> Named(s.info, side, guid)
    ensures guid in GoneGuids(Get(s, side), HalfLeave(Get(s, side), zid)) ==> !Named(OnLeft(s, zid).info, side, guid)
  {
    hide HalfLeave, Reindex;
  }

  /** The entity with this GUID is that of a route all of whose remote entities are swept with that bridge. */
  ghost predicate Lost(h: Half, zid: string, guid: string) {
    exists ke :: GuidOf(h, ke, guid) && AllSwept(h.routes[ke], zid)
  }

  lemma LeftIfSwept(h: Half, zid: string, ke: string)
    requires Conserved(h) && ke in h.routes && h.routes[ke].entity != 0
    ensures h.routes[ke].entity in HalfLeave(h, zid).live <==> !AllSwept(h.routes[ke], zid)
  {
    var cut := CutContaining(DepartureSubkey(zid));
    SweepOutcome(h, cut, NeedRemote, false, ke);
    hide Conserved, Sweep, Contains, DepartureSubkey;
    if !AllSwept(h.routes[ke], zid) {
      var ref :| ref in h.routes[ke].remote && !Contains(ref, DepartureSubkey(zid));
      assert ref in Remote(h, ke) && !Cuts(cut, true, ref);
    }
  }

  lemma GoneIffLost(h: Half, zid: string, guid: string)
    requires Conserved(h)
    ensures guid in GoneGuids(h, HalfLeave(h, zid)) <==> Lost(h, zid, guid)
  {
    var h' := HalfLeave(h, zid);
    if guid in GoneGuids(h, h') {
      var x :| x in h.live && x !in h'.live && h.live[x] == guid;
      var ke :| Owns(h, ke, x);
      LeftIfSwept(h, zid, ke);
    }
    if ke :| GuidOf(h, ke, guid) && AllSwept(h.routes[ke], zid) {
      LeftIfSwept(h, zid, ke);
      assert h.routes[ke].entity in h.live && h.routes[ke].entity !in h'.live;
    }
  }

  /**
  A node survives a departure if and only if both a reader and a writer of it are left that the departure does not
  delete; one kind alone does not keep it. Just those are left of it.
  */
  lemma NodeSurvivesDepartureIff(s: State, zid: string, k: string)
    requires FwdInv(s) && k in s.info
    ensures k in OnLeft(s, zid).info <==>
            (exists g :: g in s.info[k].readers && !Lost(s.from, zid, g))
            && (exists g :: g in s.info[k].writers && !Lost(s.to, zid, g))
    ensures k in OnLeft(s, zid).info ==>
              && (forall g :: g in OnLeft(s, zid).info[k].readers <==> g in s.info[k].readers && !Lost(s.from, zid, g))
              && (forall g :: g in OnLeft(s, zid).info[k].writers <==> g in s.info[k].writers && !Lost(s.to, zid, g))
  {
    var writers, readers := GoneGuids(s.to, HalfLeave(s.to, zid)), GoneGuids(s.from, HalfLeave(s.from, zid));
    InfoAfterLeaving(s, zid);
    NodeComplete(s, k);
    CleanedNode(s.info, readers, writers, k);
    assert Conserved(s.to) && Conserved(s.from);
    hide OnLeft, Lost, GoneGuids, HalfLeave, FwdInv, Conserved, Cleanup, RemoveGids;
    forall g ensures g in writers <==> Lost(s.to, zid, g) { GoneIffLost(s.to, zid, g); }
    forall g ensures g in readers <==> Lost(s.from, zid, g) { GoneIffLost(s.from, zid, g); }
  }

  /** What taking gids off and cleaning up leaves of a node. */
  lemma CleanedNode(info: Graph, readers: set<string>, writers: set<string>, k: string)
    requires k in info
    ensures var info' := Cleanup(RemoveGids(info, readers, writers));
            && (k in info' <==>
                  (exists g :: g in info[k].readers && g !in readers) && (exists g :: g in info[k].writers && g !in writers))
            && (k in info' ==> (forall g :: g in info'[k].readers <==> g in info[k].readers && g !in readers)
                               && (forall g :: g in info'[k].writers <==> g in info[k].writers && g !in writers))
  {
    var n := Removed(info[k], readers, writers);
    HasAny(n.readers);
    HasAny(n.writers);
  }

  lemma InfoAfterLeaving(s: State, zid: string)
    ensures var writers, readers := GoneGuids(s.to, HalfLeave(s.to, zid)), GoneGuids(s.from, HalfLeave(s.from, zid));
            OnLeft(s, zid).info ==
            if writers == {} && readers == {} then s.info else Cleanup(RemoveGids(s.info, readers, writers))
  {
    hide GoneGuids, HalfLeave, Cleanup, RemoveGids, Reindex;
  }

  lemma NodeComplete(s: State, k: string)
    requires FwdInv(s) && k in s.info
    ensures (exists g :: g in s.info[k].readers) && (exists g :: g in s.info[k].writers)
  {
    HasAny(s.info[k].readers);
    HasAny(s.info[k].writers);
    hide HalfInv, Agreed;
  }

  lemma HasAny(gids: seq<string>)
    ensures gids != [] <==> exists g :: g in gids
  {
    if gids != [] { assert gids[0] in gids; }
  }

  // ---------- the graph after each event ----------

  /** What a step names was named before, or is the GUID of an entity that is live before. */
  lemma StepNames(cfg: Config, s: State, ev: FwdEvent, oracle: Oracle, side: Side, guid: string)
    requires FwdInv(s) && FwdEventOk(s, ev)
    ensures Named(FwdStep(cfg, s, ev, oracle).info, side, guid) ==> Named(s.info, side, guid) || IsLive(Get(s, side), guid)
  {
    hide FwdDds, OnLeft, OnAnnounce, OnDelete, Named, IsLive, ParseFwdKey, FullAdminKey, FwdInv, UpdateWith, RemappedGraph;
    match ev
    case Dds(e, serializable) => DdsLive(cfg, s, e, serializable, oracle, side);
    case MemberLeft(zid) => GoneFromGraph(s, zid, side, guid);
    case Sample(ke, payload) =>
      if ParseFwdKey(ke).Some? {
        var p := ParseFwdKey(ke).value;
        var at, ref := SideOf(p.kind), FullAdminKey(p.uuid, p.rest);
        if payload.Announce? { AnnounceLive(cfg, s, at, ref, payload.e, payload.scope, oracle, side); }
        if payload.Delete? { DeleteLive(s, at, ref, side); }
        if payload.RosInfo? { UpdateNames(s, payload.nodes, payload.remapped, side, guid); }
      }
  }

  /** Remapping names GUIDs of live entities only. */
  lemma UpdateNames(s: State, nodes: Graph, remapped: Graph, side: Side, guid: string)
    requires RemappedGraph(s, nodes, remapped)
    ensures Named(UpdateWith(s.info, remapped), side, guid) ==> Named(s.info, side, guid) || IsLive(Get(s, side), guid)
  {
    if Named(UpdateWith(s.info, remapped), side, guid) && !Named(s.info, side, guid) {
      var k :| k in remapped && guid in GidsOf(remapped[k], side);
      assert RemappedNode(s, nodes[k], remapped[k]);
      var h, gids, out := Get(s, side), GidsOf(nodes[k], side), GidsOf(remapped[k], side);
      assert Remapped(h, gids, out);
      var i :| 0 <= i < |out| && out[i] == guid;
      assert Replaces(h, Served(h, gids)[i], guid);
    }
  }

  /** A live GUID that is named after a step is live after it, unless the step strands it. */
  lemma StepLive(cfg: Config, s: State, ev: FwdEvent, oracle: Oracle, side: Side, guid: string)
    requires FwdInv(s)
    ensures var s' := FwdStep(cfg, s, ev, oracle);
            && Follows(Get(s, side), Get(s', side))
            && (IsLive(Get(s, side), guid) && Named(s'.info, side, guid) ==>
                  (IsLive(Get(s', side), guid) <==> !Strands(s, ev, side, guid)))
  {
    hide FwdDds, OnLeft, OnSample, Named, FwdInv;
    match ev
    case Dds(e, serializable) => DdsLive(cfg, s, e, serializable, oracle, side);
    case MemberLeft(zid) => LeaveLive(s, zid, side, guid);
    case Sample(ke, payload) => SampleLive(cfg, s, ke, payload, oracle, side, guid);
  }

  lemma StrandedStaysNamed(cfg: Config, s: State, ev: FwdEvent, oracle: Oracle, side: Side, guid: string)
    requires Strands(s, ev, side, guid)
    ensures FwdStep(cfg, s, ev, oracle).info == s.info && IsLive(Get(s, side), guid)
  {
    var p := ParseFwdKey(ev.ke).value;
    DeleteLive(s, side, FullAdminKey(p.uuid, p.rest), side);
    hide OnDelete, ParseFwdKey, FullAdminKey;
  }

  /** The event strands a GUID that the graph names. */
  ghost predicate StrandsNamed(s: State, ev: FwdEvent) {
    exists side, guid :: Strands(s, ev, side, guid) && Named(s.info, side, guid)
  }

  /**
  Every step keeps that the graph names live entities only, if and only if it is not the deletion of the one remote
  entity a route serves whose GUID the graph names.
  */
  lemma StepKeepsGraphLiveIff(cfg: Config, s: State, ev: FwdEvent, oracle: Oracle)
    requires FwdInv(s) && FwdEventOk(s, ev) && GraphLive(s)
    ensures GraphLive(FwdStep(cfg, s, ev, oracle)) <==> !StrandsNamed(s, ev)
  {
    var s' := FwdStep(cfg, s, ev, oracle);
    hide FwdStep, FwdInv, FwdEventOk, Strands, Named, IsLive;
    if side, guid :| Strands(s, ev, side, guid) && Named(s.info, side, guid) {
      StrandedStaysNamed(cfg, s, ev, oracle, side, guid);
      StepLive(cfg, s, ev, oracle, side, guid);
    } else {
      forall side, guid | Named(s'.info, side, guid) ensures IsLive(Get(s', side), guid) {
        StepNames(cfg, s, ev, oracle, side, guid);
        StepLive(cfg, s, ev, oracle, side, guid);
        if Strands(s, ev, side, guid) { StrandedStaysNamed(cfg, s, ev, oracle, side, guid); }
      }
    }
  }

  // ---------- over runs ----------

  ghost predicate StrandedBefore(states: seq<State>, events: seq<(FwdEvent, Oracle)>, i: nat, side: Side, guid: string) {
    exists j: nat :: j < i && j < |states| && j < |events| && Strands(states[j], events[j].0, side, guid)
  }

  ghost predicate Dead(h: Half, guid: string) {
    guid in h.issued && !IsLive(h, guid)
  }

  lemma DeadStays(h: Half, h': Half, guid: string)
    requires Follows(h, h') && Dead(h, guid)
    ensures Dead(h', guid)
  {
  }

  lemma StrandsKills(cfg: Config, s: State, ev: FwdEvent, oracle: Oracle, side: Side, guid: string)
    requires FwdInv(s) && Strands(s, ev, side, guid)
    ensures Dead(Get(FwdStep(cfg, s, ev, oracle), side), guid)
  {
    SampleLive(cfg, s, ev.ke, ev.payload, oracle, side, guid);
    hide OnSample, ParseFwdKey, FullAdminKey;
    var ke := OwnerOf(Get(s, side), guid);
  }

  lemma {:induction false} StrandedStaysDead(cfg: Config, states: seq<State>, events: seq<(FwdEvent, Oracle)>, j: nat, i: nat,
          side: Side, guid: string)
    requires FwdRun(cfg, states, events) && j < i < |states| && j < |events|
    requires Strands(states[j], events[j].0, side, guid)
    ensures Dead(Get(states[i], side), guid)
  {
    hide *;
    RunStart(cfg, states, events);
    RunStep(cfg, states, events, i - 1);
    RunKeepsFwdInv(cfg, states, events, i - 1);
    if j == i - 1 {
      StrandsKills(cfg, states[j], events[j].0, events[j].1, side, guid);
    } else {
      StrandedStaysDead(cfg, states, events, j, i - 1, side, guid);
      StepLive(cfg, states[i - 1], events[i - 1].0, events[i - 1].1, side, guid);
      DeadStays(Get(states[i - 1], side), Get(states[i], side), guid);
    }
  }

  lemma {:induction false} DeadWasStranded(cfg: Config, states: seq<State>, events: seq<(FwdEvent, Oracle)>, i: nat,
          side: Side, guid: string)
    requires FwdRun(cfg, states, events) && i < |states|
    requires Named(states[i].info, side, guid) && !IsLive(Get(states[i], side), guid)
    ensures StrandedBefore(states, events, i, side, guid)
  {
    hide FwdRun, FwdStep, FwdEventOk, FwdInv, IsLive, Strands;
    RunStart(cfg, states, events);
    if i > 0 {
      var s, ev, oracle := states[i - 1], events[i - 1].0, events[i - 1].1;
      RunStep(cfg, states, events, i - 1);
      RunKeepsFwdInv(cfg, states, events, i - 1);
      StepNames(cfg, s, ev, oracle, side, guid);
      StepLive(cfg, s, ev, oracle, side, guid);
      hide Named;
      if !IsLive(Get(s, side), guid) { DeadWasStranded(cfg, states, events, i - 1, side, guid); }
    }
  }

  /** Over every run: a GUID in the graph is that of a live entity, if and only if no deletion has stranded it. */
  lemma DeadIffStranded(cfg: Config, states: seq<State>, events: seq<(FwdEvent, Oracle)>, i: nat, side: Side, guid: string)
    requires FwdRun(cfg, states, events) && i < |states| && Named(states[i].info, side, guid)
    ensures IsLive(Get(states[i], side), guid) <==> !StrandedBefore(states, events, i, side, guid)
  {
    if StrandedBefore(states, events, i, side, guid) {
      var j: nat :| j < i && j < |states| && j < |events| && Strands(states[j], events[j].0, side, guid);
      StrandedStaysDead(cfg, states, events, j, i, side, guid);
    } else if !IsLive(Get(states[i], side), guid) {
      DeadWasStranded(cfg, states, events, i, side, guid);
    }
  }
}
