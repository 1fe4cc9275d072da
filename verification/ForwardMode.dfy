/**
Forward discovery mode: local discovery is announced to the other bridges, and their announcements make
the routes. A route to DDS may stand without a DDS writer while only local readers want it.
*/
module ForwardMode {
  import opened Wrappers
  import opened QosAdaptation
  import opened BridgeKeys
  import opened Bridge
  import opened Linking
  import opened BridgeState
  import opened LocalMode
  import opened RosGraph

  /** The payload of a sample on a forwarded-discovery key. `remapped` is what remapping made of `nodes`. */
  datatype Payload =
    | Announce(e: DdsEntity, scope: Option<string>)
    | Delete
    | RosInfo(nodes: Graph, remapped: Graph)
    | Garbage

  /** `serializable` tells whether the announcement of a discovered entity can be encoded. */
  datatype FwdEvent =
    | Dds(ev: DdsEvent, serializable: bool)
    | Sample(ke: string, payload: Payload)
    | MemberLeft(zid: string)

  // ---------- local discovery ----------

  function FwdDiscoverReader(cfg: Config, s: State, e: DdsEntity, serializable: bool, oracle: Oracle): State {
    var l := LinkLocal(SetupOf(cfg, e), LocalTemplate(ToDds, e), s.to, e.key, e.Parts(), false, oracle);
    var s1 := WithHalf(s, ToDds, l.half);
    if serializable then Store(s1, ToDds, e.(routes := l.statuses)) else s1
  }

  function FwdUndiscoverReader(s: State, key: string): State {
    var s1 := if key in s.to.entities then Forget(s, ToDds, key) else s;
    WithHalf(s1, ToDds, Sweep(s1.to, CutLocal(key), NeedEither, false))
  }

  function FwdDds(cfg: Config, s: State, ev: DdsEvent, serializable: bool, oracle: Oracle): State {
    match ev
    case Discovered(FromDds, e) => if serializable then Store(s, FromDds, e) else s
    case Undiscovered(FromDds, key) => if key in s.from.entities then Forget(s, FromDds, key) else s
    case Discovered(ToDds, e) => FwdDiscoverReader(cfg, s, e, serializable, oracle)
    case Undiscovered(ToDds, key) => FwdUndiscoverReader(s, key)
    case DiscoveredParticipant(p) => StoreParticipant(s, p)
    case UndiscoveredParticipant(key) => ForgetParticipant(s, key)
  }

  /** The routes to DDS after a discovery and after its end; nothing else of either direction changes. */
  lemma ReaderDiscovered(cfg: Config, s: State, e: DdsEntity, serializable: bool, oracle: Oracle)
    ensures var l := LinkLocal(SetupOf(cfg, e), LocalTemplate(ToDds, e), s.to, e.key, e.Parts(), false, oracle);
            var s' := FwdDiscoverReader(cfg, s, e, serializable, oracle);
            && s'.to == (if serializable then l.half.(entities := l.half.entities[e.key := e.(routes := l.statuses)]) else l.half)
            && s'.from == s.from && s'.info == s.info && s'.participants == s.participants
  {
    hide LinkLocal, Reindex, AdminKey;
  }

  lemma ReaderUndiscovered(s: State, key: string)
    ensures var s' := FwdUndiscoverReader(s, key);
            && s'.to == Sweep(s.to.(entities := s.to.entities - {key}), CutLocal(key), NeedEither, false)
            && s'.from == s.from && s'.info == s.info && s'.participants == s.participants
  {
    hide Sweep, Reindex, AdminKey;
    if key !in s.to.entities { assert s.to.(entities := s.to.entities - {key}) == s.to; }
  }

  // ---------- announcements ----------

  /** Remote writers need routes to DDS, remote readers routes from DDS. */
  function SideOf(kind: DiscoKind): Side {
    if kind.WriterDisco? then ToDds else FromDds
  }

  function RemoteSetup(cfg: Config, e: DdsEntity, scope: Option<string>): Setup {
    Setup(cfg, e.topic, scope)
  }

  /** A remote writer is stood for by proxy writers, a remote reader by proxy readers. */
  function RemoteTemplate(side: Side, e: DdsEntity): Template {
    match side
    case FromDds => Template(e.typeName, AdaptReaderQosForProxyReader(e.qos), true)
    case ToDds => Template(e.typeName, AdaptWriterQosForProxyWriter(e.qos), false)
  }

  function HalfAnnounce(cfg: Config, side: Side, h: Half, ref: string, e: DdsEntity, scope: Option<string>,
          oracle: Oracle): Linked {
    LinkRemote(RemoteSetup(cfg, e, scope), RemoteTemplate(side, e), h, ref, e.Parts(), oracle)
  }

  /** A route to DDS without remote writer gives up its DDS writer but stays for a local reader; a route from DDS goes. */
  function HalfDelete(h: Half, side: Side, ref: string): Half {
    Sweep(h, CutRemote(ref), if side.ToDds? then NeedEither else NeedRemote, side.ToDds?)
  }

  function OnAnnounce(cfg: Config, s: State, side: Side, ref: string, e: DdsEntity, scope: Option<string>,
          oracle: Oracle): State {
    WithHalf(s, side, HalfAnnounce(cfg, side, Get(s, side), ref, e, scope, oracle).half)
  }

  function OnDelete(s: State, side: Side, ref: string): State {
    WithHalf(s, side, HalfDelete(Get(s, side), side, ref))
  }

  /** A sample about an entity of another bridge. */
  function OnEntity(cfg: Config, s: State, side: Side, ref: string, payload: Payload, oracle: Oracle): State {
    match payload
    case Announce(e, scope) => OnAnnounce(cfg, s, side, ref, e, scope, oracle)
    case Delete => OnDelete(s, side, ref)
    case _ => s
  }

  ghost function OnSample(cfg: Config, s: State, ke: string, payload: Payload, oracle: Oracle): State {
    match ParseFwdKey(ke)
    case None => s
    case Some(p) =>
      if p.kind.RosDisco? then
        if payload.RosInfo? then s.(info := UpdateWith(s.info, payload.remapped)) else s
      else
        OnEntity(cfg, s, SideOf(p.kind), FullAdminKey(p.uuid, p.rest), payload, oracle)
  }

  lemma GarbageDoesNothing(cfg: Config, s: State, ke: string, oracle: Oracle)
    ensures OnSample(cfg, s, ke, Garbage, oracle) == s
  {
  }

  // ---------- departure ----------

  function HalfLeave(h: Half, zid: string): Half {
    Sweep(h, CutContaining(DepartureSubkey(zid)), NeedRemote, false)
  }

  /** The GUIDs of the entities a sweep deleted. */
  function GoneGuids(before: Half, after: Half): set<string> {
    set x | x in before.live && x !in after.live :: before.live[x]
  }

  function OnLeft(s: State, zid: string): State {
    var to, from := HalfLeave(s.to, zid), HalfLeave(s.from, zid);
    var writers, readers := GoneGuids(s.to, to), GoneGuids(s.from, from);
    WithHalf(WithHalf(s, ToDds, to), FromDds, from)
      .(info := if writers == {} && readers == {} then s.info else Cleanup(RemoveGids(s.info, readers, writers)))
  }

  ghost function FwdStep(cfg: Config, s: State, ev: FwdEvent, oracle: Oracle): State {
    match ev
    case Dds(e, serializable) => FwdDds(cfg, s, e, serializable, oracle)
    case Sample(ke, payload) => OnSample(cfg, s, ke, payload, oracle)
    case MemberLeft(zid) => OnLeft(s, zid)
  }

  /** A received graph is keyed by namespace and name, and is remapped with the routes of the moment. */
  ghost predicate FwdEventOk(s: State, ev: FwdEvent) {
    match ev
    case Dds(e, _) => EventOk(s, e)
    case Sample(_, RosInfo(nodes, remapped)) =>
      (forall k :: k in nodes ==> k == nodes[k].namespace + nodes[k].name) && RemappedGraph(s, nodes, remapped)
    case _ => true
  }

  // ---------- the invariant of one direction ----------

  /** What a route stands for. `lazy` is the direction to DDS, where a local reader alone can hold a route. */
  ghost predicate RouteOk(lazy: bool, r: Route) {
    && (r.entity != 0 <==> r.remote != {})
    && (r.remote != {} || (lazy && r.local != {}))
  }

  ghost predicate RoutesOk(lazy: bool, h: Half) {
    forall ke :: ke in h.routes ==> RouteOk(lazy, h.routes[ke])
  }

  ghost predicate HalfInv(lazy: bool, h: Half) {
    Conserved(h) && RoutesOk(lazy, h)
  }

  lemma AnnounceKeepsInv(cfg: Config, side: Side, h: Half, ref: string, e: DdsEntity, scope: Option<string>,
          oracle: Oracle)
    requires HalfInv(side.ToDds?, h)
    ensures HalfInv(side.ToDds?, HalfAnnounce(cfg, side, h, ref, e, scope, oracle).half)
  {
    hide LinkRemote, Conserved, StatusesFor;
    var u, make := RemoteSetup(cfg, e, scope), RemoteTemplate(side, e);
    LinkRemoteEffect(u, make, h, ref, e.Parts(), oracle);
    var r := LinkRemote(u, make, h, ref, e.Parts(), oracle);
    forall ke | ke in r.half.routes ensures RouteOk(side.ToDds?, r.half.routes[ke]) {
      assert Remote(r.half, ke) == Remote(h, ke) + if RoutedTo(r.statuses, ke) then {ref} else {};
      assert Local(h, ke) <= Local(r.half, ke);
      if RoutedTo(r.statuses, ke) {
        var n :| n in r.statuses && r.statuses[n] == Routed(ke);
        assert r.half.routes[ke].entity != 0;
      } else {
        assert ke in h.routes && r.half.routes[ke].entity == h.routes[ke].entity;
      }
    }
  }

  lemma DiscoverReaderKeepsInv(cfg: Config, h: Half, e: DdsEntity, oracle: Oracle)
    requires HalfInv(true, h)
    ensures HalfInv(true, LinkLocal(SetupOf(cfg, e), LocalTemplate(ToDds, e), h, e.key, e.Parts(), false, oracle).half)
  {
    hide LinkLocal, Conserved, StatusesFor;
    LinkLocalEffect(SetupOf(cfg, e), LocalTemplate(ToDds, e), h, e.key, e.Parts(), false, oracle);
    var r := LinkLocal(SetupOf(cfg, e), LocalTemplate(ToDds, e), h, e.key, e.Parts(), false, oracle);
    forall ke | ke in r.half.routes ensures RouteOk(true, r.half.routes[ke]) {
      assert Remote(r.half, ke) == Remote(h, ke);
      assert Local(r.half, ke) == Local(h, ke) + if RoutedTo(r.statuses, ke) then {e.key} else {};
    }
  }

  lemma DeleteKeepsInv(h: Half, side: Side, ref: string)
    requires HalfInv(side.ToDds?, h)
    ensures HalfInv(side.ToDds?, HalfDelete(h, side, ref))
  {
    hide Conserved;
  }

  lemma LeaveKeepsInv(lazy: bool, h: Half, zid: string)
    requires HalfInv(lazy, h)
    ensures HalfInv(lazy, HalfLeave(h, zid))
  {
    hide Conserved;
  }

  lemma UndiscoverReaderKeepsInv(h: Half, key: string)
    requires HalfInv(true, h)
    ensures HalfInv(true, Sweep(h, CutLocal(key), NeedEither, false))
  {
    hide Conserved;
  }

  // ---------- the invariant of the bridge ----------

  ghost predicate FwdInv(s: State) {
    HalfInv(false, s.from) && HalfInv(true, s.to) && Agreed(s) && GraphOk(s)
  }

  lemma StoreKeepsHalf(lazy: bool, h: Half, entities: map<string, DdsEntity>)
    requires HalfInv(lazy, h)
    ensures HalfInv(lazy, h.(entities := entities))
  {
    EntitiesApart(h, entities);
    hide Conserved;
  }

  /** The graph only speaks of GUIDs ever issued, of which none is taken back. */
  lemma GraphStays(s: State, s': State)
    requires GraphOk(s) && s'.info == s.info && s.from.issued.Keys <= s'.from.issued.Keys && s.to.issued.Keys <= s'.to.issued.Keys
    ensures GraphOk(s')
  {
  }

  /** Links only create: live entities stay what they are, new ones have new GUIDs, and every new GUID is one of a live entity. */
  ghost predicate OnlyCreates(h: Half, h': Half) {
    && (forall g :: g in h.issued ==> g in h'.issued && h'.issued[g] == h.issued[g])
    && (forall x :: x in h.live ==> x in h'.live && h'.live[x] == h.live[x])
    && (forall x :: x in h'.live && x !in h.live ==> h'.live[x] !in h.issued)
    && (forall g :: g in h'.issued && g !in h.issued ==> exists x :: x in h'.live && h'.live[x] == g)
  }

  lemma TryAddCreates(cfg: Config, h: Half, ke: string, withEntity: bool, o: Outcome, spec: Spec)
    ensures OnlyCreates(h, TryAdd(cfg, h, ke, withEntity, o, spec).1)
  {
    var h' := TryAdd(cfg, h, ke, withEntity, o, spec).1;
    if h'.issued != h.issued {
      assert o.entity.value.0 in h'.live && h'.live[o.entity.value.0] == o.entity.value.1;
    }
  }

  lemma CreatesTransitive(a: Half, b: Half, c: Half)
    requires OnlyCreates(a, b) && OnlyCreates(b, c)
    ensures OnlyCreates(a, c)
  {
    forall g | g in c.issued && g !in a.issued ensures exists x :: x in c.live && c.live[x] == g {
      if g in b.issued {
        var x :| x in b.live && b.live[x] == g;
        assert x in c.live && c.live[x] == g;
      }
    }
  }

  lemma {:induction false} LinkLocalIssues(u: Setup, make: Template, h: Half, key: string, parts: seq<Option<string>>,
          withEntity: bool, oracle: Oracle)
    ensures OnlyCreates(h, LinkLocal(u, make, h, key, parts, withEntity, oracle).half)
  {
    if parts != [] {
      var n := |parts| - 1;
      LinkLocalIssues(u, make, h, key, parts[..n], withEntity, oracle);
      var before := LinkLocal(u, make, h, key, parts[..n], withEntity, oracle).half;
      TryAddCreates(u.cfg, before, u.Key(parts[n]), withEntity, oracle(n), u.SpecFor(make, parts[n]));
      hide TryAdd, OnlyCreates;
      var after := TryAdd(u.cfg, before, u.Key(parts[n]), withEntity, oracle(n), u.SpecFor(make, parts[n])).1;
      CreatesTransitive(h, before, after);
      CreatesAsOwners(h, after, LinkLocal(u, make, h, key, parts, withEntity, oracle).half);
    }
  }

  lemma CreatesAsOwners(h: Half, a: Half, b: Half)
    requires OnlyCreates(h, a) && a.live == b.live && a.issued == b.issued
    ensures OnlyCreates(h, b)
  {
  }

  lemma {:induction false} LinkRemoteIssues(u: Setup, make: Template, h: Half, ref: string, parts: seq<Option<string>>,
          oracle: Oracle)
    ensures OnlyCreates(h, LinkRemote(u, make, h, ref, parts, oracle).half)
  {
    if parts != [] {
      var n := |parts| - 1;
      LinkRemoteIssues(u, make, h, ref, parts[..n], oracle);
      var before := LinkRemote(u, make, h, ref, parts[..n], oracle).half;
      TryAddCreates(u.cfg, before, u.Key(parts[n]), true, oracle(n), u.SpecFor(make, parts[n]));
      hide TryAdd, OnlyCreates;
      var after := TryAdd(u.cfg, before, u.Key(parts[n]), true, oracle(n), u.SpecFor(make, parts[n])).1;
      CreatesTransitive(h, before, after);
      CreatesAsOwners(h, after, LinkRemote(u, make, h, ref, parts, oracle).half);
    }
  }

  lemma DdsKeepsInv(cfg: Config, s: State, ev: DdsEvent, serializable: bool, oracle: Oracle)
    requires FwdInv(s) && EventOk(s, ev)
    ensures FwdInv(FwdDds(cfg, s, ev, serializable, oracle))
  {
    var s' := FwdDds(cfg, s, ev, serializable, oracle);
    hide HalfInv, Agreed, FwdDiscoverReader, FwdUndiscoverReader, AdminKey;
    match ev
    case Discovered(FromDds, e) =>
      if serializable { StoreAgrees(s, FromDds, e); StoreKeepsHalf(false, s.from, s'.from.entities); }
    case Undiscovered(FromDds, key) =>
      if key in s.from.entities { ForgetAgrees(s, FromDds, key); StoreKeepsHalf(false, s.from, s'.from.entities); }
    case Discovered(ToDds, e) => DiscoverReaderStep(cfg, s, e, serializable, oracle);
    case Undiscovered(ToDds, key) => UndiscoverReaderStep(s, key);
    case DiscoveredParticipant(p) => StoreParticipantAgrees(s, p);
    case UndiscoveredParticipant(key) => ForgetParticipantAgrees(s, key);
  }

  lemma UndiscoverReaderStep(s: State, key: string)
    requires FwdInv(s)
    ensures FwdInv(FwdUndiscoverReader(s, key))
  {
    hide HalfInv, Agreed, Reindex, AdminKey;
    var s1 := if key in s.to.entities then Forget(s, ToDds, key) else s;
    if key in s.to.entities { ForgetAgrees(s, ToDds, key); }
    StoreKeepsHalf(true, s.to, s1.to.entities);
    UndiscoverReaderKeepsInv(s1.to, key);
    WithHalfAgrees(s1, ToDds, Sweep(s1.to, CutLocal(key), NeedEither, false));
    hide Sweep;
  }

  lemma DiscoverReaderStep(cfg: Config, s: State, e: DdsEntity, serializable: bool, oracle: Oracle)
    requires FwdInv(s) && MayStore(s.to, e)
    ensures FwdInv(FwdDiscoverReader(cfg, s, e, serializable, oracle))
  {
    var s' := FwdDiscoverReader(cfg, s, e, serializable, oracle);
    var u, make := SetupOf(cfg, e), LocalTemplate(ToDds, e);
    LinkLocalIssues(u, make, s.to, e.key, e.Parts(), false, oracle);
    hide HalfInv, Agreed, Reindex, LinkLocal, StatusesFor, LocalMembers;
    var l := LinkLocal(u, make, s.to, e.key, e.Parts(), false, oracle);
    DiscoverReaderKeepsInv(cfg, s.to, e, oracle);
    LinkLocalEffect(u, make, s.to, e.key, e.Parts(), false, oracle);
    WithHalfAgrees(s, ToDds, l.half);
    StoreAgrees(WithHalf(s, ToDds, l.half), ToDds, e.(routes := l.statuses));
    StoreKeepsHalf(true, l.half, s'.to.entities);
  }

  lemma UpdateKeepsGraph(s: State, nodes: Graph, remapped: Graph)
    requires FwdInv(s) && RemappedGraph(s, nodes, remapped)
    requires forall k :: k in nodes ==> k == nodes[k].namespace + nodes[k].name
    ensures GraphOk(s.(info := UpdateWith(s.info, remapped)))
  {
    forall k | k in remapped
      ensures k == remapped[k].namespace + remapped[k].name
      ensures forall g :: g in remapped[k].readers ==> g in s.from.issued
      ensures forall g :: g in remapped[k].writers ==> g in s.to.issued
    {
      assert RemappedNode(s, nodes[k], remapped[k]);
      RemappedIssued(s.from, nodes[k].readers, remapped[k].readers);
      RemappedIssued(s.to, nodes[k].writers, remapped[k].writers);
    }
  }

  lemma AnnounceStep(cfg: Config, s: State, side: Side, ref: string, e: DdsEntity, scope: Option<string>, oracle: Oracle)
    requires FwdInv(s)
    ensures FwdInv(OnAnnounce(cfg, s, side, ref, e, scope, oracle))
  {
    var u, make, h := RemoteSetup(cfg, e, scope), RemoteTemplate(side, e), Get(s, side);
    LinkRemoteIssues(u, make, h, ref, e.Parts(), oracle);
    hide HalfInv, Agreed, Reindex, LinkRemote, StatusesFor;
    var r := HalfAnnounce(cfg, side, h, ref, e, scope, oracle);
    AnnounceKeepsInv(cfg, side, h, ref, e, scope, oracle);
    LinkRemoteEffect(u, make, h, ref, e.Parts(), oracle);
    WithHalfAgrees(s, side, r.half);
    GraphStays(s, WithHalf(s, side, r.half));
  }

  lemma DeleteStep(s: State, side: Side, ref: string)
    requires FwdInv(s)
    ensures FwdInv(OnDelete(s, side, ref))
  {
    hide HalfInv, Agreed, Reindex;
    DeleteKeepsInv(Get(s, side), side, ref);
    WithHalfAgrees(s, side, HalfDelete(Get(s, side), side, ref));
    GraphStays(s, OnDelete(s, side, ref));
  }

  lemma SampleKeepsInv(cfg: Config, s: State, ke: string, payload: Payload, oracle: Oracle)
    requires FwdInv(s) && FwdEventOk(s, Sample(ke, payload))
    ensures FwdInv(OnSample(cfg, s, ke, payload, oracle))
  {
    hide OnAnnounce, OnDelete, HalfInv, Agreed, GraphOk, UpdateWith, FullAdminKey;
    if ParseFwdKey(ke).Some? {
      var p := ParseFwdKey(ke).value;
      hide ParseFwdKey;
      var side, ref := SideOf(p.kind), FullAdminKey(p.uuid, p.rest);
      if !p.kind.RosDisco? {
        if payload.Announce? { AnnounceStep(cfg, s, side, ref, payload.e, payload.scope, oracle); }
        if payload.Delete? { DeleteStep(s, side, ref); }
      } else if payload.RosInfo? {
        UpdateKeepsGraph(s, payload.nodes, payload.remapped);
        InfoLeavesIndex(s, UpdateWith(s.info, payload.remapped));
      }
    }
  }

  lemma LeftKeepsInv(s: State, zid: string)
    requires FwdInv(s)
    ensures FwdInv(OnLeft(s, zid))
  {
    hide HalfInv, Agreed, Reindex;
    var to, from := HalfLeave(s.to, zid), HalfLeave(s.from, zid);
    LeaveKeepsInv(true, s.to, zid);
    LeaveKeepsInv(false, s.from, zid);
    var s1 := WithHalf(s, ToDds, to);
    WithHalfAgrees(s, ToDds, to);
    WithHalfAgrees(s1, FromDds, from);
    var s2 := WithHalf(s1, FromDds, from);
    GraphStays(s, s2);
    InfoLeavesIndex(s2, OnLeft(s, zid).info);
    assert GraphOk(OnLeft(s, zid));
  }

  lemma InfoLeavesIndex(s: State, info: Graph)
    requires Agreed(s)
    ensures Agreed(s.(info := info))
  {
    var s' := s.(info := info);
    forall r | Resolves(s', r) ensures Indexed(s', r) { assert Resolves(s, r) && Indexed(s, r); }
    forall ak | ak in s'.admin ensures Resolves(s', s'.admin[ak]) && AdminKey(IdOf(s', s'.admin[ak])) == ak {
      assert Resolves(s, s.admin[ak]);
    }
  }
}
