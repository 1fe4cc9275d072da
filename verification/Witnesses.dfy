/**
Runs in which the things happen that the exact conditions of the other modules speak of: in a state a bridge
in forward mode can reach, the property holds, and the next event ends it.
*/
module Witnesses {
  import opened Wrappers
  import opened QosTypes
  import opened QosAdaptation
  import opened KeyExprs
  import opened BridgeKeys
  import opened Bridge
  import opened Linking
  import opened BridgeState
  import opened LocalMode
  import opened RosGraph
  import opened ForwardMode
  import opened ForwardRuns
  import opened Announcements
  import opened Network
  import opened ReaderStatuses
  import opened LocalWriters
  import opened LiveGraph

  /** The last state of some run. */
  ghost predicate Reached(cfg: Config, s: State) {
    exists states, events :: FwdRun(cfg, states, events) && states[|events|] == s
  }

  lemma InitReached(cfg: Config)
    ensures Reached(cfg, INIT)
  {
    assert FwdRun(cfg, [INIT], []) && [INIT][0] == INIT;
  }

  lemma NextReached(cfg: Config, s: State, ev: FwdEvent, oracle: Oracle)
    requires Reached(cfg, s) && FwdEventOk(s, ev)
    ensures Reached(cfg, FwdStep(cfg, s, ev, oracle))
  {
    var states, events :| FwdRun(cfg, states, events) && states[|events|] == s;
    RunExtends(cfg, states, events, (ev, oracle));
    hide FwdRun, FwdStep, FwdEventOk;
    var states', events' := states + [FwdStep(cfg, s, ev, oracle)], events + [(ev, oracle)];
    assert FwdRun(cfg, states', events') && states'[|events'|] == FwdStep(cfg, s, ev, oracle);
  }

  // ---------- entities without partition, in a network without scope ----------

  predicate Unpartitioned(e: DdsEntity) {
    PartitionIsEmpty(e.qos.partition) && GoodEntity(e) && e.participantKey != "reader" && e.key != "reader"
  }

  /** A sample from bridge `z` about its entity. */
  function SampleAbout(z: string, x: Side, e: DdsEntity, payload: Payload): FwdEvent {
    Sample(FwdKey(z, None, KindOf(x), AdminRest(x, e)), payload)
  }

  ghost predicate Readable(z: string, x: Side, e: DdsEntity) {
    NoSlash(z) && Unpartitioned(e) && (x.FromDds? ==> !NonFinalSegment(e.topic, "reader"))
  }

  lemma SampleIsRead(cfg: Config, s: State, z: string, x: Side, e: DdsEntity, payload: Payload, oracle: Oracle)
    requires Readable(z, x, e)
    ensures FwdStep(cfg, s, SampleAbout(z, x, e, payload), oracle) ==
            OnEntity(cfg, s, Opposite(x), RefOf(z, x, e), payload, oracle)
    ensures ParseFwdKey(SampleAbout(z, x, e, payload).ke) == Some(FwdParsed(z, KindOf(x), AdminRest(x, e)))
  {
    EntityKeyParsesIff(z, None, x.FromDds?, e.participantKey, e.key, e.topic);
    hide ParseFwdKey, FwdKey, FullAdminKey, EntityAdminKey, OnEntity;
  }

  /** DDS and zenoh let the first route be made. */
  predicate Grants(o: Outcome, h: Half) {
    o.sessionOk && Accepts(h, o)
  }

  /** The first announcement makes the route, with a DDS entity made for it. */
  lemma FirstAnnounced(cfg: Config, h: Half, side: Side, ref: string, e: DdsEntity, oracle: Oracle)
    requires Unpartitioned(e) && cfg.Allowed(e.topic) && e.topic !in h.routes && Grants(oracle(0), h)
    ensures var h' := HalfAnnounce(cfg, side, h, ref, e, None, oracle).half;
            var (handle, guid) := oracle(0).entity.value;
            && h'.routes == h.routes[e.topic := Route(handle, {ref}, Hits(h.entities, e.topic, None))]
            && h'.live == h.live[handle := guid]
            && h'.issued == h.issued[guid := RemoteSetup(cfg, e, None).SpecFor(RemoteTemplate(side, e), None)]
            && h'.entities.Keys == h.entities.Keys
  {
    var u, make := RemoteSetup(cfg, e, None), RemoteTemplate(side, e);
    OnePart(u, make, h, ref, e, oracle);
    assert u.Key(None) == e.topic;
    hide LinkRemote, Conserved, Concerns;
    var h1 := Install(h, e.topic, Route(0, {}, {}), oracle(0), u.SpecFor(make, None));
    assert TryAdd(u.cfg, h, e.topic, true, oracle(0), u.SpecFor(make, None)) == (Routed(e.topic), h1);
    hide TryAdd;
    var hits := Hits(h.entities, e.topic, None);
    assert {} + {ref} == {ref} && {} + hits == hits;
    assert AddRemote(h1, e.topic, ref, e.topic, None).routes ==
      h1.routes[e.topic := Route(h1.routes[e.topic].entity, {ref}, hits)];
  }

  lemma OnePart(u: Setup, make: Template, h: Half, ref: string, e: DdsEntity, oracle: Oracle)
    requires PartitionIsEmpty(e.qos.partition)
    ensures LinkRemote(u, make, h, ref, e.Parts(), oracle) == LinkRemoteStep(u, make, Linked(h, map[]), ref, None, oracle(0))
  {
    assert e.Parts() == [None] && e.Parts()[..0] == [];
    hide LinkRemoteStep;
    assert LinkRemote(u, make, h, ref, [], oracle) == Linked(h, map[]);
  }

  /** A later announcement on the same key leaves the DDS entity as it is. */
  lemma LaterAnnounced(cfg: Config, h: Half, side: Side, ref: string, e: DdsEntity, oracle: Oracle)
    requires Unpartitioned(e) && cfg.Allowed(e.topic) && e.topic in h.routes && h.routes[e.topic].entity != 0
    ensures var h', r := HalfAnnounce(cfg, side, h, ref, e, None, oracle).half, h.routes[e.topic];
            && h'.routes == h.routes[e.topic := Route(r.entity, r.remote + {ref}, r.local + Hits(h.entities, e.topic, None))]
            && h'.live == h.live && h'.issued == h.issued && h'.entities.Keys == h.entities.Keys
  {
    var u, make := RemoteSetup(cfg, e, None), RemoteTemplate(side, e);
    OnePart(u, make, h, ref, e, oracle);
    assert u.Key(None) == e.topic;
    hide LinkRemote, Conserved, Concerns;
  }

  lemma AnnouncedOneSide(cfg: Config, s: State, side: Side, ref: string, e: DdsEntity, oracle: Oracle)
    ensures var s' := OnEntity(cfg, s, side, ref, Announce(e, None), oracle);
            && Get(s', side) == HalfAnnounce(cfg, side, Get(s, side), ref, e, None, oracle).half
            && Get(s', Opposite(side)) == Get(s, Opposite(side)) && s'.info == s.info
  {
    hide Reindex, HalfAnnounce;
  }

  /** What the first announcement for a key leaves in the whole state. */
  ghost predicate NewlyRouted(cfg: Config, s: State, s': State, z: string, x: Side, e: DdsEntity, o: Outcome)
    requires o.entity.Some?
  {
    var side, (handle, guid) := Opposite(x), o.entity.value;
    var h, h' := Get(s, side), Get(s', side);
    && h'.routes == h.routes[e.topic := Route(handle, {RefOf(z, x, e)}, Hits(h.entities, e.topic, None))]
    && h'.live == h.live[handle := guid]
    && h'.issued == h.issued[guid := RemoteSetup(cfg, e, None).SpecFor(RemoteTemplate(side, e), None)]
    && h'.entities.Keys == h.entities.Keys && Get(s', x) == Get(s, x) && s'.info == s.info
  }

  lemma FirstStep(cfg: Config, s: State, z: string, x: Side, e: DdsEntity, oracle: Oracle)
    requires Readable(z, x, e) && cfg.Allowed(e.topic)
    requires e.topic !in Get(s, Opposite(x)).routes && Grants(oracle(0), Get(s, Opposite(x)))
    ensures NewlyRouted(cfg, s, FwdStep(cfg, s, SampleAbout(z, x, e, Announce(e, None)), oracle), z, x, e, oracle(0))
  {
    SampleIsRead(cfg, s, z, x, e, Announce(e, None), oracle);
    AnnouncedOneSide(cfg, s, Opposite(x), RefOf(z, x, e), e, oracle);
    FirstAnnounced(cfg, Get(s, Opposite(x)), Opposite(x), RefOf(z, x, e), e, oracle);
    hide FwdStep, OnEntity, RefOf, Readable, HalfAnnounce, Hits;
  }

  // ---------- statuses of readers ----------

  /** A route that a first local reader makes. */
  lemma FirstDiscovered(cfg: Config, e: DdsEntity, oracle: Oracle)
    requires Unpartitioned(e) && cfg.Allowed(SetupOf(cfg, e).Key(None)) && oracle(0).sessionOk
    ensures var l := LinkLocal(SetupOf(cfg, e), LocalTemplate(ToDds, e), EMPTY_HALF, e.key, e.Parts(), false, oracle);
            l.half.routes == map[SetupOf(cfg, e).Key(None) := Route(0, {}, {e.key})]
  {
    assert e.Parts() == [None] && e.Parts()[..0] == [];
    hide Conserved;
    var u, make := SetupOf(cfg, e), LocalTemplate(ToDds, e);
    assert LinkLocal(u, make, EMPTY_HALF, e.key, [], false, oracle) == Linked(EMPTY_HALF, map[]);
    var ke, h1 := u.Key(None), EMPTY_HALF.(routes := map[u.Key(None) := Route(0, {}, {})]);
    assert TryAdd(cfg, EMPTY_HALF, ke, false, oracle(0), u.SpecFor(make, None)) == (Routed(ke), h1);
    hide TryAdd, TopicToKeyExpr;
    assert {} + {e.key} == {e.key};
    assert AddLocal(h1, ke, e.key).routes == map[ke := Route(0, {}, {e.key})];
  }

  /**
  The first discovery of a reader makes a route without remote writer. The departure of any bridge at all drops it,
  and the reader still has the status `Routed`.
  */
  lemma ReaderLosesRoute(cfg: Config, e: DdsEntity, oracle: Oracle, zid: string, later: Oracle)
    requires Unpartitioned(e) && cfg.Allowed(SetupOf(cfg, e).Key(None)) && oracle(0).sessionOk
    ensures var s := FwdStep(cfg, INIT, Dds(Discovered(ToDds, e), true), oracle);
            && Reached(cfg, s) && RoutedAreMembers(s.to)
            && DropsReaders(s, MemberLeft(zid)) && !RoutedAreMembers(FwdStep(cfg, s, MemberLeft(zid), later).to)
  {
    var ev := Dds(Discovered(ToDds, e), true);
    var s, ke := FwdStep(cfg, INIT, ev, oracle), SetupOf(cfg, e).Key(None);
    InitReached(cfg);
    NextReached(cfg, INIT, ev, oracle);
    InitStatuses(cfg);
    StepStatuses(cfg, INIT, ev, oracle);
    FirstDiscovered(cfg, e, oracle);
    ReaderDiscovered(cfg, INIT, e, true, oracle);
    hide LinkLocal, FwdDiscoverReader, Reached, RoutedAreMembers, StatusInv, OnLeft;
    assert s.to.routes == map[ke := Route(0, {}, {e.key})];
    assert AllSwept(s.to.routes[ke], zid) && e.key in s.to.routes[ke].local;
    StepStatuses(cfg, s, MemberLeft(zid), later);
  }

  /** A first discovery that cannot be announced leaves a reader on a route that is not stored. */
  lemma ReaderUntracked(cfg: Config, e: DdsEntity, oracle: Oracle)
    requires Unpartitioned(e) && cfg.Allowed(SetupOf(cfg, e).Key(None)) && oracle(0).sessionOk
    ensures ReadersTracked(INIT)
    ensures var s := FwdStep(cfg, INIT, Dds(Discovered(ToDds, e), false), oracle); Reached(cfg, s) && !ReadersTracked(s)
  {
    var ev := Dds(Discovered(ToDds, e), false);
    InitReached(cfg);
    NextReached(cfg, INIT, ev, oracle);
    assert e.Parts() == [None];
    assert GetsRoute(cfg, INIT.to, e, oracle, 0);
    hide FwdStep, Reached;
    UnencodedKeepsTrackingIff(cfg, INIT, e, oracle);
  }

  // ---------- local writers ----------

  /**
  A writer is discovered, a reader on its topic announced, and the writer vanishes: it stays on the route, which the
  announced reader holds.
  */
  lemma WriterLingers(cfg: Config, z: string, e: DdsEntity, f: DdsEntity, oracle: Oracle)
    requires Unpartitioned(e) && Readable(z, ToDds, f) && e.topic == f.topic && cfg.Allowed(f.topic)
    requires Grants(oracle(0), EMPTY_HALF)
    ensures var s1 := FwdStep(cfg, INIT, Dds(Discovered(FromDds, e), true), oracle);
            var s2 := FwdStep(cfg, s1, SampleAbout(z, ToDds, f, Announce(f, None)), oracle);
            var s3 := FwdStep(cfg, s2, Dds(Undiscovered(FromDds, e.key), true), oracle);
            Reached(cfg, s3) && WritersTracked(s2) && !WritersTracked(s3) && e.key in Bridge.Local(s3.from, f.topic)
  {
    var ev1, ev2 := Dds(Discovered(FromDds, e), true), SampleAbout(z, ToDds, f, Announce(f, None));
    var s1 := FwdStep(cfg, INIT, ev1, oracle);
    var s2 := FwdStep(cfg, s1, ev2, oracle);
    assert FwdEventOk(INIT, ev1) && FwdEventOk(s1, ev2) && FwdEventOk(s2, Dds(Undiscovered(FromDds, e.key), true));
    WriterOnRoute(cfg, z, e, f, oracle);
    hide *;
    InitReached(cfg);
    NextReached(cfg, INIT, ev1, oracle);
    NextReached(cfg, s1, ev2, oracle);
    NextReached(cfg, s2, Dds(Undiscovered(FromDds, e.key), true), oracle);
    VanishedStays(cfg, s2, e.key, true, oracle);
    NotTracked(FwdStep(cfg, s2, Dds(Undiscovered(FromDds, e.key), true), oracle), f.topic, e.key);
  }

  lemma NotTracked(s: State, ke: string, k: string)
    requires k in Bridge.Local(s.from, ke) && k !in s.from.entities
    ensures !WritersTracked(s)
  {
  }

  lemma WriterOnRoute(cfg: Config, z: string, e: DdsEntity, f: DdsEntity, oracle: Oracle)
    requires Unpartitioned(e) && Readable(z, ToDds, f) && e.topic == f.topic && cfg.Allowed(f.topic)
    requires Grants(oracle(0), EMPTY_HALF)
    ensures var s1 := FwdStep(cfg, INIT, Dds(Discovered(FromDds, e), true), oracle);
            var s2 := FwdStep(cfg, s1, SampleAbout(z, ToDds, f, Announce(f, None)), oracle);
            WritersTracked(s2) && e.key in Bridge.Local(s2.from, f.topic)
  {
    var s1 := FwdStep(cfg, INIT, Dds(Discovered(FromDds, e), true), oracle);
    WriterDiscovered(cfg, e, oracle);
    FirstStep(cfg, s1, z, ToDds, f, oracle);
    hide FwdStep, RefOf, Readable;
    var hits := Hits(s1.from.entities, f.topic, None);
    assert e.key in hits && hits <= s1.from.entities.Keys;
  }

  lemma WriterDiscovered(cfg: Config, e: DdsEntity, oracle: Oracle)
    ensures FwdStep(cfg, INIT, Dds(Discovered(FromDds, e), true), oracle).from == EMPTY_HALF.(entities := map[e.key := e])
  {
    hide AdminKey;
  }

  // ---------- the published graph ----------

  lemma KeyInRef(z: string, x: Side, e: DdsEntity)
    ensures Contains(RefOf(z, x, e), e.key)
  {
    var last := Path(e.key, e.topic);
    assert OccursAt(last, e.key, 0);
    InTail(Kind(x.FromDds?), last, e.key);
    InTail(e.participantKey, Path(Kind(x.FromDds?), last), e.key);
    InTail("participant", Path(e.participantKey, Path(Kind(x.FromDds?), last)), e.key);
    hide Contains, OccursAt, Path;
    InTail("dds", AdminRest(x, e), e.key);
    InTail(z, Path("dds", AdminRest(x, e)), e.key);
    InTail("@", Path(z, Path("dds", AdminRest(x, e))), e.key);
  }

  lemma InTail(a: string, t: string, pattern: string)
    requires Contains(t, pattern)
    ensures Contains(Path(a, t), pattern)
  {
    var i :| 0 <= i <= |t| && OccursAt(t, pattern, i);
    assert OccursAt(Path(a, t), pattern, |a| + 1 + i);
  }

  /** A graph message of the participant with this gid. */
  function GraphOf(z: string, gid: string, nodes: Graph, remapped: Graph): FwdEvent {
    Sample(FwdKey(z, None, RosDisco, gid), RosInfo(nodes, remapped))
  }

  lemma GraphIsRead(cfg: Config, s: State, z: string, gid: string, nodes: Graph, remapped: Graph, oracle: Oracle)
    requires NoSlash(z) && NoSlash(gid)
    ensures FwdStep(cfg, s, GraphOf(z, gid, nodes, remapped), oracle) == s.(info := UpdateWith(s.info, remapped))
  {
    RosKeyParsesIff(z, None, gid);
    hide ParseFwdKey, FwdKey, UpdateWith;
  }

  lemma OneRemapped(h: Half, ke: string, ref: string, gid: string, guid: string)
    requires GuidOf(h, ke, guid) && ref in h.routes[ke].remote && Contains(ref, gid)
    ensures Remapped(h, [gid], [guid])
  {
    hide Contains;
    assert IsRouting(h.routes[ke], gid);
    assert RoutedGid(h, gid);
    assert [gid][..0] == [] && Served(h, []) == [];
    assert Served(h, [gid]) == [gid];
    assert Replaces(h, gid, guid);
  }

  lemma ReachedInv(cfg: Config, s: State)
    requires Reached(cfg, s)
    ensures FwdInv(s)
  {
    var states, events :| FwdRun(cfg, states, events) && states[|events|] == s;
    RunKeepsFwdInv(cfg, states, events, |events|);
  }

  /** A reader and a writer are announced. */
  ghost predicate PairMade(s: State, y: string, z: string, r: DdsEntity, w: DdsEntity, reader: string, writer: string) {
    && r.topic in s.from.routes && s.from.routes[r.topic].remote == {RefOf(y, ToDds, r)} && GuidOf(s.from, r.topic, reader)
    && w.topic in s.to.routes && s.to.routes[w.topic].remote == {RefOf(z, FromDds, w)} && GuidOf(s.to, w.topic, writer)
    && s.info == map[]
  }

  lemma PairAnnounced(cfg: Config, y: string, z: string, r: DdsEntity, w: DdsEntity, first: Oracle, second: Oracle)
    requires Readable(y, ToDds, r) && Readable(z, FromDds, w) && cfg.Allowed(r.topic) && cfg.Allowed(w.topic)
    requires Grants(first(0), EMPTY_HALF) && Grants(second(0), EMPTY_HALF)
    ensures var s1 := FwdStep(cfg, INIT, SampleAbout(y, ToDds, r, Announce(r, None)), first);
            var s2 := FwdStep(cfg, s1, SampleAbout(z, FromDds, w, Announce(w, None)), second);
            Reached(cfg, s2) && PairMade(s2, y, z, r, w, first(0).entity.value.1, second(0).entity.value.1)
  {
    var ev1, ev2 := SampleAbout(y, ToDds, r, Announce(r, None)), SampleAbout(z, FromDds, w, Announce(w, None));
    var s1 := FwdStep(cfg, INIT, ev1, first);
    assert FwdEventOk(INIT, ev1) && FwdEventOk(s1, ev2);
    var s2 := FwdStep(cfg, s1, ev2, second);
    assert Grants(first(0), INIT.from) && INIT.from.routes == map[];
    FirstStep(cfg, INIT, y, ToDds, r, first);
    assert s1.to == INIT.to && Grants(second(0), s1.to) by { hide FwdStep, Readable, SampleAbout; }
    hide *;
    FirstStep(cfg, s1, z, FromDds, w, second);
    BothMade(cfg, s1, s2, y, z, r, w, first(0), second(0));
    InitReached(cfg);
    NextReached(cfg, INIT, ev1, first);
    NextReached(cfg, s1, ev2, second);
  }

  lemma BothMade(cfg: Config, s1: State, s2: State, y: string, z: string, r: DdsEntity, w: DdsEntity,
          first: Outcome, second: Outcome)
    requires Grants(first, EMPTY_HALF) && Grants(second, EMPTY_HALF)
    requires NewlyRouted(cfg, INIT, s1, y, ToDds, r, first) && NewlyRouted(cfg, s1, s2, z, FromDds, w, second)
    ensures PairMade(s2, y, z, r, w, first.entity.value.1, second.entity.value.1)
  {
    hide RefOf, Hits, RemoteSetup, RemoteTemplate;
  }

  /** The graph of a participant with one reader and one writer, in one node. */
  function OneNode(name: string, reader: string, writer: string): Graph {
    map[name := Node("", name, [reader], [writer])]
  }

  lemma GraphTaken(cfg: Config, s: State, y: string, z: string, r: DdsEntity, w: DdsEntity, reader: string, writer: string,
          gid: string, name: string, oracle: Oracle)
    requires NoSlash(z) && NoSlash(gid) && PairMade(s, y, z, r, w, reader, writer)
    ensures var ev := GraphOf(z, gid, OneNode(name, r.key, w.key), OneNode(name, reader, writer));
            FwdEventOk(s, ev) && FwdStep(cfg, s, ev, oracle) == s.(info := OneNode(name, reader, writer))
  {
    var nodes, remapped := OneNode(name, r.key, w.key), OneNode(name, reader, writer);
    NodeRemapped(s, y, z, r, w, reader, writer, name);
    assert nodes[name].namespace + name == name;
    assert FwdEventOk(s, GraphOf(z, gid, nodes, remapped)) by { hide RemappedNode, PairMade, FwdKey; }
    GraphIsRead(cfg, s, z, gid, nodes, remapped, oracle);
    assert s.info == map[] && UpdateWith(map[], remapped) == remapped;
    hide FwdStep, FwdEventOk, PairMade;
  }

  lemma NodeRemapped(s: State, y: string, z: string, r: DdsEntity, w: DdsEntity, reader: string, writer: string, name: string)
    requires PairMade(s, y, z, r, w, reader, writer)
    ensures RemappedNode(s, Node("", name, [r.key], [w.key]), Node("", name, [reader], [writer]))
  {
    KeyInRef(y, ToDds, r);
    KeyInRef(z, FromDds, w);
    hide RefOf, GuidOf, Remapped, Contains;
    OneRemapped(s.from, r.topic, RefOf(y, ToDds, r), r.key, reader);
    OneRemapped(s.to, w.topic, RefOf(z, FromDds, w), w.key, writer);
  }

  /**
  A reader, a writer and a node that has both are announced, and the reader is deleted: its route and DDS reader go, and
  the graph still names that DDS reader.
  */
  lemma DeletionStrands(cfg: Config, y: string, z: string, r: DdsEntity, w: DdsEntity, gid: string, name: string,
          first: Oracle, second: Oracle)
    requires Readable(y, ToDds, r) && Readable(z, FromDds, w) && cfg.Allowed(r.topic) && cfg.Allowed(w.topic)
    requires Grants(first(0), EMPTY_HALF) && Grants(second(0), EMPTY_HALF) && NoSlash(gid)
    ensures var reader, writer := first(0).entity.value.1, second(0).entity.value.1;
            var s1 := FwdStep(cfg, INIT, SampleAbout(y, ToDds, r, Announce(r, None)), first);
            var s2 := FwdStep(cfg, s1, SampleAbout(z, FromDds, w, Announce(w, None)), second);
            var s3 := FwdStep(cfg, s2, GraphOf(z, gid, OneNode(name, r.key, w.key), OneNode(name, reader, writer)), first);
            var s4 := FwdStep(cfg, s3, SampleAbout(y, ToDds, r, Delete), first);
            Reached(cfg, s4) && GraphLive(s3) && Named(s4.info, FromDds, reader) && !IsLive(s4.from, reader)
  {
    var reader, writer := first(0).entity.value.1, second(0).entity.value.1;
    var s1 := FwdStep(cfg, INIT, SampleAbout(y, ToDds, r, Announce(r, None)), first);
    var s2 := FwdStep(cfg, s1, SampleAbout(z, FromDds, w, Announce(w, None)), second);
    var ev3, ev4 := GraphOf(z, gid, OneNode(name, r.key, w.key), OneNode(name, reader, writer)), SampleAbout(y, ToDds, r, Delete);
    var s3 := FwdStep(cfg, s2, ev3, first);
    assert FwdEventOk(s3, ev4);
    PairAnnounced(cfg, y, z, r, w, first, second);
    GraphTaken(cfg, s2, y, z, r, w, reader, writer, gid, name, first);
    hide *;
    NextReached(cfg, s2, ev3, first);
    NextReached(cfg, s3, ev4, first);
    NodeIsLive(s2, y, z, r, w, name, reader, writer);
    DeletedIsNamed(cfg, s3, y, r, name, reader, writer, first);
  }

  lemma NodeIsLive(s: State, y: string, z: string, r: DdsEntity, w: DdsEntity, name: string, reader: string, writer: string)
    requires PairMade(s, y, z, r, w, reader, writer)
    ensures var s' := s.(info := OneNode(name, reader, writer));
            GraphLive(s') && Named(s'.info, FromDds, reader) && ServesOnly(s'.from, RefOf(y, ToDds, r), reader)
  {
    hide RefOf;
    assert name in OneNode(name, reader, writer);
  }

  lemma DeletedIsNamed(cfg: Config, s: State, y: string, r: DdsEntity, name: string, reader: string, writer: string,
          oracle: Oracle)
    requires Reached(cfg, s) && Readable(y, ToDds, r)
    requires Named(s.info, FromDds, reader) && ServesOnly(s.from, RefOf(y, ToDds, r), reader)
    ensures var s' := FwdStep(cfg, s, SampleAbout(y, ToDds, r, Delete), oracle);
            Named(s'.info, FromDds, reader) && !IsLive(s'.from, reader)
  {
    var ev := SampleAbout(y, ToDds, r, Delete);
    SampleIsRead(cfg, s, y, ToDds, r, Delete, oracle);
    assert Strands(s, ev, FromDds, reader);
    hide FwdStep, Strands, SampleAbout, RefOf, Named, IsLive;
    ReachedInv(cfg, s);
    StrandsKills(cfg, s, ev, oracle, FromDds, reader);
    StrandedStaysNamed(cfg, s, ev, oracle, FromDds, reader);
  }

  /**
  A reader of one bridge, a writer of another and a node that has both are announced, and the bridge of the reader leaves:
  the node goes, though its writer stays.
  */
  lemma DepartureDropsNode(cfg: Config, y: string, z: string, r: DdsEntity, w: DdsEntity, gid: string, name: string,
          first: Oracle, second: Oracle)
    requires Readable(y, ToDds, r) && Readable(z, FromDds, w) && cfg.Allowed(r.topic) && cfg.Allowed(w.topic)
    requires Grants(first(0), EMPTY_HALF) && Grants(second(0), EMPTY_HALF) && NoSlash(gid)
    requires y != z && '@' !in z && '@' !in w.participantKey && '@' !in w.key && !Contains(w.topic, DepartureSubkey(y))
    ensures var reader, writer := first(0).entity.value.1, second(0).entity.value.1;
            var s1 := FwdStep(cfg, INIT, SampleAbout(y, ToDds, r, Announce(r, None)), first);
            var s2 := FwdStep(cfg, s1, SampleAbout(z, FromDds, w, Announce(w, None)), second);
            var s3 := FwdStep(cfg, s2, GraphOf(z, gid, OneNode(name, r.key, w.key), OneNode(name, reader, writer)), first);
            Reached(cfg, s3) && name in s3.info && name !in OnLeft(s3, y).info && IsLive(OnLeft(s3, y).to, writer)
  {
    var reader, writer := first(0).entity.value.1, second(0).entity.value.1;
    var s1 := FwdStep(cfg, INIT, SampleAbout(y, ToDds, r, Announce(r, None)), first);
    var s2 := FwdStep(cfg, s1, SampleAbout(z, FromDds, w, Announce(w, None)), second);
    var ev := GraphOf(z, gid, OneNode(name, r.key, w.key), OneNode(name, reader, writer));
    var s3 := FwdStep(cfg, s2, ev, first);
    PairAnnounced(cfg, y, z, r, w, first, second);
    GraphTaken(cfg, s2, y, z, r, w, reader, writer, gid, name, first);
    assert s3.info == OneNode(name, reader, writer);
    ReferenceSwept(y, z, r, w);
    assert NoSlash(z) && NoSlash(y);
    hide *;
    NextReached(cfg, s2, ev, first);
    ReachedInv(cfg, s3);
    NodeDropped(s2, s3, y, z, r, w, name, reader, writer);
  }

  lemma ReferenceSwept(y: string, z: string, r: DdsEntity, w: DdsEntity)
    requires y != z && NoSlash(y) && NoSlash(z)
    requires '@' !in z && '@' !in w.participantKey && '@' !in w.key && !Contains(w.topic, DepartureSubkey(y))
    ensures Contains(RefOf(y, ToDds, r), DepartureSubkey(y)) && !Contains(RefOf(z, FromDds, w), DepartureSubkey(y))
  {
    SubkeyIsPrefix(y, AdminRest(ToDds, r));
    assert OccursAt(RefOf(y, ToDds, r), DepartureSubkey(y), 0);
    DepartureSweepHitsIff(z, w.participantKey, true, w.key, w.topic, y);
  }

  lemma NodeDropped(s2: State, s: State, y: string, z: string, r: DdsEntity, w: DdsEntity, name: string, reader: string,
          writer: string)
    requires PairMade(s2, y, z, r, w, reader, writer) && s == s2.(info := OneNode(name, reader, writer)) && FwdInv(s)
    requires Contains(RefOf(y, ToDds, r), DepartureSubkey(y)) && !Contains(RefOf(z, FromDds, w), DepartureSubkey(y))
    ensures name in s.info && name !in OnLeft(s, y).info && IsLive(OnLeft(s, y).to, writer)
  {
    NodeSurvivesDepartureIff(s, y, name);
    assert Lost(s.from, y, reader) by { hide Contains, RefOf, DepartureSubkey; }
    var x := s.to.routes[w.topic].entity;
    assert x in s.to.live && s.to.live[x] == writer && x != 0 && !AllSwept(s.to.routes[w.topic], y) by {
      hide Contains, RefOf, DepartureSubkey;
    }
    LeftIfSwept(s.to, y, w.topic);
    LeaveKeepsEntity(s, y, x);
  }

  lemma LeaveKeepsEntity(s: State, zid: string, x: int)
    requires x in HalfLeave(s.to, zid).live
    ensures IsLive(OnLeft(s, zid).to, s.to.live[x])
  {
    hide Reindex, GoneGuids, Cleanup, RemoveGids, Conserved;
    assert OnLeft(s, zid).to == HalfLeave(s.to, zid);
  }
}
