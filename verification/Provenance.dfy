/**
What the bridges of a network know of each other, traced back to what DDS told them. What a bridge has discovered, what it
announces and what the others make their DDS entities from is what was discovered, key, topic, type and quality of
service included.
*/
module Provenance {
  import opened Wrappers
  import opened QosAdaptation
  import opened QosMatching
  import opened KeyExprs
  import opened BridgeKeys
  import opened Bridge
  import opened Linking
  import opened BridgeState
  import opened LocalMode
  import opened EventLog
  import opened ForwardMode
  import opened ForwardRuns
  import opened Announcements
  import opened Network
  import opened Makers
  import opened Relays

  /** What DDS has told bridge `a` by state `i`. */
  ghost function LogOf(events: seq<NetEvent>, i: nat, a: string): Log
    requires i <= |events|
  {
    if i == 0 then [] else LogOf(events, i - 1, a) + Heard(events[i - 1], a)
  }

  /** What the event tells the bridge. */
  function Heard(ev: NetEvent, a: string): Log {
    if ev.Local? && ev.b == a then [ev.ev] else []
  }

  ghost predicate ToldOf(w: World, log: Log, x: Side, e: DdsEntity) {
    Discovered(x, e) in log && Plain(w, x, e)
  }

  /** The message says what DDS told its sender: that this very entity is there, or that it was and vanished. */
  ghost predicate Truthful(w: World, a: string, log: Log, m: Msg) {
    m.Gone? || exists x, e :: SaysOf(w, a, log, m, x, e)
  }

  ghost predicate SaysOf(w: World, a: string, log: Log, m: Msg, x: Side, e: DdsEntity) {
    && ToldOf(w, log, x, e) && m.Disco? && m.ke == MsgKey(w, a, x, e)
    && match m.payload
       case Announce(f, scope) => f.SameContent(e) && scope == w.scope
       case Delete => Vanished(log, x, e)
       case _ => false
  }

  ghost predicate Vanished(log: Log, x: Side, e: DdsEntity) {
    exists j, l :: 0 <= j < l < |log| && log[j] == Discovered(x, e) && log[l] == Undiscovered(x, e.key)
  }

  lemma StaysTruthful(w: World, a: string, log: Log, more: Log, m: Msg)
    requires Truthful(w, a, log, m)
    ensures Truthful(w, a, log + more, m)
  {
    hide Plain, MsgKey;
    if m.Disco? {
      var x, e :| SaysOf(w, a, log, m, x, e);
      assert forall j :: 0 <= j < |log| ==> (log + more)[j] == log[j];
      assert SaysOf(w, a, log + more, m, x, e);
    }
  }

  /** What stands was told, and is plain if all that was told is. */
  ghost predicate AllPlain(w: World, log: Log) {
    forall ev :: ev in log ==> EventPlain(w, ev)
  }

  lemma StandsWasTold(w: World, log: Log, x: Side, e: DdsEntity)
    requires Stands(log, x, e) && AllPlain(w, log)
    ensures ToldOf(w, log, x, e)
  {
    var j: nat :| StandsFrom(log, j, x, e);
    assert log[j] in log;
    assert EventPlain(w, Discovered(x, e));
  }

  lemma SentTruthfully(w: World, a: string, log: Log, s: State, s': State, ev: DdsEvent)
    requires Remembers(log, s) && EntitiesAfter(s, s', ev) && AllPlain(w, log + [ev])
    ensures forall m :: m in Sent(w, a, s, s', ev) ==> Truthful(w, a, log + [ev], m)
  {
    hide Plain, MsgKey;
    var ms, log' := Sent(w, a, s, s', ev), log + [ev];
    assert log'[|log|] == ev;
    match ev
    case Discovered(x, e) =>
      assert EventPlain(w, ev);
      assert SaysOf(w, a, log', ms[0], x, e);
    case Undiscovered(x, key) =>
      if key in Get(s, x).entities {
        var e :| Stands(log, x, e) && e.key == key;
        forall f | f in log ensures EventPlain(w, f) { assert f in log'; }
        StandsWasTold(w, log, x, e);
        SameMsgKey(w, a, x, Get(s, x).entities[key], e);
        var j: nat :| StandsFrom(log, j, x, e);
        assert log'[j] == Discovered(x, e);
        assert SaysOf(w, a, log', ms[0], x, e);
      }
    case _ =>
  }

  // ---------- every step ----------

  /** All that is in the network on account of `a` goes back to what DDS told it. */
  ghost predicate TracedTo(w: World, n: Net, a: string, log: Log) {
    && AllPlain(w, log)
    && (a !in n.used ==> log == [])
    && (a in n.members ==> Remembers(log, n.members[a]))
    && (forall b, m :: (a, b) in n.channels && m in n.channels[(a, b)] ==> Truthful(w, a, log, m))
    && (a in n.cache ==> forall key :: key in n.cache[a] ==> Truthful(w, a, log, Disco(key, n.cache[a][key])))
  }

  lemma TracedNext(w: World, n: Net, ev: NetEvent, n': Net, a: string, log: Log)
    requires NetInv(w, n) && NetNext(w, n, ev, n') && TracedTo(w, n, a, log)
    ensures TracedTo(w, n', a, log + Heard(ev, a))
  {
    assert log + [] == log;
    hide NetInv, AfterLocal, AfterDeliver, AfterJoin, AfterLeave, TracedTo, Enabled;
    match ev
    case Local(b, e, oracle) =>
      if a == b {
        BridgeUsed(w, n, a);
        OwnLocalTraced(w, n, a, e, oracle, log);
      } else {
        OtherLocalTraced(w, n, b, e, oracle, a, log);
      }
    case Deliver(p, q, oracle) => DeliverTraced(w, n, p, q, oracle, a, log);
    case Join(b, replay) => JoinTraced(w, n, b, replay, a, log);
    case Leave(b) => LeaveTraced(w, n, b, a, log);
  }

  lemma OwnLocalTraced(w: World, n: Net, a: string, ev: DdsEvent, oracle: Oracle, log: Log)
    requires Enabled(w, n, Local(a, ev, oracle)) && TracedTo(w, n, a, log) && a in n.used
    ensures TracedTo(w, AfterLocal(w, n, a, ev, oracle), a, log + [ev])
  {
    var s, n' := n.members[a], AfterLocal(w, n, a, ev, oracle);
    var s' := FwdDds(w.cfgs(a), s, ev, true, oracle);
    DdsEntities(w.cfgs(a), s, ev, oracle);
    AddedByLocal(w, n, a, ev, oracle);
    hide FwdDds, Sent, Truthful, EventPlain, EventOk, EntitiesAfter, Remembers, AfterLocal;
    RemembersNext(log, s, s', ev);
    assert AllPlain(w, log + [ev]);
    SentTruthfully(w, a, log, s, s', ev);
    hide AllPlain, Enabled;
    forall b, m | (a, b) in n'.channels && m in n'.channels[(a, b)] ensures Truthful(w, a, log + [ev], m) {
      if m in n.channels[(a, b)] { StaysTruthful(w, a, log, [ev], m); }
    }
    forall key | key in n'.cache[a] ensures Truthful(w, a, log + [ev], Disco(key, n'.cache[a][key])) {
      if Disco(key, n'.cache[a][key]) !in Sent(w, a, s, s', ev) { StaysTruthful(w, a, log, [ev], Disco(key, n.cache[a][key])); }
    }
  }

  /** Nothing but what is sent comes into channels and cache. */
  lemma AddedByLocal(w: World, n: Net, a: string, ev: DdsEvent, oracle: Oracle)
    requires a in n.members && a in n.cache
    ensures var n', s := AfterLocal(w, n, a, ev, oracle), n.members[a];
            var s' := FwdDds(w.cfgs(a), s, ev, true, oracle);
            && n'.used == n.used && n'.members == n.members[a := s'] && n'.channels.Keys == n.channels.Keys && a in n'.cache
            && (forall b, m :: (a, b) in n.channels && m in n'.channels[(a, b)] ==>
                  m in n.channels[(a, b)] || m in Sent(w, a, s, s', ev))
            && (forall key :: key in n'.cache[a] ==>
                  || Disco(key, n'.cache[a][key]) in Sent(w, a, s, s', ev)
                  || (key in n.cache[a] && n'.cache[a][key] == n.cache[a][key]))
  {
    hide FwdDds, MsgKey;
  }

  lemma OtherLocalTraced(w: World, n: Net, b: string, ev: DdsEvent, oracle: Oracle, a: string, log: Log)
    requires Enabled(w, n, Local(b, ev, oracle)) && TracedTo(w, n, a, log) && a != b
    ensures TracedTo(w, AfterLocal(w, n, b, ev, oracle), a, log)
  {
    hide FwdDds, Sent, Truthful, EventPlain, EventOk, Remembers, AllPlain;
  }

  lemma DeliverTraced(w: World, n: Net, p: string, q: string, oracle: Oracle, a: string, log: Log)
    requires Enabled(w, n, Deliver(p, q, oracle)) && TracedTo(w, n, a, log)
    ensures TracedTo(w, AfterDeliver(w, n, p, q, oracle), a, log)
  {
    HandleEntities(w.cfgs(q), n.members[q], p, n.channels[(p, q)][0], oracle);
    HandleParticipants(w.cfgs(q), n.members[q], p, n.channels[(p, q)][0], oracle);
    hide Handle, Truthful, Remembers, AllPlain, Succeeds, SameEntities;
    var n' := AfterDeliver(w, n, p, q, oracle);
    if a == q { RemembersSame(log, n.members[q], n'.members[q]); }
  }

  lemma JoinTraced(w: World, n: Net, b: string, replay: map<string, seq<Msg>>, a: string, log: Log)
    requires NetInv(w, n) && Enabled(w, n, Join(b, replay)) && TracedTo(w, n, a, log)
    ensures TracedTo(w, AfterJoin(n, b, replay), a, log)
  {
    RemembersNothing();
    BridgeUsed(w, n, a);
    hide Truthful, Remembers, AllPlain, NetInv, GoodZid, NewChannels;
    var n' := AfterJoin(n, b, replay);
    forall q, m | (a, q) in n'.channels && m in n'.channels[(a, q)] ensures Truthful(w, a, log, m) {
      if (a, q) in NewChannels(n.members.Keys, b) && q == b { ReplayedTruthfully(w, n, a, replay[a], log, m); }
    }
  }

  lemma ReplayedTruthfully(w: World, n: Net, a: string, ms: seq<Msg>, log: Log, m: Msg)
    requires a in n.cache && Enumerates(n.cache[a], ms) && TracedTo(w, n, a, log) && m in ms
    ensures Truthful(w, a, log, m)
  {
    hide Truthful, Remembers, AllPlain;
    var i :| 0 <= i < |ms| && ms[i] == m;
    assert m == Disco(m.ke, n.cache[a][m.ke]);
  }

  lemma LeaveTraced(w: World, n: Net, b: string, a: string, log: Log)
    requires Enabled(w, n, Leave(b)) && TracedTo(w, n, a, log)
    ensures TracedTo(w, AfterLeave(n, b), a, log)
  {
    assert Truthful(w, a, log, Gone);
    hide Truthful, Remembers, AllPlain;
  }

  // ---------- over runs ----------

  lemma {:induction false} RunTraced(w: World, nets: seq<Net>, events: seq<NetEvent>, i: nat, a: string)
    requires NetRun(w, nets, events) && i < |nets|
    ensures |nets| == |events| + 1 && TracedTo(w, nets[i], a, LogOf(events, i, a))
  {
    hide *;
    NetStart(w, nets, events);
    LogNext(events, i, a);
    if i == 0 {
      NothingTraced(w, a);
    } else {
      RunTraced(w, nets, events, i - 1, a);
      NetRunKeeps(w, nets, events, i - 1);
      NetStep(w, nets, events, i - 1);
      TracedNext(w, nets[i - 1], events[i - 1], nets[i], a, LogOf(events, i - 1, a));
    }
  }

  lemma LogNext(events: seq<NetEvent>, i: nat, a: string)
    requires i <= |events|
    ensures LogOf(events, i, a) == if i == 0 then [] else LogOf(events, i - 1, a) + Heard(events[i - 1], a)
  {
  }

  ghost predicate TracedAt(w: World, n: Net, events: seq<NetEvent>, i: nat, a: string)
    requires i <= |events|
  {
    TracedTo(w, n, a, LogOf(events, i, a))
  }

  lemma RunTracedAt(w: World, nets: seq<Net>, events: seq<NetEvent>, i: nat, a: string)
    requires NetRun(w, nets, events) && i < |nets|
    ensures |nets| == |events| + 1 && TracedAt(w, nets[i], events, i, a)
  {
    RunTraced(w, nets, events, i, a);
    hide NetRun, TracedTo;
  }

  lemma NothingTraced(w: World, a: string)
    ensures TracedTo(w, NO_BRIDGES, a, [])
  {
  }

  /** At every moment of every run a bridge has stored exactly what DDS told it and has not taken back, as it told it last. */
  lemma DiscoveredIsStored(w: World, nets: seq<Net>, events: seq<NetEvent>, i: nat, a: string)
    requires NetRun(w, nets, events) && i < |nets| && a in nets[i].members
    ensures |nets| == |events| + 1 && Remembers(LogOf(events, i, a), nets[i].members[a])
  {
    RunTraced(w, nets, events, i, a);
    hide NetRun, Remembers, Truthful, AllPlain;
  }

  /**
  At every moment of every run, each message in flight from `a` and each in its cache says of some entity that DDS told `a` of
  it, with the content DDS gave it, or that DDS told `a` of it and then of its end.
  */
  lemma MessagesAreTruthful(w: World, nets: seq<Net>, events: seq<NetEvent>, i: nat, a: string)
    requires NetRun(w, nets, events) && i < |nets|
    ensures |nets| == |events| + 1
    ensures forall b, m :: (a, b) in nets[i].channels && m in nets[i].channels[(a, b)] ==> Truthful(w, a, LogOf(events, i, a), m)
    ensures a in nets[i].cache ==> forall key :: key in nets[i].cache[a] ==>
              Truthful(w, a, LogOf(events, i, a), Disco(key, nets[i].cache[a][key]))
  {
    RunTraced(w, nets, events, i, a);
    hide NetRun, Remembers, Truthful, AllPlain, LogOf;
  }

  /** What the cache announces of an entity is its content as DDS told it last. */
  lemma CacheIsCurrent(w: World, nets: seq<Net>, events: seq<NetEvent>, i: nat, a: string, x: Side, e: DdsEntity)
    requires NetRun(w, nets, events) && i < |nets| && a in nets[i].members && i <= |events| && Stands(LogOf(events, i, a), x, e)
    ensures a in nets[i].cache
    ensures var key := MsgKey(w, a, x, e);
            key in nets[i].cache[a] && nets[i].cache[a][key].Announce? && nets[i].cache[a][key].e.SameContent(e)
  {
    DiscoveredIsStored(w, nets, events, i, a);
    NetRunKeeps(w, nets, events, i);
    BridgeUsed(w, nets[i], a);
    hide NetRun;
    MemberIsOk(w, nets[i], a);
    hide NetInv, LogOf;
    CachedContent(w, a, nets[i].members[a], nets[i].cache[a], x, Get(nets[i].members[a], x).entities[e.key]);
    hide Plain, GoodState, GoodRefs, CacheOk;
    SameMsgKey(w, a, x, Get(nets[i].members[a], x).entities[e.key], e);
  }

  lemma MemberIsOk(w: World, n: Net, a: string)
    requires NetInv(w, n) && a in n.members
    ensures a in n.cache && NoSlash(a) && GoodState(w, n.members[a]) && CacheOk(w, a, n.members[a], n.cache[a])
  {
    hide GoodState, GoodRefs, CacheOk;
    assert MemberOk(w, n.used, a, n.members[a], n.cache[a]);
  }

  lemma CachedContent(w: World, a: string, s: State, cache: map<string, Payload>, x: Side, e: DdsEntity)
    requires CacheOk(w, a, s, cache) && GoodState(w, s) && NoSlash(a)
    requires e.key in Get(s, x).entities && Get(s, x).entities[e.key] == e
    ensures var key := MsgKey(w, a, x, e); key in cache && cache[key].Announce? && cache[key].e.SameContent(e)
  {
    assert EntitiesCached(w, a, s, cache) && EntriesExplained(w, a, s, cache);
    hide MsgKey, CacheOk, CacheEntry, Plain;
    var key := MsgKey(w, a, x, e);
    assert key in cache && cache[key].Announce?;
    var y, f :| CacheEntry(w, a, s, Disco(key, cache[key]), y, f);
    hide EntitiesCached, EntriesExplained;
    EntrySays(w, a, s, cache[key], y, f, x, e);
  }

  lemma EntrySays(w: World, a: string, s: State, payload: Payload, y: Side, f: DdsEntity, x: Side, e: DdsEntity)
    requires CacheEntry(w, a, s, Disco(MsgKey(w, a, x, e), payload), y, f) && payload.Announce? && NoSlash(a)
    requires GoodState(w, s) && e.key in Get(s, x).entities && Get(s, x).entities[e.key] == e
    ensures payload.e.SameContent(e)
  {
    assert Plain(w, x, e);
    hide MsgKey, Plain, GoodState;
    MsgKeyInjective(w, a, y, f, x, e);
  }

  // ---------- the DDS entities of routes ----------

  lemma HandleIsStep(cfg: Config, s: State, a: string, m: Msg, oracle: Oracle)
    ensures Handle(cfg, s, a, m, oracle) == FwdStep(cfg, s, StepOf(a, m), oracle)
  {
  }

  /** What the message is to the bridge that handles it. */
  function StepOf(a: string, m: Msg): FwdEvent {
    if m.Gone? then MemberLeft(a) else Sample(m.ke, m.payload)
  }

  lemma HandleKeepsFwdInv(w: World, cfg: Config, s: State, a: string, m: Msg, oracle: Oracle)
    requires FwdInv(s) && Built(w, a, m)
    ensures FwdInv(Handle(cfg, s, a, m, oracle))
  {
    HandleIsStep(cfg, s, a, m, oracle);
    hide FwdInv, Handle, FwdStep, Plain, MsgKey;
    assert FwdEventOk(s, StepOf(a, m));
    StepKeepsFwdInv(cfg, s, StepOf(a, m), oracle);
  }

  ghost predicate AllFwdInv(n: Net) {
    forall b :: b in n.members ==> FwdInv(n.members[b])
  }

  lemma StepKeepsAllFwdInv(w: World, n: Net, ev: NetEvent, n': Net)
    requires NetInv(w, n) && NetNext(w, n, ev, n') && AllFwdInv(n)
    ensures AllFwdInv(n')
  {
    hide FwdInv, FwdDds, Handle, Shape, MembersOk, AllConverge, Built, Succeeds;
    match ev
    case Local(b, e, oracle) =>
      StepKeepsFwdInv(w.cfgs(b), n.members[b], Dds(e, true), oracle);
    case Deliver(a, b, oracle) =>
      HandleKeepsFwdInv(w, w.cfgs(b), n.members[b], a, n.channels[(a, b)][0], oracle);
    case Join(b, _) => InitFwdInv(w.cfgs(b));
    case Leave(_) =>
  }

  lemma {:induction false} MembersFwdInv(w: World, nets: seq<Net>, events: seq<NetEvent>, i: nat)
    requires NetRun(w, nets, events) && i < |nets|
    ensures AllFwdInv(nets[i])
  {
    hide *;
    NetStart(w, nets, events);
    if i == 0 {
      NoMembersInv();
    } else {
      MembersFwdInv(w, nets, events, i - 1);
      NetRunKeeps(w, nets, events, i - 1);
      NetStep(w, nets, events, i - 1);
      StepKeepsAllFwdInv(w, nets[i - 1], events[i - 1], nets[i]);
    }
  }

  lemma NoMembersInv()
    ensures AllFwdInv(NO_BRIDGES)
  {
  }

  /** What the DDS entity that stands for one part of a remote entity is created from. */
  function ProxySpec(cfg: Config, side: Side, e: DdsEntity, p: Option<string>, ke: string): Spec {
    Spec(e.topic, e.typeName,
         if side.FromDds? then AsReader(Narrow(AdaptReaderQosForProxyReader(e.qos), p), cfg.periodic(ke))
         else AsWriter(Narrow(AdaptWriterQosForProxyWriter(e.qos), p)))
  }

  ghost predicate StandsFor(w: World, cfg: Config, log: Log, side: Side, ke: string, spec: Spec, e: DdsEntity,
          p: Option<string>)
  {
    && ToldOf(w, log, Opposite(side), e) && p in e.Parts() && ke == TopicToKeyExpr(e.topic, w.scope, p)
    && spec == ProxySpec(cfg, side, e, p, ke)
  }

  /** Some other bridge was told of an entity that the DDS entity of this route stands for. */
  ghost predicate MadeOfTold(w: World, events: seq<NetEvent>, i: nat, b: string, side: Side, ke: string, spec: Spec)
    requires i <= |events|
  {
    exists a, e, p :: a != b && StandsFor(w, w.cfgs(b), LogOf(events, i, a), side, ke, spec, e, p)
  }

  lemma StillMade(w: World, events: seq<NetEvent>, i: nat, b: string, side: Side, ke: string, spec: Spec)
    requires 0 < i <= |events| && MadeOfTold(w, events, i - 1, b, side, ke, spec)
    ensures MadeOfTold(w, events, i, b, side, ke, spec)
  {
    hide Plain, ProxySpec, TopicToKeyExpr;
    var a, e, p :| a != b && StandsFor(w, w.cfgs(b), LogOf(events, i - 1, a), side, ke, spec, e, p);
    assert StandsFor(w, w.cfgs(b), LogOf(events, i, a), side, ke, spec, e, p);
  }

  /** An announcement makes DDS entities for the very entity its sender was told of. */
  lemma AnnouncedSpec(w: World, cfg: Config, a: string, log: Log, m: Msg, side: Side, f: DdsEntity, scope: Option<string>,
          ke: string, spec: Spec) returns (e: DdsEntity, p: Option<string>)
    requires NoSlash(a) && Truthful(w, a, log, m) && m.Disco? && Announces(Sample(m.ke, m.payload), side, f, scope)
    requires MadeFor(RemoteSetup(cfg, f, scope), RemoteTemplate(side, f), f.Parts(), ke, spec)
    ensures StandsFor(w, cfg, log, side, ke, spec, e, p)
  {
    hide Plain, MsgKey, ProxySpec;
    var x;
    x, e :| SaysOf(w, a, log, m, x, e);
    p := SameSpec(cfg, side, f, e, scope, ke, spec);
    ReadAsMeant(w, a, log, m, x, e, side, f, scope);
  }

  lemma ReadAsMeant(w: World, a: string, log: Log, m: Msg, x: Side, e: DdsEntity, side: Side, f: DdsEntity, scope: Option<string>)
    requires NoSlash(a) && SaysOf(w, a, log, m, x, e) && Announces(Sample(m.ke, m.payload), side, f, scope)
    ensures x == Opposite(side)
  {
    EntityKeyParsesIff(a, w.scope, x.FromDds?, e.participantKey, e.key, e.topic);
    hide ParseFwdKey, FwdKey, EntityAdminKey, NonFinalSegment;
  }

  lemma SameSpec(cfg: Config, side: Side, f: DdsEntity, e: DdsEntity, scope: Option<string>, ke: string, spec: Spec)
    returns (p: Option<string>)
    requires f.SameContent(e) && MadeFor(RemoteSetup(cfg, f, scope), RemoteTemplate(side, f), f.Parts(), ke, spec)
    ensures p in e.Parts() && ke == TopicToKeyExpr(e.topic, scope, p) && spec == ProxySpec(cfg, side, e, p, ke)
  {
    hide AsReader, AsWriter, Narrow, TopicToKeyExpr, AdaptReaderQosForProxyReader, AdaptWriterQosForProxyWriter;
    p :| p in f.Parts() && RemoteSetup(cfg, f, scope).Key(p) == ke
         && spec == RemoteSetup(cfg, f, scope).SpecFor(RemoteTemplate(side, f), p);
    assert f.Parts() == e.Parts();
  }

  // ---------- over runs ----------

  ghost predicate SpecsTraced(w: World, events: seq<NetEvent>, i: nat, b: string, h: Half, side: Side)
    requires i <= |events|
  {
    forall ke :: Serves(h, ke) ==> MadeOfTold(w, events, i, b, side, ke, SpecAt(h, ke))
  }

  /** A step that makes no DDS entity on this side. */
  lemma KeptSpecsTraced(w: World, events: seq<NetEvent>, i: nat, b: string, h: Half, h': Half, side: Side)
    requires 0 < i <= |events| && SpecsTraced(w, events, i - 1, b, h, side) && AllKept(h, h')
    ensures SpecsTraced(w, events, i, b, h', side)
  {
    hide MadeOfTold, Serves;
    forall ke | Serves(h', ke) ensures MadeOfTold(w, events, i, b, side, ke, SpecAt(h', ke)) {
      KeptMeans(h, h', ke);
      StillMade(w, events, i, b, side, ke, SpecAt(h, ke));
    }
  }

  lemma HandledSpecsTraced(w: World, events: seq<NetEvent>, i: nat, a: string, b: string, s: State, m: Msg,
          oracle: Oracle, side: Side)
    requires 0 < i <= |events| && SpecsTraced(w, events, i - 1, b, Get(s, side), side) && FwdInv(s)
    requires NoSlash(a) && a != b && Truthful(w, a, LogOf(events, i, a), m)
    ensures SpecsTraced(w, events, i, b, Get(Handle(w.cfgs(b), s, a, m, oracle), side), side)
  {
    var cfg := w.cfgs(b);
    var h, h' := Get(s, side), Get(Handle(cfg, s, a, m, oracle), side);
    HandleIsStep(cfg, s, a, m, oracle);
    FwdStepKeepsOrMakes(cfg, s, StepOf(a, m), oracle, side);
    hide FwdStep, Handle, FwdInv, Truthful, MadeOfTold, Serves, AllKept, StandsFor;
    if AllKept(h, h') {
      KeptSpecsTraced(w, events, i, b, h, h', side);
    } else {
      var f, scope :| AnnouncedMakes(cfg, StepOf(a, m), side, f, scope, h, h');
      forall ke | Serves(h', ke) ensures MadeOfTold(w, events, i, b, side, ke, SpecAt(h', ke)) {
        if KeptAt(h, h', ke) {
          KeptMeans(h, h', ke);
          StillMade(w, events, i, b, side, ke, SpecAt(h, ke));
        } else {
          var e, p := AnnouncedSpec(w, cfg, a, LogOf(events, i, a), m, side, f, scope, ke, SpecAt(h', ke));
          ItIsMade(w, events, i, a, b, side, ke, SpecAt(h', ke), e, p);
        }
      }
    }
  }

  lemma ItIsMade(w: World, events: seq<NetEvent>, i: nat, a: string, b: string, side: Side, ke: string, spec: Spec, e: DdsEntity,
          p: Option<string>)
    requires i <= |events| && a != b && StandsFor(w, w.cfgs(b), LogOf(events, i, a), side, ke, spec, e, p)
    ensures MadeOfTold(w, events, i, b, side, ke, spec)
  {
  }

  /** What a step of the network does to one bridge that is there before and after. */
  lemma MemberStep(w: World, n: Net, ev: NetEvent, n': Net, b: string)
    requires NetInv(w, n) && NetNext(w, n, ev, n') && b in n'.members
    ensures match ev
            case Local(a, e, oracle) => b in n.members &&
              n'.members[b] == if a == b then FwdDds(w.cfgs(b), n.members[b], e, true, oracle) else n.members[b]
            case Deliver(a, c, oracle) =>
              b in n.members && (a, c) in n.channels && n.channels[(a, c)] != [] && a != c && NoSlash(a) &&
              n'.members[b] == if c == b then Handle(w.cfgs(b), n.members[b], a, n.channels[(a, c)][0], oracle) else n.members[b]
            case Join(c, _) =>
              if c == b then b !in n.members && n'.members[b] == INIT else b in n.members && n'.members[b] == n.members[b]
            case Leave(_) => b in n.members && n'.members[b] == n.members[b]
  {
    hide FwdDds, Handle, ChannelsBuilt, MembersOk, AllConverge, Succeeds;
  }

  lemma NetStepTraced(w: World, events: seq<NetEvent>, i: nat, n: Net, n': Net, b: string, side: Side)
    requires 0 < i <= |events| && NetInv(w, n) && NetNext(w, n, events[i - 1], n') && AllFwdInv(n) && b in n'.members
    requires events[i - 1].Deliver? ==> TracedAt(w, n, events, i - 1, events[i - 1].a)
    requires b in n.members ==> SpecsTraced(w, events, i - 1, b, Get(n.members[b], side), side)
    ensures SpecsTraced(w, events, i, b, Get(n'.members[b], side), side)
  {
    MemberStep(w, n, events[i - 1], n', b);
    hide NetInv, NetNext, FwdInv, FwdDds, Handle, SpecsTraced, AllKept, TracedAt;
    if b !in n.members {
      NoSpecs(w, events, i, b, side);
    } else {
      var h, h' := Get(n.members[b], side), Get(n'.members[b], side);
      NothingMade(h);
      match events[i - 1]
      case Local(a, e, oracle) =>
        DdsKeepsMakers(w.cfgs(b), n.members[b], e, true, oracle, side);
        KeptSpecsTraced(w, events, i, b, h, h', side);
      case Deliver(a, c, oracle) =>
        if c == b {
          TracedInFlight(w, n, a, b, events, i);
          HandledSpecsTraced(w, events, i, a, b, n.members[b], n.channels[(a, b)][0], oracle, side);
        } else {
          KeptSpecsTraced(w, events, i, b, h, h', side);
        }
      case _ => KeptSpecsTraced(w, events, i, b, h, h', side);
    }
  }

  lemma NothingMade(h: Half)
    ensures AllKept(h, h)
  {
  }

  lemma NoSpecs(w: World, events: seq<NetEvent>, i: nat, b: string, side: Side)
    requires i <= |events|
    ensures SpecsTraced(w, events, i, b, Get(INIT, side), side)
  {
    hide MadeOfTold;
  }

  lemma TracedInFlight(w: World, n: Net, a: string, b: string, events: seq<NetEvent>, i: nat)
    requires 0 < i <= |events| && TracedAt(w, n, events, i - 1, a)
    requires (a, b) in n.channels && n.channels[(a, b)] != []
    ensures Truthful(w, a, LogOf(events, i, a), n.channels[(a, b)][0])
  {
    hide Truthful, Remembers, AllPlain;
    StaysTruthful(w, a, LogOf(events, i - 1, a), Heard(events[i - 1], a), n.channels[(a, b)][0]);
  }

  /**
  At every moment of every run: the DDS entity of a route was created from topic, type and quality of service of an entity that
  DDS told another bridge of, for one of its partitions, on the key of that partition.
  */
  lemma {:induction false} RoutesStandForTold(w: World, nets: seq<Net>, events: seq<NetEvent>, i: nat, b: string, side: Side)
    requires NetRun(w, nets, events) && i < |nets| && b in nets[i].members
    ensures |nets| == |events| + 1 && SpecsTraced(w, events, i, b, Get(nets[i].members[b], side), side)
  {
    hide *;
    NetStart(w, nets, events);
    if i == 0 {
      NobodyThere(b);
    } else {
      if b in nets[i - 1].members { RoutesStandForTold(w, nets, events, i - 1, b, side); }
      NetRunKeeps(w, nets, events, i - 1);
      MembersFwdInv(w, nets, events, i - 1);
      NetStep(w, nets, events, i - 1);
      if events[i - 1].Deliver? { RunTracedAt(w, nets, events, i - 1, events[i - 1].a); }
      NetStepTraced(w, events, i, nets[i - 1], nets[i], b, side);
    }
  }

  lemma NobodyThere(b: string)
    ensures b !in NO_BRIDGES.members
  {
  }

  /** So the reader of a route lets in just those writers that suit a reader another bridge was told of. */
  lemma ReaderAdmitsForTold(w: World, nets: seq<Net>, events: seq<NetEvent>, i: nat, b: string, ke: string, owner: Owner)
    returns (a: string, e: DdsEntity, p: Option<string>)
    requires NetRun(w, nets, events) && i < |nets| && b in nets[i].members && Serves(nets[i].members[b].from, ke)
    ensures i <= |events| && a != b && ToldOf(w, LogOf(events, i, a), ToDds, e) && p in e.Parts()
    ensures ke == TopicToKeyExpr(e.topic, w.scope, p)
    ensures forall glob, v ::
              Matches(glob, v, EndpointAt(owner, nets[i].members[b].from, ke)) <==> ReachesProxyOf(glob, owner, v, e, p)
  {
    RoutesStandForTold(w, nets, events, i, b, FromDds);
    var h := nets[i].members[b].from;
    hide NetRun, LogOf, Matches, ReachesProxyOf, ToldOf;
    a, e, p :| a != b && StandsFor(w, w.cfgs(b), LogOf(events, i, a), FromDds, ke, SpecAt(h, ke), e, p);
    forall glob, v ensures Matches(glob, v, EndpointAt(owner, h, ke)) <==> ReachesProxyOf(glob, owner, v, e, p) {
      ReaderOfSpec(w.cfgs(b), h, ke, e, p, owner, glob, v);
    }
  }

  lemma ReaderOfSpec(cfg: Config, h: Half, ke: string, e: DdsEntity, p: Option<string>, owner: Owner, glob: Glob, v: Endpoint)
    requires Serves(h, ke) && SpecAt(h, ke) == ProxySpec(cfg, FromDds, e, p, ke)
    ensures Matches(glob, v, EndpointAt(owner, h, ke)) <==> ReachesProxyOf(glob, owner, v, e, p)
  {
    assert EndpointAt(owner, h, ke) == ProxyReader(owner, AsEndpoint(e), p, cfg.periodic(ke));
    ProxyReaderAdmitsIff(glob, owner, AsEndpoint(e), v, p, cfg.periodic(ke));
    hide TermsOf, PartitionsMatch, Matches, ProxyReader, EndpointAt;
  }

  /** And the writer of a route reaches just those readers that a writer another bridge was told of, made reliable, satisfies. */
  lemma WriterServesForTold(w: World, nets: seq<Net>, events: seq<NetEvent>, i: nat, b: string, ke: string, owner: Owner)
    returns (a: string, e: DdsEntity, p: Option<string>)
    requires NetRun(w, nets, events) && i < |nets| && b in nets[i].members && Serves(nets[i].members[b].to, ke)
    ensures i <= |events| && a != b && ToldOf(w, LogOf(events, i, a), FromDds, e) && p in e.Parts()
    ensures ke == TopicToKeyExpr(e.topic, w.scope, p)
    ensures forall glob, v ::
              Matches(glob, EndpointAt(owner, nets[i].members[b].to, ke), v) <==> ServedByProxyOf(glob, owner, v, e, p)
  {
    RoutesStandForTold(w, nets, events, i, b, ToDds);
    var h := nets[i].members[b].to;
    hide NetRun, LogOf, Matches, ServedByProxyOf, ToldOf;
    a, e, p :| a != b && StandsFor(w, w.cfgs(b), LogOf(events, i, a), ToDds, ke, SpecAt(h, ke), e, p);
    forall glob, v ensures Matches(glob, EndpointAt(owner, h, ke), v) <==> ServedByProxyOf(glob, owner, v, e, p) {
      WriterOfSpec(w.cfgs(b), h, ke, e, p, owner, glob, v);
    }
  }

  lemma WriterOfSpec(cfg: Config, h: Half, ke: string, e: DdsEntity, p: Option<string>, owner: Owner, glob: Glob, v: Endpoint)
    requires Serves(h, ke) && SpecAt(h, ke) == ProxySpec(cfg, ToDds, e, p, ke)
    ensures Matches(glob, EndpointAt(owner, h, ke), v) <==> ServedByProxyOf(glob, owner, v, e, p)
  {
    assert EndpointAt(owner, h, ke) == ProxyWriter(owner, AsEndpoint(e), p);
    ProxyWriterAdmitsIff(glob, owner, AsEndpoint(e), v, p);
    hide TermsOf, PartitionsMatch, Matches, ProxyWriter, EndpointAt;
  }

  // ---------- convergence ----------

  /** By what DDS told `a`: an entity stands that goes by this reference and asks for `ke`, which the receiver allows. */
  ghost predicate AskedFor(w: World, a: string, log: Log, cfg: Config, side: Side, ref: string, ke: string) {
    exists e :: Stands(log, Opposite(side), e) && ref == RefOf(a, Opposite(side), e) && Announced(cfg, e, w.scope, ke)
  }

  lemma WantedIffAskedFor(w: World, a: string, log: Log, s: State, cfg: Config, side: Side, ref: string, ke: string)
    requires Remembers(log, s)
    ensures Wanted(w, a, s, cfg, side, ref, ke) <==> AskedFor(w, a, log, cfg, side, ref, ke)
  {
    var x := Opposite(side);
    assert RemembersEntities(log, Get(s, x), x);
    hide Remembers, Stands, RefOf, Announced;
    if k :| k in Get(s, x).entities && WantedBy(w, a, Get(s, x).entities[k], cfg, side, ref, ke) {
      var e :| Stands(log, x, e) && e.key == k;
      SameReference(w, a, x, Get(s, x).entities[k], e, cfg, ke);
    }
    if e :| Stands(log, x, e) && ref == RefOf(a, x, e) && Announced(cfg, e, w.scope, ke) {
      SameReference(w, a, x, Get(s, x).entities[e.key], e, cfg, ke);
      assert WantedBy(w, a, Get(s, x).entities[e.key], cfg, side, ref, ke);
    }
  }

  lemma SameReference(w: World, a: string, x: Side, e: DdsEntity, f: DdsEntity, cfg: Config, ke: string)
    requires e.SameContent(f)
    ensures RefOf(a, x, e) == RefOf(a, x, f) && (Announced(cfg, e, w.scope, ke) <==> Announced(cfg, f, w.scope, ke))
  {
    SameKeysAnnounced(cfg, e, f, w.scope, ke);
    hide Announced, FullAdminKey;
  }

  /**
  At every moment, for any two bridges: applying what is in flight from `a` to the references `b` has of it gives exactly the
  entities DDS told `a` of and has not taken back, on the keys they ask for and `b` allows; and nothing if `a` has left.
  */
  lemma ConvergenceAsTold(w: World, nets: seq<Net>, events: seq<NetEvent>, i: nat, a: string, b: string, side: Side, ref: string,
          ke: string)
    requires NetRun(w, nets, events) && i < |nets| && (a, b) in nets[i].channels && b in nets[i].members && OwnedBy(a, ref)
    ensures i <= |events|
    ensures Pending(w.cfgs(b), a, nets[i].channels[(a, b)], side, ref, ke, View(nets[i].members[b], side, ref, ke)) <==>
            a in nets[i].members && AskedFor(w, a, LogOf(events, i, a), w.cfgs(b), side, ref, ke)
  {
    NetStart(w, nets, events);
    NetRunKeeps(w, nets, events, i);
    ChannelConverges(w, nets[i], a, b, side, ref, ke);
    hide NetRun, NetInv, Pending, AskedFor, Wanted, View, LogOf, Remembers;
    if a in nets[i].members {
      DiscoveredIsStored(w, nets, events, i, a);
      WantedIffAskedFor(w, a, LogOf(events, i, a), nets[i].members[a], w.cfgs(b), side, ref, ke);
    }
  }

  lemma ChannelConverges(w: World, n: Net, a: string, b: string, side: Side, ref: string, ke: string)
    requires NetInv(w, n) && (a, b) in n.channels && b in n.members && OwnedBy(a, ref)
    ensures Pending(w.cfgs(b), a, n.channels[(a, b)], side, ref, ke, View(n.members[b], side, ref, ke)) <==>
            a in n.members && Wanted(w, a, n.members[a], w.cfgs(b), side, ref, ke)
  {
    hide Wanted, Pending, MembersOk, ChannelsBuilt, GoodZid;
    assert Converges(w, a, Member(n, a), w.cfgs(b), n.channels[(a, b)], n.members[b]);
  }

  /** With nothing in flight, a route serves a reference if and only if it is that of an entity DDS told its bridge of so. */
  lemma QuietAsTold(w: World, nets: seq<Net>, events: seq<NetEvent>, i: nat, a: string, b: string, side: Side, ref: string,
          ke: string)
    requires NetRun(w, nets, events) && i < |nets| && (a, b) in nets[i].channels && b in nets[i].members && OwnedBy(a, ref)
    requires nets[i].channels[(a, b)] == []
    ensures i <= |events|
    ensures ref in Remote(Get(nets[i].members[b], side), ke) <==>
            a in nets[i].members && AskedFor(w, a, LogOf(events, i, a), w.cfgs(b), side, ref, ke)
  {
    ConvergenceAsTold(w, nets, events, i, a, b, side, ref, ke);
    hide NetRun, AskedFor, LogOf;
  }
}
