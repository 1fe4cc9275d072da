/**
Local discovery mode: every discovered writer gets routes from DDS and every discovered reader routes
to DDS, one per partition. Over every run, routes and entities refer to each other exactly, whatever
creations fail; and without failures the routes are a plain function of what is discovered.
*/
module LocalMode {
  import opened Wrappers
  import opened QosAdaptation
  import opened KeyExprs
  import opened BridgeKeys
  import opened Bridge
  import opened Linking
  import opened BridgeState

  datatype DdsEvent =
    | Discovered(side: Side, e: DdsEntity)
    | Undiscovered(side: Side, key: string)
    | DiscoveredParticipant(p: DdsParticipant)
    | UndiscoveredParticipant(key: string)

  function SetupOf(cfg: Config, e: DdsEntity): Setup {
    Setup(cfg, e.topic, cfg.scope)
  }

  /** A discovered writer is mirrored by readers, a discovered reader by writers. */
  function LocalTemplate(side: Side, e: DdsEntity): Template {
    match side
    case FromDds => Template(e.typeName, AdaptWriterQosForReader(e.qos), true)
    case ToDds => Template(e.typeName, AdaptReaderQosForWriter(e.qos), false)
  }

  /** Publications make routes from DDS, subscriptions routes to DDS. */
  function LocalDiscover(cfg: Config, s: State, side: Side, e: DdsEntity, oracle: Oracle): State {
    var l := LinkLocal(SetupOf(cfg, e), LocalTemplate(side, e), Get(s, side), e.key, e.Parts(), true, oracle);
    Store(WithHalf(s, side, l.half), side, e.(routes := l.statuses))
  }

  function LocalUndiscover(s: State, side: Side, key: string): State {
    if key in Get(s, side).entities then
      var s1 := Forget(s, side, key);
      WithHalf(s1, side, Sweep(Get(s1, side), CutLocal(key), NeedLocal, false))
    else s
  }

  function LocalStep(cfg: Config, s: State, ev: DdsEvent, oracle: Oracle): State {
    match ev
    case Discovered(side, e) => LocalDiscover(cfg, s, side, e, oracle)
    case Undiscovered(side, key) => LocalUndiscover(s, side, key)
    case DiscoveredParticipant(p) => StoreParticipant(s, p)
    case UndiscoveredParticipant(key) => ForgetParticipant(s, key)
  }

  /** DDS keys are slash-free and a live key stands for one entity. */
  ghost predicate EventOk(s: State, ev: DdsEvent) {
    match ev
    case Discovered(side, e) => MayStore(Get(s, side), e)
    case DiscoveredParticipant(p) => NoSlash(p.key)
    case _ => true
  }

  // ---------- the invariant of one direction ----------

  ghost predicate StatusesOk(cfg: Config, h: Half) {
    forall k :: k in h.entities ==>
      StatusesFor(SetupOf(cfg, h.entities[k]), h.entities[k].Parts(), h.entities[k].routes)
  }

  /** An entity is on a route if and only if one of its statuses says so. */
  ghost predicate MembersAgree(h: Half) {
    forall ke, k :: k in Local(h, ke) <==> k in h.entities && RoutedTo(h.entities[k].routes, ke)
  }

  /** No route stands unreferenced or without its DDS entity. */
  ghost predicate RoutesUsed(h: Half) {
    forall ke :: ke in h.routes ==> h.routes[ke].local != {} && h.routes[ke].entity != 0
  }

  ghost predicate LocalInv(cfg: Config, h: Half) {
    Conserved(h) && StatusesOk(cfg, h) && MembersAgree(h) && RoutesUsed(h)
  }

  function Discover(cfg: Config, make: Template, h: Half, e: DdsEntity, oracle: Oracle): Half {
    var l := LinkLocal(SetupOf(cfg, e), make, h, e.key, e.Parts(), true, oracle);
    l.half.(entities := l.half.entities[e.key := e.(routes := l.statuses)])
  }

  lemma DiscoverKeepsInv(cfg: Config, make: Template, h: Half, e: DdsEntity, oracle: Oracle)
    requires LocalInv(cfg, h) && MayStore(h, e)
    ensures LocalInv(cfg, Discover(cfg, make, h, e, oracle))
  {
    hide LinkLocal, StatusesFor, LocalMembers;
    var u := SetupOf(cfg, e);
    var l := LinkLocal(u, make, h, e.key, e.Parts(), true, oracle);
    LinkLocalEffect(u, make, h, e.key, e.Parts(), true, oracle);
    var h' := Discover(cfg, make, h, e, oracle);
    assert Conserved(h') by { EntitiesApart(l.half, h'.entities); }
    assert MembersAgree(h') by { MembersStep(cfg, make, h, e, oracle); }
    assert RoutesUsed(h') by {
      forall ke | ke in h'.routes ensures h'.routes[ke].local != {} && h'.routes[ke].entity != 0 {
        NewRouteUsed(h, e.key, l, ke);
      }
    }
  }

  lemma MembersStep(cfg: Config, make: Template, h: Half, e: DdsEntity, oracle: Oracle)
    requires LocalInv(cfg, h) && MayStore(h, e)
    ensures MembersAgree(Discover(cfg, make, h, e, oracle))
  {
    var l, h' := LinkLocal(SetupOf(cfg, e), make, h, e.key, e.Parts(), true, oracle), Discover(cfg, make, h, e, oracle);
    DiscoveredMembers(cfg, make, h, e, oracle);
    hide *;
    forall ke, k ensures k in Local(h', ke) <==> k in h'.entities && RoutedTo(h'.entities[k].routes, ke) {
      MemberBefore(cfg, h, ke, k);
      if k == e.key && k in Local(h, ke) { StaysRouted(cfg, make, h, e, oracle, ke); }
    }
    AllMembersAgree(h');
  }

  lemma DiscoveredMembers(cfg: Config, make: Template, h: Half, e: DdsEntity, oracle: Oracle)
    ensures var l := LinkLocal(SetupOf(cfg, e), make, h, e.key, e.Parts(), true, oracle);
            var h' := Discover(cfg, make, h, e, oracle);
            && h'.entities == h.entities[e.key := e.(routes := l.statuses)]
            && forall ke :: Local(h', ke) == Local(h, ke) + if RoutedTo(l.statuses, ke) then {e.key} else {}
  {
    LinkLocalEffect(SetupOf(cfg, e), make, h, e.key, e.Parts(), true, oracle);
    hide LinkLocal, StatusesFor, RoutedTo, Conserved, DomainEffect, OwnersEffect, StandingRouted, Remote;
    var l, h' := LinkLocal(SetupOf(cfg, e), make, h, e.key, e.Parts(), true, oracle), Discover(cfg, make, h, e, oracle);
    assert forall ke :: Local(h', ke) == Local(l.half, ke);
  }

  lemma MemberBefore(cfg: Config, h: Half, ke: string, k: string)
    requires LocalInv(cfg, h)
    ensures k in Local(h, ke) <==> k in h.entities && RoutedTo(h.entities[k].routes, ke)
  {
  }

  lemma AllMembersAgree(h: Half)
    requires forall ke, k :: k in Local(h, ke) <==> k in h.entities && RoutedTo(h.entities[k].routes, ke)
    ensures MembersAgree(h)
  {
  }

  /** What was routed for a live entity is routed again: its route stands. */
  lemma StaysRouted(cfg: Config, make: Template, h: Half, e: DdsEntity, oracle: Oracle, ke: string)
    requires LocalInv(cfg, h) && MayStore(h, e) && e.key in Local(h, ke)
    ensures RoutedTo(LinkLocal(SetupOf(cfg, e), make, h, e.key, e.Parts(), true, oracle).statuses, ke)
  {
    var u, statuses := SetupOf(cfg, e), LinkLocal(SetupOf(cfg, e), make, h, e.key, e.Parts(), true, oracle).statuses;
    LinkLocalEffect(u, make, h, e.key, e.Parts(), true, oracle);
    hide LinkLocal, LocalEffect, Conserved, TopicToKeyExpr;
    var stored := h.entities[e.key];
    assert SetupOf(cfg, stored) == u && stored.Parts() == e.Parts();
    var n :| n in stored.routes && stored.routes[n] == Routed(ke);
    var p :| p in e.Parts() && Label(p) == n;
    assert StatusFor(u, p, stored.routes[n]);
    assert Standing(u, h, p, true);
    assert statuses[Label(p)] == Routed(ke);
  }

  lemma NewRouteUsed(h: Half, key: string, l: Linked, ke: string)
    requires LocalEffect(h, key, true, l) && RoutesUsed(h) && ke in l.half.routes
    ensures l.half.routes[ke].local != {} && l.half.routes[ke].entity != 0
  {
    assert Local(l.half, ke) == Local(h, ke) + if RoutedTo(l.statuses, ke) then {key} else {};
    if ke in h.routes {
      assert Local(h, ke) != {};
    } else {
      var n :| n in l.statuses && l.statuses[n] == Routed(ke);
    }
  }

  lemma UndiscoverKeepsInv(cfg: Config, h: Half, key: string)
    requires LocalInv(cfg, h)
    ensures LocalInv(cfg, Sweep(h.(entities := h.entities - {key}), CutLocal(key), NeedLocal, false))
  {
    hide Conserved, StatusesFor, RoutedTo;
    var h1 := h.(entities := h.entities - {key});
    var h' := Sweep(h1, CutLocal(key), NeedLocal, false);
    EntitiesApart(h, h1.entities);
    SweptLocals(h1, key);
    assert forall ke :: Local(h1, ke) == Local(h, ke);
    hide Sweep, Local;
    assert StatusesOk(cfg, h') by { hide MembersAgree, RoutesUsed; }
    assert MembersAgree(h') by { hide StatusesOk, RoutesUsed; }
    assert RoutesUsed(h') by { hide StatusesOk, MembersAgree; }
  }

  /** The entity is off every route, and the routes that are left have others on them. */
  lemma SweptLocals(h: Half, key: string)
    ensures var h' := Sweep(h, CutLocal(key), NeedLocal, false);
            && h'.entities == h.entities && (forall ke :: Local(h', ke) == Local(h, ke) - {key})
            && forall ke :: ke in h'.routes ==>
                 h'.routes[ke].local != {} && ke in h.routes && h'.routes[ke].entity == h.routes[ke].entity
  {
    hide Conserved;
  }

  // ---------- whole runs ----------

  /** A run from the start: any events, in any order, with any outcome of each creation. */
  ghost predicate LocalRun(cfg: Config, states: seq<State>, events: seq<(DdsEvent, Oracle)>) {
    && |states| == |events| + 1
    && states[0] == INIT
    && forall i :: 0 <= i < |events| ==> LocalNext(cfg, states, events, i)
  }

  ghost predicate LocalNext(cfg: Config, states: seq<State>, events: seq<(DdsEvent, Oracle)>, i: nat)
    requires |states| == |events| + 1 && i < |events|
  {
    EventOk(states[i], events[i].0) && states[i + 1] == LocalStep(cfg, states[i], events[i].0, events[i].1)
  }

  lemma LocalStart(cfg: Config, states: seq<State>, events: seq<(DdsEvent, Oracle)>)
    requires LocalRun(cfg, states, events)
    ensures |states| == |events| + 1 && states[0] == INIT
  {
    hide LocalNext;
  }

  lemma LocalTurn(cfg: Config, states: seq<State>, events: seq<(DdsEvent, Oracle)>, i: nat)
    requires LocalRun(cfg, states, events) && i < |events|
    ensures |states| == |events| + 1 && EventOk(states[i], events[i].0)
    ensures states[i + 1] == LocalStep(cfg, states[i], events[i].0, events[i].1)
  {
    assert LocalNext(cfg, states, events, i);
  }

  ghost predicate BridgeInv(cfg: Config, s: State) {
    LocalInv(cfg, s.from) && LocalInv(cfg, s.to) && Agreed(s)
  }

  lemma InitInv(cfg: Config)
    ensures BridgeInv(cfg, INIT)
  {
    assert AdminKey(ConfigId) == "config" && AdminKey(VersionId) == "version";
    assert "config" != "version" by { assert "config"[0] != "version"[0]; }
    forall r | Resolves(INIT, r) ensures Indexed(INIT, r) { }
  }

  lemma StepKeepsInv(cfg: Config, s: State, ev: DdsEvent, oracle: Oracle)
    requires BridgeInv(cfg, s) && EventOk(s, ev)
    ensures BridgeInv(cfg, LocalStep(cfg, s, ev, oracle))
  {
    hide LocalInv, Agreed, LocalDiscover, LocalUndiscover, AdminKey;
    match ev
    case Discovered(side, e) => DiscoveryStep(cfg, s, side, e, oracle);
    case Undiscovered(side, key) => UndiscoveryStep(cfg, s, side, key);
    case DiscoveredParticipant(p) => StoreParticipantAgrees(s, p);
    case UndiscoveredParticipant(key) => ForgetParticipantAgrees(s, key);
  }

  lemma DiscoveryStep(cfg: Config, s: State, side: Side, e: DdsEntity, oracle: Oracle)
    requires BridgeInv(cfg, s) && MayStore(Get(s, side), e)
    ensures BridgeInv(cfg, LocalDiscover(cfg, s, side, e, oracle))
  {
    hide LocalInv, Agreed, Reindex, LinkLocal, StatusesFor, LocalMembers, AdminKey;
    var h, make := Get(s, side), LocalTemplate(side, e);
    var l := LinkLocal(SetupOf(cfg, e), make, h, e.key, e.Parts(), true, oracle);
    DiscoverKeepsInv(cfg, make, h, e, oracle);
    LinkLocalEffect(SetupOf(cfg, e), make, h, e.key, e.Parts(), true, oracle);
    WithHalfAgrees(s, side, l.half);
    StoreAgrees(WithHalf(s, side, l.half), side, e.(routes := l.statuses));
    assert Get(LocalDiscover(cfg, s, side, e, oracle), side) == Discover(cfg, make, h, e, oracle);
  }

  lemma UndiscoveryStep(cfg: Config, s: State, side: Side, key: string)
    requires BridgeInv(cfg, s)
    ensures BridgeInv(cfg, LocalUndiscover(s, side, key))
  {
    hide LocalInv, Agreed, Reindex, AdminKey;
    if key in Get(s, side).entities {
      UndiscoverKeepsInv(cfg, Get(s, side), key);
      ForgetAgrees(s, side, key);
      var s1 := Forget(s, side, key);
      WithHalfAgrees(s1, side, Sweep(Get(s1, side), CutLocal(key), NeedLocal, false));
      hide Sweep;
    }
  }

  lemma {:induction false} RunKeepsInv(cfg: Config, states: seq<State>, events: seq<(DdsEvent, Oracle)>, i: nat)
    requires LocalRun(cfg, states, events) && i < |states|
    ensures BridgeInv(cfg, states[i])
  {
    hide *;
    LocalStart(cfg, states, events);
    if i == 0 {
      InitInv(cfg);
    } else {
      RunKeepsInv(cfg, states, events, i - 1);
      LocalTurn(cfg, states, events, i - 1);
      StepKeepsInv(cfg, states[i - 1], events[i - 1].0, events[i - 1].1);
    }
  }

  /**
  Over every run, whatever creations fail: an entity is on a route exactly when one of its statuses is
  `Routed` with that key, no route is unreferenced, every route owns a live DDS entity of its own and no
  other DDS entity is live, and the admin space leads to everything stored and nowhere else.
  */
  lemma LocalModeAgreement(cfg: Config, states: seq<State>, events: seq<(DdsEvent, Oracle)>, i: nat, side: Side)
    requires LocalRun(cfg, states, events) && i < |states|
    ensures var h := Get(states[i], side);
            && (forall ke, k :: k in Local(h, ke) <==> k in h.entities && RoutedTo(h.entities[k].routes, ke))
            && (forall ke :: ke in h.routes ==> h.routes[ke].local != {} && h.routes[ke].entity in h.live)
            && (forall x :: x in h.live ==> exists ke :: Owns(h, ke, x))
            && (forall a, b :: a in h.routes && b in h.routes && a != b ==> h.routes[a].entity != h.routes[b].entity)
            && AdminAgrees(states[i])
  {
    RunKeepsInv(cfg, states, events, i);
  }

  // ---------- the simple function ----------

  /** The keys an entity asks for and the configuration allows. */
  ghost predicate Wants(cfg: Config, e: DdsEntity, ke: string) {
    cfg.Allowed(ke) && exists p :: p in e.Parts() && SetupOf(cfg, e).Key(p) == ke
  }

  ghost predicate NoFailure(h: Half) {
    forall k, n :: k in h.entities && n in h.entities[k].routes ==> h.entities[k].routes[n] != CreationFailure
  }

  /** Each key has exactly the discovered entities that ask for it. */
  ghost predicate ExactMembers(cfg: Config, h: Half) {
    forall ke, k :: k in Local(h, ke) <==> k in h.entities && Wants(cfg, h.entities[k], ke)
  }

  lemma RoutedIsWanted(cfg: Config, h: Half, k: string, ke: string)
    requires StatusesOk(cfg, h) && k in h.entities && RoutedTo(h.entities[k].routes, ke)
    ensures Wants(cfg, h.entities[k], ke)
  {
    var e := h.entities[k];
    var n :| n in e.routes && e.routes[n] == Routed(ke);
    var p :| p in e.Parts() && Label(p) == n;
    assert StatusFor(SetupOf(cfg, e), p, e.routes[n]);
  }

  lemma WantedIsRouted(cfg: Config, h: Half, k: string, ke: string)
    requires StatusesOk(cfg, h) && NoFailure(h) && k in h.entities && Wants(cfg, h.entities[k], ke)
    ensures RoutedTo(h.entities[k].routes, ke)
  {
    var e := h.entities[k];
    var p :| p in e.Parts() && SetupOf(cfg, e).Key(p) == ke;
    assert StatusFor(SetupOf(cfg, e), p, e.routes[Label(p)]);
    assert e.routes[Label(p)] == Routed(ke);
  }

  /** A failed status leaves its key without the entity: with one partition label per key, no other status makes up for it. */
  lemma FailedIsNotRouted(cfg: Config, h: Half, k: string, n: string)
    requires StatusesOk(cfg, h) && k in h.entities && n in h.entities[k].routes && h.entities[k].routes[n] == CreationFailure
    ensures exists ke :: Wants(cfg, h.entities[k], ke) && !RoutedTo(h.entities[k].routes, ke)
  {
    var e := h.entities[k];
    var u := SetupOf(cfg, e);
    var p :| p in e.Parts() && Label(p) == n;
    var ke := u.Key(p);
    assert StatusFor(u, p, e.routes[n]);
    assert Wants(cfg, e, ke);
    if RoutedTo(e.routes, ke) {
      var m :| m in e.routes && e.routes[m] == Routed(ke);
      var q :| q in e.Parts() && Label(q) == m;
      assert StatusFor(u, q, e.routes[m]);
      KeyDeterminesPart(u, e.Parts(), p, q);
    }
  }

  lemma KeyDeterminesPart(u: Setup, parts: seq<Option<string>>, p: Option<string>, q: Option<string>)
    requires Homogeneous(parts) && p in parts && q in parts && u.Key(p) == u.Key(q)
    ensures p == q
  {
    if p.Some? && q.Some? {
      var a, b := Path(p.value, u.topic), Path(q.value, u.topic);
      if u.scope.Some? {
        assert a == Path(u.scope.value, a)[|u.scope.value| + 1..];
        assert b == Path(u.scope.value, b)[|u.scope.value| + 1..];
      }
      assert |p.value| == |q.value|;
      assert p.value == a[..|p.value|] && q.value == b[..|q.value|];
    }
  }

  /**
  In every reachable state the routes are exactly the simple function of the discovered entities, each
  allowed key with all entities that ask for it, if and only if no stored status is a failure.
  */
  lemma LocalModeExactIff(cfg: Config, states: seq<State>, events: seq<(DdsEvent, Oracle)>, i: nat, side: Side)
    requires LocalRun(cfg, states, events) && i < |states|
    ensures ExactMembers(cfg, Get(states[i], side)) <==> NoFailure(Get(states[i], side))
  {
    RunKeepsInv(cfg, states, events, i);
    var h := Get(states[i], side);
    if NoFailure(h) {
      forall ke, k ensures k in Local(h, ke) <==> k in h.entities && Wants(cfg, h.entities[k], ke) {
        if k in h.entities && RoutedTo(h.entities[k].routes, ke) { RoutedIsWanted(cfg, h, k, ke); }
        if k in h.entities && Wants(cfg, h.entities[k], ke) { WantedIsRouted(cfg, h, k, ke); }
      }
    } else {
      var k, n :| k in h.entities && n in h.entities[k].routes && h.entities[k].routes[n] == CreationFailure;
      FailedIsNotRouted(cfg, h, k, n);
      var ke :| Wants(cfg, h.entities[k], ke) && !RoutedTo(h.entities[k].routes, ke);
      assert k !in Local(h, ke);
    }
  }

  lemma WantsIgnoresStatuses(cfg: Config, a: DdsEntity, b: DdsEntity, ke: string)
    requires b.(routes := a.routes) == a
    ensures Wants(cfg, a, ke) <==> Wants(cfg, b, ke)
  {
    assert SetupOf(cfg, a) == SetupOf(cfg, b) && a.Parts() == b.Parts();
  }

  lemma RoutesAreMembers(a: Half, b: Half)
    requires RoutesUsed(a) && RoutesUsed(b)
    requires forall ke :: Local(a, ke) == Local(b, ke)
    ensures a.routes.Keys == b.routes.Keys
  {
    forall ke ensures ke in a.routes <==> ke in b.routes {
      assert Local(a, ke) == Local(b, ke);
    }
  }
}
