/**
Which discovered entity the DDS entity of a route was made for. A route keeps the entity it was given first;
over whole runs, each stands for one discovery or announcement of the past, and never changes.
*/
module Makers {
  import opened Wrappers
  import opened QosAdaptation
  import opened BridgeKeys
  import opened Bridge
  import opened Linking
  import opened BridgeState
  import opened RosGraph
  import opened LocalMode
  import opened ForwardMode
  import opened ForwardRuns

  // ---------- one step ----------

  /** The route has a live DDS entity. */
  predicate Serves(h: Half, ke: string) {
    ke in h.routes && h.routes[ke].entity in h.live && h.live[h.routes[ke].entity] in h.issued
  }

  function GuidAt(h: Half, ke: string): string
    requires Serves(h, ke)
  {
    h.live[h.routes[ke].entity]
  }

  function SpecAt(h: Half, ke: string): Spec
    requires Serves(h, ke)
  {
    h.issued[GuidAt(h, ke)]
  }

  ghost predicate KeptAt(h: Half, h': Half, ke: string)
    requires Serves(h', ke)
  {
    Serves(h, ke) && GuidAt(h, ke) == GuidAt(h', ke) && SpecAt(h, ke) == SpecAt(h', ke)
  }

  ghost predicate MadeFor(u: Setup, make: Template, parts: seq<Option<string>>, ke: string, spec: Spec) {
    exists p :: p in parts && u.Key(p) == ke && spec == u.SpecFor(make, p)
  }

  /** Every route with a DDS entity has kept it, or got one made for one of the parts. */
  ghost predicate KeptOrMade(u: Setup, make: Template, parts: seq<Option<string>>, h: Half, h': Half) {
    forall ke :: Serves(h', ke) ==>
      KeptAt(h, h', ke) || (GuidAt(h', ke) !in h.issued && MadeFor(u, make, parts, ke, SpecAt(h', ke)))
  }

  ghost predicate AllKept(h: Half, h': Half) {
    forall ke :: Serves(h', ke) ==> KeptAt(h, h', ke)
  }

  lemma TryAddMakes(u: Setup, make: Template, part: Option<string>, h: Half, withEntity: bool, o: Outcome)
    requires Conserved(h)
    ensures KeptOrMade(u, make, [part], h, TryAdd(u.cfg, h, u.Key(part), withEntity, o, u.SpecFor(make, part)).1)
  {
    var h' := TryAdd(u.cfg, h, u.Key(part), withEntity, o, u.SpecFor(make, part)).1;
    assert forall x :: x in h.live ==> h.live[x] in h.issued;
    hide LiveOwned, OwnersDistinct;
    forall ke | Serves(h', ke)
      ensures KeptAt(h, h', ke) || (GuidAt(h', ke) !in h.issued && MadeFor(u, make, [part], ke, SpecAt(h', ke)))
    {
      if !KeptAt(h, h', ke) { assert part in [part]; }
    }
  }

  lemma OwnersKept(h: Half, h': Half)
    requires SameOwners(h, h')
    ensures AllKept(h, h')
  {
  }

  /** Makings add up over the parts. */
  lemma MakesMore(u: Setup, make: Template, parts: seq<Option<string>>, n: nat, a: Half, b: Half, c: Half, d: Half)
    requires n < |parts| && OnlyCreates(a, b)
    requires KeptOrMade(u, make, parts[..n], a, b) && KeptOrMade(u, make, [parts[n]], b, c) && AllKept(c, d)
    ensures KeptOrMade(u, make, parts[..n + 1], a, d)
  {
    hide Serves, OnlyCreates;
    assert parts[..n + 1] == parts[..n] + [parts[n]];
    forall ke | Serves(d, ke)
      ensures KeptAt(a, d, ke) || (GuidAt(d, ke) !in a.issued && MadeFor(u, make, parts[..n + 1], ke, SpecAt(d, ke)))
    {
      assert KeptAt(c, d, ke);
      if KeptAt(b, c, ke) {
        if !KeptAt(a, b, ke) { MadeForMore(u, make, parts[..n], parts[..n + 1], ke, SpecAt(d, ke)); }
      } else {
        MadeForMore(u, make, [parts[n]], parts[..n + 1], ke, SpecAt(d, ke));
        StillIssued(a, b, GuidAt(d, ke));
      }
    }
  }

  lemma StillIssued(a: Half, b: Half, g: string)
    requires OnlyCreates(a, b) && g !in b.issued
    ensures g !in a.issued
  {
  }

  lemma MadeForMore(u: Setup, make: Template, some: seq<Option<string>>, more: seq<Option<string>>, ke: string, spec: Spec)
    requires MadeFor(u, make, some, ke, spec) && forall p :: p in some ==> p in more
    ensures MadeFor(u, make, more, ke, spec)
  {
  }

  lemma {:induction false} LinkLocalMakes(u: Setup, make: Template, h: Half, key: string, parts: seq<Option<string>>,
          withEntity: bool, oracle: Oracle)
    requires Conserved(h)
    ensures Conserved(LinkLocal(u, make, h, key, parts, withEntity, oracle).half)
    ensures KeptOrMade(u, make, parts, h, LinkLocal(u, make, h, key, parts, withEntity, oracle).half)
  {
    if parts != [] {
      var n := |parts| - 1;
      LinkLocalMakes(u, make, h, key, parts[..n], withEntity, oracle);
      LinkLocalIssues(u, make, h, key, parts[..n], withEntity, oracle);
      var before := LinkLocal(u, make, h, key, parts[..n], withEntity, oracle).half;
      TryAddMakes(u, make, parts[n], before, withEntity, oracle(n));
      hide TryAdd, KeptOrMade, OnlyCreates, Conserved;
      var after := TryAdd(u.cfg, before, u.Key(parts[n]), withEntity, oracle(n), u.SpecFor(make, parts[n])).1;
      var end := LinkLocal(u, make, h, key, parts, withEntity, oracle).half;
      OwnersKept(after, end);
      MakesMore(u, make, parts, n, h, before, after, end);
      assert parts[..n + 1] == parts;
    }
  }

  lemma {:induction false} LinkRemoteMakes(u: Setup, make: Template, h: Half, ref: string, parts: seq<Option<string>>,
          oracle: Oracle)
    requires Conserved(h)
    ensures Conserved(LinkRemote(u, make, h, ref, parts, oracle).half)
    ensures KeptOrMade(u, make, parts, h, LinkRemote(u, make, h, ref, parts, oracle).half)
  {
    if parts != [] {
      var n := |parts| - 1;
      LinkRemoteMakes(u, make, h, ref, parts[..n], oracle);
      LinkRemoteIssues(u, make, h, ref, parts[..n], oracle);
      var before := LinkRemote(u, make, h, ref, parts[..n], oracle).half;
      TryAddMakes(u, make, parts[n], before, true, oracle(n));
      hide TryAdd, KeptOrMade, OnlyCreates, Conserved;
      var after := TryAdd(u.cfg, before, u.Key(parts[n]), true, oracle(n), u.SpecFor(make, parts[n])).1;
      var end := LinkRemote(u, make, h, ref, parts, oracle).half;
      OwnersKept(after, end);
      MakesMore(u, make, parts, n, h, before, after, end);
      assert parts[..n + 1] == parts;
    }
  }

  lemma SweepKeeps(h: Half, cut: Cut, need: Need, release: bool)
    requires Conserved(h)
    ensures AllKept(h, Sweep(h, cut, need, release))
  {
    hide OwnersLive, OwnersDistinct;
  }

  // ---------- runs in local mode ----------

  /** Event `j` discovered the entity, and the DDS entity on `ke` was created then, for its part `p`. */
  ghost predicate MadeOnDiscovery(cfg: Config, states: seq<State>, events: seq<(DdsEvent, Oracle)>, j: nat, side: Side,
          e: DdsEntity, p: Option<string>, ke: string, guid: string, spec: Spec)
  {
    && j < |events| && j + 1 < |states| && events[j].0 == Discovered(side, e)
    && p in e.Parts() && SetupOf(cfg, e).Key(p) == ke
    && guid !in Get(states[j], side).issued && guid in Get(states[j + 1], side).issued
    && spec == SetupOf(cfg, e).SpecFor(LocalTemplate(side, e), p)
  }

  lemma LocalStepAt(cfg: Config, states: seq<State>, events: seq<(DdsEvent, Oracle)>, i: nat)
    requires LocalRun(cfg, states, events) && i < |events|
    ensures |states| == |events| + 1
    ensures states[i + 1] == LocalStep(cfg, states[i], events[i].0, events[i].1)
    ensures LocalInv(cfg, states[i].from) && LocalInv(cfg, states[i].to)
  {
    LocalTurn(cfg, states, events, i);
    LocalStart(cfg, states, events);
    RunKeepsInv(cfg, states, events, i);
    hide LocalRun, LocalStep, LocalInv;
  }

  /** Entities do not matter. */
  lemma SameMakers(u: Setup, make: Template, parts: seq<Option<string>>, h: Half, a: Half, b: Half)
    requires a.routes == b.routes && a.live == b.live && a.issued == b.issued
    ensures KeptOrMade(u, make, parts, h, a) ==> KeptOrMade(u, make, parts, h, b)
  {
    assert forall ke :: Serves(b, ke) ==> Serves(a, ke);
  }

  lemma LocalStepKeepsOrMakes(cfg: Config, s: State, ev: DdsEvent, oracle: Oracle, side: Side)
    requires Conserved(Get(s, side))
    ensures var h, h' := Get(s, side), Get(LocalStep(cfg, s, ev, oracle), side);
            if ev.Discovered? && ev.side == side then
              KeptOrMade(SetupOf(cfg, ev.e), LocalTemplate(side, ev.e), ev.e.Parts(), h, h')
            else AllKept(h, h')
  {
    hide LocalDiscover, LocalUndiscover, Conserved, AllKept, KeptOrMade, AdminKey;
    match ev
    case Discovered(at, e) =>
      LocalDiscoverySides(cfg, s, at, e, oracle);
      if at == side { LocalDiscoveryMakes(cfg, s, side, e, oracle); } else { KeptIfSame(Get(s, side), Get(s, side)); }
    case Undiscovered(at, key) => LocalUndiscoveryKeeps(s, at, key, side);
    case _ => KeptIfSame(Get(s, side), Get(LocalStep(cfg, s, ev, oracle), side));
  }

  /** A discovery changes the half of its side. */
  lemma LocalDiscoverySides(cfg: Config, s: State, at: Side, e: DdsEntity, oracle: Oracle)
    ensures var s', l := LocalDiscover(cfg, s, at, e, oracle),
                       LinkLocal(SetupOf(cfg, e), LocalTemplate(at, e), Get(s, at), e.key, e.Parts(), true, oracle);
            && Get(s', at).routes == l.half.routes && Get(s', at).live == l.half.live && Get(s', at).issued == l.half.issued
            && forall side :: side != at ==> Get(s', side) == Get(s, side)
  {
    hide LinkLocal, Reindex, AdminKey;
  }

  lemma LocalDiscoveryMakes(cfg: Config, s: State, side: Side, e: DdsEntity, oracle: Oracle)
    requires Conserved(Get(s, side))
    ensures KeptOrMade(SetupOf(cfg, e), LocalTemplate(side, e), e.Parts(),
                       Get(s, side), Get(LocalDiscover(cfg, s, side, e, oracle), side))
  {
    var u, make, h := SetupOf(cfg, e), LocalTemplate(side, e), Get(s, side);
    LocalDiscoverySides(cfg, s, side, e, oracle);
    LinkLocalMakes(u, make, h, e.key, e.Parts(), true, oracle);
    hide LinkLocal, LocalDiscover, KeptOrMade, Conserved;
    SameMakers(u, make, e.Parts(), h, LinkLocal(u, make, h, e.key, e.Parts(), true, oracle).half,
               Get(LocalDiscover(cfg, s, side, e, oracle), side));
  }

  lemma LocalUndiscoveryKeeps(s: State, at: Side, key: string, side: Side)
    requires Conserved(Get(s, side))
    ensures AllKept(Get(s, side), Get(LocalUndiscover(s, at, key), side))
  {
    hide AdminKey, Reindex, AllKept, Conserved;
    if at == side && key in Get(s, side).entities {
      var h := Get(s, side).(entities := Get(s, side).entities - {key});
      EntitiesApart(Get(s, side), h.entities);
      SweepKeeps(h, CutLocal(key), NeedLocal, false);
      hide Sweep;
      KeptFrom(Get(s, side), h, Sweep(h, CutLocal(key), NeedLocal, false));
    } else {
      hide Sweep;
      KeptIfSame(Get(s, side), Get(s, side));
    }
  }

  /**
  Over every run: the DDS entity of a route mirrors an entity that was discovered before, in the very event that
  issued its GUID; later entities on the key find it there.
  */
  lemma {:induction false} LocalMaker(cfg: Config, states: seq<State>, events: seq<(DdsEvent, Oracle)>, i: nat, side: Side,
          ke: string) returns (j: nat, e: DdsEntity, p: Option<string>)
    requires LocalRun(cfg, states, events) && i < |states| && Serves(Get(states[i], side), ke)
    ensures j < i
    ensures var h := Get(states[i], side);
            MadeOnDiscovery(cfg, states, events, j, side, e, p, ke, GuidAt(h, ke), SpecAt(h, ke))
  {
    hide *;
    LocalStart(cfg, states, events);
    InitServesNothing(side, ke);
    assert i > 0;
    if KeptAt(Get(states[i - 1], side), Get(states[i], side), ke) {
      KeptMeans(Get(states[i - 1], side), Get(states[i], side), ke);
      j, e, p := LocalMaker(cfg, states, events, i - 1, side, ke);
    } else {
      j := i - 1;
      e, p := DiscoveredJustNow(cfg, states, events, j, side, ke);
    }
  }

  lemma DiscoveredJustNow(cfg: Config, states: seq<State>, events: seq<(DdsEvent, Oracle)>, j: nat, side: Side, ke: string)
    returns (e: DdsEntity, p: Option<string>)
    requires LocalRun(cfg, states, events) && j < |events| && j + 1 < |states|
    requires var h, h' := Get(states[j], side), Get(states[j + 1], side); Serves(h', ke) && !KeptAt(h, h', ke)
    ensures var h' := Get(states[j + 1], side);
            MadeOnDiscovery(cfg, states, events, j, side, e, p, ke, GuidAt(h', ke), SpecAt(h', ke))
  {
    var h, h', ev := Get(states[j], side), Get(states[j + 1], side), events[j].0;
    LocalTurnMakes(cfg, states, events, j, side);
    hide LocalRun, LocalStep, Serves;
    e := ev.e;
    var u, make := SetupOf(cfg, e), LocalTemplate(side, e);
    p :| p in e.Parts() && u.Key(p) == ke && SpecAt(h', ke) == u.SpecFor(make, p);
    NewlyIssued(h', ke);
  }

  lemma LocalTurnMakes(cfg: Config, states: seq<State>, events: seq<(DdsEvent, Oracle)>, j: nat, side: Side)
    requires LocalRun(cfg, states, events) && j < |events| && j + 1 < |states|
    ensures var h, h', ev := Get(states[j], side), Get(states[j + 1], side), events[j].0;
            if ev.Discovered? && ev.side == side then
              KeptOrMade(SetupOf(cfg, ev.e), LocalTemplate(side, ev.e), ev.e.Parts(), h, h')
            else AllKept(h, h')
  {
    LocalStepAt(cfg, states, events, j);
    assert Conserved(Get(states[j], side));
    hide *;
    LocalStepKeepsOrMakes(cfg, states[j], events[j].0, events[j].1, side);
  }

  lemma NewlyIssued(h: Half, ke: string)
    requires Serves(h, ke)
    ensures GuidAt(h, ke) in h.issued
  {
  }

  // ---------- what an entity was made from is settled ----------

  ghost predicate Settled(h: Half, h': Half) {
    forall g :: g in h.issued ==> g in h'.issued && h'.issued[g] == h.issued[g]
  }

  lemma SettledTwice(a: Half, b: Half, c: Half, guid: string)
    requires guid in a.issued && guid in b.issued && b.issued[guid] == a.issued[guid] && Settled(b, c)
    ensures guid in c.issued && c.issued[guid] == a.issued[guid]
  {
  }

  lemma SameSettled(h: Half, h': Half)
    requires h'.issued == h.issued
    ensures Settled(h, h')
  {
  }

  lemma LocalSettledAtStep(cfg: Config, states: seq<State>, events: seq<(DdsEvent, Oracle)>, i: nat, side: Side)
    requires LocalRun(cfg, states, events) && i < |events|
    ensures |states| == |events| + 1 && Settled(Get(states[i], side), Get(states[i + 1], side))
  {
    hide *;
    LocalTurn(cfg, states, events, i);
    LocalStepSettled(cfg, states[i], events[i].0, events[i].1, side);
  }

  lemma LocalStepSettled(cfg: Config, s: State, ev: DdsEvent, oracle: Oracle, side: Side)
    ensures Settled(Get(s, side), Get(LocalStep(cfg, s, ev, oracle), side))
  {
    match ev
    case Discovered(at, e) =>
      LocalDiscoverySides(cfg, s, at, e, oracle);
      LinkLocalIssues(SetupOf(cfg, e), LocalTemplate(at, e), Get(s, at), e.key, e.Parts(), true, oracle);
      hide LinkLocal, LocalDiscover;
    case Undiscovered(at, key) => hide Reindex, AdminKey;
    case _ =>
  }

  /** In local mode: what a DDS entity was created from is settled with its GUID, for good. */
  lemma {:induction false} LocalSpecSettled(cfg: Config, states: seq<State>, events: seq<(DdsEvent, Oracle)>, i: nat, k: nat,
          side: Side, guid: string)
    requires LocalRun(cfg, states, events) && i <= k < |states| && guid in Get(states[i], side).issued
    ensures guid in Get(states[k], side).issued && Get(states[k], side).issued[guid] == Get(states[i], side).issued[guid]
  {
    hide LocalNext, LocalRun, Settled;
    if i < k {
      LocalStart(cfg, states, events);
      LocalSpecSettled(cfg, states, events, i, k - 1, side, guid);
      LocalSettledAtStep(cfg, states, events, k - 1, side);
      SettledTwice(Get(states[i], side), Get(states[k - 1], side), Get(states[k], side), guid);
    }
  }

  // ---------- runs in forward mode ----------

  /** The event is an announcement that makes routes on this side. */
  ghost predicate Announces(ev: FwdEvent, side: Side, e: DdsEntity, scope: Option<string>) {
    && ev.Sample? && ParseFwdKey(ev.ke).Some? && !ParseFwdKey(ev.ke).value.kind.RosDisco?
    && SideOf(ParseFwdKey(ev.ke).value.kind) == side && ev.payload == Announce(e, scope)
  }

  /** Event `j` announced the entity, and the DDS entity on `ke` was created then, for its part `p`. */
  ghost predicate MadeOnAnnouncement(cfg: Config, states: seq<State>, events: seq<(FwdEvent, Oracle)>, j: nat, side: Side,
          e: DdsEntity, scope: Option<string>, p: Option<string>, ke: string, guid: string, spec: Spec)
  {
    && j < |events| && j + 1 < |states| && Announces(events[j].0, side, e, scope)
    && p in e.Parts() && RemoteSetup(cfg, e, scope).Key(p) == ke
    && guid !in Get(states[j], side).issued && guid in Get(states[j + 1], side).issued
    && spec == RemoteSetup(cfg, e, scope).SpecFor(RemoteTemplate(side, e), p)
  }

  ghost predicate AnnouncedMakes(cfg: Config, ev: FwdEvent, side: Side, e: DdsEntity, scope: Option<string>, h: Half, h': Half) {
    Announces(ev, side, e, scope) && KeptOrMade(RemoteSetup(cfg, e, scope), RemoteTemplate(side, e), e.Parts(), h, h')
  }

  lemma FwdStepKeepsOrMakes(cfg: Config, s: State, ev: FwdEvent, oracle: Oracle, side: Side)
    requires FwdInv(s)
    ensures var h, h' := Get(s, side), Get(FwdStep(cfg, s, ev, oracle), side);
            AllKept(h, h') || exists e, scope :: AnnouncedMakes(cfg, ev, side, e, scope, h, h')
  {
    hide AllKept, KeptOrMade, FwdInv, FwdDds, OnAnnounce, OnDelete, OnLeft, FullAdminKey;
    match ev
    case Dds(e, serializable) => DdsKeepsMakers(cfg, s, e, serializable, oracle, side);
    case Sample(ke, payload) =>
      if ParseFwdKey(ke).Some? {
        var p := ParseFwdKey(ke).value;
        hide ParseFwdKey;
        SampleMakers(cfg, s, SideOf(p.kind), FullAdminKey(p.uuid, p.rest), payload, oracle, side);
        if !p.kind.RosDisco? && payload.Announce? && SideOf(p.kind) == side {
          assert AnnouncedMakes(cfg, ev, side, payload.e, payload.scope, Get(s, side), Get(FwdStep(cfg, s, ev, oracle), side));
        } else {
          NothingToMake(s, payload, side);
        }
      } else {
        NothingToMake(s, payload, side);
      }
    case MemberLeft(zid) => LeaveKeepsMakers(s, zid, side);
  }

  /** A sample that makes no route changes the graph at most. */
  lemma NothingToMake(s: State, payload: Payload, side: Side)
    ensures AllKept(Get(s, side), Get(s, side))
    ensures payload.RosInfo? ==> AllKept(Get(s, side), Get(s.(info := UpdateWith(s.info, payload.remapped)), side))
  {
    hide UpdateWith;
  }

  lemma DdsKeepsMakers(cfg: Config, s: State, ev: DdsEvent, serializable: bool, oracle: Oracle, side: Side)
    requires FwdInv(s)
    ensures AllKept(Get(s, side), Get(FwdDds(cfg, s, ev, serializable, oracle), side))
  {
    hide FwdDiscoverReader, FwdUndiscoverReader, FwdInv, AllKept, AdminKey;
    match ev
    case Discovered(ToDds, e) => DiscoveryKeepsMakers(cfg, s, e, serializable, oracle, side);
    case Undiscovered(ToDds, key) => UndiscoveryKeepsMakers(s, key, side);
    case _ => KeptIfSame(Get(s, side), Get(FwdDds(cfg, s, ev, serializable, oracle), side));
  }

  lemma DiscoveryKeepsMakers(cfg: Config, s: State, e: DdsEntity, serializable: bool, oracle: Oracle, side: Side)
    requires FwdInv(s)
    ensures AllKept(Get(s, side), Get(FwdDiscoverReader(cfg, s, e, serializable, oracle), side))
  {
    ReaderDiscovered(cfg, s, e, serializable, oracle);
    LinkWithoutEntityKeeps(SetupOf(cfg, e), LocalTemplate(ToDds, e), s.to, e.key, e.Parts(), oracle);
    hide LinkLocal, FwdDiscoverReader, AllKept;
    KeptIfSame(s.from, s.from);
    KeptTo(s.to, LinkLocal(SetupOf(cfg, e), LocalTemplate(ToDds, e), s.to, e.key, e.Parts(), false, oracle).half,
           FwdDiscoverReader(cfg, s, e, serializable, oracle).to);
  }

  lemma UndiscoveryKeepsMakers(s: State, key: string, side: Side)
    requires FwdInv(s)
    ensures AllKept(Get(s, side), Get(FwdUndiscoverReader(s, key), side))
  {
    ReaderUndiscovered(s, key);
    var h := s.to.(entities := s.to.entities - {key});
    EntitiesApart(s.to, h.entities);
    SweepKeeps(h, CutLocal(key), NeedEither, false);
    hide Sweep, FwdUndiscoverReader, AllKept;
    KeptIfSame(s.from, s.from);
    KeptFrom(s.to, h, Sweep(h, CutLocal(key), NeedEither, false));
  }

  lemma KeptIfSame(h: Half, h': Half)
    requires h'.routes == h.routes && h'.live == h.live && h'.issued == h.issued
    ensures AllKept(h, h')
  {
  }

  /** Entities do not matter. */
  lemma KeptTo(h: Half, a: Half, b: Half)
    requires AllKept(h, a) && b.routes == a.routes && b.live == a.live && b.issued == a.issued
    ensures AllKept(h, b)
  {
    assert forall ke :: Serves(b, ke) ==> Serves(a, ke);
  }

  lemma KeptFrom(h: Half, a: Half, b: Half)
    requires AllKept(a, b) && h.routes == a.routes && h.live == a.live && h.issued == a.issued
    ensures AllKept(h, b)
  {
  }

  lemma TryAddKeeps(cfg: Config, h: Half, ke: string, o: Outcome, spec: Spec)
    requires Conserved(h)
    ensures AllKept(h, TryAdd(cfg, h, ke, false, o, spec).1)
  {
    assert 0 !in h.live by { hide OwnersLive, OwnersDistinct; }
    hide Conserved;
  }

  /** Links that ask for no DDS entity make none. */
  lemma {:induction false} LinkWithoutEntityKeeps(u: Setup, make: Template, h: Half, key: string, parts: seq<Option<string>>,
          oracle: Oracle)
    requires Conserved(h)
    ensures Conserved(LinkLocal(u, make, h, key, parts, false, oracle).half)
    ensures AllKept(h, LinkLocal(u, make, h, key, parts, false, oracle).half)
  {
    if parts != [] {
      var n := |parts| - 1;
      LinkWithoutEntityKeeps(u, make, h, key, parts[..n], oracle);
      var before := LinkLocal(u, make, h, key, parts[..n], false, oracle).half;
      var after := TryAdd(u.cfg, before, u.Key(parts[n]), false, oracle(n), u.SpecFor(make, parts[n])).1;
      TryAddKeeps(u.cfg, before, u.Key(parts[n]), oracle(n), u.SpecFor(make, parts[n]));
      hide TryAdd, Conserved;
      OwnersKept(after, LinkLocal(u, make, h, key, parts, false, oracle).half);
    }
  }

  lemma SampleMakers(cfg: Config, s: State, at: Side, ref: string, payload: Payload, oracle: Oracle, side: Side)
    requires FwdInv(s)
    ensures at != side && payload.Announce? ==>
              AllKept(Get(s, side), Get(OnAnnounce(cfg, s, at, ref, payload.e, payload.scope, oracle), side))
    ensures at == side && payload.Announce? ==>
              KeptOrMade(RemoteSetup(cfg, payload.e, payload.scope), RemoteTemplate(side, payload.e), payload.e.Parts(),
                         Get(s, side), Get(OnAnnounce(cfg, s, at, ref, payload.e, payload.scope, oracle), side))
    ensures AllKept(Get(s, side), Get(OnDelete(s, at, ref), side))
  {
    hide Reindex;
    if at == side {
      var h := Get(s, side);
      SweepKeeps(h, CutRemote(ref), if side.ToDds? then NeedEither else NeedRemote, side.ToDds?);
      if payload.Announce? {
        LinkRemoteMakes(RemoteSetup(cfg, payload.e, payload.scope), RemoteTemplate(side, payload.e),
                        h, ref, payload.e.Parts(), oracle);
      }
    }
    hide LinkRemote, Sweep;
  }

  lemma LeaveKeepsMakers(s: State, zid: string, side: Side)
    requires FwdInv(s)
    ensures AllKept(Get(s, side), Get(OnLeft(s, zid), side))
  {
    hide Reindex;
    SweepKeeps(Get(s, side), CutContaining(DepartureSubkey(zid)), NeedRemote, false);
    hide Sweep;
  }

  /**
  Over every run: the DDS entity of a route stands for a remote entity that was announced before, in the very
  event that issued its GUID; later entities on the key find it there.
  */
  lemma {:induction false} ForwardMaker(cfg: Config, states: seq<State>, events: seq<(FwdEvent, Oracle)>, i: nat, side: Side,
          ke: string) returns (j: nat, e: DdsEntity, scope: Option<string>, p: Option<string>)
    requires FwdRun(cfg, states, events) && i < |states| && Serves(Get(states[i], side), ke)
    ensures j < i
    ensures var h := Get(states[i], side);
            MadeOnAnnouncement(cfg, states, events, j, side, e, scope, p, ke, GuidAt(h, ke), SpecAt(h, ke))
  {
    hide *;
    RunStart(cfg, states, events);
    InitServesNothing(side, ke);
    assert i > 0;
    if KeptAt(Get(states[i - 1], side), Get(states[i], side), ke) {
      KeptMeans(Get(states[i - 1], side), Get(states[i], side), ke);
      j, e, scope, p := ForwardMaker(cfg, states, events, i - 1, side, ke);
    } else {
      j := i - 1;
      e, scope, p := AnnouncedJustNow(cfg, states, events, j, side, ke);
    }
  }

  lemma AnnouncedJustNow(cfg: Config, states: seq<State>, events: seq<(FwdEvent, Oracle)>, j: nat, side: Side, ke: string)
    returns (e: DdsEntity, scope: Option<string>, p: Option<string>)
    requires FwdRun(cfg, states, events) && j < |events| && j + 1 < |states|
    requires var h, h' := Get(states[j], side), Get(states[j + 1], side); Serves(h', ke) && !KeptAt(h, h', ke)
    ensures var h' := Get(states[j + 1], side);
            MadeOnAnnouncement(cfg, states, events, j, side, e, scope, p, ke, GuidAt(h', ke), SpecAt(h', ke))
  {
    var h, h' := Get(states[j], side), Get(states[j + 1], side);
    StepMakes(cfg, states, events, j, side);
    hide FwdRun, FwdStep, Serves, FwdInv, Announces, FwdEventOk;
    e, scope :| AnnouncedMakes(cfg, events[j].0, side, e, scope, h, h');
    var u, make := RemoteSetup(cfg, e, scope), RemoteTemplate(side, e);
    p :| p in e.Parts() && u.Key(p) == ke && SpecAt(h', ke) == u.SpecFor(make, p);
    NewlyIssued(h', ke);
  }

  lemma StepMakes(cfg: Config, states: seq<State>, events: seq<(FwdEvent, Oracle)>, j: nat, side: Side)
    requires FwdRun(cfg, states, events) && j < |events| && j + 1 < |states|
    ensures var h, h' := Get(states[j], side), Get(states[j + 1], side);
            AllKept(h, h') || exists e, scope :: AnnouncedMakes(cfg, events[j].0, side, e, scope, h, h')
  {
    hide *;
    RunStep(cfg, states, events, j);
    RunKeepsFwdInv(cfg, states, events, j);
    FwdStepKeepsOrMakes(cfg, states[j], events[j].0, events[j].1, side);
  }

  lemma InitServesNothing(side: Side, ke: string)
    ensures !Serves(Get(INIT, side), ke)
  {
  }

  lemma KeptMeans(h: Half, h': Half, ke: string)
    requires Serves(h', ke) && KeptAt(h, h', ke)
    ensures Serves(h, ke) && GuidAt(h, ke) == GuidAt(h', ke) && SpecAt(h, ke) == SpecAt(h', ke)
  {
  }

  lemma SettledAtStep(cfg: Config, states: seq<State>, events: seq<(FwdEvent, Oracle)>, i: nat, side: Side)
    requires FwdRun(cfg, states, events) && i < |events|
    ensures |states| == |events| + 1 && Settled(Get(states[i], side), Get(states[i + 1], side))
  {
    hide FwdStep, FwdEventOk, Settled;
    RunStep(cfg, states, events, i);
    StepSettled(cfg, states[i], events[i].0, events[i].1, side);
  }

  /** In forward mode the same. */
  lemma {:induction false} SpecSettled(cfg: Config, states: seq<State>, events: seq<(FwdEvent, Oracle)>, i: nat, k: nat,
          side: Side, guid: string)
    requires FwdRun(cfg, states, events) && i <= k < |states| && guid in Get(states[i], side).issued
    ensures guid in Get(states[k], side).issued && Get(states[k], side).issued[guid] == Get(states[i], side).issued[guid]
  {
    hide FwdNext, FwdRun, Settled;
    if i < k {
      RunStart(cfg, states, events);
      SpecSettled(cfg, states, events, i, k - 1, side, guid);
      SettledAtStep(cfg, states, events, k - 1, side);
      SettledTwice(Get(states[i], side), Get(states[k - 1], side), Get(states[k], side), guid);
    }
  }

  lemma StepSettled(cfg: Config, s: State, ev: FwdEvent, oracle: Oracle, side: Side)
    ensures Settled(Get(s, side), Get(FwdStep(cfg, s, ev, oracle), side))
  {
    hide OnAnnounce, OnDelete, FullAdminKey, FwdDds, Settled, UpdateWith;
    SameSettled(Get(s, side), Get(s, side));
    match ev
    case Dds(e, serializable) => DdsSettled(cfg, s, e, serializable, oracle, side);
    case Sample(ke, payload) =>
      if ParseFwdKey(ke).Some? {
        var p := ParseFwdKey(ke).value;
        hide ParseFwdKey;
        SampleSettled(cfg, s, SideOf(p.kind), FullAdminKey(p.uuid, p.rest), payload, oracle, side);
      }
    case MemberLeft(zid) => SameSettled(Get(s, side), Get(OnLeft(s, zid), side));
  }

  lemma DdsSettled(cfg: Config, s: State, ev: DdsEvent, serializable: bool, oracle: Oracle, side: Side)
    ensures Settled(Get(s, side), Get(FwdDds(cfg, s, ev, serializable, oracle), side))
  {
    hide FwdDiscoverReader, FwdUndiscoverReader, AdminKey;
    match ev
    case Discovered(ToDds, e) =>
      ReaderDiscovered(cfg, s, e, serializable, oracle);
      LinkLocalIssues(SetupOf(cfg, e), LocalTemplate(ToDds, e), s.to, e.key, e.Parts(), false, oracle);
      hide LinkLocal;
    case Undiscovered(ToDds, key) =>
      ReaderUndiscovered(s, key);
    case _ =>
  }

  lemma SampleSettled(cfg: Config, s: State, at: Side, ref: string, payload: Payload, oracle: Oracle, side: Side)
    ensures payload.Announce? ==> Settled(Get(s, side), Get(OnAnnounce(cfg, s, at, ref, payload.e, payload.scope, oracle), side))
    ensures Settled(Get(s, side), Get(OnDelete(s, at, ref), side))
  {
    hide Reindex;
    if payload.Announce? {
      LinkRemoteIssues(RemoteSetup(cfg, payload.e, payload.scope), RemoteTemplate(at, payload.e),
                       Get(s, at), ref, payload.e.Parts(), oracle);
    }
    hide LinkRemote;
  }
}
