/**
When routes can be created. Whatever was said of runs with failures, a run in which zenoh and DDS refuse nothing has none, and
then local mode routes exactly what is discovered.
*/
module Creation {
  import opened Wrappers
  import opened QosAdaptation
  import opened BridgeKeys
  import opened Bridge
  import opened Linking
  import opened BridgeState
  import opened LocalMode
  import opened LocalHistory
  import opened ForwardMode
  import opened Announcements
  import opened Network

  /** DDS answers with an entity of its own: a positive handle not in use and a GUID never given before. */
  predicate GivesEntity(h: Half, o: Outcome) {
    o.entity.Some? && var (handle, guid) := o.entity.value; handle > 0 && handle !in h.live && guid !in h.issued
  }

  /** Trying a key ends with a route exactly if it is allowed, and the route is there or zenoh and DDS grant what it lacks. */
  lemma TryAddRoutesIff(cfg: Config, h: Half, ke: string, withEntity: bool, o: Outcome, spec: Spec)
    ensures TryAdd(cfg, h, ke, withEntity, o, spec).0 == Routed(ke) <==>
            && cfg.Allowed(ke)
            && (ke in h.routes || o.sessionOk)
            && (withEntity ==> (ke in h.routes && h.routes[ke].entity != 0) || GivesEntity(h, o))
  {
  }

  // ---------- one entity with all its parts ----------

  /** Nothing is refused, and no two answers are the same. */
  ghost predicate Generous(h: Half, oracle: Oracle, n: nat) {
    && (forall i: nat :: i < n ==> oracle(i).sessionOk && GivesEntity(h, oracle(i)))
    && (forall i: nat, j: nat :: i < j < n ==>
          oracle(i).entity.value.0 != oracle(j).entity.value.0 && oracle(i).entity.value.1 != oracle(j).entity.value.1)
  }

  /** After `n` answers nothing but them has come into use. */
  ghost predicate UsesAtMost(h: Half, h': Half, oracle: Oracle, n: nat) {
    && (forall x :: x in h'.live && x !in h.live ==>
          exists i: nat :: i < n && oracle(i).entity.Some? && oracle(i).entity.value.0 == x)
    && (forall g :: g in h'.issued && g !in h.issued ==>
          exists i: nat :: i < n && oracle(i).entity.Some? && oracle(i).entity.value.1 == g)
  }

  lemma TryAddUses(cfg: Config, h0: Half, h: Half, ke: string, withEntity: bool, oracle: Oracle, n: nat, spec: Spec)
    requires UsesAtMost(h0, h, oracle, n)
    ensures UsesAtMost(h0, TryAdd(cfg, h, ke, withEntity, oracle(n), spec).1, oracle, n + 1)
  {
    hide Conserved;
  }

  lemma StillGives(h0: Half, h: Half, oracle: Oracle, n: nat)
    requires UsesAtMost(h0, h, oracle, n) && Generous(h0, oracle, n + 1)
    ensures oracle(n).sessionOk && GivesEntity(h, oracle(n))
  {
    assert GivesEntity(h0, oracle(n));
  }

  lemma {:induction false} GenerousLocal(u: Setup, make: Template, h: Half, key: string, parts: seq<Option<string>>,
          withEntity: bool, oracle: Oracle)
    requires Generous(h, oracle, |parts|)
    ensures var r := LinkLocal(u, make, h, key, parts, withEntity, oracle);
            AllCreated(r) && UsesAtMost(h, r.half, oracle, |parts|)
  {
    if parts != [] {
      var n := |parts| - 1;
      GenerousLocal(u, make, h, key, parts[..n], withEntity, oracle);
      var before := LinkLocal(u, make, h, key, parts[..n], withEntity, oracle);
      GenerousStep(u, make, h, before, parts[n], withEntity, oracle, n);
      var (status, h1) := TryAdd(u.cfg, before.half, u.Key(parts[n]), withEntity, oracle(n), u.SpecFor(make, parts[n]));
      hide TryAdd, AddLocal, Conserved, Generous, TopicToKeyExpr;
      var r := LinkLocalStep(u, make, before, key, parts[n], withEntity, oracle(n));
      assert r.half.live == h1.live && r.half.issued == h1.issued && r.statuses == before.statuses[Label(parts[n]) := status];
    }
  }

  lemma {:induction false} GenerousRemote(u: Setup, make: Template, h: Half, ref: string, parts: seq<Option<string>>,
          oracle: Oracle)
    requires Generous(h, oracle, |parts|)
    ensures var r := LinkRemote(u, make, h, ref, parts, oracle);
            AllCreated(r) && UsesAtMost(h, r.half, oracle, |parts|)
  {
    if parts != [] {
      var n := |parts| - 1;
      GenerousRemote(u, make, h, ref, parts[..n], oracle);
      var before := LinkRemote(u, make, h, ref, parts[..n], oracle);
      GenerousStep(u, make, h, before, parts[n], true, oracle, n);
      var (status, h1) := TryAdd(u.cfg, before.half, u.Key(parts[n]), true, oracle(n), u.SpecFor(make, parts[n]));
      hide TryAdd, AddRemote, Conserved, Generous, TopicToKeyExpr;
      var r := LinkRemoteStep(u, make, before, ref, parts[n], oracle(n));
      assert r.half.live == h1.live && r.half.issued == h1.issued && r.statuses == before.statuses[Label(parts[n]) := status];
    }
  }

  lemma GenerousStep(u: Setup, make: Template, h: Half, before: Linked, part: Option<string>, withEntity: bool,
          oracle: Oracle, n: nat)
    requires Generous(h, oracle, n + 1) && UsesAtMost(h, before.half, oracle, n)
    ensures var (status, h1) := TryAdd(u.cfg, before.half, u.Key(part), withEntity, oracle(n), u.SpecFor(make, part));
            status != CreationFailure && UsesAtMost(h, h1, oracle, n + 1)
  {
    StillGives(h, before.half, oracle, n);
    TryAddRoutesIff(u.cfg, before.half, u.Key(part), withEntity, oracle(n), u.SpecFor(make, part));
    TryAddUses(u.cfg, h, before.half, u.Key(part), withEntity, oracle, n, u.SpecFor(make, part));
    hide TryAdd, UsesAtMost, GivesEntity, TopicToKeyExpr;
  }

  /** A delivery of the network is possible wherever nothing is refused. */
  lemma GenerousSucceeds(cfg: Config, s: State, m: Msg, oracle: Oracle)
    requires m.Disco? && m.payload.Announce? ==>
               Generous(s.from, oracle, |m.payload.e.Parts()|) && Generous(s.to, oracle, |m.payload.e.Parts()|)
    ensures Succeeds(cfg, s, m, oracle)
  {
    hide ParseFwdKey, FullAdminKey, Generous, AllCreated;
    if m.Disco? && m.payload.Announce? && ParseFwdKey(m.ke).Some? {
      var p := ParseFwdKey(m.ke).value;
      var side, e := SideOf(p.kind), m.payload.e;
      GenerousRemote(RemoteSetup(cfg, e, m.payload.scope), RemoteTemplate(side, e), Get(s, side), FullAdminKey(p.uuid, p.rest),
                     e.Parts(), oracle);
    }
    hide LinkRemote;
  }

  // ---------- runs in local mode ----------

  /** Nothing is refused to any discovery of the run. */
  ghost predicate GenerousRun(states: seq<State>, events: seq<(DdsEvent, Oracle)>, i: nat) {
    forall j: nat :: j < i && j < |states| && j < |events| ==> GenerousAt(states[j], events[j])
  }

  ghost predicate GenerousAt(s: State, ev: (DdsEvent, Oracle)) {
    ev.0.Discovered? ==> Generous(Get(s, ev.0.side), ev.1, |ev.0.e.Parts()|)
  }

  lemma GenerousStepNoFailure(cfg: Config, s: State, ev: DdsEvent, oracle: Oracle, side: Side)
    requires NoFailure(Get(s, side)) && GenerousAt(s, (ev, oracle))
    ensures NoFailure(Get(LocalStep(cfg, s, ev, oracle), side))
  {
    if ev.Discovered? {
      var e, h := ev.e, Get(s, ev.side);
      GenerousLocal(SetupOf(cfg, e), LocalTemplate(ev.side, e), h, e.key, e.Parts(), true, oracle);
      LinkLocalEntities(SetupOf(cfg, e), LocalTemplate(ev.side, e), h, e.key, e.Parts(), true, oracle);
    }
    hide LinkLocal, Reindex, AdminKey, SetupOf, LocalTemplate, Conserved, Generous;
  }

  lemma {:induction false} GenerousNoFailure(cfg: Config, states: seq<State>, events: seq<(DdsEvent, Oracle)>, i: nat, side: Side)
    requires LocalRun(cfg, states, events) && i < |states| && GenerousRun(states, events, i)
    ensures NoFailure(Get(states[i], side))
  {
    LocalStart(cfg, states, events);
    hide LocalRun, LocalStep, GenerousAt, EventOk;
    if i > 0 {
      assert GenerousAt(states[i - 1], events[i - 1]);
      GenerousNoFailure(cfg, states, events, i - 1, side);
      LocalTurn(cfg, states, events, i - 1);
      GenerousStepNoFailure(cfg, states[i - 1], events[i - 1].0, events[i - 1].1, side);
    }
  }

  /**
  Over every run in which nothing is refused: each key has on its route exactly the entities discovered and not taken back since
  that ask for it, where the configuration allows it.
  */
  lemma GenerousRoutesAsTold(cfg: Config, states: seq<State>, events: seq<(DdsEvent, Oracle)>, i: nat, side: Side)
    requires LocalRun(cfg, states, events) && i < |states| && GenerousRun(states, events, i)
    ensures i <= |events| && RoutesAsTold(cfg, LocalLog(events, i), Get(states[i], side), side)
  {
    GenerousNoFailure(cfg, states, events, i, side);
    RoutesAsToldIff(cfg, states, events, i, side);
    hide LocalRun, NoFailure, RoutesAsTold;
  }
}
