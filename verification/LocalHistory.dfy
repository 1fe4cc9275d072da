/**
Local discovery mode against the events of a run: what is stored, routed and created is a matter of what DDS has
discovered and not taken back, of nothing else, and nothing is left behind.
*/
module LocalHistory {
  import opened Wrappers
  import opened BridgeKeys
  import opened Bridge
  import opened Linking
  import opened BridgeState
  import opened LocalMode
  import opened EventLog

  /** What DDS has told the bridge by state `i`. */
  ghost function LocalLog(events: seq<(DdsEvent, Oracle)>, i: nat): Log
    requires i <= |events|
  {
    if i == 0 then [] else LocalLog(events, i - 1) + [events[i - 1].0]
  }

  lemma LocalEntities(cfg: Config, s: State, ev: DdsEvent, oracle: Oracle)
    ensures EntitiesAfter(s, LocalStep(cfg, s, ev, oracle), ev)
  {
    hide Reindex, Sweep, AdminKey, LocalDiscover;
    match ev
    case Discovered(side, e) => LinkedEntities(cfg, s, side, e, oracle);
    case _ =>
  }

  lemma LinkedEntities(cfg: Config, s: State, side: Side, e: DdsEntity, oracle: Oracle)
    ensures EntitiesAfter(s, LocalDiscover(cfg, s, side, e, oracle), Discovered(side, e))
  {
    LinkLocalEntities(SetupOf(cfg, e), LocalTemplate(side, e), Get(s, side), e.key, e.Parts(), true, oracle);
    hide Reindex, LinkLocal, AdminKey, SetupOf, LocalTemplate;
  }

  /** Over every run the bridge has stored exactly what DDS discovered and has not taken back, as it was discovered last. */
  lemma {:induction false} LocalRemembers(cfg: Config, states: seq<State>, events: seq<(DdsEvent, Oracle)>, i: nat)
    requires LocalRun(cfg, states, events) && i < |states|
    ensures |states| == |events| + 1 && Remembers(LocalLog(events, i), states[i])
  {
    hide *;
    LocalStart(cfg, states, events);
    LogNext(events, i);
    if i == 0 {
      RemembersNothing();
    } else {
      LocalRemembers(cfg, states, events, i - 1);
      LocalTurn(cfg, states, events, i - 1);
      LocalEntities(cfg, states[i - 1], events[i - 1].0, events[i - 1].1);
      RemembersNext(LocalLog(events, i - 1), states[i - 1], states[i], events[i - 1].0);
    }
  }

  lemma LogNext(events: seq<(DdsEvent, Oracle)>, i: nat)
    requires i <= |events|
    ensures LocalLog(events, i) == if i == 0 then [] else LocalLog(events, i - 1) + [events[i - 1].0]
  {
  }

  /** An entity with this key stands that asks for the route on `ke`, and the configuration allows it. */
  ghost predicate StandsFor(cfg: Config, log: Log, side: Side, k: string, ke: string) {
    exists e :: Stands(log, side, e) && e.key == k && AsksFor(cfg, e, ke)
  }

  /** By its topic and one of its partitions, in the scope of the bridge. */
  ghost predicate AsksFor(cfg: Config, e: DdsEntity, ke: string) {
    cfg.Allowed(ke) && exists p :: p in e.Parts() && ke == TopicToKeyExpr(e.topic, cfg.scope, p)
  }

  lemma AsksForIff(cfg: Config, e: DdsEntity, ke: string)
    ensures AsksFor(cfg, e, ke) <==> Wants(cfg, e, ke)
  {
    hide TopicToKeyExpr, Config.Allowed;
    if p :| p in e.Parts() && ke == TopicToKeyExpr(e.topic, cfg.scope, p) { assert SetupOf(cfg, e).Key(p) == ke; }
  }

  ghost predicate RoutesAsTold(cfg: Config, log: Log, h: Half, side: Side) {
    forall ke, k :: k in Local(h, ke) <==> StandsFor(cfg, log, side, k, ke)
  }

  lemma StoredWants(cfg: Config, log: Log, h: Half, side: Side, k: string, ke: string)
    requires RemembersEntities(log, h, side)
    ensures k in h.entities && Wants(cfg, h.entities[k], ke) <==> StandsFor(cfg, log, side, k, ke)
  {
    hide Stands, Wants, AsksFor;
    if k in h.entities {
      var e :| Stands(log, side, e) && e.key == k;
      WantsIgnoresStatuses(cfg, e, h.entities[k], ke);
      AsksForIff(cfg, e, ke);
    }
    if e :| Stands(log, side, e) && e.key == k && AsksFor(cfg, e, ke) {
      WantsIgnoresStatuses(cfg, e, h.entities[k], ke);
      AsksForIff(cfg, e, ke);
    }
  }

  /**
  In every reachable state: each key has on its route exactly the entities discovered and not taken back since that ask for it,
  where the configuration allows it, if and only if no stored status is a failure; and no route is empty.
  */
  lemma RoutesAsToldIff(cfg: Config, states: seq<State>, events: seq<(DdsEvent, Oracle)>, i: nat, side: Side)
    requires LocalRun(cfg, states, events) && i < |states|
    ensures |states| == |events| + 1
    ensures RoutesAsTold(cfg, LocalLog(events, i), Get(states[i], side), side) <==> NoFailure(Get(states[i], side))
    ensures forall ke :: ke in Get(states[i], side).routes ==> Get(states[i], side).routes[ke].local != {}
  {
    LocalRemembers(cfg, states, events, i);
    LocalModeExactIff(cfg, states, events, i, side);
    LocalModeAgreement(cfg, states, events, i, side);
    var h, log := Get(states[i], side), LocalLog(events, i);
    hide LocalRun, NoFailure, Wants, StandsFor, RemembersEntities, RemembersParticipants, LocalLog;
    forall k, ke ensures k in h.entities && Wants(cfg, h.entities[k], ke) <==> StandsFor(cfg, log, side, k, ke) {
      StoredWants(cfg, log, h, side, k, ke);
    }
  }

  /** An entity has one status per partition, or a single one under `*`; allowed keys are tried, others marked so. */
  lemma StatusPerPartition(cfg: Config, states: seq<State>, events: seq<(DdsEvent, Oracle)>, i: nat, side: Side, k: string,
          n: string)
    requires LocalRun(cfg, states, events) && i < |states| && k in Get(states[i], side).entities
    ensures var e := Get(states[i], side).entities[k];
            && (n in e.routes <==> Some(n) in e.Parts() || (n == "*" && None in e.Parts()))
            && (n in e.routes && Some(n) in e.Parts() ==>
                  (e.routes[n] == NotAllowed <==> !cfg.Allowed(TopicToKeyExpr(e.topic, cfg.scope, Some(n)))))
  {
    RunKeepsInv(cfg, states, events, i);
    var e := Get(states[i], side).entities[k];
    var u := SetupOf(cfg, e);
    assert StatusesFor(u, e.Parts(), e.routes) by { hide StatusesFor; }
    hide LocalRun, BridgeInv, Config.Allowed, TopicToKeyExpr;
    if Some(n) in e.Parts() { assert Label(Some(n)) == n && StatusFor(u, Some(n), e.routes[n]); }
  }

  /** Each entity that stands in one log stands in the other, statuses aside. */
  ghost predicate SameStanding(a: Log, b: Log, side: Side) {
    && (forall e :: Stands(a, side, e) ==> exists f :: Stands(b, side, f) && e.SameContent(f))
    && (forall f :: Stands(b, side, f) ==> exists e :: Stands(a, side, e) && f.SameContent(e))
  }

  lemma StandsThereToo(cfg: Config, a: Log, b: Log, side: Side, k: string, ke: string)
    requires forall e :: Stands(a, side, e) ==> exists f :: Stands(b, side, f) && e.SameContent(f)
    requires StandsFor(cfg, a, side, k, ke)
    ensures StandsFor(cfg, b, side, k, ke)
  {
    hide Stands, Wants, AsksFor;
    var e :| Stands(a, side, e) && e.key == k && AsksFor(cfg, e, ke);
    var f :| Stands(b, side, f) && e.SameContent(f);
    WantsIgnoresStatuses(cfg, e, f, ke);
    AsksForIff(cfg, e, ke);
    AsksForIff(cfg, f, ke);
    assert f.key == k;
  }

  /** Two runs in which the same stands, discovered in whatever order, have the same routes with the same members. */
  lemma OrderDoesNotMatter(cfg: Config, s: seq<State>, evs: seq<(DdsEvent, Oracle)>, i: nat,
                           t: seq<State>, evt: seq<(DdsEvent, Oracle)>, j: nat, side: Side)
    requires LocalRun(cfg, s, evs) && i < |s| && LocalRun(cfg, t, evt) && j < |t|
    requires i <= |evs| && j <= |evt| && SameStanding(LocalLog(evs, i), LocalLog(evt, j), side)
    requires NoFailure(Get(s[i], side)) && NoFailure(Get(t[j], side))
    ensures Get(s[i], side).routes.Keys == Get(t[j], side).routes.Keys
    ensures forall ke :: Local(Get(s[i], side), ke) == Local(Get(t[j], side), ke)
  {
    RoutesAsToldIff(cfg, s, evs, i, side);
    RoutesAsToldIff(cfg, t, evt, j, side);
    NoneUnused(cfg, s, evs, i, side);
    NoneUnused(cfg, t, evt, j, side);
    hide *;
    SameMembersAsTold(cfg, LocalLog(evs, i), LocalLog(evt, j), Get(s[i], side), Get(t[j], side), side);
    RoutesAreMembers(Get(s[i], side), Get(t[j], side));
  }

  lemma NoneUnused(cfg: Config, states: seq<State>, events: seq<(DdsEvent, Oracle)>, i: nat, side: Side)
    requires LocalRun(cfg, states, events) && i < |states|
    ensures RoutesUsed(Get(states[i], side))
  {
    RunKeepsInv(cfg, states, events, i);
    hide LocalRun;
  }

  lemma SameMembersAsTold(cfg: Config, a: Log, b: Log, h: Half, g: Half, side: Side)
    requires SameStanding(a, b, side) && RoutesAsTold(cfg, a, h, side) && RoutesAsTold(cfg, b, g, side)
    ensures forall ke :: Local(h, ke) == Local(g, ke)
  {
    hide Stands, StandsFor, Local;
    forall ke ensures Local(h, ke) == Local(g, ke) {
      forall k ensures k in Local(h, ke) <==> k in Local(g, ke) {
        if StandsFor(cfg, a, side, k, ke) { StandsThereToo(cfg, a, b, side, k, ke); }
        if StandsFor(cfg, b, side, k, ke) { StandsThereToo(cfg, b, a, side, k, ke); }
      }
    }
  }

  /** When all that was discovered on a side is taken back, no route and no live DDS entity of it is left. */
  lemma NothingLeftBehind(cfg: Config, states: seq<State>, events: seq<(DdsEvent, Oracle)>, i: nat, side: Side)
    requires LocalRun(cfg, states, events) && i < |states| && i <= |events|
    requires forall e :: !Stands(LocalLog(events, i), side, e)
    ensures var h := Get(states[i], side); h.entities == map[] && h.routes == map[] && h.live == map[]
  {
    LocalRemembers(cfg, states, events, i);
    LocalModeAgreement(cfg, states, events, i, side);
    var h := Get(states[i], side);
    hide LocalRun, Stands, LocalLog;
    assert h.entities == map[] by { assert RemembersEntities(LocalLog(events, i), h, side); }
    SomebodyOnEach(h);
    assert forall x :: x !in h.live;
  }

  lemma SomebodyOnEach(h: Half)
    requires forall ke :: ke in h.routes ==> h.routes[ke].local != {}
    requires forall ke, k :: k in Local(h, ke) ==> k in h.entities
    ensures forall ke :: ke in h.routes ==> exists k :: k in h.entities
  {
    forall ke | ke in h.routes ensures exists k :: k in h.entities {
      var k :| k in h.routes[ke].local;
      assert k in Local(h, ke) && k in h.entities;
    }
  }

  /** And when no participant stands either, the admin space has nothing but its two fixed entries. */
  lemma AdminSpaceEmptied(cfg: Config, states: seq<State>, events: seq<(DdsEvent, Oracle)>, i: nat)
    requires LocalRun(cfg, states, events) && i < |states| && i <= |events|
    requires forall side, e :: !Stands(LocalLog(events, i), side, e)
    requires forall p :: !ParticipantStands(LocalLog(events, i), p)
    ensures states[i].admin.Keys == {"config", "version"}
  {
    LocalRemembers(cfg, states, events, i);
    NothingLeftBehind(cfg, states, events, i, FromDds);
    NothingLeftBehind(cfg, states, events, i, ToDds);
    RunKeepsInv(cfg, states, events, i);
    var s := states[i];
    hide LocalRun, LocalInv, Stands, ParticipantStands, LocalLog, RemembersEntities;
    assert s.participants == map[] by { assert forall k :: k !in s.participants; }
    OnlyFixedResolve(s);
  }

  lemma OnlyFixedResolve(s: State)
    requires AdminAgrees(s) && s.participants == map[]
    requires s.from.entities == map[] && s.from.routes == map[] && s.to.entities == map[] && s.to.routes == map[]
    ensures s.admin.Keys == {"config", "version"}
  {
    assert Resolves(s, ConfigRef) && Resolves(s, VersionRef);
    assert Indexed(s, ConfigRef) && Indexed(s, VersionRef);
    forall ak | ak in s.admin ensures ak == "config" || ak == "version" {
      assert Resolves(s, s.admin[ak]) && AdminKey(IdOf(s, s.admin[ak])) == ak;
    }
  }
}
