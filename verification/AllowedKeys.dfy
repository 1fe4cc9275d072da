/** The routes a bridge may have by its configuration, and that it has no others, in either mode. */
module AllowedKeys {
  import opened Wrappers
  import opened QosAdaptation
  import opened KeyExprs
  import opened BridgeKeys
  import opened Bridge
  import opened Linking
  import opened BridgeState
  import opened LocalMode
  import opened RosGraph
  import opened ForwardMode
  import opened ForwardRuns

  /**
  Not denied; allowed, where it says what is; and in forward mode not the topic of the ROS graph, which bridges exchange
  themselves.
  */
  ghost predicate MayRoute(cfg: Config, ke: string) {
    && (cfg.deny.Some? ==> !cfg.deny.value(ke))
    && (cfg.allow.Some? ==> cfg.allow.value(ke))
    && (cfg.forwardDiscovery ==> forall head :: ke != head + "ros_discovery_info")
  }

  lemma AllowedIff(cfg: Config, ke: string)
    ensures cfg.Allowed(ke) <==> MayRoute(cfg, ke)
  {
    var suffix := "ros_discovery_info";
    if EndsWith(ke, suffix) { assert ke == ke[..|ke| - |suffix|] + suffix; }
    if head :| ke == head + suffix { assert EndsWith(ke, suffix); }
  }

  ghost predicate KeysAllowed(cfg: Config, h: Half) {
    forall ke :: ke in h.routes ==> cfg.Allowed(ke)
  }

  ghost predicate RoutesAllowed(cfg: Config, s: State) {
    KeysAllowed(cfg, s.from) && KeysAllowed(cfg, s.to)
  }

  lemma {:induction false} LinkLocalAllowed(u: Setup, make: Template, h: Half, key: string, parts: seq<Option<string>>,
          withEntity: bool, oracle: Oracle)
    requires KeysAllowed(u.cfg, h)
    ensures KeysAllowed(u.cfg, LinkLocal(u, make, h, key, parts, withEntity, oracle).half)
  {
    hide TryAdd, AddLocal, Conserved, TopicToKeyExpr;
    if parts != [] { LinkLocalAllowed(u, make, h, key, parts[..|parts| - 1], withEntity, oracle); }
  }

  lemma {:induction false} LinkRemoteAllowed(u: Setup, make: Template, h: Half, ref: string, parts: seq<Option<string>>,
          oracle: Oracle)
    requires KeysAllowed(u.cfg, h)
    ensures KeysAllowed(u.cfg, LinkRemote(u, make, h, ref, parts, oracle).half)
  {
    hide TryAdd, AddRemote, Conserved, TopicToKeyExpr;
    if parts != [] { LinkRemoteAllowed(u, make, h, ref, parts[..|parts| - 1], oracle); }
  }

  // ---------- local mode ----------

  lemma LocalStepAllowed(cfg: Config, s: State, ev: DdsEvent, oracle: Oracle)
    requires RoutesAllowed(cfg, s)
    ensures RoutesAllowed(cfg, LocalStep(cfg, s, ev, oracle))
  {
    if ev.Discovered? {
      LinkLocalAllowed(SetupOf(cfg, ev.e), LocalTemplate(ev.side, ev.e), Get(s, ev.side), ev.e.key, ev.e.Parts(), true, oracle);
    }
    hide LinkLocal, Reindex, AdminKey, Config.Allowed, Conserved;
  }

  lemma {:induction false} LocalAllowed(cfg: Config, states: seq<State>, events: seq<(DdsEvent, Oracle)>, i: nat)
    requires LocalRun(cfg, states, events) && i < |states|
    ensures RoutesAllowed(cfg, states[i])
  {
    hide *;
    LocalStart(cfg, states, events);
    if i == 0 {
      NoRoutesAllowed(cfg);
    } else {
      LocalAllowed(cfg, states, events, i - 1);
      LocalTurn(cfg, states, events, i - 1);
      LocalStepAllowed(cfg, states[i - 1], events[i - 1].0, events[i - 1].1);
    }
  }

  lemma NoRoutesAllowed(cfg: Config)
    ensures RoutesAllowed(cfg, INIT)
  {
  }

  /** Over every run in local mode no route stands on a key that it may not have. */
  lemma LocalRoutesMayBe(cfg: Config, states: seq<State>, events: seq<(DdsEvent, Oracle)>, i: nat, side: Side, ke: string)
    requires LocalRun(cfg, states, events) && i < |states| && ke in Get(states[i], side).routes
    ensures MayRoute(cfg, ke)
  {
    LocalAllowed(cfg, states, events, i);
    AllowedIff(cfg, ke);
    hide LocalRun;
  }

  // ---------- forward mode ----------

  lemma DdsAllowed(cfg: Config, s: State, ev: DdsEvent, serializable: bool, oracle: Oracle)
    requires RoutesAllowed(cfg, s)
    ensures RoutesAllowed(cfg, FwdDds(cfg, s, ev, serializable, oracle))
  {
    hide FwdDiscoverReader, FwdUndiscoverReader, AdminKey, Config.Allowed;
    match ev
    case Discovered(ToDds, e) =>
      ReaderDiscovered(cfg, s, e, serializable, oracle);
      LinkLocalAllowed(SetupOf(cfg, e), LocalTemplate(ToDds, e), s.to, e.key, e.Parts(), false, oracle);
      hide LinkLocal;
    case Undiscovered(ToDds, key) => ReaderUndiscovered(s, key);
    case _ =>
  }

  lemma SampleAllowed(cfg: Config, s: State, at: Side, ref: string, payload: Payload, oracle: Oracle)
    requires RoutesAllowed(cfg, s)
    ensures RoutesAllowed(cfg, OnEntity(cfg, s, at, ref, payload, oracle))
  {
    if payload.Announce? {
      LinkRemoteAllowed(RemoteSetup(cfg, payload.e, payload.scope), RemoteTemplate(at, payload.e), Get(s, at), ref,
                        payload.e.Parts(), oracle);
    }
    hide LinkRemote, Reindex, Config.Allowed, Conserved;
  }

  lemma ForwardStepAllowed(cfg: Config, s: State, ev: FwdEvent, oracle: Oracle)
    requires RoutesAllowed(cfg, s)
    ensures RoutesAllowed(cfg, FwdStep(cfg, s, ev, oracle))
  {
    match ev
    case Dds(e, serializable) => DdsAllowed(cfg, s, e, serializable, oracle);
    case Sample(ke, payload) =>
      hide OnEntity, FullAdminKey, Config.Allowed, UpdateWith;
      if ParseFwdKey(ke).Some? {
        var p := ParseFwdKey(ke).value;
        SampleAllowed(cfg, s, SideOf(p.kind), FullAdminKey(p.uuid, p.rest), payload, oracle);
      }
    case MemberLeft(zid) => hide Reindex, Config.Allowed, Conserved;
  }

  lemma {:induction false} ForwardAllowed(cfg: Config, states: seq<State>, events: seq<(FwdEvent, Oracle)>, i: nat)
    requires FwdRun(cfg, states, events) && i < |states|
    ensures RoutesAllowed(cfg, states[i])
  {
    hide *;
    RunStart(cfg, states, events);
    if i == 0 {
      NoRoutesAllowed(cfg);
    } else {
      ForwardAllowed(cfg, states, events, i - 1);
      RunStep(cfg, states, events, i - 1);
      ForwardStepAllowed(cfg, states[i - 1], events[i - 1].0, events[i - 1].1);
    }
  }

  /** Over every run in forward mode no route stands on a key that it may not have. */
  lemma ForwardRoutesMayBe(cfg: Config, states: seq<State>, events: seq<(FwdEvent, Oracle)>, i: nat, side: Side, ke: string)
    requires FwdRun(cfg, states, events) && i < |states| && ke in Get(states[i], side).routes
    ensures MayRoute(cfg, ke)
  {
    ForwardAllowed(cfg, states, events, i);
    AllowedIff(cfg, ke);
    hide FwdRun;
  }
}
