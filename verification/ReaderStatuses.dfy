/**
What a bridge in forward mode has stored about its readers, against the routes to DDS. A reader on a route has the
status `Routed` with that key; the converse is lost in a departure that drops a route readers wait on, and in no other step.
*/
module ReaderStatuses {
  import opened Wrappers
  import opened QosAdaptation
  import opened BridgeKeys
  import opened Bridge
  import opened Linking
  import opened BridgeState
  import opened LocalMode
  import opened ForwardMode
  import opened ForwardRuns
  import opened Announcements

  ghost predicate MembersRouted(h: Half) {
    forall ke, k :: k in Local(h, ke) ==> k in h.entities && RoutedTo(h.entities[k].routes, ke)
  }

  ghost predicate RoutedAreMembers(h: Half) {
    forall ke, k :: k in h.entities && RoutedTo(h.entities[k].routes, ke) ==> k in Local(h, ke)
  }

  /** A key is stored under the partition it stands for, in the scope of the bridge. */
  ghost predicate OwnKey(cfg: Config, e: DdsEntity, name: string, ke: string) {
    cfg.Allowed(ke) && exists p :: p in e.Parts() && Label(p) == name && SetupOf(cfg, e).Key(p) == ke
  }

  ghost predicate OwnKeys(cfg: Config, h: Half) {
    forall k, n :: k in h.entities && n in h.entities[k].routes && h.entities[k].routes[n].Routed? ==>
      OwnKey(cfg, h.entities[k], n, h.entities[k].routes[n].ke)
  }

  ghost predicate StatusInv(cfg: Config, h: Half) {
    MembersRouted(h) && OwnKeys(cfg, h)
  }

  // ---------- one note on one route ----------

  /** The status another route of the entity has in its place is overwritten. */
  ghost predicate Overwrites(h: Half, ke: string, k: string, name: string, was: string)
    requires k in h.entities
  {
    && was != ke && k in Local(h, was)
    && forall n :: n in h.entities[k].routes && h.entities[k].routes[n] == Routed(was) ==> n == name
  }

  /**
  An announcement noted on a route keeps every reader's status true, if and only if for no reader concerned the one
  status of another route it is on is overwritten.
  */
  lemma NoteKeepsStatusesIff(h: Half, ke: string, ref: string, topic: string, part: Option<string>)
    requires MembersRouted(h) && ke in h.routes
    ensures MembersRouted(AddRemote(h, ke, ref, topic, part)) <==>
            forall k, was :: k in Hits(h.entities, topic, part) ==> k in h.entities && !Overwrites(h, ke, k, Label(part), was)
  {
    var h', hits, name := AddRemote(h, ke, ref, topic, part), Hits(h.entities, topic, part), Label(part);
    hide Conserved, Concerns;
    if k, was :| k in hits && Overwrites(h, ke, k, name, was) {
      LostStatus(h, ke, ref, topic, part, k, was);
    } else {
      forall c, k | k in Local(h', c) ensures k in h'.entities && RoutedTo(h'.entities[k].routes, c) {
        NotedStatus(h, ke, ref, topic, part, k, c);
      }
    }
  }

  lemma LostStatus(h: Half, ke: string, ref: string, topic: string, part: Option<string>, k: string, was: string)
    requires ke in h.routes && k in Hits(h.entities, topic, part) && Overwrites(h, ke, k, Label(part), was)
    ensures var h' := AddRemote(h, ke, ref, topic, part);
            k in Local(h', was) && k in h'.entities && !RoutedTo(h'.entities[k].routes, was)
  {
    hide Conserved;
  }

  lemma NotedStatus(h: Half, ke: string, ref: string, topic: string, part: Option<string>, k: string, c: string)
    requires MembersRouted(h) && ke in h.routes && k in Local(AddRemote(h, ke, ref, topic, part), c)
    requires k in Hits(h.entities, topic, part) ==> !Overwrites(h, ke, k, Label(part), c)
    ensures var h' := AddRemote(h, ke, ref, topic, part);
            k in h'.entities && RoutedTo(h'.entities[k].routes, c)
  {
    hide Conserved;
    var h', hits, name := AddRemote(h, ke, ref, topic, part), Hits(h.entities, topic, part), Label(part);
    assert Local(h', c) == Local(h, c) + if c == ke then hits else {};
    if k in hits && c == ke {
      assert h'.entities[k].routes[name] == Routed(c);
    } else if k in hits {
      assert RoutedTo(h.entities[k].routes, c);
      var n :| n in h.entities[k].routes && h.entities[k].routes[n] == Routed(c) && n != name;
      assert h'.entities[k].routes[n] == Routed(c);
    } else {
      assert RoutedTo(h.entities[k].routes, c);
    }
  }

  // ---------- whole announcements ----------

  /**
  Every status that names this route of the reader is overwritten, each on a part the announcement concerns the reader
  on, and none of these parts has that key.
  */
  ghost predicate LosesStatus(u: Setup, h: Half, parts: seq<Option<string>>, statuses: map<string, RouteStatus>, k: string,
          was: string)
  {
    && k in h.entities && k in Local(h, was) && !NotedAt(u, h, parts, statuses, k, was)
    && forall n :: n in h.entities[k].routes && h.entities[k].routes[n] == Routed(was) ==>
         NotedUnder(u, h, parts, statuses, k, n)
  }

  /** A whole announcement, from whatever scope, keeps every reader's status true, if and only if it loses none. */
  lemma AnnounceKeepsStatusesIff(u: Setup, make: Template, h: Half, ref: string, parts: seq<Option<string>>, oracle: Oracle)
    requires Homogeneous(parts) && MembersRouted(h)
    ensures var r := LinkRemote(u, make, h, ref, parts, oracle);
            MembersRouted(r.half) <==> forall k, was :: !LosesStatus(u, h, parts, r.statuses, k, was)
  {
    var r := LinkRemote(u, make, h, ref, parts, oracle);
    hide LinkRemote, LosesStatus;
    if k, was :| LosesStatus(u, h, parts, r.statuses, k, was) {
      StatusLost(u, make, h, ref, parts, oracle, k, was);
    } else {
      forall ke, k | k in Local(r.half, ke) ensures k in r.half.entities && RoutedTo(r.half.entities[k].routes, ke) {
        StatusKept(u, make, h, ref, parts, oracle, k, ke);
      }
    }
  }

  lemma StatusLost(u: Setup, make: Template, h: Half, ref: string, parts: seq<Option<string>>, oracle: Oracle, k: string,
          was: string)
    requires Homogeneous(parts) && LosesStatus(u, h, parts, LinkRemote(u, make, h, ref, parts, oracle).statuses, k, was)
    ensures var h' := LinkRemote(u, make, h, ref, parts, oracle).half;
            k in Local(h', was) && k in h'.entities && !RoutedTo(h'.entities[k].routes, was)
  {
    var r := LinkRemote(u, make, h, ref, parts, oracle);
    LinkRemoteLocals(u, make, h, ref, parts, oracle, was, k);
    assert k in h.entities && k in Local(r.half, was);
    hide LinkRemote, Local, LosesStatus, StatusUnder;
    LinkRemoteStatuses(u, make, h, ref, parts, oracle, k, "");
    LostUnder(u, h, parts, r, k, "", was);
    forall n ensures n in r.half.entities[k].routes ==> r.half.entities[k].routes[n] != Routed(was) {
      LinkRemoteStatuses(u, make, h, ref, parts, oracle, k, n);
      LostUnder(u, h, parts, r, k, n, was);
    }
  }

  lemma LostUnder(u: Setup, h: Half, parts: seq<Option<string>>, r: Linked, k: string, n: string, was: string)
    requires LosesStatus(u, h, parts, r.statuses, k, was) && StatusUnder(u, h, parts, r, k, n)
    ensures k in r.half.entities
    ensures n in r.half.entities[k].routes ==> r.half.entities[k].routes[n] != Routed(was)
  {
    hide NotedOn, Local, TopicToKeyExpr;
  }

  lemma StatusKept(u: Setup, make: Template, h: Half, ref: string, parts: seq<Option<string>>, oracle: Oracle, k: string,
          ke: string)
    requires Homogeneous(parts) && MembersRouted(h) && k in Local(LinkRemote(u, make, h, ref, parts, oracle).half, ke)
    requires !LosesStatus(u, h, parts, LinkRemote(u, make, h, ref, parts, oracle).statuses, k, ke)
    ensures var h' := LinkRemote(u, make, h, ref, parts, oracle).half;
            k in h'.entities && RoutedTo(h'.entities[k].routes, ke)
  {
    var r := LinkRemote(u, make, h, ref, parts, oracle);
    LinkRemoteLocals(u, make, h, ref, parts, oracle, ke, k);
    hide LinkRemote, Local, Hits, StatusUnder, TopicToKeyExpr;
    var n;
    if NotedAt(u, h, parts, r.statuses, k, ke) {
      NotedIsStored(u, h, parts, r.statuses, k, ke);
      var p :| NotedOn(u, h, parts, r.statuses, k, p) && u.Key(p) == ke;
      n := Label(p);
    } else {
      assert k in Local(h, ke);
      n :| n in h.entities[k].routes && h.entities[k].routes[n] == Routed(ke) && !NotedUnder(u, h, parts, r.statuses, k, n);
    }
    LinkRemoteStatuses(u, make, h, ref, parts, oracle, k, n);
    StatusSays(u, h, parts, r, k, n, ke);
  }

  lemma NotedIsStored(u: Setup, h: Half, parts: seq<Option<string>>, statuses: map<string, RouteStatus>, k: string, ke: string)
    requires NotedAt(u, h, parts, statuses, k, ke)
    ensures k in h.entities
  {
    hide TopicToKeyExpr;
  }

  lemma StatusSays(u: Setup, h: Half, parts: seq<Option<string>>, r: Linked, k: string, n: string, ke: string)
    requires k in h.entities && StatusUnder(u, h, parts, r, k, n)
    requires (exists p :: NotedOn(u, h, parts, r.statuses, k, p) && u.Key(p) == ke && Label(p) == n)
             || (n in h.entities[k].routes && h.entities[k].routes[n] == Routed(ke) && !NotedUnder(u, h, parts, r.statuses, k, n))
    ensures k in r.half.entities && RoutedTo(r.half.entities[k].routes, ke)
  {
    hide NotedOn, TopicToKeyExpr;
    assert r.half.entities[k].routes[n] == Routed(ke);
  }

  /** In the scope of the bridge, the key of a part is the key its readers have for it: nothing else is overwritten. */
  lemma OwnScopeOverwritesNothing(cfg: Config, h: Half, topic: string, part: Option<string>, k: string, was: string)
    requires OwnKeys(cfg, h) && MembersRouted(h) && k in Hits(h.entities, topic, part)
    ensures k in h.entities && !Overwrites(h, TopicToKeyExpr(topic, cfg.scope, part), k, Label(part), was)
  {
    if k in Local(h, was) {
      var e := h.entities[k];
      var n :| n in e.routes && e.routes[n] == Routed(was);
      assert OwnKey(cfg, e, n, was);
      var p :| p in e.Parts() && Label(p) == n && SetupOf(cfg, e).Key(p) == was;
      if n == Label(part) { SameLabelSamePart(e, p, part); }
    }
  }

  lemma SameLabelSamePart(e: DdsEntity, p: Option<string>, part: Option<string>)
    requires p in e.Parts() && part in e.Parts() && Label(p) == Label(part)
    ensures p == part
  {
  }

  lemma ConcernedHasPart(e: DdsEntity, topic: string, part: Option<string>)
    requires Concerns(e, topic, part)
    ensures e.topic == topic && part in e.Parts()
  {
  }

  lemma NoteKeepsInv(cfg: Config, h: Half, ref: string, topic: string, part: Option<string>)
    requires StatusInv(cfg, h) && TopicToKeyExpr(topic, cfg.scope, part) in h.routes
             && cfg.Allowed(TopicToKeyExpr(topic, cfg.scope, part))
    ensures StatusInv(cfg, AddRemote(h, TopicToKeyExpr(topic, cfg.scope, part), ref, topic, part))
  {
    var ke := TopicToKeyExpr(topic, cfg.scope, part);
    var h', hits := AddRemote(h, ke, ref, topic, part), Hits(h.entities, topic, part);
    forall k, was | k in hits ensures k in h.entities && !Overwrites(h, ke, k, Label(part), was) {
      OwnScopeOverwritesNothing(cfg, h, topic, part, k, was);
    }
    NoteKeepsStatusesIff(h, ke, ref, topic, part);
    hide TopicToKeyExpr, Conserved, AddRemote, MembersRouted;
    forall k, n | k in h'.entities && n in h'.entities[k].routes && h'.entities[k].routes[n].Routed?
      ensures OwnKey(cfg, h'.entities[k], n, h'.entities[k].routes[n].ke)
    {
      NotedOwnKey(cfg, h, ke, ref, topic, part, k, n);
    }
  }

  lemma NotedOwnKey(cfg: Config, h: Half, ke: string, ref: string, topic: string, part: Option<string>, k: string, n: string)
    requires OwnKeys(cfg, h) && ke in h.routes && cfg.Allowed(ke) && ke == TopicToKeyExpr(topic, cfg.scope, part)
    requires var h' := AddRemote(h, ke, ref, topic, part);
             k in h'.entities && n in h'.entities[k].routes && h'.entities[k].routes[n].Routed?
    ensures var e := AddRemote(h, ke, ref, topic, part).entities[k]; OwnKey(cfg, e, n, e.routes[n].ke)
  {
    var e, e' := h.entities[k], AddRemote(h, ke, ref, topic, part).entities[k];
    assert e'.Parts() == e.Parts() && SetupOf(cfg, e') == SetupOf(cfg, e);
    hide TopicToKeyExpr, Conserved;
    if k in Hits(h.entities, topic, part) && n == Label(part) {
      ConcernedHasPart(e, topic, part);
      assert SetupOf(cfg, e).Key(part) == ke;
    } else {
      assert n in e.routes && e.routes[n] == e'.routes[n] && OwnKey(cfg, e, n, e.routes[n].ke);
    }
  }

  lemma {:induction false} LinkKeepsInv(u: Setup, make: Template, h: Half, ref: string, parts: seq<Option<string>>,
          oracle: Oracle)
    requires StatusInv(u.cfg, h) && u.scope == u.cfg.scope
    ensures StatusInv(u.cfg, LinkRemote(u, make, h, ref, parts, oracle).half)
  {
    if parts != [] {
      var n := |parts| - 1;
      LinkKeepsInv(u, make, h, ref, parts[..n], oracle);
      LinkStepKeepsInv(u, make, LinkRemote(u, make, h, ref, parts[..n], oracle), ref, parts[n], oracle(n));
    }
  }

  lemma LinkStepKeepsInv(u: Setup, make: Template, before: Linked, ref: string, part: Option<string>, o: Outcome)
    requires StatusInv(u.cfg, before.half) && u.scope == u.cfg.scope
    ensures StatusInv(u.cfg, LinkRemoteStep(u, make, before, ref, part, o).half)
  {
    hide TryAdd, Conserved, AddRemote, TopicToKeyExpr;
    var (status, h1) := TryAdd(u.cfg, before.half, u.Key(part), true, o, u.SpecFor(make, part));
    AddedKeepsInv(u.cfg, before.half, h1);
    if status.Routed? { NoteKeepsInv(u.cfg, h1, ref, u.topic, part); }
  }

  lemma AddedKeepsInv(cfg: Config, h: Half, h': Half)
    requires StatusInv(cfg, h) && h'.entities == h.entities && forall k :: Local(h', k) == Local(h, k)
    ensures StatusInv(cfg, h')
  {
    hide OwnKey, Local;
  }

  /** The converse needs no scope: every note is written down with the reader. */
  lemma {:induction false} LinkKeepsConverse(u: Setup, make: Template, h: Half, ref: string, parts: seq<Option<string>>,
          oracle: Oracle)
    requires RoutedAreMembers(h)
    ensures RoutedAreMembers(LinkRemote(u, make, h, ref, parts, oracle).half)
  {
    if parts != [] {
      var n := |parts| - 1;
      LinkKeepsConverse(u, make, h, ref, parts[..n], oracle);
      LinkStepKeepsConverse(u, make, LinkRemote(u, make, h, ref, parts[..n], oracle), ref, parts[n], oracle(n));
    }
  }

  lemma LinkStepKeepsConverse(u: Setup, make: Template, before: Linked, ref: string, part: Option<string>, o: Outcome)
    requires RoutedAreMembers(before.half)
    ensures RoutedAreMembers(LinkRemoteStep(u, make, before, ref, part, o).half)
  {
    hide TryAdd, Conserved, TopicToKeyExpr;
    var (status, h1) := TryAdd(u.cfg, before.half, u.Key(part), true, o, u.SpecFor(make, part));
    assert RoutedAreMembers(h1);
    if status.Routed? {
      var ke := u.Key(part);
      var h2 := AddRemote(h1, ke, ref, u.topic, part);
      forall c, k | k in h2.entities && RoutedTo(h2.entities[k].routes, c) ensures k in Local(h2, c) {
        NotedMember(h1, ke, ref, u.topic, part, k, c);
      }
    }
  }

  lemma NotedMember(h: Half, ke: string, ref: string, topic: string, part: Option<string>, k: string, c: string)
    requires RoutedAreMembers(h) && ke in h.routes
    requires var h' := AddRemote(h, ke, ref, topic, part); k in h'.entities && RoutedTo(h'.entities[k].routes, c)
    ensures k in Local(AddRemote(h, ke, ref, topic, part), c)
  {
    hide Conserved;
    var h' := AddRemote(h, ke, ref, topic, part);
    var n :| n in h'.entities[k].routes && h'.entities[k].routes[n] == Routed(c);
    if n in h.entities[k].routes && h.entities[k].routes[n] == Routed(c) {
      assert RoutedTo(h.entities[k].routes, c);
    }
  }

  // ---------- local events ----------

  /** What a discovery leaves: the reader under its new statuses, on exactly the routes these name besides those it was on. */
  lemma DiscoveredReader(cfg: Config, s: State, e: DdsEntity, oracle: Oracle)
    ensures var l := LinkLocal(SetupOf(cfg, e), LocalTemplate(ToDds, e), s.to, e.key, e.Parts(), false, oracle);
            var h' := FwdDiscoverReader(cfg, s, e, true, oracle).to;
            && h'.entities == s.to.entities[e.key := e.(routes := l.statuses)]
            && (forall ke :: Local(h', ke) == Local(s.to, ke) + if RoutedTo(l.statuses, ke) then {e.key} else {})
            && StatusesFor(SetupOf(cfg, e), e.Parts(), l.statuses)
  {
    var l := LinkLocal(SetupOf(cfg, e), LocalTemplate(ToDds, e), s.to, e.key, e.Parts(), false, oracle);
    LinkedLocals(cfg, s.to, e, oracle);
    ReaderDiscovered(cfg, s, e, true, oracle);
    hide FwdDiscoverReader, LinkLocal, StatusesFor, RoutedTo, SetupOf, LocalTemplate;
    assert forall ke :: Local(FwdDiscoverReader(cfg, s, e, true, oracle).to, ke) == Local(l.half, ke);
  }

  lemma LinkedLocals(cfg: Config, h: Half, e: DdsEntity, oracle: Oracle)
    ensures var l := LinkLocal(SetupOf(cfg, e), LocalTemplate(ToDds, e), h, e.key, e.Parts(), false, oracle);
            && l.half.entities == h.entities && StatusesFor(SetupOf(cfg, e), e.Parts(), l.statuses)
            && (forall ke :: Local(l.half, ke) == Local(h, ke) + if RoutedTo(l.statuses, ke) then {e.key} else {})
  {
    LinkLocalEffect(SetupOf(cfg, e), LocalTemplate(ToDds, e), h, e.key, e.Parts(), false, oracle);
    hide LinkLocal, StatusesFor, RoutedTo, StandingRouted, DomainEffect, OwnersEffect, Local, Remote, Conserved;
  }

  lemma DiscoverKeepsStatuses(cfg: Config, s: State, e: DdsEntity, oracle: Oracle)
    requires StatusInv(cfg, s.to) && MayStore(s.to, e)
    ensures var h' := FwdDiscoverReader(cfg, s, e, true, oracle).to;
            StatusInv(cfg, h') && (RoutedAreMembers(s.to) ==> RoutedAreMembers(h'))
  {
    hide LinkLocal, FwdDiscoverReader, StatusesFor, RoutedTo, Local, OwnKey;
    var l := LinkLocal(SetupOf(cfg, e), LocalTemplate(ToDds, e), s.to, e.key, e.Parts(), false, oracle);
    var h, h' := s.to, FwdDiscoverReader(cfg, s, e, true, oracle).to;
    DiscoveredReader(cfg, s, e, oracle);
    forall ke, k | k in Local(h', ke) ensures k in h'.entities && RoutedTo(h'.entities[k].routes, ke) {
      if k == e.key && k in Local(h, ke) { StandingStays(cfg, s, e, oracle, ke); }
    }
    forall k, n | k in h'.entities && n in h'.entities[k].routes && h'.entities[k].routes[n].Routed?
      ensures OwnKey(cfg, h'.entities[k], n, h'.entities[k].routes[n].ke)
    {
      if k == e.key { NewOwnKey(cfg, e, l.statuses, n); }
    }
  }

  /** A reader discovered again is routed again wherever it is on a route. */
  lemma StandingStays(cfg: Config, s: State, e: DdsEntity, oracle: Oracle, ke: string)
    requires StatusInv(cfg, s.to) && MayStore(s.to, e) && e.key in Local(s.to, ke)
    ensures RoutedTo(LinkLocal(SetupOf(cfg, e), LocalTemplate(ToDds, e), s.to, e.key, e.Parts(), false, oracle).statuses, ke)
  {
    var u, make, h := SetupOf(cfg, e), LocalTemplate(ToDds, e), s.to;
    LinkLocalEffect(u, make, h, e.key, e.Parts(), false, oracle);
    hide LinkLocal, LocalEffect;
    var statuses := LinkLocal(u, make, h, e.key, e.Parts(), false, oracle).statuses;
    var stored := h.entities[e.key];
    assert SetupOf(cfg, stored) == u && stored.Parts() == e.Parts();
    var n :| n in stored.routes && stored.routes[n] == Routed(ke);
    assert OwnKey(cfg, stored, n, ke);
    var p :| p in e.Parts() && Label(p) == n && u.Key(p) == ke;
    assert Standing(u, h, p, false);
    assert statuses[Label(p)] == Routed(ke);
  }

  lemma NewOwnKey(cfg: Config, e: DdsEntity, statuses: map<string, RouteStatus>, n: string)
    requires StatusesFor(SetupOf(cfg, e), e.Parts(), statuses) && n in statuses && statuses[n].Routed?
    ensures OwnKey(cfg, e.(routes := statuses), n, statuses[n].ke)
  {
    var e' := e.(routes := statuses);
    assert e'.Parts() == e.Parts() && SetupOf(cfg, e') == SetupOf(cfg, e);
    var p :| p in e.Parts() && Label(p) == n;
    assert StatusFor(SetupOf(cfg, e), p, statuses[n]);
  }

  lemma UndiscoveredLocals(s: State, key: string)
    ensures var h' := FwdUndiscoverReader(s, key).to;
            h'.entities == s.to.entities - {key} && forall ke :: Local(h', ke) == Local(s.to, ke) - {key}
  {
    ReaderUndiscovered(s, key);
    hide FwdUndiscoverReader, Conserved;
  }

  lemma UndiscoverKeepsStatuses(cfg: Config, s: State, key: string)
    requires StatusInv(cfg, s.to)
    ensures var h' := FwdUndiscoverReader(s, key).to;
            StatusInv(cfg, h') && (RoutedAreMembers(s.to) ==> RoutedAreMembers(h'))
  {
    var h' := FwdUndiscoverReader(s, key).to;
    UndiscoveredLocals(s, key);
    hide FwdUndiscoverReader, OwnKey, Local;
  }

  // ---------- departures ----------

  /** There is a route with local readers, all of whose remote writers, if any, are swept with that bridge. */
  ghost predicate DropsWaiting(s: State, zid: string) {
    exists ke :: ke in s.to.routes && s.to.routes[ke].local != {} && AllSwept(s.to.routes[ke], zid)
  }

  /** What is stored about the readers does not change, and a route that stays keeps its readers. */
  lemma LeaveLocals(s: State, zid: string)
    ensures OnLeft(s, zid).to.entities == s.to.entities
    ensures forall ke :: Local(OnLeft(s, zid).to, ke) == if ke in OnLeft(s, zid).to.routes then Local(s.to, ke) else {}
    ensures forall ke :: ke in OnLeft(s, zid).to.routes <==> ke in s.to.routes && !AllSwept(s.to.routes[ke], zid)
  {
    hide AllSwept;
    forall ke
      ensures ke in OnLeft(s, zid).to.routes <==> ke in s.to.routes && !AllSwept(s.to.routes[ke], zid)
      ensures Local(OnLeft(s, zid).to, ke) == if ke in OnLeft(s, zid).to.routes then Local(s.to, ke) else {} {
      SurvivesDepartureIff(s, zid, ToDds, ke);
    }
    hide Reindex, HalfLeave;
  }

  lemma LeaveKeepsStatuses(cfg: Config, s: State, zid: string)
    requires StatusInv(cfg, s.to)
    ensures StatusInv(cfg, OnLeft(s, zid).to)
    ensures RoutedAreMembers(s.to) ==> (RoutedAreMembers(OnLeft(s, zid).to) <==> !DropsWaiting(s, zid))
  {
    LeaveLocals(s, zid);
    hide OnLeft, OwnKey;
    if RoutedAreMembers(s.to) { LeaveKeepsConverseIff(s, zid); }
    hide Local;
  }

  lemma LeaveKeepsConverseIff(s: State, zid: string)
    requires MembersRouted(s.to) && RoutedAreMembers(s.to)
    ensures RoutedAreMembers(OnLeft(s, zid).to) <==> !DropsWaiting(s, zid)
  {
    var h, h' := s.to, OnLeft(s, zid).to;
    LeaveLocals(s, zid);
    hide OnLeft, AllSwept;
    if DropsWaiting(s, zid) {
      var ke :| ke in h.routes && h.routes[ke].local != {} && AllSwept(h.routes[ke], zid);
      var k :| k in h.routes[ke].local;
      assert k in Local(h, ke) && k !in Local(h', ke);
      assert RoutedTo(h'.entities[k].routes, ke);
    } else {
      forall ke, k | k in h'.entities && RoutedTo(h'.entities[k].routes, ke) ensures k in Local(h', ke) {
        assert k in Local(h, ke);
      }
    }
  }

  // ---------- every step, and whole runs ----------

  /** The event is not an encoding failure, nor an announcement from another scope. */
  ghost predicate Regular(cfg: Config, ev: FwdEvent) {
    match ev
    case Dds(_, serializable) => serializable
    case Sample(_, Announce(_, scope)) => scope == cfg.scope
    case _ => true
  }

  ghost predicate DropsReaders(s: State, ev: FwdEvent) {
    ev.MemberLeft? && DropsWaiting(s, ev.zid)
  }

  lemma SampleKeepsStatuses(cfg: Config, s: State, at: Side, ref: string, payload: Payload, oracle: Oracle)
    requires StatusInv(cfg, s.to) && (payload.Announce? ==> payload.scope == cfg.scope)
    ensures payload.Announce? ==> var h' := OnAnnounce(cfg, s, at, ref, payload.e, payload.scope, oracle).to;
              StatusInv(cfg, h') && (RoutedAreMembers(s.to) ==> RoutedAreMembers(h'))
    ensures var h' := OnDelete(s, at, ref).to; StatusInv(cfg, h') && (RoutedAreMembers(s.to) ==> RoutedAreMembers(h'))
  {
    hide Reindex, StatusInv, RoutedAreMembers;
    if at.ToDds? {
      DeleteLeavesLocals(s.to, ref);
      SameStatuses(cfg, s.to, OnDelete(s, at, ref).to);
      if payload.Announce? {
        var u, make := RemoteSetup(cfg, payload.e, payload.scope), RemoteTemplate(at, payload.e);
        LinkKeepsInv(u, make, s.to, ref, payload.e.Parts(), oracle);
        if RoutedAreMembers(s.to) { LinkKeepsConverse(u, make, s.to, ref, payload.e.Parts(), oracle); }
      }
      hide LinkRemote;
    }
  }

  lemma OnSampleKeepsStatuses(cfg: Config, s: State, ke: string, payload: Payload, oracle: Oracle)
    requires StatusInv(cfg, s.to) && (payload.Announce? ==> payload.scope == cfg.scope)
    ensures var h' := OnSample(cfg, s, ke, payload, oracle).to;
            StatusInv(cfg, h') && (RoutedAreMembers(s.to) ==> RoutedAreMembers(h'))
  {
    hide StatusInv, RoutedAreMembers, OnAnnounce, OnDelete, FullAdminKey, ParseFwdKey;
    if ParseFwdKey(ke).Some? {
      var p := ParseFwdKey(ke).value;
      SampleKeepsStatuses(cfg, s, SideOf(p.kind), FullAdminKey(p.uuid, p.rest), payload, oracle);
    }
  }

  /** A deletion takes the route off no local reader. */
  lemma DeleteLeavesLocals(h: Half, ref: string)
    ensures var h' := HalfDelete(h, ToDds, ref); h'.entities == h.entities && forall ke :: Local(h', ke) == Local(h, ke)
  {
    hide Conserved;
  }

  lemma SameStatuses(cfg: Config, h: Half, h': Half)
    requires h'.entities == h.entities && forall ke :: Local(h', ke) == Local(h, ke)
    ensures StatusInv(cfg, h) ==> StatusInv(cfg, h')
    ensures RoutedAreMembers(h) ==> RoutedAreMembers(h')
  {
    hide OwnKey, Local, RoutedTo;
  }

  lemma DdsKeepsStatuses(cfg: Config, s: State, ev: DdsEvent, oracle: Oracle)
    requires StatusInv(cfg, s.to) && EventOk(s, ev)
    ensures var h' := FwdDds(cfg, s, ev, true, oracle).to;
            StatusInv(cfg, h') && (RoutedAreMembers(s.to) ==> RoutedAreMembers(h'))
  {
    hide StatusInv, RoutedAreMembers, FwdDiscoverReader, FwdUndiscoverReader;
    match ev
    case Discovered(ToDds, e) => DiscoverKeepsStatuses(cfg, s, e, oracle);
    case Undiscovered(ToDds, key) => UndiscoverKeepsStatuses(cfg, s, key);
    case _ =>
  }

  /**
  Any regular step keeps that readers on a route have the status for it. It also keeps the converse, if and only if
  it is not a departure that drops a route with a local reader.
  */
  lemma StepStatuses(cfg: Config, s: State, ev: FwdEvent, oracle: Oracle)
    requires StatusInv(cfg, s.to) && FwdEventOk(s, ev) && Regular(cfg, ev)
    ensures StatusInv(cfg, FwdStep(cfg, s, ev, oracle).to)
    ensures RoutedAreMembers(s.to) ==> (RoutedAreMembers(FwdStep(cfg, s, ev, oracle).to) <==> !DropsReaders(s, ev))
  {
    hide StatusInv, RoutedAreMembers, DropsWaiting, FwdDds, OnSample, OnLeft;
    match ev
    case Dds(e, serializable) => DdsKeepsStatuses(cfg, s, e, oracle);
    case Sample(ke, payload) => OnSampleKeepsStatuses(cfg, s, ke, payload, oracle);
    case MemberLeft(zid) => LeaveKeepsStatuses(cfg, s, zid);
  }

  lemma InitStatuses(cfg: Config)
    ensures StatusInv(cfg, INIT.to) && RoutedAreMembers(INIT.to)
  {
  }

  /**
  Over every run without encoding failures and foreign scopes: a reader on a route is discovered and has the
  status `Routed` with its key.
  */
  lemma {:induction false} ReadersOnRoutesHaveStatus(cfg: Config, states: seq<State>, events: seq<(FwdEvent, Oracle)>, i: nat)
    requires FwdRun(cfg, states, events) && i < |states|
    requires forall j :: 0 <= j < i ==> Regular(cfg, events[j].0)
    ensures StatusInv(cfg, states[i].to)
  {
    hide *;
    RunStart(cfg, states, events);
    if i == 0 {
      InitStatuses(cfg);
    } else {
      ReadersOnRoutesHaveStatus(cfg, states, events, i - 1);
      RunStep(cfg, states, events, i - 1);
      StepStatuses(cfg, states[i - 1], events[i - 1].0, events[i - 1].1);
    }
  }

  /** Up to the first departure that drops a route with a local reader, a reader with a status `Routed` is on that route. */
  lemma {:induction false} StatusesNameRoutes(cfg: Config, states: seq<State>, events: seq<(FwdEvent, Oracle)>, i: nat)
    requires FwdRun(cfg, states, events) && i < |states|
    requires forall j :: 0 <= j < i ==> Regular(cfg, events[j].0) && !DropsReaders(states[j], events[j].0)
    ensures RoutedAreMembers(states[i].to)
  {
    hide *;
    RunStart(cfg, states, events);
    if i == 0 {
      InitStatuses(cfg);
    } else {
      StatusesNameRoutes(cfg, states, events, i - 1);
      ReadersOnRoutesHaveStatus(cfg, states, events, i - 1);
      RunStep(cfg, states, events, i - 1);
      StepStatuses(cfg, states[i - 1], events[i - 1].0, events[i - 1].1);
    }
  }
}
