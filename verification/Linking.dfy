/**
The loops over the partitions of an entity, and the sweeps over the routes, that every event of the
bridge is made of.
*/
module Linking {
  import opened Wrappers
  import opened QosAdaptation
  import opened KeyExprs
  import opened BridgeKeys
  import opened Bridge

  datatype Linked = Linked(half: Half, statuses: map<string, RouteStatus>)

  /** What stays fixed while the routes of one entity are made. */
  datatype Setup = Setup(cfg: Config, topic: string, scope: Option<string>)
  {
    function Key(part: Option<string>): string {
      TopicToKeyExpr(topic, scope, part)
    }

    /** What the DDS entity of the route for this part is created from. */
    function SpecFor(make: Template, part: Option<string>): Spec {
      make.For(topic, part, cfg.periodic(Key(part)))
    }
  }

  ghost predicate RoutedTo(statuses: map<string, RouteStatus>, ke: string) {
    exists l :: l in statuses && statuses[l] == Routed(ke)
  }

  /** The parts of one entity: a single absent one, or any number of names. */
  ghost predicate Homogeneous(parts: seq<Option<string>>) {
    |parts| <= 1 || None !in parts
  }

  /** The statuses tell for each part whether its key is routed, not allowed or failed. */
  ghost predicate StatusesFor(u: Setup, parts: seq<Option<string>>, statuses: map<string, RouteStatus>) {
    && (forall l :: l in statuses ==> exists p :: p in parts && Label(p) == l)
    && (forall p :: p in parts ==> Label(p) in statuses && StatusFor(u, p, statuses[Label(p)]))
  }

  ghost predicate StatusFor(u: Setup, part: Option<string>, status: RouteStatus) {
    && (status.Routed? ==> status.ke == u.Key(part))
    && (status.NotAllowed? <==> !u.cfg.Allowed(u.Key(part)))
  }

  /** Every key the statuses call routed has a route, with a DDS entity if one was asked for. */
  ghost predicate RoutedExist(h: Half, statuses: map<string, RouteStatus>, withEntity: bool) {
    forall l :: l in statuses && statuses[l].Routed? ==>
      statuses[l].ke in h.routes && (withEntity ==> h.routes[statuses[l].ke].entity != 0)
  }

  /** Same routes with the same owners. */
  ghost predicate SameOwners(h: Half, h': Half) {
    && h'.routes.Keys == h.routes.Keys && h'.live == h.live && h'.issued == h.issued
    && forall ke :: ke in h.routes ==> h'.routes[ke].entity == h.routes[ke].entity
  }

  function AddLocal(h: Half, ke: string, key: string): (h': Half)
    requires ke in h.routes
    ensures SameOwners(h, h') && h'.entities == h.entities
    ensures forall k :: Remote(h', k) == Remote(h, k)
    ensures forall k :: Local(h', k) == Local(h, k) + if k == ke then {key} else {}
    ensures Conserved(h) ==> Conserved(h')
  {
    var r := h.routes[ke];
    var h' := h.(routes := h.routes[ke := r.(local := r.local + {key})]);
    assert Conserved(h) ==> Conserved(h') by { if Conserved(h) { ConservedSameOwners(h, h'); } }
    h'
  }

  // ---------- a discovered local entity ----------

  /** One route per part, on each of which the entity is noted. */
  function LinkLocal(u: Setup, make: Template, h: Half, key: string, parts: seq<Option<string>>, withEntity: bool,
          oracle: Oracle): Linked
  {
    if parts == [] then Linked(h, map[])
    else
      var n := |parts| - 1;
      LinkLocalStep(u, make, LinkLocal(u, make, h, key, parts[..n], withEntity, oracle), key, parts[n], withEntity, oracle(n))
  }

  function LinkLocalStep(u: Setup, make: Template, before: Linked, key: string, part: Option<string>, withEntity: bool,
          o: Outcome): (r: Linked)
    ensures Conserved(before.half) ==> Conserved(r.half)
  {
    var ke := u.Key(part);
    var (status, h1) := TryAdd(u.cfg, before.half, ke, withEntity, o, u.SpecFor(make, part));
    Linked(if status.Routed? then AddLocal(h1, ke, key) else h1, before.statuses[Label(part) := status])
  }

  lemma {:induction false} LinkLocalEntities(u: Setup, make: Template, h: Half, key: string, parts: seq<Option<string>>,
          withEntity: bool, oracle: Oracle)
    ensures LinkLocal(u, make, h, key, parts, withEntity, oracle).half.entities == h.entities
  {
    hide TryAdd, AddLocal, Conserved, TopicToKeyExpr;
    if parts != [] { LinkLocalEntities(u, make, h, key, parts[..|parts| - 1], withEntity, oracle); }
  }

  /** The entity is on exactly the routes its statuses name, and nothing else changed. */
  ghost predicate LocalEffect(h: Half, key: string, withEntity: bool, r: Linked) {
    && r.half.entities == h.entities
    && LocalMembers(h, key, r)
    && DomainEffect(h, withEntity, r)
    && OwnersEffect(h, withEntity, r.half)
  }

  ghost predicate LocalMembers(h: Half, key: string, r: Linked) {
    && (forall ke :: Remote(r.half, ke) == Remote(h, ke))
    && (forall ke :: Local(r.half, ke) == Local(h, ke) + if RoutedTo(r.statuses, ke) then {key} else {})
  }

  ghost predicate DomainEffect(h: Half, withEntity: bool, r: Linked) {
    && RoutedExist(r.half, r.statuses, withEntity)
    && h.routes.Keys <= r.half.routes.Keys
    && (forall ke :: ke in r.half.routes && ke !in h.routes ==> RoutedTo(r.statuses, ke))
    && (forall ke :: ke in h.routes && !RoutedTo(r.statuses, ke) ==> r.half.routes[ke].entity == h.routes[ke].entity)
  }

  ghost predicate OwnersEffect(h: Half, withEntity: bool, h': Half) {
    && h.routes.Keys <= h'.routes.Keys
    && (forall ke :: ke in h.routes && (h.routes[ke].entity != 0 || !withEntity) ==> h'.routes[ke].entity == h.routes[ke].entity)
    && (forall ke :: ke in h'.routes && ke !in h.routes && !withEntity ==> h'.routes[ke].entity == 0)
  }

  /** Parts whose route stands already, with its entity if one is asked for, are routed. */
  ghost predicate StandingRouted(u: Setup, h: Half, parts: seq<Option<string>>, withEntity: bool,
          statuses: map<string, RouteStatus>) {
    forall p :: p in parts && Standing(u, h, p, withEntity) ==> Label(p) in statuses && statuses[Label(p)] == Routed(u.Key(p))
  }

  ghost predicate Standing(u: Setup, h: Half, part: Option<string>, withEntity: bool) {
    var ke := u.Key(part);
    u.cfg.Allowed(ke) && ke in h.routes && (withEntity ==> h.routes[ke].entity != 0)
  }

  /** A label is written twice only for equal parts, and a second try never loses a route. */
  lemma StatusStep(u: Setup, parts: seq<Option<string>>, n: nat, h: Half, statuses: map<string, RouteStatus>,
          withEntity: bool, o: Outcome, spec: Spec)
    requires n < |parts| && Homogeneous(parts)
    requires StatusesFor(u, parts[..n], statuses) && RoutedExist(h, statuses, withEntity)
    ensures var status := TryAdd(u.cfg, h, u.Key(parts[n]), withEntity, o, spec).0;
            var after := statuses[Label(parts[n]) := status];
            && StatusesFor(u, parts[..n + 1], after)
            && (forall ke :: RoutedTo(after, ke) <==> RoutedTo(statuses, ke) || status == Routed(ke))
  {
    hide TryAdd, TopicToKeyExpr;
    var part := parts[n];
    var status := TryAdd(u.cfg, h, u.Key(part), withEntity, o, spec).0;
    var after := statuses[Label(part) := status];
    assert parts[..n + 1] == parts[..n] + [part];
    forall ke | RoutedTo(statuses, ke) ensures RoutedTo(after, ke) {
      var l :| l in statuses && statuses[l] == Routed(ke);
      var p :| p in parts[..n] && Label(p) == l;
      if l == Label(part) {
        assert p == part && status == Routed(ke);
      }
      assert after[l] == Routed(ke);
    }
    if status.Routed? {
      assert after[Label(part)] == status;
    }
  }

  lemma StandingStep(u: Setup, parts: seq<Option<string>>, n: nat, h0: Half, h: Half,
          statuses: map<string, RouteStatus>, withEntity: bool, o: Outcome, spec: Spec)
    requires n < |parts| && Homogeneous(parts)
    requires StandingRouted(u, h0, parts[..n], withEntity, statuses)
    requires Standing(u, h0, parts[n], withEntity) ==> Standing(u, h, parts[n], withEntity)
    ensures var status := TryAdd(u.cfg, h, u.Key(parts[n]), withEntity, o, spec).0;
            StandingRouted(u, h0, parts[..n + 1], withEntity, statuses[Label(parts[n]) := status])
  {
    hide TryAdd;
    assert parts[..n + 1] == parts[..n] + [parts[n]];
  }

  lemma LocalMembersStep(u: Setup, h: Half, before: Linked, key: string, ke: string, withEntity: bool, o: Outcome, spec: Spec,
          after: map<string, RouteStatus>)
    requires LocalMembers(h, key, before)
    requires var status := TryAdd(u.cfg, before.half, ke, withEntity, o, spec).0;
             forall k :: RoutedTo(after, k) <==> RoutedTo(before.statuses, k) || status == Routed(k)
    ensures var (status, h1) := TryAdd(u.cfg, before.half, ke, withEntity, o, spec);
            LocalMembers(h, key, Linked(if status.Routed? then AddLocal(h1, ke, key) else h1, after))
  {
    hide TryAdd, AddLocal, RoutedTo, Local, Remote;
    var (status, h1) := TryAdd(u.cfg, before.half, ke, withEntity, o, spec);
    if status.Routed? {
      assert status == Routed(ke);
    }
  }

  lemma DomainStep(u: Setup, h: Half, before: Linked, ke: string, withEntity: bool, o: Outcome, spec: Spec,
          after: map<string, RouteStatus>, h2: Half)
    requires DomainEffect(h, withEntity, before) && OwnersEffect(h, withEntity, before.half)
    requires var (status, h1) := TryAdd(u.cfg, before.half, ke, withEntity, o, spec);
             && (forall k :: RoutedTo(after, k) <==> RoutedTo(before.statuses, k) || status == Routed(k))
             && (forall l :: l in after ==> after[l] == status || (l in before.statuses && after[l] == before.statuses[l]))
             && SameOwners(h1, h2)
    ensures DomainEffect(h, withEntity, Linked(h2, after)) && OwnersEffect(h, withEntity, h2)
  {
    hide TryAdd, RoutedTo, Local, Remote, AddLocal, TopicToKeyExpr, Conserved;
    var (status, h1) := TryAdd(u.cfg, before.half, ke, withEntity, o, spec);
    assert forall k :: k in h1.routes <==> k in before.half.routes || status == Routed(k);
  }

  lemma {:induction false} LinkLocalEffect(u: Setup, make: Template, h: Half, key: string, parts: seq<Option<string>>,
          withEntity: bool, oracle: Oracle)
    requires Homogeneous(parts)
    ensures var r := LinkLocal(u, make, h, key, parts, withEntity, oracle);
            && StatusesFor(u, parts, r.statuses)
            && LocalEffect(h, key, withEntity, r)
            && StandingRouted(u, h, parts, withEntity, r.statuses)
            && (Conserved(h) ==> Conserved(r.half))
  {
    if parts != [] {
      var n := |parts| - 1;
      LinkLocalEffect(u, make, h, key, parts[..n], withEntity, oracle);
      LinkLocalExtend(u, make, h, key, parts, n, withEntity, oracle);
      assert parts[..n + 1] == parts;
    }
  }

  lemma LinkLocalExtend(u: Setup, make: Template, h: Half, key: string, parts: seq<Option<string>>, n: nat,
          withEntity: bool, oracle: Oracle)
    requires n < |parts| && Homogeneous(parts)
    requires var r := LinkLocal(u, make, h, key, parts[..n], withEntity, oracle);
             && StatusesFor(u, parts[..n], r.statuses)
             && LocalEffect(h, key, withEntity, r)
             && StandingRouted(u, h, parts[..n], withEntity, r.statuses)
    ensures var r := LinkLocalStep(u, make, LinkLocal(u, make, h, key, parts[..n], withEntity, oracle),
                               key, parts[n], withEntity, oracle(n));
            && StatusesFor(u, parts[..n + 1], r.statuses)
            && LocalEffect(h, key, withEntity, r)
            && StandingRouted(u, h, parts[..n + 1], withEntity, r.statuses)
  {
    hide LinkLocal, TryAdd, AddLocal, StatusesFor, StandingRouted;
    var before, spec := LinkLocal(u, make, h, key, parts[..n], withEntity, oracle), u.SpecFor(make, parts[n]);
    StatusStep(u, parts, n, before.half, before.statuses, withEntity, oracle(n), spec);
    StandingStep(u, parts, n, h, before.half, before.statuses, withEntity, oracle(n), spec);
    var ke := u.Key(parts[n]);
    var after := LinkLocalStep(u, make, before, key, parts[n], withEntity, oracle(n));
    LocalMembersStep(u, h, before, key, ke, withEntity, oracle(n), spec, after.statuses);
    DomainStep(u, h, before, ke, withEntity, oracle(n), spec, after.statuses, after.half);
  }

  // ---------- an announced remote entity ----------

  /** The local entities an announcement on one part concerns. */
  function Hits(entities: map<string, DdsEntity>, topic: string, part: Option<string>): set<string> {
    set k | k in entities && Concerns(entities[k], topic, part)
  }

  function MarkRouted(entities: map<string, DdsEntity>, hits: set<string>, name: string,
          ke: string): map<string, DdsEntity> {
    map k | k in entities :: if k in hits then entities[k].(routes := entities[k].routes[name := Routed(ke)]) else entities[k]
  }

  /** Notes the remote entity on the route, and every local entity it concerns. */
  function AddRemote(h: Half, ke: string, ref: string, topic: string, part: Option<string>): (h': Half)
    requires ke in h.routes
    ensures SameOwners(h, h')
    ensures forall k :: Remote(h', k) == Remote(h, k) + if k == ke then {ref} else {}
    ensures forall k :: Local(h', k) == Local(h, k) + if k == ke then Hits(h.entities, topic, part) else {}
    ensures SameEntities(h.entities, h'.entities)
    ensures h'.entities == MarkRouted(h.entities, Hits(h.entities, topic, part), Label(part), ke)
    ensures Conserved(h) ==> Conserved(h')
  {
    var r, hits := h.routes[ke], Hits(h.entities, topic, part);
    var h' := h.(routes := h.routes[ke := r.(remote := r.remote + {ref}, local := r.local + hits)],
                 entities := MarkRouted(h.entities, hits, Label(part), ke));
    assert Conserved(h) ==> Conserved(h') by { if Conserved(h) { ConservedSameOwners(h, h'); } }
    h'
  }

  /** Equal but for the route statuses. */
  ghost predicate SameEntities(a: map<string, DdsEntity>, b: map<string, DdsEntity>) {
    a.Keys == b.Keys && forall k :: k in a ==> b[k].(routes := a[k].routes) == a[k]
  }

  /** One route per part, each with a DDS entity. */
  function LinkRemote(u: Setup, make: Template, h: Half, ref: string, parts: seq<Option<string>>, oracle: Oracle): Linked {
    if parts == [] then Linked(h, map[])
    else
      var n := |parts| - 1;
      LinkRemoteStep(u, make, LinkRemote(u, make, h, ref, parts[..n], oracle), ref, parts[n], oracle(n))
  }

  function LinkRemoteStep(u: Setup, make: Template, before: Linked, ref: string, part: Option<string>, o: Outcome): (r: Linked)
    ensures Conserved(before.half) ==> Conserved(r.half)
  {
    var ke := u.Key(part);
    var (status, h1) := TryAdd(u.cfg, before.half, ke, true, o, u.SpecFor(make, part));
    Linked(if status.Routed? then AddRemote(h1, ke, ref, u.topic, part) else h1, before.statuses[Label(part) := status])
  }

  /** The reference is on exactly the routes the statuses name, with all local entities concerned. */
  ghost predicate RemoteEffect(u: Setup, h: Half, ref: string, parts: seq<Option<string>>, r: Linked) {
    && SameEntities(h.entities, r.half.entities)
    && (forall ke :: Remote(r.half, ke) == Remote(h, ke) + if RoutedTo(r.statuses, ke) then {ref} else {})
    && (forall ke :: Local(h, ke) <= Local(r.half, ke) <= Local(h, ke) + h.entities.Keys)
    && (forall p :: p in parts && Label(p) in r.statuses && r.statuses[Label(p)].Routed? ==>
          Hits(h.entities, u.topic, p) <= Local(r.half, u.Key(p)))
    && DomainEffect(h, true, r)
    && OwnersEffect(h, true, r.half)
  }

  lemma {:induction false} LinkRemoteEffect(u: Setup, make: Template, h: Half, ref: string, parts: seq<Option<string>>,
          oracle: Oracle)
    requires Homogeneous(parts)
    ensures var r := LinkRemote(u, make, h, ref, parts, oracle);
            && StatusesFor(u, parts, r.statuses)
            && RemoteEffect(u, h, ref, parts, r)
            && StandingRouted(u, h, parts, true, r.statuses)
            && (Conserved(h) ==> Conserved(r.half))
  {
    if parts != [] {
      var n := |parts| - 1;
      LinkRemoteEffect(u, make, h, ref, parts[..n], oracle);
      LinkRemoteExtend(u, make, h, ref, parts, n, oracle);
      assert parts[..n + 1] == parts;
    }
  }

  lemma LinkRemoteExtend(u: Setup, make: Template, h: Half, ref: string, parts: seq<Option<string>>, n: nat, oracle: Oracle)
    requires n < |parts| && Homogeneous(parts)
    requires var r := LinkRemote(u, make, h, ref, parts[..n], oracle);
             && StatusesFor(u, parts[..n], r.statuses)
             && RemoteEffect(u, h, ref, parts[..n], r)
             && StandingRouted(u, h, parts[..n], true, r.statuses)
    ensures var r := LinkRemoteStep(u, make, LinkRemote(u, make, h, ref, parts[..n], oracle), ref, parts[n], oracle(n));
            && StatusesFor(u, parts[..n + 1], r.statuses)
            && RemoteEffect(u, h, ref, parts[..n + 1], r)
            && StandingRouted(u, h, parts[..n + 1], true, r.statuses)
  {
    hide LinkRemote, TryAdd, AddRemote, StatusesFor, StandingRouted, DomainEffect, RemoteEffect;
    var before, spec := LinkRemote(u, make, h, ref, parts[..n], oracle), u.SpecFor(make, parts[n]);
    RemoteEffectParts(u, h, ref, parts[..n], before);
    StatusStep(u, parts, n, before.half, before.statuses, true, oracle(n), spec);
    StandingStep(u, parts, n, h, before.half, before.statuses, true, oracle(n), spec);
    var ke := u.Key(parts[n]);
    var after := LinkRemoteStep(u, make, before, ref, parts[n], oracle(n));
    DomainStep(u, h, before, ke, true, oracle(n), spec, after.statuses, after.half);
    RemoteMembersStep(u, make, h, before, ref, parts, n, oracle(n));
  }

  lemma RemoteEffectParts(u: Setup, h: Half, ref: string, parts: seq<Option<string>>, r: Linked)
    requires RemoteEffect(u, h, ref, parts, r)
    ensures DomainEffect(h, true, r) && OwnersEffect(h, true, r.half) && RoutedExist(r.half, r.statuses, true)
  {
  }

  lemma RemoteMembersStep(u: Setup, make: Template, h: Half, before: Linked, ref: string, parts: seq<Option<string>>,
          n: nat, o: Outcome)
    requires n < |parts|
    requires RemoteEffect(u, h, ref, parts[..n], before)
    requires var after := LinkRemoteStep(u, make, before, ref, parts[n], o);
             && DomainEffect(h, true, after) && OwnersEffect(h, true, after.half)
             && var status := TryAdd(u.cfg, before.half, u.Key(parts[n]), true, o, u.SpecFor(make, parts[n])).0;
             && (forall k :: RoutedTo(after.statuses, k) <==> RoutedTo(before.statuses, k) || status == Routed(k))
             && (forall p :: p in parts[..n] && Label(p) == Label(parts[n]) ==> p == parts[n])
    ensures RemoteEffect(u, h, ref, parts[..n + 1], LinkRemoteStep(u, make, before, ref, parts[n], o))
  {
    var ke := u.Key(parts[n]);
    var (status, h1) := TryAdd(u.cfg, before.half, ke, true, o, u.SpecFor(make, parts[n]));
    var after := LinkRemoteStep(u, make, before, ref, parts[n], o);
    assert SameEntities(h.entities, before.half.entities);
    hide *;
    HitsOfStep(u, make, h, before, ref, parts[n], o);
    RemoteEffectGrows(u, h, before, ref, parts, n, status, after);
  }

  lemma RemoteEffectGrows(u: Setup, h: Half, before: Linked, ref: string, parts: seq<Option<string>>, n: nat, status: RouteStatus,
          after: Linked)
    requires n < |parts| && RemoteEffect(u, h, ref, parts[..n], before)
    requires DomainEffect(h, true, after) && OwnersEffect(h, true, after.half) && SameEntities(h.entities, after.half.entities)
    requires forall k :: RoutedTo(after.statuses, k) <==> RoutedTo(before.statuses, k) || status == Routed(k)
    requires forall p :: p in parts[..n] && Label(p) == Label(parts[n]) ==> p == parts[n]
    requires after.statuses == before.statuses[Label(parts[n]) := status] && (status.Routed? ==> status.ke == u.Key(parts[n]))
    requires forall ke :: Remote(after.half, ke) == Remote(before.half, ke) + if status == Routed(ke) then {ref} else {}
    requires var hits := Hits(h.entities, u.topic, parts[n]);
             hits <= h.entities.Keys &&
             forall ke :: Local(after.half, ke) == Local(before.half, ke) + if status == Routed(ke) then hits else {}
    ensures RemoteEffect(u, h, ref, parts[..n + 1], after)
  {
    hide RoutedTo, Local, Remote, Hits, DomainEffect, OwnersEffect, SameEntities, TopicToKeyExpr;
    assert parts[..n + 1] == parts[..n] + [parts[n]];
    forall p | p in parts[..n + 1] && Label(p) in after.statuses && after.statuses[Label(p)].Routed?
      ensures Hits(h.entities, u.topic, p) <= Local(after.half, u.Key(p))
    {
      if p != parts[n] { assert p in parts[..n] && after.statuses[Label(p)] == before.statuses[Label(p)]; }
    }
  }

  /** What one more part adds, on keys and statuses only. */
  lemma HitsOfStep(u: Setup, make: Template, h: Half, before: Linked, ref: string, part: Option<string>, o: Outcome)
    requires SameEntities(h.entities, before.half.entities)
    ensures var status := TryAdd(u.cfg, before.half, u.Key(part), true, o, u.SpecFor(make, part)).0;
            var after := LinkRemoteStep(u, make, before, ref, part, o);
            && after.statuses == before.statuses[Label(part) := status]
            && SameEntities(h.entities, after.half.entities)
            && (forall ke :: Remote(after.half, ke) == Remote(before.half, ke) + if status == Routed(ke) then {ref} else {})
            && (forall ke :: Local(after.half, ke) ==
                  Local(before.half, ke) + if status == Routed(ke) then Hits(h.entities, u.topic, part) else {})
            && Hits(h.entities, u.topic, part) <= h.entities.Keys && (status.Routed? ==> status.ke == u.Key(part))
  {
    hide TryAdd, AddRemote, Local, Remote, Hits, Conserved, TopicToKeyExpr;
    var (status, h1) := TryAdd(u.cfg, before.half, u.Key(part), true, o, u.SpecFor(make, part));
    var after := LinkRemoteStep(u, make, before, ref, part, o);
    SameHits(h.entities, before.half.entities, u.topic, part);
    if status.Routed? { assert SameEntities(h1.entities, after.half.entities); }
  }

  lemma SameHits(a: map<string, DdsEntity>, b: map<string, DdsEntity>, topic: string, part: Option<string>)
    requires SameEntities(a, b)
    ensures Hits(a, topic, part) == Hits(b, topic, part) <= a.Keys
  {
  }

  /** The announcement concerned this local entity on this part, and the part got its route. */
  ghost predicate NotedOn(u: Setup, h: Half, parts: seq<Option<string>>, statuses: map<string, RouteStatus>, k: string,
          p: Option<string>)
  {
    p in parts && Label(p) in statuses && statuses[Label(p)].Routed? && k in Hits(h.entities, u.topic, p)
  }

  ghost predicate NotedUnder(u: Setup, h: Half, parts: seq<Option<string>>, statuses: map<string, RouteStatus>, k: string,
          n: string) {
    exists p :: NotedOn(u, h, parts, statuses, k, p) && Label(p) == n
  }

  ghost predicate NotedAt(u: Setup, h: Half, parts: seq<Option<string>>, statuses: map<string, RouteStatus>, k: string,
          ke: string) {
    exists p :: NotedOn(u, h, parts, statuses, k, p) && u.Key(p) == ke
  }

  /** Only the last part is new: it is noted or not as its status says. */
  lemma NotedStep(u: Setup, h: Half, parts: seq<Option<string>>, i: nat, before: map<string, RouteStatus>,
          status: RouteStatus, k: string,
          p: Option<string>)
    requires i < |parts| && Homogeneous(parts)
    requires parts[i] in parts[..i] && Label(parts[i]) in before && before[Label(parts[i])].Routed? ==> status.Routed?
    ensures NotedOn(u, h, parts[..i + 1], before[Label(parts[i]) := status], k, p) <==>
            NotedOn(u, h, parts[..i], before, k, p) || (p == parts[i] && status.Routed? && k in Hits(h.entities, u.topic, p))
  {
    hide Hits;
    assert parts[..i + 1] == parts[..i] + [parts[i]];
  }

  /** A second try on a part that is routed cannot fail. */
  lemma TriedAgain(u: Setup, make: Template, h: Half, ref: string, parts: seq<Option<string>>, i: nat, oracle: Oracle)
    requires i < |parts| && Homogeneous(parts)
    ensures var before := LinkRemote(u, make, h, ref, parts[..i], oracle);
            var status := TryAdd(u.cfg, before.half, u.Key(parts[i]), true, oracle(i), u.SpecFor(make, parts[i])).0;
            parts[i] in parts[..i] && Label(parts[i]) in before.statuses && before.statuses[Label(parts[i])].Routed? ==>
              status.Routed?
  {
    var before := LinkRemote(u, make, h, ref, parts[..i], oracle);
    LinkRemoteEffect(u, make, h, ref, parts[..i], oracle);
    assert RoutedExist(before.half, before.statuses, true);
    hide *;
    if parts[i] in parts[..i] && Label(parts[i]) in before.statuses && before.statuses[Label(parts[i])].Routed? {
      RoutedAgain(u, before.half, parts[..i], before.statuses, parts[i], oracle(i), u.SpecFor(make, parts[i]));
    }
  }

  lemma RoutedAgain(u: Setup, h: Half, parts: seq<Option<string>>, statuses: map<string, RouteStatus>, p: Option<string>,
          o: Outcome, spec: Spec)
    requires StatusesFor(u, parts, statuses) && RoutedExist(h, statuses, true)
    requires p in parts && Label(p) in statuses && statuses[Label(p)].Routed?
    ensures TryAdd(u.cfg, h, u.Key(p), true, o, spec).0.Routed?
  {
    hide TryAdd, TopicToKeyExpr;
    assert StatusFor(u, p, statuses[Label(p)]);
  }

  lemma LinkRemoteLast(u: Setup, make: Template, h: Half, ref: string, parts: seq<Option<string>>, i: nat, oracle: Oracle)
    requires i < |parts|
    ensures var before := LinkRemote(u, make, h, ref, parts[..i], oracle);
            var status := TryAdd(u.cfg, before.half, u.Key(parts[i]), true, oracle(i), u.SpecFor(make, parts[i])).0;
            && (LinkRemote(u, make, h, ref, parts[..i + 1], oracle).statuses == before.statuses[Label(parts[i]) := status])
            && LinkRemote(u, make, h, ref, parts[..i + 1], oracle) == LinkRemoteStep(u, make, before, ref, parts[i], oracle(i))
  {
    hide TryAdd, AddRemote, TopicToKeyExpr, Conserved;
    assert parts[..i + 1][..i] == parts[..i];
  }

  /** After an announcement, the local entities on a route are those there before and those noted on a part with its key. */
  lemma {:induction false} LinkRemoteLocals(u: Setup, make: Template, h: Half, ref: string, parts: seq<Option<string>>,
          oracle: Oracle,
          ke: string, k: string)
    requires Homogeneous(parts)
    ensures var r := LinkRemote(u, make, h, ref, parts, oracle);
            k in Local(r.half, ke) <==> k in Local(h, ke) || NotedAt(u, h, parts, r.statuses, k, ke)
  {
    if parts != [] {
      var i := |parts| - 1;
      assert parts[..i + 1] == parts;
      LinkRemoteLocals(u, make, h, ref, parts[..i], oracle, ke, k);
      TriedAgain(u, make, h, ref, parts, i, oracle);
      LinkRemoteLast(u, make, h, ref, parts, i, oracle);
      LocalsStep(u, make, h, ref, parts, i, oracle, ke, k);
      hide LinkRemote, LinkRemoteStep, Local, Hits, NotedOn, TryAdd, TopicToKeyExpr;
      var before, r := LinkRemote(u, make, h, ref, parts[..i], oracle), LinkRemote(u, make, h, ref, parts, oracle);
      var status := TryAdd(u.cfg, before.half, u.Key(parts[i]), true, oracle(i), u.SpecFor(make, parts[i])).0;
      forall p ensures NotedOn(u, h, parts, r.statuses, k, p) <==>
                       NotedOn(u, h, parts[..i], before.statuses, k, p)
                       || (p == parts[i] && status.Routed? && k in Hits(h.entities, u.topic, p))
      {
        NotedStep(u, h, parts, i, before.statuses, status, k, p);
      }
    }
  }

  /** What an announcement leaves of the statuses of a local entity: those noted are `Routed`, the others as they were. */
  ghost predicate StatusUnder(u: Setup, h: Half, parts: seq<Option<string>>, r: Linked, k: string, n: string)
    requires k in h.entities
  {
    k in r.half.entities &&
    var was, now := h.entities[k].routes, r.half.entities[k].routes;
    if NotedUnder(u, h, parts, r.statuses, k, n) then
      n in now && forall p :: NotedOn(u, h, parts, r.statuses, k, p) && Label(p) == n ==> now[n] == Routed(u.Key(p))
    else (n in now <==> n in was) && (n in was ==> now[n] == was[n])
  }

  lemma {:induction false} LinkRemoteStatuses(u: Setup, make: Template, h: Half, ref: string, parts: seq<Option<string>>,
          oracle: Oracle,
          k: string, n: string)
    requires Homogeneous(parts) && k in h.entities
    ensures StatusUnder(u, h, parts, LinkRemote(u, make, h, ref, parts, oracle), k, n)
  {
    if parts != [] {
      var i := |parts| - 1;
      assert parts[..i + 1] == parts;
      LinkRemoteStatuses(u, make, h, ref, parts[..i], oracle, k, n);
      TriedAgain(u, make, h, ref, parts, i, oracle);
      LinkRemoteLast(u, make, h, ref, parts, i, oracle);
      StatusesStep(u, make, h, ref, parts, i, oracle, k, n);
      var before, r := LinkRemote(u, make, h, ref, parts[..i], oracle), LinkRemote(u, make, h, ref, parts, oracle);
      var status := TryAdd(u.cfg, before.half, u.Key(parts[i]), true, oracle(i), u.SpecFor(make, parts[i])).0;
      hide *;
      forall p ensures NotedOn(u, h, parts, r.statuses, k, p) <==>
                       NotedOn(u, h, parts[..i], before.statuses, k, p)
                       || (p == parts[i] && status.Routed? && k in Hits(h.entities, u.topic, p))
      {
        NotedStep(u, h, parts, i, before.statuses, status, k, p);
      }
      LabelsApart(u, h, parts, i, before.statuses, k);
      StatusUnderNext(u, h, parts, i, before, r, status, k, n);
    }
  }

  lemma StatusUnderNext(u: Setup, h: Half, parts: seq<Option<string>>, i: nat, before: Linked, after: Linked, status: RouteStatus,
          k: string, n: string)
    requires i < |parts| && k in h.entities && StatusUnder(u, h, parts[..i], before, k, n) && k in after.half.entities
    requires forall p :: NotedOn(u, h, parts, after.statuses, k, p) <==>
                         NotedOn(u, h, parts[..i], before.statuses, k, p)
                         || (p == parts[i] && status.Routed? && k in Hits(h.entities, u.topic, p))
    requires forall p :: NotedOn(u, h, parts[..i], before.statuses, k, p) && Label(p) == Label(parts[i]) ==> p == parts[i]
    requires var was, now := before.half.entities[k].routes, after.half.entities[k].routes;
             if status.Routed? && n == Label(parts[i]) && k in Hits(h.entities, u.topic, parts[i]) then
               n in now && now[n] == Routed(u.Key(parts[i]))
             else (n in now <==> n in was) && (n in was ==> now[n] == was[n])
    ensures StatusUnder(u, h, parts, after, k, n)
  {
    hide NotedOn, Hits, TopicToKeyExpr;
  }

  lemma LabelsApart(u: Setup, h: Half, parts: seq<Option<string>>, i: nat, before: map<string, RouteStatus>, k: string)
    requires i < |parts| && Homogeneous(parts)
    ensures forall p :: NotedOn(u, h, parts[..i], before, k, p) && Label(p) == Label(parts[i]) ==> p == parts[i]
  {
  }

  lemma StatusesStep(u: Setup, make: Template, h: Half, ref: string, parts: seq<Option<string>>, i: nat, oracle: Oracle,
          k: string, n: string)
    requires i < |parts| && Homogeneous(parts) && k in h.entities
    ensures var before := LinkRemote(u, make, h, ref, parts[..i], oracle);
            var after := LinkRemoteStep(u, make, before, ref, parts[i], oracle(i));
            var status := TryAdd(u.cfg, before.half, u.Key(parts[i]), true, oracle(i), u.SpecFor(make, parts[i])).0;
            && k in before.half.entities && k in after.half.entities
            && var was, now := before.half.entities[k].routes, after.half.entities[k].routes;
            if status.Routed? && n == Label(parts[i]) && k in Hits(h.entities, u.topic, parts[i]) then
              n in now && now[n] == Routed(u.Key(parts[i]))
            else (n in now <==> n in was) && (n in was ==> now[n] == was[n])
  {
    LinkRemoteEffect(u, make, h, ref, parts[..i], oracle);
    hide LinkRemote, StatusesFor, StandingRouted, DomainEffect, OwnersEffect, TopicToKeyExpr, TryAdd,
      AddRemote, Hits, Local, Conserved;
    var before := LinkRemote(u, make, h, ref, parts[..i], oracle);
    SameHits(h.entities, before.half.entities, u.topic, parts[i]);
  }

  lemma LocalsStep(u: Setup, make: Template, h: Half, ref: string, parts: seq<Option<string>>, i: nat, oracle: Oracle,
          ke: string, k: string)
    requires i < |parts| && Homogeneous(parts)
    ensures var before := LinkRemote(u, make, h, ref, parts[..i], oracle);
            var status := TryAdd(u.cfg, before.half, u.Key(parts[i]), true, oracle(i), u.SpecFor(make, parts[i])).0;
            k in Local(LinkRemoteStep(u, make, before, ref, parts[i], oracle(i)).half, ke) <==>
            k in Local(before.half, ke) || (status.Routed? && u.Key(parts[i]) == ke && k in Hits(h.entities, u.topic, parts[i]))
  {
    LinkRemoteEffect(u, make, h, ref, parts[..i], oracle);
    hide LinkRemote, StatusesFor, StandingRouted, DomainEffect, OwnersEffect, TopicToKeyExpr, TryAdd,
      AddRemote, Hits, Local, Conserved;
    var before := LinkRemote(u, make, h, ref, parts[..i], oracle);
    SameHits(h.entities, before.half.entities, u.topic, parts[i]);
  }

  // ---------- sweeps over all routes ----------

  /** What a sweep takes off each route. */
  datatype Cut = CutLocal(key: string) | CutRemote(ref: string) | CutContaining(sub: string)
  {
    function Apply(r: Route): Route {
      match this
      case CutLocal(key) => r.(local := r.local - {key})
      case CutRemote(ref) => r.(remote := r.remote - {ref})
      case CutContaining(sub) => r.(remote := set x | x in r.remote && !Contains(x, sub))
    }
  }

  /** What a route needs to survive a sweep. */
  datatype Need = NeedLocal | NeedRemote | NeedEither
  {
    predicate Met(r: Route) {
      match this
      case NeedLocal => r.local != {}
      case NeedRemote => r.remote != {}
      case NeedEither => r.local != {} || r.remote != {}
    }
  }

  /** With `release`, a route left without remote entity also gives up its DDS entity. */
  function Swept(r: Route, cut: Cut, release: bool): Route {
    var r' := cut.Apply(r);
    if release && r'.remote == {} then r'.(entity := 0) else r'
  }

  predicate Survives(r: Route, cut: Cut, need: Need, release: bool) {
    need.Met(Swept(r, cut, release))
  }

  predicate GivesUp(r: Route, cut: Cut, need: Need, release: bool) {
    !Survives(r, cut, need, release) || Swept(r, cut, release).entity == 0
  }

  /** The handles a sweep deletes: those of dropped routes and those released. */
  function Released(routes: map<string, Route>, cut: Cut, need: Need, release: bool): set<int> {
    set ke | ke in routes && GivesUp(routes[ke], cut, need, release) :: routes[ke].entity
  }

  /** Is this member of a route taken off? */
  predicate Cuts(cut: Cut, remote: bool, x: string) {
    match cut
    case CutLocal(key) => !remote && x == key
    case CutRemote(ref) => remote && x == ref
    case CutContaining(sub) => remote && Contains(x, sub)
  }

  function Sweep(h: Half, cut: Cut, need: Need, release: bool): (h': Half)
    ensures h'.entities == h.entities && h'.issued == h.issued
    ensures Conserved(h) ==> Conserved(h')
  {
    var h' := h.(routes := map ke | ke in h.routes && Survives(h.routes[ke], cut, need, release) ::
                                   Swept(h.routes[ke], cut, release),
                 live := h.live - Released(h.routes, cut, need, release));
    assert Conserved(h) ==> Conserved(h') by { if Conserved(h) { SweepConserves(h, cut, need, release, h'); } }
    h'
  }

  /** Deleting exactly the entities whose routes went away or gave them up keeps the accounts. */
  lemma ReleaseConserves(h: Half, h': Half)
    requires Conserved(h) && h'.issued == h.issued
    requires forall ke :: ke in h'.routes ==>
               ke in h.routes && (h'.routes[ke].entity == h.routes[ke].entity || h'.routes[ke].entity == 0)
    requires forall x :: x in h'.live ==> x in h.live && h'.live[x] == h.live[x]
    requires forall ke :: ke in h.routes && h.routes[ke].entity in h.live ==>
               (h.routes[ke].entity in h'.live <==> ke in h'.routes && h'.routes[ke].entity != 0)
    ensures Conserved(h')
  {
    assert LiveOwned(h') by {
      hide OwnersLive, OwnersDistinct;
      forall x | x in h'.live ensures x > 0 && h'.live[x] in h'.issued && exists k :: Owns(h', k, x) {
        var k :| Owns(h, k, x);
        OwnerStays(h, h', k, x);
      }
    }
    assert OwnersDistinct(h') by { hide LiveOwned, OwnersLive, Owns; }
    assert OwnersLive(h') by { hide LiveOwned, OwnersDistinct, Owns; }
    hide LiveOwned, OwnersLive, OwnersDistinct, Owns;
  }

  /**
  A sweep in terms of members: a route stays if and only if one of those it needs is left, with exactly those left; and
  a DDS entity lives on if and only if its route stays and, where releasing is asked for, keeps a remote member.
  */
  lemma SweepOutcome(h: Half, cut: Cut, need: Need, release: bool, ke: string)
    ensures var h' := Sweep(h, cut, need, release);
            && (ke in h'.routes <==>
                  || (need != NeedRemote && exists x :: x in Local(h, ke) && !Cuts(cut, false, x))
                  || (need != NeedLocal && exists x :: x in Remote(h, ke) && !Cuts(cut, true, x)))
            && (ke in h'.routes ==> forall x ::
                  (x in Local(h', ke) <==> x in Local(h, ke) && !Cuts(cut, false, x))
                  && (x in Remote(h', ke) <==> x in Remote(h, ke) && !Cuts(cut, true, x)))
    ensures Conserved(h) && ke in h.routes && h.routes[ke].entity != 0 ==>
              var h' := Sweep(h, cut, need, release);
              h.routes[ke].entity in h'.live <==> ke in h'.routes && (release ==> Remote(h', ke) != {})
  {
    SweepMembers(h, cut, need, release, ke);
    if Conserved(h) && ke in h.routes && h.routes[ke].entity != 0 { SweepLives(h, cut, need, release, ke); }
  }

  lemma SweepMembers(h: Half, cut: Cut, need: Need, release: bool, ke: string)
    ensures var h' := Sweep(h, cut, need, release);
            && (ke in h'.routes <==>
                  || (need != NeedRemote && exists x :: x in Local(h, ke) && !Cuts(cut, false, x))
                  || (need != NeedLocal && exists x :: x in Remote(h, ke) && !Cuts(cut, true, x)))
            && (ke in h'.routes ==> forall x ::
                  (x in Local(h', ke) <==> x in Local(h, ke) && !Cuts(cut, false, x))
                  && (x in Remote(h', ke) <==> x in Remote(h, ke) && !Cuts(cut, true, x)))
  {
    hide Conserved, Contains;
    if ke in h.routes {
      CutMembers(h.routes[ke], cut);
      var h' := Sweep(h, cut, need, release);
      assert ke in h'.routes <==> need.Met(cut.Apply(h.routes[ke]));
      assert ke in h'.routes ==>
        Local(h', ke) == cut.Apply(h.routes[ke]).local && Remote(h', ke) == cut.Apply(h.routes[ke]).remote;
      hide Sweep, Cuts;
    }
  }

  lemma CutMembers(r: Route, cut: Cut)
    ensures forall x :: x in cut.Apply(r).local <==> x in r.local && !Cuts(cut, false, x)
    ensures forall x :: x in cut.Apply(r).remote <==> x in r.remote && !Cuts(cut, true, x)
  {
  }

  lemma SweepLives(h: Half, cut: Cut, need: Need, release: bool, ke: string)
    requires Conserved(h) && ke in h.routes && h.routes[ke].entity != 0
    ensures var h' := Sweep(h, cut, need, release);
            h.routes[ke].entity in h'.live <==> ke in h'.routes && (release ==> Remote(h', ke) != {})
  {
    var x, gone := h.routes[ke].entity, Released(h.routes, cut, need, release);
    assert x in h.live;
    if x in gone {
      var k :| k in h.routes && GivesUp(h.routes[k], cut, need, release) && x == h.routes[k].entity;
      assert k == ke;
    } else {
      assert !GivesUp(h.routes[ke], cut, need, release);
    }
  }

  lemma OwnerStays(h: Half, h': Half, ke: string, x: int)
    requires Owns(h, ke, x) && x in h.live && x in h'.live
    requires x in h'.live <==> ke in h'.routes && h'.routes[ke].entity != 0
    requires ke in h'.routes ==> h'.routes[ke].entity == x || h'.routes[ke].entity == 0
    ensures Owns(h', ke, x)
  {
  }

  lemma SweepConserves(h: Half, cut: Cut, need: Need, release: bool, h': Half)
    requires Conserved(h)
    requires h'.issued == h.issued
    requires h'.routes == map ke | ke in h.routes && Survives(h.routes[ke], cut, need, release) ::
                            Swept(h.routes[ke], cut, release)
    requires h'.live == h.live - Released(h.routes, cut, need, release)
    ensures Conserved(h')
  {
    hide Survives;
    assert forall r: Route :: Swept(r, cut, release).entity == r.entity || Swept(r, cut, release).entity == 0;
    hide Swept;
    var gone := Released(h.routes, cut, need, release);
    forall ke | ke in h.routes && h.routes[ke].entity in h.live
      ensures h.routes[ke].entity in h'.live <==> ke in h'.routes && h'.routes[ke].entity != 0
    {
      var x := h.routes[ke].entity;
      if x in gone {
        var k :| k in h.routes && GivesUp(h.routes[k], cut, need, release) && x == h.routes[k].entity;
        assert k == ke;
      } else {
        assert Survives(h.routes[ke], cut, need, release) && Swept(h.routes[ke], cut, release).entity != 0;
      }
    }
    ReleaseConserves(h, h');
  }
}
