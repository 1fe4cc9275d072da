/**
One direction of a bridge, as values: the discovered entities of one kind, the routes that serve them
and the DDS entities those routes own. The from-DDS direction holds discovered writers, routes and the
readers of the routes; the to-DDS direction holds discovered readers, routes and their writers.
*/
module Bridge {
  import opened Wrappers
  import opened QosTypes
  import opened QosAdaptation
  import opened KeyExprs

  /** The regular expressions of the configuration are fixed predicates on keys; `periodic` are the keys with a read period. */
  datatype Config = Config(
    zid: string, scope: Option<string>, forwardDiscovery: bool, allow: Option<string -> bool>, deny: Option<string -> bool>,
    periodic: string -> bool)
  {
    predicate Allowed(ke: string) {
      !(forwardDiscovery && EndsWith(ke, ROS_DISCOVERY_INFO))
      && (allow.Some? ==> allow.value(ke))
      && (deny.Some? ==> !deny.value(ke))
    }
  }

  datatype RouteStatus = Routed(ke: string) | NotAllowed | CreationFailure

  /** `routes` tells the status per partition, under `*` if there is no partition. */
  datatype DdsEntity = DdsEntity(
    key: string, participantKey: string, topic: string, typeName: string, keyless: bool, qos: Qos,
    routes: map<string, RouteStatus>)
  {
    function Parts(): seq<Option<string>> {
      PartitionList(qos.partition)
    }

    /** Equal in all that was discovered, route statuses aside. */
    predicate SameContent(e: DdsEntity) {
      this == e.(routes := routes)
    }

    /** What a DDS key determines once and for all. */
    predicate SameIdentity(e: DdsEntity) {
      key == e.key && participantKey == e.participantKey && topic == e.topic && qos.partition == e.qos.partition
    }
  }

  function Label(part: Option<string>): string {
    if part.None? then "*" else part.value
  }

  /** An entity matches with respect to topic name and partition only. */
  predicate Concerns(e: DdsEntity, topic: string, part: Option<string>) {
    e.topic == topic && if part.None? then PartitionIsEmpty(e.qos.partition) else PartitionContains(e.qos.partition, part.value)
  }

  /** `entity` is the handle of the route's own DDS reader or writer; 0 stands for none. */
  datatype Route = Route(entity: int, remote: set<string>, local: set<string>)

  /**
  `live` gives the GUID of each DDS entity the routes created and did not delete. `issued` has all GUIDs
  ever, each with what its entity was created from.
  */
  datatype Half = Half(
    entities: map<string, DdsEntity>, routes: map<string, Route>, live: map<int, string>, issued: map<string, Spec>)

  /** What DDS and zenoh answer to one attempt to create a route. */
  datatype Outcome = Outcome(sessionOk: bool, entity: Option<(int, string)>)

  type Oracle = nat -> Outcome

  /** DDS hands out positive handles that are not live, and GUIDs never seen before; anything else is a failure. */
  predicate Accepts(h: Half, o: Outcome) {
    o.entity.Some? && o.entity.value.0 > 0 && o.entity.value.0 !in h.live && o.entity.value.1 !in h.issued
  }

  function Local(h: Half, ke: string): set<string> {
    if ke in h.routes then h.routes[ke].local else {}
  }

  function Remote(h: Half, ke: string): set<string> {
    if ke in h.routes then h.routes[ke].remote else {}
  }

  // ---------- conservation ----------

  ghost predicate Owns(h: Half, ke: string, x: int) {
    ke in h.routes && h.routes[ke].entity == x
  }

  ghost predicate OwnersLive(h: Half) {
    forall ke :: ke in h.routes && h.routes[ke].entity != 0 ==> h.routes[ke].entity in h.live
  }

  ghost predicate LiveOwned(h: Half) {
    forall x :: x in h.live ==> x > 0 && h.live[x] in h.issued && exists ke :: Owns(h, ke, x)
  }

  ghost predicate OwnersDistinct(h: Half) {
    forall a, b :: a in h.routes && b in h.routes && h.routes[a].entity == h.routes[b].entity != 0 ==> a == b
  }

  ghost predicate GuidsDistinct(h: Half) {
    forall x, y :: x in h.live && y in h.live && h.live[x] == h.live[y] ==> x == y
  }

  /** The live entities are exactly those the routes own, one each, and no two share a GUID. */
  ghost predicate Conserved(h: Half) {
    OwnersLive(h) && LiveOwned(h) && OwnersDistinct(h) && GuidsDistinct(h)
  }

  function Install(h: Half, ke: string, r: Route, o: Outcome, spec: Spec): Half
    requires o.entity.Some?
  {
    var (handle, guid) := o.entity.value;
    h.(routes := h.routes[ke := r.(entity := handle)], live := h.live[handle := guid], issued := h.issued[guid := spec])
  }

  // ---------- adding routes ----------

  /**
  Adds the route for `ke` unless it exists. `withEntity` asks for a DDS entity on the route, created
  now if the route has none. A failure leaves nothing behind.
  */
  function TryAdd(cfg: Config, h: Half, ke: string, withEntity: bool, o: Outcome, spec: Spec): (r: (RouteStatus, Half))
    ensures r.1.entities == h.entities
    ensures r.0 == NotAllowed <==> !cfg.Allowed(ke)
    ensures r.0 != Routed(ke) ==> r.1 == h && (r.0 == NotAllowed || r.0 == CreationFailure)
    ensures r.0 == Routed(ke) ==> ke in r.1.routes && (withEntity ==> r.1.routes[ke].entity != 0)
    ensures r.1.routes.Keys == h.routes.Keys + if r.0 == Routed(ke) then {ke} else {}
    ensures forall k :: Local(r.1, k) == Local(h, k) && Remote(r.1, k) == Remote(h, k)
    ensures forall k :: k in h.routes && (k != ke || h.routes[k].entity != 0) ==> r.1.routes[k] == h.routes[k]
    ensures ke in h.routes && cfg.Allowed(ke) && (withEntity ==> h.routes[ke].entity != 0) ==> r.0 == Routed(ke)
    ensures !withEntity && r.0 == Routed(ke) && ke !in h.routes ==> r.1.routes[ke].entity == 0
    ensures !withEntity ==> forall k :: k in h.routes ==> r.1.routes[k] == h.routes[k]
    ensures Conserved(h) ==> Conserved(r.1)
  {
    if !cfg.Allowed(ke) then (NotAllowed, h)
    else if ke in h.routes then
      if withEntity && h.routes[ke].entity == 0 then
        if Accepts(h, o) then Installed(h, ke, h.routes[ke], o, spec) else (CreationFailure, h)
      else (Routed(ke), h)
    else if !o.sessionOk then (CreationFailure, h)
    else if !withEntity then
      var h' := h.(routes := h.routes[ke := Route(0, {}, {})]);
      assert Conserved(h) ==> Conserved(h') by { if Conserved(h) { ConservedSameOwners(h, h'); } }
      (Routed(ke), h')
    else if Accepts(h, o) then Installed(h, ke, Route(0, {}, {}), o, spec)
    else (CreationFailure, h)
  }

  function Installed(h: Half, ke: string, r: Route, o: Outcome, spec: Spec): (s: (RouteStatus, Half))
    requires Accepts(h, o) && r.entity == 0
    requires ke in h.routes ==> h.routes[ke] == r
    ensures s == (Routed(ke), Install(h, ke, r, o, spec))
    ensures Conserved(h) ==> Conserved(s.1)
  {
    assert Conserved(h) ==> Conserved(Install(h, ke, r, o, spec)) by {
      if Conserved(h) { InstallConserves(h, ke, r, o, spec); }
    }
    (Routed(ke), Install(h, ke, r, o, spec))
  }

  lemma InstallConserves(h: Half, ke: string, r: Route, o: Outcome, spec: Spec)
    requires Conserved(h) && Accepts(h, o) && r.entity == 0
    requires ke in h.routes ==> h.routes[ke] == r
    ensures Conserved(Install(h, ke, r, o, spec))
  {
    var h' := Install(h, ke, r, o, spec);
    forall x | x in h'.live ensures x > 0 && h'.live[x] in h'.issued && exists k :: Owns(h', k, x) {
      if x == o.entity.value.0 {
        assert Owns(h', ke, x);
      } else {
        var k :| Owns(h, k, x);
        assert Owns(h', k, x);
      }
    }
  }

  /** Conservation speaks of the owners only. */
  lemma ConservedSameOwners(h: Half, h': Half)
    requires Conserved(h) && h'.live == h.live && h.issued.Keys <= h'.issued.Keys
    requires forall ke :: ke in h.routes ==> ke in h'.routes && h'.routes[ke].entity == h.routes[ke].entity
    requires forall ke :: ke in h'.routes && ke !in h.routes ==> h'.routes[ke].entity == 0
    ensures Conserved(h')
  {
    forall x | x in h'.live ensures x > 0 && h'.live[x] in h'.issued && exists k :: Owns(h', k, x) {
      var k :| Owns(h, k, x);
      assert Owns(h', k, x);
    }
  }

  lemma EntitiesApart(h: Half, entities: map<string, DdsEntity>)
    requires Conserved(h)
    ensures Conserved(h.(entities := entities))
  {
    ConservedSameOwners(h, h.(entities := entities));
  }
}
