/**
The bridge as the program keeps it: maps that events update in place, route objects changed one at a time,
and DDS entities created and deleted along the way. Each event is proved to do what the specification
of its mode says.
*/
module Runtime {
  import opened Wrappers
  import opened QosAdaptation
  import opened KeyExprs
  import opened BridgeKeys
  import opened Bridge
  import opened Linking
  import opened BridgeState
  import opened LocalMode
  import opened RosGraph
  import opened ForwardMode
  import opened ForwardRuns
  import opened Sweeps
  import opened DdsLibrary
  import opened Routes
  import opened RosDiscovery
  import opened Departures

  ghost function FromViews(routes: map<string, RouteDDSZenoh>): (v: map<string, Route>)
    reads routes.Values
    ensures v.Keys == routes.Keys
  {
    map ke | ke in routes :: routes[ke].View()
  }

  ghost function ToViews(routes: map<string, RouteZenohDDS>): (v: map<string, Route>)
    reads routes.Values
    ensures v.Keys == routes.Keys
  {
    map ke | ke in routes :: routes[ke].View()
  }

  lemma ServingRouteHasGuid(s: State, side: Side, ke: string, gid: string)
    requires FwdInv(s) && ke in Get(s, side).routes && IsRouting(Get(s, side).routes[ke], gid)
    ensures var h := Get(s, side); h.routes[ke].entity in h.live && Replaces(h, gid, h.live[h.routes[ke].entity])
  {
    var h := Get(s, side);
    assert RouteOk(side.ToDds?, h.routes[ke]);
    assert GuidOf(h, ke, h.live[h.routes[ke].entity]);
  }

  /** The first `read` gids have been remapped into the first `i` of `out`; behind them are those still to be read. */
  ghost predicate RemappedSoFar(h: Half, gids: seq<string>, read: nat, out: seq<string>, i: nat) {
    read <= |gids| && i <= |out| && out[i..] == gids[read..] && Remapped(h, gids[..read], out[..i])
  }

  lemma RemapStarts(h: Half, gids: seq<string>)
    ensures RemappedSoFar(h, gids, 0, gids, 0)
  {
  }

  lemma RemapHere(h: Half, gids: seq<string>, read: nat, out: seq<string>, i: nat)
    requires RemappedSoFar(h, gids, read, out, i) && i < |out|
    ensures read < |gids| && out[i] == gids[read]
  {
    hide Remapped;
    assert out[i] == out[i..][0] == gids[read..][0];
  }

  /** One more gid of the sequence is remapped. */
  lemma RemapTurn(h: Half, gids: seq<string>, read: nat, out: seq<string>, i: nat, gid: Option<string>)
    requires RemappedSoFar(h, gids, read, out, i) && i < |out|
    requires gid.Some? <==> RoutedGid(h, out[i])
    requires gid.Some? ==> Replaces(h, out[i], gid.value)
    ensures if gid.Some? then RemappedSoFar(h, gids, read + 1, out[i := gid.value], i + 1)
            else RemappedSoFar(h, gids, read + 1, out[..i] + out[i + 1..], i)
  {
    RemapHere(h, gids, read, out, i);
    RemapNext(h, gids, read, out[..i], gid);
    hide Remapped, RoutedGid, Replaces;
    assert out[i + 1..] == out[i..][1..] == gids[read + 1..];
    if gid.Some? {
      assert out[i := gid.value][..i + 1] == out[..i] + [gid.value];
    } else {
      assert (out[..i] + out[i + 1..])[..i] == out[..i];
    }
  }

  lemma RemapNext(h: Half, gids: seq<string>, n: nat, out: seq<string>, gid: Option<string>)
    requires n < |gids| && Remapped(h, gids[..n], out)
    requires gid.Some? <==> RoutedGid(h, gids[n])
    requires gid.Some? ==> Replaces(h, gids[n], gid.value)
    ensures Remapped(h, gids[..n + 1], if gid.Some? then out + [gid.value] else out)
  {
    hide RoutedGid, Replaces;
    assert gids[..n + 1][..n] == gids[..n];
  }

  lemma RemapEnds(h: Half, gids: seq<string>, read: nat, out: seq<string>, i: nat)
    requires RemappedSoFar(h, gids, read, out, i) && i == |out|
    ensures Remapped(h, gids, out)
  {
    hide Remapped;
    assert |out[i..]| == 0 && read == |gids|;
    assert gids[..read] == gids && out[..i] == out;
  }

  // ---------- the keys of forwarded discovery ----------

  /** `str::find` */
  method FindFirst(s: string, pattern: string) returns (r: Option<nat>)
    ensures r == Find(s, pattern)
  {
    for i := 0 to |s| + 1
      invariant forall j :: 0 <= j < i ==> !OccursAt(s, pattern, j)
    {
      if OccursAt(s, pattern, i) {
        FindIsFirst(s, pattern, i);
        return Some(i);
      }
    }
    return None;
  }

  /** `parse_fwd_discovery_keyexpr`: the words for the kinds are looked for one after the other. */
  method ParseFwdDiscoveryKey(ke: string) returns (r: Option<FwdParsed>)
    ensures r == ParseFwdKey(ke)
  {
    if !("@" <= ke) || |ke| < 2 {
      return None;
    }
    var remaining := ke[2..];
    var slash := FindFirst(remaining, "/");
    if slash.None? {
      return None;
    }
    var uuid := remaining[..slash.value];
    remaining := remaining[slash.value + 1..];
    if !(FWD_DISCO <= remaining) {
      return None;
    }
    assert KindPattern(ReaderDisco) == "/reader/" && KindPattern(WriterDisco) == "/writer/"
           && KindPattern(RosDisco) == "/ros_disco/";
    var i := FindFirst(remaining, "/reader/");
    if i.Some? {
      return Some(FwdParsed(uuid, ReaderDisco, remaining[i.value + 8..]));
    }
    i := FindFirst(remaining, "/writer/");
    if i.Some? {
      return Some(FwdParsed(uuid, WriterDisco, remaining[i.value + 8..]));
    }
    i := FindFirst(remaining, "/ros_disco/");
    if i.Some? {
      return Some(FwdParsed(uuid, RosDisco, remaining[i.value + 11..]));
    }
    return None;
  }

  class DdsPluginRuntime {
    const cfg: Config
    const readers: DdsEntities
    const writers: DdsEntities
    const participantInfo: ParticipantEntitiesInfo
    var discoveredParticipants: map<string, DdsParticipant>
    var discoveredWriters: map<string, DdsEntity>
    var discoveredReaders: map<string, DdsEntity>
    var routesFromDds: map<string, RouteDDSZenoh>
    var routesToDds: map<string, RouteZenohDDS>
    var adminSpace: map<string, AdminRef>

    ghost function Repr(): (r: set<object>)
      reads this
      ensures this in r && readers in r && writers in r && participantInfo in r
    {
      {this, readers, writers, participantInfo} + routesFromDds.Values + routesToDds.Values
    }

    /** The routes are objects of their own, those from DDS with a reader. */
    ghost predicate Valid()
      reads Repr()
    {
      && readers != writers && readers.Valid() && writers.Valid()
      && (forall a, b :: a in routesFromDds && b in routesFromDds && a != b ==> routesFromDds[a] != routesFromDds[b])
      && (forall a, b :: a in routesToDds && b in routesToDds && a != b ==> routesToDds[a] != routesToDds[b])
      && (forall k :: k in routesFromDds ==> routesFromDds[k].ddsReader != 0)
      && (forall k :: k in discoveredWriters ==> discoveredWriters[k].key == k)
      && (forall k :: k in discoveredReaders ==> discoveredReaders[k].key == k)
    }

    ghost function FromHalf(): Half
      reads this, readers, routesFromDds.Values
    {
      Half(discoveredWriters, FromViews(routesFromDds), readers.live, readers.issued)
    }

    ghost function ToHalf(): Half
      reads this, writers, routesToDds.Values
    {
      Half(discoveredReaders, ToViews(routesToDds), writers.live, writers.issued)
    }

    ghost function View(): (s: State)
      reads Repr()
      ensures s.from.routes.Keys == routesFromDds.Keys && s.to.routes.Keys == routesToDds.Keys
      ensures s.from.entities == discoveredWriters && s.to.entities == discoveredReaders
    {
      State(discoveredParticipants, FromHalf(), ToHalf(), adminSpace, participantInfo.nodes)
    }

    constructor (cfg: Config, gid: string)
      ensures Valid() && fresh(Repr()) && this.cfg == cfg && View() == INIT
    {
      this.cfg := cfg;
      readers := new DdsEntities();
      writers := new DdsEntities();
      participantInfo := new ParticipantEntitiesInfo(gid);
      discoveredParticipants, discoveredWriters, discoveredReaders := map[], map[], map[];
      routesFromDds, routesToDds := map[], map[];
      adminSpace := map["config" := ConfigRef, "version" := VersionRef];
      new;
      assert FromViews(routesFromDds) == map[] && ToViews(routesToDds) == map[];
    }

    /** Route objects that did not change look as before. */
    twostate lemma SameRoutes()
      requires routesFromDds == old(routesFromDds) && routesToDds == old(routesToDds)
      requires unchanged(old(routesFromDds.Values), old(routesToDds.Values))
      ensures FromViews(routesFromDds) == old(FromViews(routesFromDds)) && ToViews(routesToDds) == old(ToViews(routesToDds))
    {
    }

    twostate lemma InsertedFromDds(ke: string)
      requires ke in routesFromDds && routesFromDds == old(routesFromDds)[ke := routesFromDds[ke]]
               && routesToDds == old(routesToDds)
      requires unchanged(old(routesFromDds.Values), old(routesToDds.Values))
      ensures FromViews(routesFromDds) == old(FromViews(routesFromDds))[ke := routesFromDds[ke].View()]
      ensures ToViews(routesToDds) == old(ToViews(routesToDds))
    {
    }

    twostate lemma InsertedToDds(ke: string)
      requires ke in routesToDds && routesToDds == old(routesToDds)[ke := routesToDds[ke]] && routesFromDds == old(routesFromDds)
      requires unchanged(old(routesFromDds.Values), old(routesToDds.Values))
      ensures ToViews(routesToDds) == old(ToViews(routesToDds))[ke := routesToDds[ke].View()]
      ensures FromViews(routesFromDds) == old(FromViews(routesFromDds))
    {
    }

    twostate lemma RemovedFromDds(ke: string)
      requires routesFromDds == old(routesFromDds) - {ke} && routesToDds == old(routesToDds)
      requires unchanged(old(routesFromDds.Values), old(routesToDds.Values))
      ensures FromViews(routesFromDds) == old(FromViews(routesFromDds)) - {ke}
      ensures ToViews(routesToDds) == old(ToViews(routesToDds))
    {
      assert forall k :: k in routesFromDds ==> routesFromDds[k] in old(routesFromDds.Values);
    }

    twostate lemma RemovedToDds(ke: string)
      requires routesToDds == old(routesToDds) - {ke} && routesFromDds == old(routesFromDds)
      requires unchanged(old(routesFromDds.Values), old(routesToDds.Values))
      ensures ToViews(routesToDds) == old(ToViews(routesToDds)) - {ke}
      ensures FromViews(routesFromDds) == old(FromViews(routesFromDds))
    {
      assert forall k :: k in routesToDds ==> routesToDds[k] in old(routesToDds.Values);
    }

    // ---------- routes from DDS ----------

    method TryAddRouteFromDds(ke: string, o: Outcome, spec: Spec) returns (status: RouteStatus)
      requires Valid()
      modifies this`routesFromDds, this`adminSpace, readers
      ensures Valid() && fresh(Repr() - old(Repr())) && fresh(routesFromDds.Values - old(routesFromDds.Values))
      ensures forall k :: k in old(routesFromDds) ==> k in routesFromDds && routesFromDds[k] == old(routesFromDds)[k]
      ensures var r := TryAdd(cfg, old(View()).from, ke, true, o, spec);
              status == r.0 && View() == WithHalf(old(View()), FromDds, r.1)
      ensures status.Routed? ==> status.ke == ke && ke in routesFromDds
    {
      TryAddCases(cfg, View(), FromDds, ke, true, o, spec);
      hide TryAdd, WithHalf, RouteKey, Install;
      if !cfg.Allowed(ke) {
        return NotAllowed;
      }
      if ke in routesFromDds {
        assert FromHalf().routes[ke].entity != 0;
        return Routed(ke);
      }
      var ok := CreateRouteFromDds(ke, o, spec);
      return if ok then Routed(ke) else CreationFailure;
    }

    method CreateRouteFromDds(ke: string, o: Outcome, spec: Spec) returns (ok: bool)
      requires Valid() && ke !in routesFromDds
      modifies this`routesFromDds, this`adminSpace, readers
      ensures Valid() && fresh(routesFromDds.Values - old(routesFromDds.Values))
      ensures forall k :: k in old(routesFromDds) ==> k in routesFromDds && routesFromDds[k] == old(routesFromDds)[k]
      ensures ok == (o.sessionOk && Accepts(old(View()).from, o)) && (ok ==> ke in routesFromDds)
      ensures View() == if ok then
                old(View()).(from := Install(old(View()).from, ke, Route(0, {}, {}), o, spec),
                             admin := old(View()).admin[RouteKey(FromDds, ke) := RouteRef(FromDds, ke)])
              else old(View())
    {
      hide RouteKey, View, Valid, Accepts;
      var route := NewRouteFromDds(o, spec);
      if route.None? {
        return false;
      }
      InsertRouteFromDds(ke, route.value);
      return true;
    }

    /** Declares the key, and creates the DDS reader. */
    method NewRouteFromDds(o: Outcome, spec: Spec) returns (r: Option<RouteDDSZenoh>)
      requires Valid()
      modifies readers
      ensures Valid()
      ensures r.Some? == (o.sessionOk && Accepts(old(View()).from, o))
      ensures r.Some? ==> var (handle, guid) := o.entity.value;
                && fresh(r.value) && r.value.View() == Route(handle, {}, {}) && handle != 0
                && View() == WithDds(old(View()), FromDds,
                                     old(View()).from.live[handle := guid], old(View()).from.issued[guid := spec])
      ensures r.None? ==> View() == old(View())
    {
      if !o.sessionOk {
        return None;
      }
      var reader := readers.Create(o, spec);
      if reader.None? {
        return None;
      }
      var route := new RouteDDSZenoh(reader.value);
      SameRoutes();
      hide FromViews, ToViews;
      return Some(route);
    }

    method InsertRouteFromDds(ke: string, r: RouteDDSZenoh)
      requires Valid() && ke !in routesFromDds && r !in routesFromDds.Values && r.ddsReader != 0
      modifies this`routesFromDds, this`adminSpace
      ensures Valid() && routesFromDds == old(routesFromDds)[ke := r]
      ensures View() == old(View()).(from := old(View()).from.(routes := old(View()).from.routes[ke := r.View()]),
                                     admin := old(View()).admin[RouteKey(FromDds, ke) := RouteRef(FromDds, ke)])
    {
      hide RouteKey, FromViews, ToViews;
      adminSpace := adminSpace[RouteKey(FromDds, ke) := RouteRef(FromDds, ke)];
      routesFromDds := routesFromDds[ke := r];
      InsertedFromDds(ke);
    }

    /** Takes the route out of the map, the index and DDS. */
    method RemoveRouteFromDds(ke: string)
      requires Valid() && ke in routesFromDds
      modifies this`routesFromDds, this`adminSpace, readers
      ensures Valid() && routesFromDds == old(routesFromDds) - {ke}
      ensures View() == Dropped(old(View()), FromDds, ke)
    {
      RouteFromDdsInView(ke);
      assert readers != writers && readers.Valid();
      hide RouteKey, View, Valid;
      routesFromDds[ke].Drop(readers);
      ReadersChanged();
      TakeOutRouteFromDds(ke);
    }

    /** A change of the readers in DDS alone. */
    twostate lemma ReadersChanged()
      requires old(Valid()) && readers.Valid()
               && unchanged(this, writers, participantInfo, old(routesFromDds.Values), old(routesToDds.Values))
      ensures Valid() && View() == WithDds(old(View()), FromDds, readers.live, readers.issued)
    {
      SameRoutes();
      hide FromViews, ToViews;
    }

    method TakeOutRouteFromDds(ke: string)
      requires Valid() && ke in routesFromDds
      modifies this`routesFromDds, this`adminSpace
      ensures Valid() && routesFromDds == old(routesFromDds) - {ke}
      ensures View() == old(View()).(from := old(View()).from.(routes := old(View()).from.routes - {ke}),
                                     admin := old(View()).admin - {RouteKey(FromDds, ke)})
    {
      hide RouteKey, FromViews, ToViews;
      adminSpace := adminSpace - {RouteKey(FromDds, ke)};
      routesFromDds := routesFromDds - {ke};
      RemovedFromDds(ke);
    }

    /** A change of one route object is a change of one route. */
    twostate lemma OneRouteFromDds(ke: string)
      requires old(Valid()) && ke in old(routesFromDds) && routesFromDds == old(routesFromDds)
      requires unchanged(this, readers, writers, participantInfo, old(routesToDds.Values))
      requires forall r :: r in old(routesFromDds.Values) && r != routesFromDds[ke] ==> unchanged(r)
      ensures Valid()
      ensures View() == Replaced(old(View()), FromDds, ke, routesFromDds[ke].View())
    {
      assert forall k :: k in routesFromDds && k != ke ==>
        routesFromDds[k] in old(routesFromDds.Values) && unchanged(routesFromDds[k]);
      assert FromViews(routesFromDds) == old(FromViews(routesFromDds))[ke := routesFromDds[ke].View()];
    }

    lemma RouteFromDdsInView(ke: string)
      requires Valid() && ke in routesFromDds
      ensures View().from.routes[ke] == routesFromDds[ke].View() && 0 !in View().from.live && View().from.live == readers.live
    {
    }

    method NoteLocalWriter(ke: string, key: string)
      requires Valid() && ke in routesFromDds
      modifies routesFromDds[ke]
      ensures Valid() && ke in old(View()).from.routes && View() == Put(old(View()), FromDds, AddLocal(old(View()).from, ke, key))
    {
      hide Conserved;
      routesFromDds[ke].AddLocalRoutedWriter(key);
      OneRouteFromDds(ke);
    }

    /** One partition of a discovered publication. */
    method RoutePublication(u: Setup, make: Template, key: string, part: Option<string>,
                            statuses: map<string, RouteStatus>, o: Outcome)
      returns (after: map<string, RouteStatus>)
      requires Valid() && u.cfg == cfg
      modifies Repr()
      ensures Valid() && fresh(Repr() - old(Repr()))
      ensures var r := LinkLocalStep(u, make, Linked(old(View()).from, statuses), key, part, true, o);
              after == r.statuses && View() == WithHalf(old(View()), FromDds, r.half)
    {
      LocalTurns(View(), FromDds, u, make, statuses, key, part, true, o);
      var ke, spec := u.Key(part), u.SpecFor(make, part);
      hide TryAdd, WithHalf, View, Valid, AddLocal, LinkLocalStep, Put, Setup.Key, Setup.SpecFor;
      var status := TryAddRouteFromDds(ke, o, spec);
      if status.Routed? {
        NoteLocalWriter(ke, key);
      }
      after := statuses[Label(part) := status];
    }

    /** `insert_dds_writer` */
    method InsertDdsWriter(e: DdsEntity)
      requires Valid()
      modifies this`discoveredWriters, this`adminSpace
      ensures Valid() && Repr() == old(Repr()) && View() == Store(old(View()), FromDds, e)
    {
      hide AdminKey, FromViews, ToViews;
      adminSpace := adminSpace[AdminKey(EntityIdOf(FromDds, e)) := EntityRef(FromDds, e.key)];
      discoveredWriters := discoveredWriters[e.key := e];
      SameRoutes();
    }

    /** `remove_dds_writer` */
    method RemoveDdsWriter(key: string)
      requires Valid() && key in discoveredWriters
      modifies this`discoveredWriters, this`adminSpace
      ensures Valid() && Repr() == old(Repr()) && View() == Forget(old(View()), FromDds, key)
    {
      hide AdminKey, FromViews, ToViews;
      adminSpace := adminSpace - {AdminKey(EntityIdOf(FromDds, discoveredWriters[key]))};
      discoveredWriters := discoveredWriters - {key};
      SameRoutes();
    }

    predicate NeededFromDds(ke: string, need: Need)
      requires ke in routesFromDds
      reads this, routesFromDds[ke]
    {
      match need
      case NeedLocal => routesFromDds[ke].HasLocalRoutedWriter()
      case NeedRemote => routesFromDds[ke].HasRemoteRoutedReader()
      case NeedEither => routesFromDds[ke].HasLocalRoutedWriter() || routesFromDds[ke].HasRemoteRoutedReader()
    }

    method CutRouteFromDds(ke: string, cut: Cut)
      requires Valid() && ke in routesFromDds
      modifies routesFromDds[ke]
      ensures Valid() && View() == Replaced(old(View()), FromDds, ke, cut.Apply(old(routesFromDds[ke].View())))
      ensures routesFromDds[ke].View() == cut.Apply(old(routesFromDds[ke].View()))
    {
      hide View, Valid;
      match cut {
        case CutLocal(key) => routesFromDds[ke].RemoveLocalRoutedWriter(key);
        case CutRemote(ref) => routesFromDds[ke].RemoveRemoteRoutedReader(ref);
        case CutContaining(sub) => routesFromDds[ke].RemoveRemoteRoutedReadersContaining(sub);
      }
      OneRouteFromDds(ke);
    }

    /** The body of the `retain` calls on the routes from DDS. */
    method JudgeRouteFromDds(ke: string, cut: Cut, need: Need)
      requires Valid() && ke in routesFromDds
      modifies Repr()
      ensures Valid() && fresh(Repr() - old(Repr()))
      ensures View() == WithHalf(old(View()), FromDds, SweepOne(old(View()).from, ke, Rule(cut, need, false)))
    {
      hide WithHalf, View, Valid, Replaced, Unserved, Dropped, SweepOne;
      RouteFromDdsInView(ke);
      SweepOneCases(View(), FromDds, ke, Rule(cut, need, false));
      CutRouteFromDds(ke, cut);
      if !NeededFromDds(ke, need) {
        RemoveRouteFromDds(ke);
      }
    }

    method RetainRoutesFromDds(cut: Cut, need: Need)
      requires Valid()
      modifies Repr()
      ensures Valid() && fresh(Repr() - old(Repr()))
      ensures View() == WithHalf(old(View()), FromDds, Sweep(old(View()).from, cut, need, false))
    {
      hide WithHalf, SweepSome, SweepOne, View, Valid, Sweep, Repr;
      ghost var s, rule := View(), Rule(cut, need, false);
      SweepBegins(s, FromDds, rule);
      SweepEnds(s.from, rule);
      var todo := routesFromDds.Keys;
      while todo != {}
        invariant Valid() && fresh(Repr() - old(Repr()))
        invariant todo <= s.from.routes.Keys
        invariant View() == WithHalf(s, FromDds, SweepSome(s.from, s.from.routes.Keys - todo, rule))
        decreases todo
      {
        var k :| k in todo;
        SweepStep(s, FromDds, todo, k, rule);
        label Before:
        JudgeRouteFromDds(k, cut, need);
        // what is new since then is new since the start
        assert forall o :: o in Repr() && fresh@Before(o) ==> fresh(o);
        todo := todo - {k};
      }
    }

    /** One route per partition, or just one without partition. */
    method DiscoveredPublication(e: DdsEntity, oracle: Oracle)
      requires Valid()
      modifies Repr()
      ensures Valid() && fresh(Repr() - old(Repr()))
      ensures View() == LocalDiscover(cfg, old(View()), FromDds, e, oracle)
    {
      hide WithHalf, Conserved, LinkLocalStep, TopicToKeyExpr, Store, View, Valid, Repr;
      var u, make, parts, statuses := SetupOf(cfg, e), LocalTemplate(FromDds, e), e.Parts(), map[];
      ghost var s := View();
      WithHalfSame(s, FromDds);
      for i := 0 to |parts|
        invariant Valid() && fresh(Repr() - old(Repr()))
        invariant var l := LinkLocal(u, make, s.from, e.key, parts[..i], true, oracle);
                  statuses == l.statuses && View() == WithHalf(s, FromDds, l.half) && s.from.routes.Keys <= l.half.routes.Keys
      {
        LinkedHalf(s, FromDds, u, make, e.key, parts, i, true, oracle);
        label Before:
        statuses := RoutePublication(u, make, e.key, parts[i], statuses, oracle(i));
        assert forall o :: o in Repr() && fresh@Before(o) ==> fresh(o);
      }
      assert parts[..|parts|] == parts;
      InsertDdsWriter(e.(routes := statuses));
    }

    method UndiscoveredPublication(key: string)
      requires Valid()
      modifies Repr()
      ensures Valid() && fresh(Repr() - old(Repr()))
      ensures View() == LocalUndiscover(old(View()), FromDds, key)
    {
      hide WithHalf, View, Valid, Forget, Sweep, Repr;
      if key !in discoveredWriters {
        return;
      }
      RemoveDdsWriter(key);
      label Before:
      RetainRoutesFromDds(CutLocal(key), NeedLocal);
      assert forall o :: o in Repr() && fresh@Before(o) ==> fresh(o);
    }

    // ---------- routes to DDS ----------

    /** The writer comes with the route, later, or not at all. */
    method TryAddRouteToDds(ke: string, withWriter: bool, o: Outcome, spec: Spec) returns (status: RouteStatus)
      requires Valid()
      modifies Repr()
      ensures Valid() && fresh(Repr() - old(Repr()))
      ensures var r := TryAdd(cfg, old(View()).to, ke, withWriter, o, spec);
              status == r.0 && View() == WithHalf(old(View()), ToDds, r.1)
      ensures status.Routed? ==> status.ke == ke && ke in routesToDds
    {
      TryAddCases(cfg, View(), ToDds, ke, withWriter, o, spec);
      hide TryAdd, WithHalf, RouteKey, Install, View, Valid;
      if !cfg.Allowed(ke) {
        return NotAllowed;
      }
      var ok := true;
      if ke in routesToDds {
        RouteToDdsInView(ke);
        if withWriter {
          ok := SetWriterOfRoute(ke, o, spec);
        }
      } else {
        ok := CreateRouteToDds(ke, withWriter, o, spec);
      }
      return if ok then Routed(ke) else CreationFailure;
    }

    method SetWriterOfRoute(ke: string, o: Outcome, spec: Spec) returns (ok: bool)
      requires Valid() && ke in routesToDds
      modifies writers, routesToDds[ke]
      ensures Valid()
      ensures ke in old(View()).to.routes
      ensures var h := old(View()).to;
              if h.routes[ke].entity == 0 && Accepts(h, o) then
                ok && View() == Put(old(View()), ToDds, Install(h, ke, h.routes[ke], o, spec))
              else ok == (h.routes[ke].entity != 0) && View() == old(View())
    {
      ghost var s, r := View(), routesToDds[ke].View();
      RouteToDdsInView(ke);
      ok := routesToDds[ke].SetDdsWriter(writers, o, spec);
      OneRouteToDds(ke);
      assert !ok || r.entity != 0 ==> s.to.routes[ke := r] == s.to.routes;
    }

    method CreateRouteToDds(ke: string, withWriter: bool, o: Outcome, spec: Spec) returns (ok: bool)
      requires Valid() && ke !in routesToDds
      modifies Repr()
      ensures Valid() && fresh(Repr() - old(Repr()))
      ensures ok == (o.sessionOk && (withWriter ==> Accepts(old(View()).to, o))) && (ok ==> ke in routesToDds)
      ensures var h := old(View()).to;
              View() == if ok then
                Put(old(View()), ToDds,
                    if withWriter then Install(h, ke, Route(0, {}, {}), o, spec)
                    else h.(routes := h.routes[ke := Route(0, {}, {})]))
                  .(admin := old(View()).admin[RouteKey(ToDds, ke) := RouteRef(ToDds, ke)])
              else old(View())
    {
      hide RouteKey, View, Valid, Accepts;
      var route := NewRouteToDds(withWriter, o, spec);
      if route.None? {
        return false;
      }
      InsertRouteToDds(ke, route.value);
      return true;
    }

    /** Subscribes to the key, and creates the DDS writer if one is wanted. */
    method NewRouteToDds(withWriter: bool, o: Outcome, spec: Spec) returns (r: Option<RouteZenohDDS>)
      requires Valid()
      modifies writers
      ensures Valid()
      ensures r.Some? == (o.sessionOk && (withWriter ==> Accepts(old(View()).to, o)))
      ensures r.Some? && withWriter ==> var (handle, guid) := o.entity.value;
                && fresh(r.value) && r.value.View() == Route(handle, {}, {})
                && View() == WithDds(old(View()), ToDds, old(View()).to.live[handle := guid], old(View()).to.issued[guid := spec])
      ensures r.Some? && !withWriter ==> fresh(r.value) && r.value.View() == Route(0, {}, {}) && View() == old(View())
      ensures r.None? ==> View() == old(View())
    {
      if !o.sessionOk {
        return None;
      }
      var route := new RouteZenohDDS();
      if withWriter {
        var ok := route.SetDdsWriter(writers, o, spec);
        if !ok {
          SameRoutes();
          return None;
        }
      }
      SameRoutes();
      hide FromViews, ToViews;
      return Some(route);
    }

    method InsertRouteToDds(ke: string, r: RouteZenohDDS)
      requires Valid() && ke !in routesToDds && r !in routesToDds.Values
      modifies this`routesToDds, this`adminSpace
      ensures Valid() && routesToDds == old(routesToDds)[ke := r]
      ensures View() == old(View()).(to := old(View()).to.(routes := old(View()).to.routes[ke := r.View()]),
                                     admin := old(View()).admin[RouteKey(ToDds, ke) := RouteRef(ToDds, ke)])
    {
      hide RouteKey, FromViews, ToViews;
      adminSpace := adminSpace[RouteKey(ToDds, ke) := RouteRef(ToDds, ke)];
      routesToDds := routesToDds[ke := r];
      InsertedToDds(ke);
    }

    /** A change of one route object, and of DDS with it, is a change of one route. */
    twostate lemma OneRouteToDds(ke: string)
      requires old(Valid()) && writers.Valid() && ke in old(routesToDds) && routesToDds == old(routesToDds)
      requires unchanged(this, readers, participantInfo, old(routesFromDds.Values))
      requires forall r :: r in old(routesToDds.Values) && r != routesToDds[ke] ==> unchanged(r)
      ensures Valid()
      ensures View() == WithDds(Replaced(old(View()), ToDds, ke, routesToDds[ke].View()), ToDds, writers.live, writers.issued)
      ensures writers.live == old(writers.live) && writers.issued == old(writers.issued) ==>
                View() == Replaced(old(View()), ToDds, ke, routesToDds[ke].View())
    {
      assert forall k :: k in routesToDds && k != ke ==> routesToDds[k] in old(routesToDds.Values) && unchanged(routesToDds[k]);
      assert ToViews(routesToDds) == old(ToViews(routesToDds))[ke := routesToDds[ke].View()];
    }

    method DeleteWriterOfRoute(ke: string)
      requires Valid() && ke in routesToDds
      modifies writers, routesToDds[ke]
      ensures Valid() && View() == Unserved(old(View()), ToDds, ke)
      ensures routesToDds[ke].View() == old(routesToDds[ke].View()).(entity := 0)
    {
      routesToDds[ke].DeleteDdsWriter(writers);
      OneRouteToDds(ke);
    }

    /** Takes the route out of the map, the index and DDS: a dropped route deletes its writer. */
    method RemoveRouteToDds(ke: string)
      requires Valid() && ke in routesToDds
      modifies this`routesToDds, this`adminSpace, writers, routesToDds[ke]
      ensures Valid() && routesToDds == old(routesToDds) - {ke}
      ensures View() == Dropped(old(View()), ToDds, ke)
    {
      hide RouteKey, View, Valid;
      ghost var routes := View().to.routes;
      DeleteWriterOfRoute(ke);
      TakeOutRouteToDds(ke);
      assert routes[ke := routes[ke].(entity := 0)] - {ke} == routes - {ke};
    }

    method TakeOutRouteToDds(ke: string)
      requires Valid() && ke in routesToDds
      modifies this`routesToDds, this`adminSpace
      ensures Valid() && routesToDds == old(routesToDds) - {ke}
      ensures View() == old(View()).(to := old(View()).to.(routes := old(View()).to.routes - {ke}),
                                     admin := old(View()).admin - {RouteKey(ToDds, ke)})
    {
      hide RouteKey, FromViews, ToViews;
      adminSpace := adminSpace - {RouteKey(ToDds, ke)};
      routesToDds := routesToDds - {ke};
      RemovedToDds(ke);
    }

    lemma RouteToDdsInView(ke: string)
      requires Valid() && ke in routesToDds
      ensures View().to.routes[ke] == routesToDds[ke].View() && 0 !in View().to.live && View().to.live == writers.live
    {
    }

    method NoteLocalReader(ke: string, key: string)
      requires Valid() && ke in routesToDds
      modifies routesToDds[ke]
      ensures Valid() && ke in old(View()).to.routes && View() == Put(old(View()), ToDds, AddLocal(old(View()).to, ke, key))
    {
      hide Conserved;
      routesToDds[ke].AddLocalRoutedReader(key);
      OneRouteToDds(ke);
    }

    /** `insert_dds_reader` */
    method InsertDdsReader(e: DdsEntity)
      requires Valid()
      modifies this`discoveredReaders, this`adminSpace
      ensures Valid() && Repr() == old(Repr()) && View() == Store(old(View()), ToDds, e)
    {
      hide AdminKey, FromViews, ToViews;
      adminSpace := adminSpace[AdminKey(EntityIdOf(ToDds, e)) := EntityRef(ToDds, e.key)];
      discoveredReaders := discoveredReaders[e.key := e];
      SameRoutes();
    }

    /** `remove_dds_reader` */
    method RemoveDdsReader(key: string)
      requires Valid() && key in discoveredReaders
      modifies this`discoveredReaders, this`adminSpace
      ensures Valid() && Repr() == old(Repr()) && View() == Forget(old(View()), ToDds, key)
    {
      hide AdminKey, FromViews, ToViews;
      adminSpace := adminSpace - {AdminKey(EntityIdOf(ToDds, discoveredReaders[key]))};
      discoveredReaders := discoveredReaders - {key};
      SameRoutes();
    }

    predicate NeededToDds(ke: string, need: Need)
      requires ke in routesToDds
      reads this, routesToDds[ke]
    {
      match need
      case NeedLocal => routesToDds[ke].HasLocalRoutedReader()
      case NeedRemote => routesToDds[ke].HasRemoteRoutedWriter()
      case NeedEither => routesToDds[ke].HasLocalRoutedReader() || routesToDds[ke].HasRemoteRoutedWriter()
    }

    method CutRouteToDds(ke: string, cut: Cut)
      requires Valid() && ke in routesToDds
      modifies routesToDds[ke]
      ensures Valid() && View() == Replaced(old(View()), ToDds, ke, cut.Apply(old(routesToDds[ke].View())))
      ensures routesToDds[ke].View() == cut.Apply(old(routesToDds[ke].View()))
    {
      assert writers.Valid();
      hide View, Valid;
      match cut {
        case CutLocal(key) => routesToDds[ke].RemoveLocalRoutedReader(key);
        case CutRemote(ref) => routesToDds[ke].RemoveRemoteRoutedWriter(ref);
        case CutContaining(sub) => routesToDds[ke].RemoveRemoteRoutedWritersContaining(sub);
      }
      OneRouteToDds(ke);
    }

    /** The body of the `retain` calls on the routes to DDS. */
    method JudgeRouteToDds(ke: string, cut: Cut, need: Need, release: bool)
      requires Valid() && ke in routesToDds
      modifies Repr()
      ensures Valid() && fresh(Repr() - old(Repr()))
      ensures View() == WithHalf(old(View()), ToDds, SweepOne(old(View()).to, ke, Rule(cut, need, release)))
    {
      hide WithHalf, View, Valid, Replaced, Unserved, Dropped, SweepOne;
      RouteToDdsInView(ke);
      SweepOneCases(View(), ToDds, ke, Rule(cut, need, release));
      CutAndReleaseRouteToDds(ke, cut, release);
      if !NeededToDds(ke, need) {
        RemoveRouteToDds(ke);
      }
    }

    method CutAndReleaseRouteToDds(ke: string, cut: Cut, release: bool)
      requires Valid() && ke in routesToDds
      modifies writers, routesToDds[ke]
      ensures Valid()
      ensures var r := cut.Apply(old(routesToDds[ke].View()));
              var s := Replaced(old(View()), ToDds, ke, r);
              && routesToDds[ke].View().(entity := 0) == r.(entity := 0)
              && ke in Get(s, ToDds).routes
              && View() == if release && r.remote == {} then Unserved(s, ToDds, ke) else s
    {
      hide View, Valid, Unserved;
      CutRouteToDds(ke, cut);
      if release && !routesToDds[ke].HasRemoteRoutedWriter() {
        DeleteWriterOfRoute(ke);
      }
    }

    method RetainRoutesToDds(cut: Cut, need: Need, release: bool)
      requires Valid()
      modifies Repr()
      ensures Valid() && fresh(Repr() - old(Repr()))
      ensures View() == WithHalf(old(View()), ToDds, Sweep(old(View()).to, cut, need, release))
    {
      hide WithHalf, SweepSome, SweepOne, View, Valid, Sweep, Repr;
      ghost var s, rule := View(), Rule(cut, need, release);
      SweepBegins(s, ToDds, rule);
      SweepEnds(s.to, rule);
      var todo := routesToDds.Keys;
      while todo != {}
        invariant Valid() && fresh(Repr() - old(Repr()))
        invariant todo <= s.to.routes.Keys
        invariant View() == WithHalf(s, ToDds, SweepSome(s.to, s.to.routes.Keys - todo, rule))
        decreases todo
      {
        var k :| k in todo;
        SweepStep(s, ToDds, todo, k, rule);
        label Before:
        JudgeRouteToDds(k, cut, need, release);
        assert forall o :: o in Repr() && fresh@Before(o) ==> fresh(o);
        todo := todo - {k};
      }
    }

    /** One partition of a discovered subscription. */
    method RouteSubscription(u: Setup, make: Template, key: string, part: Option<string>,
                            statuses: map<string, RouteStatus>, withWriter: bool, o: Outcome)
      returns (after: map<string, RouteStatus>)
      requires Valid() && u.cfg == cfg
      modifies Repr()
      ensures Valid() && fresh(Repr() - old(Repr()))
      ensures var r := LinkLocalStep(u, make, Linked(old(View()).to, statuses), key, part, withWriter, o);
              after == r.statuses && View() == WithHalf(old(View()), ToDds, r.half)
    {
      LocalTurns(View(), ToDds, u, make, statuses, key, part, withWriter, o);
      var ke, spec := u.Key(part), u.SpecFor(make, part);
      hide TryAdd, WithHalf, View, Valid, AddLocal, LinkLocalStep, Put, Setup.Key, Setup.SpecFor;
      var status := TryAddRouteToDds(ke, withWriter, o, spec);
      if status.Routed? {
        NoteLocalReader(ke, key);
      }
      after := statuses[Label(part) := status];
    }

    /** One route per partition, or just one without partition; with or without DDS writers. */
    method RouteReader(e: DdsEntity, withWriter: bool, oracle: Oracle) returns (statuses: map<string, RouteStatus>)
      requires Valid()
      modifies Repr()
      ensures Valid() && fresh(Repr() - old(Repr()))
      ensures var l := LinkLocal(SetupOf(cfg, e), LocalTemplate(ToDds, e), old(View()).to, e.key, e.Parts(), withWriter, oracle);
              statuses == l.statuses && View() == WithHalf(old(View()), ToDds, l.half)
    {
      hide WithHalf, Conserved, LinkLocalStep, TopicToKeyExpr, View, Valid, Repr;
      var u, make, parts := SetupOf(cfg, e), LocalTemplate(ToDds, e), e.Parts();
      statuses := map[];
      ghost var s := View();
      WithHalfSame(s, ToDds);
      for i := 0 to |parts|
        invariant Valid() && fresh(Repr() - old(Repr()))
        invariant var l := LinkLocal(u, make, s.to, e.key, parts[..i], withWriter, oracle);
                  statuses == l.statuses && View() == WithHalf(s, ToDds, l.half) && s.to.routes.Keys <= l.half.routes.Keys
      {
        LinkedHalf(s, ToDds, u, make, e.key, parts, i, withWriter, oracle);
        label Before:
        statuses := RouteSubscription(u, make, e.key, parts[i], statuses, withWriter, oracle(i));
        assert forall o :: o in Repr() && fresh@Before(o) ==> fresh(o);
      }
      assert parts[..|parts|] == parts;
    }

    method DiscoveredSubscription(e: DdsEntity, oracle: Oracle)
      requires Valid()
      modifies Repr()
      ensures Valid() && fresh(Repr() - old(Repr()))
      ensures View() == LocalDiscover(cfg, old(View()), ToDds, e, oracle)
    {
      hide WithHalf, LinkLocal, View, Valid, Store;
      var statuses := RouteReader(e, true, oracle);
      InsertDdsReader(e.(routes := statuses));
    }

    method UndiscoveredSubscription(key: string)
      requires Valid()
      modifies Repr()
      ensures Valid() && fresh(Repr() - old(Repr()))
      ensures View() == LocalUndiscover(old(View()), ToDds, key)
    {
      hide WithHalf, View, Valid, Forget, Sweep, Repr;
      if key !in discoveredReaders {
        return;
      }
      RemoveDdsReader(key);
      label Before:
      RetainRoutesToDds(CutLocal(key), NeedLocal, false);
      assert forall o :: o in Repr() && fresh@Before(o) ==> fresh(o);
    }

    /** `insert_dds_participant` */
    method InsertDdsParticipant(p: DdsParticipant)
      requires Valid()
      modifies this`discoveredParticipants, this`adminSpace
      ensures Valid() && Repr() == old(Repr()) && View() == StoreParticipant(old(View()), p)
    {
      hide AdminKey, FromViews, ToViews;
      adminSpace := adminSpace[AdminKey(ParticipantId(p.key)) := ParticipantRef(p.key)];
      discoveredParticipants := discoveredParticipants[p.key := p];
      SameRoutes();
    }

    /** `remove_dds_participant` */
    method RemoveDdsParticipant(key: string)
      requires Valid()
      modifies this`discoveredParticipants, this`adminSpace
      ensures Valid() && Repr() == old(Repr()) && View() == ForgetParticipant(old(View()), key)
    {
      hide AdminKey, FromViews, ToViews;
      if key in discoveredParticipants {
        adminSpace := adminSpace - {AdminKey(ParticipantId(discoveredParticipants[key].key))};
        discoveredParticipants := discoveredParticipants - {key};
      }
      SameRoutes();
    }

    // ---------- local discovery mode ----------

    /** One turn of the event loop. */
    method HandleLocal(ev: DdsEvent, oracle: Oracle)
      requires Valid()
      modifies Repr()
      ensures Valid() && fresh(Repr() - old(Repr()))
      ensures View() == LocalStep(cfg, old(View()), ev, oracle)
    {
      hide View, Valid, LocalDiscover, LocalUndiscover, StoreParticipant, ForgetParticipant;
      match ev
      case Discovered(side, e) =>
        if side.FromDds? {
          DiscoveredPublication(e, oracle);
        } else {
          DiscoveredSubscription(e, oracle);
        }
      case Undiscovered(side, key) =>
        if side.FromDds? {
          UndiscoveredPublication(key);
        } else {
          UndiscoveredSubscription(key);
        }
      case DiscoveredParticipant(p) => InsertDdsParticipant(p);
      case UndiscoveredParticipant(key) => RemoveDdsParticipant(key);
    }

    /** The event loop goes through the states of the run its events and outcomes specify. */
    method RunLocalDiscovery(events: seq<(DdsEvent, Oracle)>, ghost states: seq<State>)
      requires Valid() && View() == INIT && LocalRun(cfg, states, events)
      modifies Repr()
      ensures Valid() && View() == states[|events|] && BridgeInv(cfg, View())
    {
      hide View, Valid, LocalStep, BridgeInv, EventOk, Repr;
      for i := 0 to |events|
        invariant Valid() && fresh(Repr() - old(Repr())) && View() == states[i]
      {
        LocalTurn(cfg, states, events, i);
        label Before:
        HandleLocal(events[i].0, events[i].1);
        assert forall o :: o in Repr() && fresh@Before(o) ==> fresh(o);
      }
      LocalStart(cfg, states, events);
      RunKeepsInv(cfg, states, events, |events|);
    }

    // ---------- forward discovery mode: local events ----------

    method FwdDiscoveredPublication(e: DdsEntity, serializable: bool)
      requires Valid()
      modifies Repr()
      ensures Valid() && fresh(Repr() - old(Repr()))
      ensures View() == if serializable then Store(old(View()), FromDds, e) else old(View())
    {
      if serializable {
        InsertDdsWriter(e);
      }
    }

    method FwdDiscoveredSubscription(e: DdsEntity, serializable: bool, oracle: Oracle)
      requires Valid()
      modifies Repr()
      ensures Valid() && fresh(Repr() - old(Repr()))
      ensures View() == FwdDiscoverReader(cfg, old(View()), e, serializable, oracle)
    {
      hide WithHalf, LinkLocal, View, Valid, Store;
      var statuses := RouteReader(e, false, oracle);
      if serializable {
        InsertDdsReader(e.(routes := statuses));
      }
    }

    /** Even a reader that was never stored is taken off the routes. */
    method FwdUndiscoveredSubscription(key: string)
      requires Valid()
      modifies Repr()
      ensures Valid() && fresh(Repr() - old(Repr()))
      ensures View() == FwdUndiscoverReader(old(View()), key)
    {
      hide WithHalf, View, Valid, Forget, Sweep, Repr;
      if key in discoveredReaders {
        RemoveDdsReader(key);
      }
      label Before:
      RetainRoutesToDds(CutLocal(key), NeedEither, false);
      assert forall o :: o in Repr() && fresh@Before(o) ==> fresh(o);
    }

    method HandleFwdDds(ev: DdsEvent, serializable: bool, oracle: Oracle)
      requires Valid()
      modifies Repr()
      ensures Valid() && fresh(Repr() - old(Repr()))
      ensures View() == FwdDds(cfg, old(View()), ev, serializable, oracle)
    {
      hide View, Valid, FwdDiscoverReader, FwdUndiscoverReader, StoreParticipant, ForgetParticipant, Store, Forget;
      match ev
      case Discovered(side, e) =>
        if side.FromDds? {
          FwdDiscoveredPublication(e, serializable);
        } else {
          FwdDiscoveredSubscription(e, serializable, oracle);
        }
      case Undiscovered(side, key) =>
        if side.FromDds? {
          if key in discoveredWriters {
            RemoveDdsWriter(key);
          }
        } else {
          FwdUndiscoveredSubscription(key);
        }
      case DiscoveredParticipant(p) => InsertDdsParticipant(p);
      case UndiscoveredParticipant(key) => RemoveDdsParticipant(key);
    }

    // ---------- forward discovery mode: announcements ----------

    /** A change of one route object and of the discovered writers. */
    twostate lemma OneRouteAndWriters(ke: string)
      requires old(Valid()) && ke in old(routesFromDds) && routesFromDds == old(routesFromDds)
      requires unchanged(this`discoveredParticipants, this`discoveredReaders, this`routesToDds, this`adminSpace)
      requires unchanged(readers, writers, participantInfo, old(routesToDds.Values))
      requires forall r :: r in old(routesFromDds.Values) && r != routesFromDds[ke] ==> unchanged(r)
      requires forall k :: k in discoveredWriters ==> discoveredWriters[k].key == k
      ensures Valid()
      ensures var s := Replaced(old(View()), FromDds, ke, routesFromDds[ke].View());
              View() == s.(from := s.from.(entities := discoveredWriters))
    {
      assert forall k :: k in routesFromDds && k != ke ==>
        routesFromDds[k] in old(routesFromDds.Values) && unchanged(routesFromDds[k]);
      assert FromViews(routesFromDds) == old(FromViews(routesFromDds))[ke := routesFromDds[ke].View()];
    }

    /** Notes a remote reader on its route, and the local writers on that topic and partition with it. */
    method NoteRemoteReader(ke: string, ref: string, topic: string, part: Option<string>)
      requires Valid() && ke in routesFromDds
      modifies this`discoveredWriters, routesFromDds[ke]
      ensures Valid() && Repr() == old(Repr())
      ensures ke in old(View()).from.routes
              && View() == Put(old(View()), FromDds, AddRemote(old(View()).from, ke, ref, topic, part))
    {
      hide View, Conserved, Hits, MarkRouted;
      RouteFromDdsInView(ke);
      routesFromDds[ke].AddRemoteRoutedReader(ref);
      NoteLocalWriters(ke, topic, part);
      OneRouteAndWriters(ke);
    }

    method MarkLocalWriter(ke: string, k: string, name: string)
      requires ke in routesFromDds && k in discoveredWriters && discoveredWriters[k].key == k
      modifies this`discoveredWriters, routesFromDds[ke]
      ensures var e := old(discoveredWriters)[k];
              discoveredWriters == old(discoveredWriters)[k := e.(routes := e.routes[name := Routed(ke)])]
      ensures var r := old(routesFromDds[ke].View()); routesFromDds[ke].View() == r.(local := r.local + {k})
    {
      var e := discoveredWriters[k];
      routesFromDds[ke].AddLocalRoutedWriter(e.key);
      discoveredWriters := discoveredWriters[k := e.(routes := e.routes[name := Routed(ke)])];
    }

    method NoteLocalWriters(ke: string, topic: string, part: Option<string>)
      requires ke in routesFromDds && forall k :: k in discoveredWriters ==> discoveredWriters[k].key == k
      modifies this`discoveredWriters, routesFromDds[ke]
      ensures forall k :: k in discoveredWriters ==> discoveredWriters[k].key == k
      ensures discoveredWriters == MarkRouted(old(discoveredWriters), Hits(old(discoveredWriters), topic, part), Label(part), ke)
      ensures var r := old(routesFromDds[ke].View());
              routesFromDds[ke].View() == r.(local := r.local + Hits(old(discoveredWriters), topic, part))
    {
      var todo := discoveredWriters.Keys;
      ghost var all, r, hits := discoveredWriters, routesFromDds[ke].View(), Hits(discoveredWriters, topic, part);
      ghost var noted: set<string> := {};
      MarkEnds(all, topic, part, Label(part), ke);
      hide MarkRouted, Hits, Concerns;
      while todo != {}
        invariant todo <= all.Keys
        invariant noted == hits - todo
        invariant discoveredWriters == MarkRouted(all, noted, Label(part), ke)
        invariant routesFromDds[ke].View() == r.(local := r.local + noted)
        decreases todo
      {
        var k :| k in todo;
        MarkNext(all, topic, part, todo, k, ke);
        if Concerns(discoveredWriters[k], topic, part) {
          MarkLocalWriter(ke, k, Label(part));
          assert r.local + noted + {k} == r.local + (noted + {k});
          noted := noted + {k};
        }
        todo := todo - {k};
      }
      MarkedKeys(all, hits, Label(part), ke);
    }

    /** One partition of an announced reader. */
    method RouteRemoteReader(u: Setup, make: Template, ref: string, part: Option<string>,
                             statuses: map<string, RouteStatus>, o: Outcome)
      returns (after: map<string, RouteStatus>)
      requires Valid() && u.cfg == cfg
      modifies Repr()
      ensures Valid() && fresh(Repr() - old(Repr()))
      ensures var r := LinkRemoteStep(u, make, Linked(old(View()).from, statuses), ref, part, o);
              after == r.statuses && View() == WithHalf(old(View()), FromDds, r.half)
    {
      RemoteTurns(View(), FromDds, u, make, statuses, ref, part, o);
      var ke, spec := u.Key(part), u.SpecFor(make, part);
      hide TryAdd, WithHalf, View, Valid, AddRemote, LinkRemoteStep, Put, Setup.Key, Setup.SpecFor;
      var status := TryAddRouteFromDds(ke, o, spec);
      if status.Routed? {
        NoteRemoteReader(ke, ref, u.topic, part);
      }
      after := statuses[Label(part) := status];
    }

    method AnnouncedReader(ref: string, e: DdsEntity, scope: Option<string>, oracle: Oracle)
      requires Valid()
      modifies Repr()
      ensures Valid() && fresh(Repr() - old(Repr()))
      ensures View() == OnAnnounce(cfg, old(View()), FromDds, ref, e, scope, oracle)
    {
      hide WithHalf, Conserved, LinkRemoteStep, TopicToKeyExpr, View, Valid, Repr;
      var u, make, parts, statuses := RemoteSetup(cfg, e, scope), RemoteTemplate(FromDds, e), e.Parts(), map[];
      ghost var s := View();
      WithHalfSame(s, FromDds);
      for i := 0 to |parts|
        invariant Valid() && fresh(Repr() - old(Repr()))
        invariant var l := LinkRemote(u, make, s.from, ref, parts[..i], oracle);
                  statuses == l.statuses && View() == WithHalf(s, FromDds, l.half) && s.from.routes.Keys <= l.half.routes.Keys
      {
        AnnouncedHalf(s, FromDds, u, make, ref, parts, i, oracle);
        label Before:
        statuses := RouteRemoteReader(u, make, ref, parts[i], statuses, oracle(i));
        assert forall o :: o in Repr() && fresh@Before(o) ==> fresh(o);
      }
      assert parts[..|parts|] == parts;
    }

    /** A change of one route object and of the discovered readers. */
    twostate lemma OneRouteAndReaders(ke: string)
      requires old(Valid()) && ke in old(routesToDds) && routesToDds == old(routesToDds)
      requires unchanged(this`discoveredParticipants, this`discoveredWriters, this`routesFromDds, this`adminSpace)
      requires unchanged(readers, writers, participantInfo, old(routesFromDds.Values))
      requires forall r :: r in old(routesToDds.Values) && r != routesToDds[ke] ==> unchanged(r)
      requires forall k :: k in discoveredReaders ==> discoveredReaders[k].key == k
      ensures Valid()
      ensures var s := Replaced(old(View()), ToDds, ke, routesToDds[ke].View());
              View() == s.(to := s.to.(entities := discoveredReaders))
    {
      assert forall k :: k in routesToDds && k != ke ==> routesToDds[k] in old(routesToDds.Values) && unchanged(routesToDds[k]);
      assert ToViews(routesToDds) == old(ToViews(routesToDds))[ke := routesToDds[ke].View()];
    }

    /** Notes a remote writer on its route, and the local readers on that topic and partition with it. */
    method NoteRemoteWriter(ke: string, ref: string, topic: string, part: Option<string>)
      requires Valid() && ke in routesToDds
      modifies this`discoveredReaders, routesToDds[ke]
      ensures Valid() && Repr() == old(Repr())
      ensures ke in old(View()).to.routes && View() == Put(old(View()), ToDds, AddRemote(old(View()).to, ke, ref, topic, part))
    {
      hide View, Conserved, Hits, MarkRouted;
      RouteToDdsInView(ke);
      routesToDds[ke].AddRemoteRoutedWriter(ref);
      NoteLocalReaders(ke, topic, part);
      OneRouteAndReaders(ke);
    }

    method MarkLocalReader(ke: string, k: string, name: string)
      requires ke in routesToDds && k in discoveredReaders && discoveredReaders[k].key == k
      modifies this`discoveredReaders, routesToDds[ke]
      ensures var e := old(discoveredReaders)[k];
              discoveredReaders == old(discoveredReaders)[k := e.(routes := e.routes[name := Routed(ke)])]
      ensures var r := old(routesToDds[ke].View()); routesToDds[ke].View() == r.(local := r.local + {k})
    {
      var e := discoveredReaders[k];
      routesToDds[ke].AddLocalRoutedReader(e.key);
      discoveredReaders := discoveredReaders[k := e.(routes := e.routes[name := Routed(ke)])];
    }

    method NoteLocalReaders(ke: string, topic: string, part: Option<string>)
      requires ke in routesToDds && forall k :: k in discoveredReaders ==> discoveredReaders[k].key == k
      modifies this`discoveredReaders, routesToDds[ke]
      ensures forall k :: k in discoveredReaders ==> discoveredReaders[k].key == k
      ensures discoveredReaders == MarkRouted(old(discoveredReaders), Hits(old(discoveredReaders), topic, part), Label(part), ke)
      ensures var r := old(routesToDds[ke].View());
              routesToDds[ke].View() == r.(local := r.local + Hits(old(discoveredReaders), topic, part))
    {
      var todo := discoveredReaders.Keys;
      ghost var all, r, hits := discoveredReaders, routesToDds[ke].View(), Hits(discoveredReaders, topic, part);
      ghost var noted: set<string> := {};
      MarkEnds(all, topic, part, Label(part), ke);
      hide MarkRouted, Hits, Concerns;
      while todo != {}
        invariant todo <= all.Keys
        invariant noted == hits - todo
        invariant discoveredReaders == MarkRouted(all, noted, Label(part), ke)
        invariant routesToDds[ke].View() == r.(local := r.local + noted)
        decreases todo
      {
        var k :| k in todo;
        MarkNext(all, topic, part, todo, k, ke);
        if Concerns(discoveredReaders[k], topic, part) {
          MarkLocalReader(ke, k, Label(part));
          assert r.local + noted + {k} == r.local + (noted + {k});
          noted := noted + {k};
        }
        todo := todo - {k};
      }
      MarkedKeys(all, hits, Label(part), ke);
    }

    /** One partition of an announced writer. */
    method RouteRemoteWriter(u: Setup, make: Template, ref: string, part: Option<string>,
                             statuses: map<string, RouteStatus>, o: Outcome)
      returns (after: map<string, RouteStatus>)
      requires Valid() && u.cfg == cfg
      modifies Repr()
      ensures Valid() && fresh(Repr() - old(Repr()))
      ensures var r := LinkRemoteStep(u, make, Linked(old(View()).to, statuses), ref, part, o);
              after == r.statuses && View() == WithHalf(old(View()), ToDds, r.half)
    {
      RemoteTurns(View(), ToDds, u, make, statuses, ref, part, o);
      var ke, spec := u.Key(part), u.SpecFor(make, part);
      hide TryAdd, WithHalf, View, Valid, AddRemote, LinkRemoteStep, Put, Setup.Key, Setup.SpecFor;
      var status := TryAddRouteToDds(ke, true, o, spec);
      if status.Routed? {
        NoteRemoteWriter(ke, ref, u.topic, part);
      }
      after := statuses[Label(part) := status];
    }

    method AnnouncedWriter(ref: string, e: DdsEntity, scope: Option<string>, oracle: Oracle)
      requires Valid()
      modifies Repr()
      ensures Valid() && fresh(Repr() - old(Repr()))
      ensures View() == OnAnnounce(cfg, old(View()), ToDds, ref, e, scope, oracle)
    {
      hide WithHalf, Conserved, LinkRemoteStep, TopicToKeyExpr, View, Valid, Repr;
      var u, make, parts, statuses := RemoteSetup(cfg, e, scope), RemoteTemplate(ToDds, e), e.Parts(), map[];
      ghost var s := View();
      WithHalfSame(s, ToDds);
      for i := 0 to |parts|
        invariant Valid() && fresh(Repr() - old(Repr()))
        invariant var l := LinkRemote(u, make, s.to, ref, parts[..i], oracle);
                  statuses == l.statuses && View() == WithHalf(s, ToDds, l.half) && s.to.routes.Keys <= l.half.routes.Keys
      {
        AnnouncedHalf(s, ToDds, u, make, ref, parts, i, oracle);
        label Before:
        statuses := RouteRemoteWriter(u, make, ref, parts[i], statuses, oracle(i));
        assert forall o :: o in Repr() && fresh@Before(o) ==> fresh(o);
      }
      assert parts[..|parts|] == parts;
    }

    // ---------- forward discovery mode: departures ----------

    method JudgeLeavingWriters(ke: string, zid: string) returns (changed: bool)
      requires Valid() && ke in routesToDds
      modifies Repr()
      ensures Valid() && fresh(Repr() - old(Repr()))
      ensures View() == LeaveOne(old(View()), ToDds, ke, zid)
      ensures changed == GoneGuid(old(View()).to, ke, zid).Some?
    {
      hide LeaveOne, GoneGuid, Replaced, Dropped, WithoutGuid, View, Valid;
      RouteToDdsInView(ke);
      LeaveOneCases(View(), ToDds, ke, zid);
      changed := false;
      CutRouteToDds(ke, CutContaining(DepartureSubkey(zid)));
      if !routesToDds[ke].HasRemoteRoutedWriter() {
        changed := ForgetWriterGid(ke);
        RemoveRouteToDds(ke);
      }
    }

    /** Without a GUID the graph stays as it is. */
    method ForgetWriterGid(ke: string) returns (changed: bool)
      requires Valid() && ke in routesToDds
      modifies participantInfo
      ensures Valid() && ke in old(View()).to.routes && View() == WithoutGuid(old(View()), ToDds, ke)
      ensures changed == (routesToDds[ke].ddsWriter in old(View()).to.live)
    {
      hide View, Valid;
      RouteToDdsInView(ke);
      changed := false;
      var guid := writers.Guid(routesToDds[ke].ddsWriter);
      if guid.Some? {
        RemoveWriterGid(guid.value);
        changed := true;
      }
    }

    method RemoveWriterGid(gid: string)
      requires Valid()
      modifies participantInfo
      ensures Valid() && View() == old(View()).(info := Forgotten(old(View()).info, ToDds, {gid}))
    {
      participantInfo.RemoveWriterGid(gid);
    }

    method RetainWritersNotOf(zid: string) returns (changed: bool)
      requires Valid()
      modifies Repr()
      ensures Valid() && fresh(Repr() - old(Repr()))
      ensures var s := old(View());
              && View() == LeaveSome(s, ToDds, s.to.routes.Keys - {}, zid)
              && changed == (GoneSome(s, ToDds, s.to.routes.Keys - {}, zid) != {})
    {
      hide LeaveSome, GoneSome, LeaveOne, GoneGuid, View, Valid, Repr;
      ghost var s := View();
      LeaveBegins(s, ToDds, zid);
      NoNullToDds();
      var todo := routesToDds.Keys;
      changed := false;
      while todo != {}
        invariant Valid() && fresh(Repr() - old(Repr()))
        invariant todo <= s.to.routes.Keys
        invariant View() == LeaveSome(s, ToDds, s.to.routes.Keys - todo, zid)
        invariant changed == (GoneSome(s, ToDds, s.to.routes.Keys - todo, zid) != {})
        decreases todo
      {
        var k :| k in todo;
        LeaveStep(s, ToDds, todo, k, zid);
        label Before:
        var gone := JudgeLeavingWriters(k, zid);
        assert forall o :: o in Repr() && fresh@Before(o) ==> fresh(o);
        todo, changed := todo - {k}, changed || gone;
      }
    }

    lemma NoNullToDds()
      requires Valid()
      ensures 0 !in View().to.live
    {
    }

    method JudgeLeavingReaders(ke: string, zid: string) returns (changed: bool)
      requires Valid() && ke in routesFromDds
      modifies Repr()
      ensures Valid() && fresh(Repr() - old(Repr()))
      ensures View() == LeaveOne(old(View()), FromDds, ke, zid)
      ensures changed == GoneGuid(old(View()).from, ke, zid).Some?
    {
      hide LeaveOne, GoneGuid, Replaced, Dropped, WithoutGuid, View, Valid;
      RouteFromDdsInView(ke);
      LeaveOneCases(View(), FromDds, ke, zid);
      changed := false;
      CutRouteFromDds(ke, CutContaining(DepartureSubkey(zid)));
      if !routesFromDds[ke].HasRemoteRoutedReader() {
        changed := ForgetReaderGid(ke);
        RemoveRouteFromDds(ke);
      }
    }

    /** Without a GUID the graph stays as it is. */
    method ForgetReaderGid(ke: string) returns (changed: bool)
      requires Valid() && ke in routesFromDds
      modifies participantInfo
      ensures Valid() && ke in old(View()).from.routes && View() == WithoutGuid(old(View()), FromDds, ke)
      ensures changed == (routesFromDds[ke].ddsReader in old(View()).from.live)
    {
      hide View, Valid;
      RouteFromDdsInView(ke);
      changed := false;
      var guid := readers.Guid(routesFromDds[ke].ddsReader);
      if guid.Some? {
        RemoveReaderGid(guid.value);
        changed := true;
      }
    }

    method RemoveReaderGid(gid: string)
      requires Valid()
      modifies participantInfo
      ensures Valid() && View() == old(View()).(info := Forgotten(old(View()).info, FromDds, {gid}))
    {
      participantInfo.RemoveReaderGid(gid);
    }

    method RetainReadersNotOf(zid: string) returns (changed: bool)
      requires Valid()
      modifies Repr()
      ensures Valid() && fresh(Repr() - old(Repr()))
      ensures var s := old(View());
              && View() == LeaveSome(s, FromDds, s.from.routes.Keys - {}, zid)
              && changed == (GoneSome(s, FromDds, s.from.routes.Keys - {}, zid) != {})
    {
      hide LeaveSome, GoneSome, LeaveOne, GoneGuid, View, Valid, Repr;
      ghost var s := View();
      LeaveBegins(s, FromDds, zid);
      NoNullFromDds();
      var todo := routesFromDds.Keys;
      changed := false;
      while todo != {}
        invariant Valid() && fresh(Repr() - old(Repr()))
        invariant todo <= s.from.routes.Keys
        invariant View() == LeaveSome(s, FromDds, s.from.routes.Keys - todo, zid)
        invariant changed == (GoneSome(s, FromDds, s.from.routes.Keys - todo, zid) != {})
        decreases todo
      {
        var k :| k in todo;
        LeaveStep(s, FromDds, todo, k, zid);
        label Before:
        var gone := JudgeLeavingReaders(k, zid);
        assert forall o :: o in Repr() && fresh@Before(o) ==> fresh(o);
        todo, changed := todo - {k}, changed || gone;
      }
    }

    lemma NoNullFromDds()
      requires Valid()
      ensures 0 !in View().from.live
    {
    }

    method CleanGraph()
      requires Valid()
      modifies participantInfo
      ensures Valid() && View() == old(View()).(info := Cleanup(old(View()).info))
    {
      participantInfo.Cleanup();
    }

    method BridgeLeft(zid: string)
      requires Valid()
      modifies Repr()
      ensures Valid() && fresh(Repr() - old(Repr()))
      ensures View() == OnLeft(old(View()), zid)
    {
      LeaveEnds(View(), zid);
      hide LeaveSome, GoneSome, View, Valid, OnLeft, Cleanup;
      var writersGone := RetainWritersNotOf(zid);
      var readersGone := RetainReadersNotOf(zid);
      if writersGone || readersGone {
        CleanGraph();
      }
    }

    // ---------- forward discovery mode: deletions ----------

    method DeletedReader(ref: string)
      requires Valid()
      modifies Repr()
      ensures Valid() && fresh(Repr() - old(Repr())) && View() == OnDelete(old(View()), FromDds, ref)
    {
      hide View, Valid, WithHalf, Sweep;
      RetainRoutesFromDds(CutRemote(ref), NeedRemote);
    }

    /** A route without remote writer gives up its DDS writer, and goes unless a local reader holds it. */
    method DeletedWriter(ref: string)
      requires Valid()
      modifies Repr()
      ensures Valid() && fresh(Repr() - old(Repr())) && View() == OnDelete(old(View()), ToDds, ref)
    {
      hide View, Valid, WithHalf, Sweep;
      RetainRoutesToDds(CutRemote(ref), NeedEither, true);
    }

    // ---------- forward discovery mode: the ROS graph ----------

    /** `find` over the routes in whatever order, for one that serves the gid. */
    method FindRouteFromDds(gid: string) returns (r: Option<string>)
      ensures r.Some? ==> r.value in routesFromDds && IsRouting(routesFromDds[r.value].View(), gid)
      ensures r.None? ==> forall k :: k in routesFromDds ==> !IsRouting(routesFromDds[k].View(), gid)
    {
      var todo := routesFromDds.Keys;
      while todo != {}
        invariant todo <= routesFromDds.Keys
        invariant forall k :: k in routesFromDds && k !in todo ==> !IsRouting(routesFromDds[k].View(), gid)
        decreases todo
      {
        var k :| k in todo;
        if routesFromDds[k].IsRoutingRemoteReader(gid) {
          return Some(k);
        }
        todo := todo - {k};
      }
      return None;
    }

    /** The gid of the route's own entity. In a reachable state there always is one, so every turn of the remapping gets on. */
    method RemapReaderGid(gid: string) returns (r: Option<string>)
      requires Valid() && FwdInv(View())
      ensures Valid() && View() == old(View())
      ensures r.Some? <==> RoutedGid(View().from, gid)
      ensures r.Some? ==> Replaces(View().from, gid, r.value)
    {
      hide FwdInv, IsRouting;
      var ke := FindRouteFromDds(gid);
      if ke.None? {
        return None;
      }
      ServingRouteHasGuid(View(), FromDds, ke.value, gid);
      r := readers.Guid(routesFromDds[ke.value].ddsReader);
    }

    /** In place: a gid is replaced, or removed if no route serves it. */
    method RemapReaders(gids: seq<string>) returns (out: seq<string>)
      requires Valid() && FwdInv(View())
      ensures Valid() && View() == old(View())
      ensures Remapped(View().from, gids, out)
    {
      hide *;
      out := gids;
      var i := 0;
      ghost var s, read := View(), 0;
      RemapStarts(s.from, gids);
      while i < |out|
        invariant 0 <= i <= |out| && 0 <= read <= |gids|
        invariant Valid() && FwdInv(s) && View() == s && RemappedSoFar(s.from, gids, read, out, i)
        decreases |out| - i
      {
        RemapHere(s.from, gids, read, out, i);
        var gid := RemapReaderGid(out[i]);
        RemapTurn(s.from, gids, read, out, i, gid);
        if gid.Some? {
          out := out[i := gid.value];
          i := i + 1;
        } else {
          out := out[..i] + out[i + 1..];
        }
        read := read + 1;
      }
      RemapEnds(s.from, gids, read, out, i);
    }

    /** `find` over the routes in whatever order, for one that serves the gid. */
    method FindRouteToDds(gid: string) returns (r: Option<string>)
      ensures r.Some? ==> r.value in routesToDds && IsRouting(routesToDds[r.value].View(), gid)
      ensures r.None? ==> forall k :: k in routesToDds ==> !IsRouting(routesToDds[k].View(), gid)
    {
      var todo := routesToDds.Keys;
      while todo != {}
        invariant todo <= routesToDds.Keys
        invariant forall k :: k in routesToDds && k !in todo ==> !IsRouting(routesToDds[k].View(), gid)
        decreases todo
      {
        var k :| k in todo;
        if routesToDds[k].IsRoutingRemoteWriter(gid) {
          return Some(k);
        }
        todo := todo - {k};
      }
      return None;
    }

    /** The gid of the route's own entity. In a reachable state there always is one, so every turn of the remapping gets on. */
    method RemapWriterGid(gid: string) returns (r: Option<string>)
      requires Valid() && FwdInv(View())
      ensures Valid() && View() == old(View())
      ensures r.Some? <==> RoutedGid(View().to, gid)
      ensures r.Some? ==> Replaces(View().to, gid, r.value)
    {
      hide FwdInv, IsRouting;
      var ke := FindRouteToDds(gid);
      if ke.None? {
        return None;
      }
      ServingRouteHasGuid(View(), ToDds, ke.value, gid);
      r := writers.Guid(routesToDds[ke.value].ddsWriter);
    }

    /** In place: a gid is replaced, or removed if no route serves it. */
    method RemapWriters(gids: seq<string>) returns (out: seq<string>)
      requires Valid() && FwdInv(View())
      ensures Valid() && View() == old(View())
      ensures Remapped(View().to, gids, out)
    {
      hide *;
      out := gids;
      var i := 0;
      ghost var s, read := View(), 0;
      RemapStarts(s.to, gids);
      while i < |out|
        invariant 0 <= i <= |out| && 0 <= read <= |gids|
        invariant Valid() && FwdInv(s) && View() == s && RemappedSoFar(s.to, gids, read, out, i)
        decreases |out| - i
      {
        RemapHere(s.to, gids, read, out, i);
        var gid := RemapWriterGid(out[i]);
        RemapTurn(s.to, gids, read, out, i, gid);
        if gid.Some? {
          out := out[i := gid.value];
          i := i + 1;
        } else {
          out := out[..i] + out[i + 1..];
        }
        read := read + 1;
      }
      RemapEnds(s.to, gids, read, out, i);
    }

    /** `remap_entities_info` */
    method RemapEntitiesInfo(info: Graph) returns (out: Graph)
      requires Valid() && FwdInv(View())
      ensures Valid() && View() == old(View())
      ensures RemappedGraph(View(), info, out)
    {
      hide FwdInv, View, Valid, Remapped;
      ghost var s := View();
      out := info;
      var todo := info.Keys;
      while todo != {}
        invariant todo <= info.Keys == out.Keys
        invariant Valid() && FwdInv(s) && View() == s
        invariant forall k :: k in info ==> if k in todo then out[k] == info[k] else RemappedNode(s, info[k], out[k])
        decreases todo
      {
        var k :| k in todo;
        var readerGids := RemapReaders(out[k].readers);
        var writerGids := RemapWriters(out[k].writers);
        out := out[k := out[k].(readers := readerGids, writers := writerGids)];
        todo := todo - {k};
      }
    }

    method UpdateGraph(news: Graph)
      requires Valid()
      modifies participantInfo
      ensures Valid() && View() == old(View()).(info := UpdateWith(old(View()).info, news))
    {
      participantInfo.UpdateWith(news);
    }

    // ---------- forward discovery mode: the event loop ----------

    method HandleEntitySample(kind: DiscoKind, ref: string, payload: Payload, oracle: Oracle)
      requires Valid() && !kind.RosDisco?
      modifies Repr()
      ensures Valid() && fresh(Repr() - old(Repr()))
      ensures View() == OnEntity(cfg, old(View()), SideOf(kind), ref, payload, oracle)
    {
      hide View, Valid, OnAnnounce, OnDelete;
      if payload.Announce? {
        if kind.WriterDisco? {
          AnnouncedWriter(ref, payload.e, payload.scope, oracle);
        } else {
          AnnouncedReader(ref, payload.e, payload.scope, oracle);
        }
      } else if payload.Delete? {
        if kind.WriterDisco? {
          DeletedWriter(ref);
        } else {
          DeletedReader(ref);
        }
      }
    }

    /**
    A sample on a forwarded-discovery key. What it meant is the payload itself, with what remapping made
    of a graph; a graph on another key is not what is expected there.
    */
    method HandleSample(ke: string, payload: Payload, oracle: Oracle) returns (ghost meant: Payload)
      requires Valid() && FwdInv(View())
      requires payload.RosInfo? ==> forall k :: k in payload.nodes ==> k == payload.nodes[k].namespace + payload.nodes[k].name
      modifies Repr()
      ensures Valid() && fresh(Repr() - old(Repr()))
      ensures if !payload.RosInfo? then meant == payload
              else if ParseFwdKey(ke).Some? && ParseFwdKey(ke).value.kind.RosDisco? then
                meant.RosInfo? && meant.nodes == payload.nodes
              else meant == Garbage
      ensures FwdEventOk(old(View()), Sample(ke, meant))
      ensures View() == OnSample(cfg, old(View()), ke, meant, oracle)
    {
      hide View, Valid, FwdInv, ParseFwdKey, OnEntity, FullAdminKey, RemappedGraph, UpdateWith;
      meant := if payload.RosInfo? then Garbage else payload;
      var parsed := ParseFwdDiscoveryKey(ke);
      GarbageDoesNothing(cfg, View(), ke, oracle);
      if parsed.Some? {
        var FwdParsed(uuid, kind, rest) := parsed.value;
        if kind.RosDisco? {
          if payload.RosInfo? {
            var remapped := RemapEntitiesInfo(payload.nodes);
            meant := RosInfo(payload.nodes, remapped);
            UpdateGraph(remapped);
          }
        } else if !payload.RosInfo? {
          HandleEntitySample(kind, FullAdminKey(uuid, rest), payload, oracle);
        }
      }
    }

    /** One turn of the event loop: it takes a reachable state to a reachable state. */
    method HandleForward(ev: FwdEvent, oracle: Oracle) returns (ghost meant: FwdEvent)
      requires Valid() && FwdInv(View()) && Deliverable(View(), ev)
      modifies Repr()
      ensures Valid() && fresh(Repr() - old(Repr()))
      ensures Means(ev, meant) && FwdEventOk(old(View()), meant)
      ensures View() == FwdStep(cfg, old(View()), meant, oracle) && FwdInv(View())
    {
      hide View, Valid, FwdInv, OnSample, OnLeft, FwdDds;
      ghost var s := View();
      meant := ev;
      match ev {
        case Dds(e, serializable) => HandleFwdDds(e, serializable, oracle);
        case Sample(ke, payload) =>
          ghost var m := HandleSample(ke, payload, oracle);
          meant := Sample(ke, m);
        case MemberLeft(zid) => BridgeLeft(zid);
      }
      StepKeepsFwdInv(cfg, s, meant, oracle);
    }

    /** The event loop goes through the states of a run, in which each event is what the program made of it. */
    method RunForwardDiscovery(events: seq<(FwdEvent, Oracle)>)
      returns (ghost states: seq<State>, ghost meant: seq<(FwdEvent, Oracle)>)
      requires Valid() && View() == INIT && AllDeliverable(cfg, events)
      modifies Repr()
      ensures Valid() && FwdRun(cfg, states, meant) && |meant| == |events| && AllMean(events, meant)
      ensures View() == states[|events|] && FwdInv(View())
    {
      hide View, Valid, FwdStep, FwdInv, FwdEventOk, Means, Deliverable, Repr;
      states, meant := [INIT], [];
      RunKeepsFwdInv(cfg, states, meant, 0);
      for i := 0 to |events|
        invariant Valid() && fresh(Repr() - old(Repr())) && FwdInv(View())
        invariant FwdRun(cfg, states, meant) && |meant| == i && AllMean(events, meant) && View() == states[i]
      {
        label Before:
        ghost var m := HandleForward(events[i].0, events[i].1);
        assert forall o :: o in Repr() && fresh@Before(o) ==> fresh(o);
        RunExtends(cfg, states, meant, (m, events[i].1));
        states, meant := states + [View()], meant + [(m, events[i].1)];
      }
    }
  }
}
