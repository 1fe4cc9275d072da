/**
The sweeps over the routes and the admin index, one route at a time, in any order. Doing all of them
is the sweep.
*/
module Sweeps {
  import opened Wrappers
  import opened QosAdaptation
  import opened BridgeKeys
  import opened Bridge
  import opened Linking
  import opened BridgeState

  /** How a sweep judges each route. */
  datatype Rule = Rule(cut: Cut, need: Need, release: bool)
  {
    function After(r: Route): Route {
      Swept(r, cut, release)
    }

    predicate Keeps(r: Route) {
      Survives(r, cut, need, release)
    }

    function All(h: Half): Half {
      Sweep(h, cut, need, release)
    }
  }

  /** One route is swept. */
  function SweepOne(h: Half, k: string, rule: Rule): Half
    requires k in h.routes
  {
    var r := rule.After(h.routes[k]);
    var live := if !rule.Keeps(h.routes[k]) || r.entity == 0 then h.live - {h.routes[k].entity} else h.live;
    h.(routes := if rule.Keeps(h.routes[k]) then h.routes[k := r] else h.routes - {k}, live := live)
  }

  /** The routes of `done` are swept, the others are not yet. */
  function SweepSome(h: Half, done: set<string>, rule: Rule): Half {
    h.(routes := map ke | ke in h.routes && (ke in done ==> rule.Keeps(h.routes[ke])) ::
         if ke in done then rule.After(h.routes[ke]) else h.routes[ke],
       live := h.live - Released(Picked(h.routes, done), rule.cut, rule.need, rule.release))
  }

  function Picked(routes: map<string, Route>, done: set<string>): map<string, Route> {
    map ke | ke in routes && ke in done :: routes[ke]
  }

  lemma SweepStarts(h: Half, rule: Rule)
    ensures SweepSome(h, {}, rule) == h
  {
    assert Picked(h.routes, {}) == map[];
    assert SweepSome(h, {}, rule).routes == h.routes;
  }

  lemma SweepEnds(h: Half, rule: Rule)
    ensures SweepSome(h, h.routes.Keys - {}, rule) == rule.All(h)
  {
    assert h.routes.Keys - {} == h.routes.Keys;
    assert Picked(h.routes, h.routes.Keys) == h.routes;
  }

  lemma SweepNext(h: Half, done: set<string>, k: string, rule: Rule)
    requires k in h.routes && k !in done
    ensures k in SweepSome(h, done, rule).routes && SweepSome(h, done, rule).routes[k] == h.routes[k]
    ensures SweepSome(h, done + {k}, rule) == SweepOne(SweepSome(h, done, rule), k, rule)
  {
    var before, after := SweepSome(h, done, rule), SweepSome(h, done + {k}, rule);
    assert after.routes == SweepOne(before, k, rule).routes;
    ReleasedNext(h, done, k, rule);
  }

  lemma ReleasedNext(h: Half, done: set<string>, k: string, rule: Rule)
    requires k in h.routes && k !in done
    ensures SweepSome(h, done + {k}, rule).live == SweepOne(SweepSome(h, done, rule), k, rule).live
  {
    hide Survives, Swept;
    var a, b, r := Picked(h.routes, done), Picked(h.routes, done + {k}), h.routes[k];
    assert b == a[k := r] && k !in a;
    var freed := if !rule.Keeps(r) || rule.After(r).entity == 0 then {r.entity} else {};
    var ra, rb := Released(a, rule.cut, rule.need, rule.release), Released(b, rule.cut, rule.need, rule.release);
    forall x | x in ra ensures x in rb {
      var ke :| ke in a && GivesUp(a[ke], rule.cut, rule.need, rule.release) && x == a[ke].entity;
      assert ke in b && b[ke] == a[ke];
    }
    forall x | x in rb ensures x in ra + freed {
      var ke :| ke in b && GivesUp(b[ke], rule.cut, rule.need, rule.release) && x == b[ke].entity;
      assert ke == k || (ke in a && b[ke] == a[ke]);
    }
    assert freed <= rb by { assert k in b && b[k] == r; }
    assert rb == ra + freed;
  }

  // ---------- in any order ----------

  /** The keys, each once, in some order. */
  ghost predicate EachOnce(order: seq<string>, keys: set<string>) {
    && (forall i :: 0 <= i < |order| ==> order[i] in keys)
    && (forall k :: k in keys ==> k in order)
    && (forall i, j :: 0 <= i < j < |order| ==> order[i] != order[j])
  }

  function Done(order: seq<string>, n: nat): set<string>
    requires n <= |order|
  {
    set i | 0 <= i < n :: order[i]
  }

  /** The loop of a sweep over the first `n` routes of the order. */
  function SweepInOrder(h: Half, order: seq<string>, n: nat, rule: Rule): Half
    requires n <= |order|
  {
    if n == 0 then h
    else
      var before := SweepInOrder(h, order, n - 1, rule);
      if order[n - 1] in before.routes then SweepOne(before, order[n - 1], rule) else before
  }

  lemma DoneNext(order: seq<string>, keys: set<string>, n: nat)
    requires EachOnce(order, keys) && n < |order|
    ensures Done(order, n + 1) == Done(order, n) + {order[n]} && order[n] !in Done(order, n) && order[n] in keys
    ensures Done(order, n) <= keys && Done(order, n + 1) <= keys
  {
  }

  lemma DoneAll(order: seq<string>, keys: set<string>)
    requires EachOnce(order, keys)
    ensures Done(order, |order|) == keys && Done(order, 0) == {}
  {
  }

  lemma {:induction false} SweepSoFar(h: Half, order: seq<string>, n: nat, rule: Rule)
    requires EachOnce(order, h.routes.Keys) && n <= |order|
    ensures SweepInOrder(h, order, n, rule) == SweepSome(h, Done(order, n), rule)
  {
    hide *;
    DoneAll(order, h.routes.Keys);
    SweepTurn(h, order, n, rule);
    if n == 0 {
      SweepStarts(h, rule);
    } else {
      SweepSoFar(h, order, n - 1, rule);
      DoneNext(order, h.routes.Keys, n - 1);
      SweepNext(h, Done(order, n - 1), order[n - 1], rule);
    }
  }

  lemma SweepTurn(h: Half, order: seq<string>, n: nat, rule: Rule)
    requires n <= |order|
    ensures SweepInOrder(h, order, 0, rule) == h
    ensures n > 0 ==>
              var before := SweepInOrder(h, order, n - 1, rule);
              SweepInOrder(h, order, n, rule) ==
              if order[n - 1] in before.routes then SweepOne(before, order[n - 1], rule) else before
  {
  }

  /** Judging the routes one at a time, in whatever order the map has, is the sweep. */
  lemma SweepInAnyOrder(h: Half, order: seq<string>, rule: Rule)
    requires EachOnce(order, h.routes.Keys)
    ensures SweepInOrder(h, order, |order|, rule) == rule.All(h)
  {
    SweepSoFar(h, order, |order|, rule);
    DoneAll(order, h.routes.Keys);
    SweepEnds(h, rule);
    assert h.routes.Keys - {} == h.routes.Keys;
  }

  // ---------- the index, one route at a time ----------

  lemma IndexGrows(side: Side, admin: map<string, AdminRef>, before: set<string>, mid: set<string>, k: string)
    requires before <= mid && k !in mid
    ensures Reindex(side, admin, before, mid + {k}) == Reindex(side, admin, before, mid)[RouteKey(side, k) := RouteRef(side, k)]
  {
    hide RouteKey, Reindex;
    assert mid + {k} - before == mid - before + {k} && before - mid == {} && before - (mid + {k}) == {};
    KeysGrow(side, mid - before, k);
    Reindexed(side, admin, before, mid);
    Reindexed(side, admin, before, mid + {k});
  }

  lemma KeysGrow(side: Side, kes: set<string>, k: string)
    ensures RouteKeys(side, kes + {k}) == RouteKeys(side, kes) + {RouteKey(side, k)}
  {
    hide RouteKey;
  }

  lemma IndexShrinks(side: Side, admin: map<string, AdminRef>, before: set<string>, mid: set<string>, k: string)
    requires mid <= before && k in mid
    ensures Reindex(side, admin, before, mid - {k}) == Reindex(side, admin, before, mid) - {RouteKey(side, k)}
  {
    hide RouteKey, Reindex;
    assert before - (mid - {k}) == before - mid + {k} && mid - before == {} && mid - {k} - before == {};
    KeysGrow(side, before - mid, k);
    Reindexed(side, admin, before, mid);
    Reindexed(side, admin, before, mid - {k});
  }

  lemma IndexStays(side: Side, admin: map<string, AdminRef>, kes: set<string>)
    ensures Reindex(side, admin, kes, kes) == admin
  {
    assert kes - kes == {};
  }

  // ---------- whole states ----------

  /** A route that comes, goes or changes brings its index entry along. */
  lemma WithHalfTwice(s: State, side: Side, mid: Half, after: Half)
    requires var k0, k1, k2 := Get(s, side).routes.Keys, mid.routes.Keys, after.routes.Keys;
             k1 == k2 || (k0 <= k1 && exists k :: k !in k1 && k2 == k1 + {k})
             || (k1 <= k0 && exists k :: k in k1 && k2 == k1 - {k})
    ensures WithHalf(WithHalf(s, side, mid), side, after) == WithHalf(s, side, after)
  {
    hide RouteKey;
    var k0, k1, k2 := Get(s, side).routes.Keys, mid.routes.Keys, after.routes.Keys;
    var admin1 := Reindex(side, s.admin, k0, k1);
    IndexStays(side, admin1, k1);
    if k1 != k2 {
      if k0 <= k1 && exists k :: k !in k1 && k2 == k1 + {k} {
        var k :| k !in k1 && k2 == k1 + {k};
        IndexGrows(side, s.admin, k0, k1, k);
        IndexGrows(side, admin1, k1, k1, k);
      } else {
        var k :| k in k1 && k2 == k1 - {k};
        IndexShrinks(side, s.admin, k0, k1, k);
        IndexShrinks(side, admin1, k1, k1, k);
      }
    }
  }

  lemma WithHalfSame(s: State, side: Side)
    ensures WithHalf(s, side, Get(s, side)) == s
  {
    IndexStays(side, s.admin, Get(s, side).routes.Keys);
  }

  /** What trying to add a route makes of the whole state, case by case. */
  lemma TryAddCases(cfg: Config, s: State, side: Side, ke: string, withEntity: bool, o: Outcome, spec: Spec)
    ensures var h := Get(s, side);
            var (status, h') := TryAdd(cfg, h, ke, withEntity, o, spec);
            var s' := WithHalf(s, side, h');
            if !cfg.Allowed(ke) then status == NotAllowed && s' == s
            else if ke in h.routes && (withEntity ==> h.routes[ke].entity != 0) then status == Routed(ke) && s' == s
            else if (ke !in h.routes && !o.sessionOk) || (withEntity && !Accepts(h, o)) then status == CreationFailure && s' == s
            else if ke in h.routes then status == Routed(ke) && s' == Put(s, side, Install(h, ke, h.routes[ke], o, spec))
            else
              && status == Routed(ke)
              && s' == Put(s, side,
                           if withEntity then Install(h, ke, Route(0, {}, {}), o, spec)
                           else h.(routes := h.routes[ke := Route(0, {}, {})]))
                       .(admin := s.admin[RouteKey(side, ke) := RouteRef(side, ke)])
  {
    hide RouteKey, Reindex, Conserved;
    var h := Get(s, side);
    var h' := TryAdd(cfg, h, ke, withEntity, o, spec).1;
    IndexStays(side, s.admin, h.routes.Keys);
    if ke !in h.routes {
      IndexGrows(side, s.admin, h.routes.Keys, h.routes.Keys, ke);
      assert ke in h'.routes ==> h'.routes.Keys == h.routes.Keys + {ke};
    } else {
      assert h'.routes.Keys == h.routes.Keys;
    }
  }

  /** Sweeping one more route, index included. */
  lemma SweepStep(s: State, side: Side, todo: set<string>, k: string, rule: Rule)
    requires k in todo && todo <= Get(s, side).routes.Keys
    ensures var h := Get(s, side);
            var mid, next := SweepSome(h, h.routes.Keys - todo, rule), SweepSome(h, h.routes.Keys - (todo - {k}), rule);
            && k in mid.routes && Get(WithHalf(s, side, mid), side) == mid
            && WithHalf(WithHalf(s, side, mid), side, SweepOne(mid, k, rule)) == WithHalf(s, side, next)
  {
    hide Survives, Swept, Reindex, Conserved;
    var h := Get(s, side);
    var done := h.routes.Keys - todo;
    assert done + {k} == h.routes.Keys - (todo - {k});
    SweepNext(h, done, k, rule);
    var mid, next := SweepSome(h, done, rule), SweepSome(h, done + {k}, rule);
    assert next.routes.Keys == mid.routes.Keys || next.routes.Keys == mid.routes.Keys - {k};
    WithHalfTwice(s, side, mid, next);
  }

  function ReplacedIn(h: Half, k: string, r: Route): Half {
    h.(routes := h.routes[k := r])
  }

  function DroppedFrom(h: Half, k: string): Half
    requires k in h.routes
  {
    h.(routes := h.routes - {k}, live := h.live - {h.routes[k].entity})
  }

  function UnservedIn(h: Half, k: string): Half
    requires k in h.routes
  {
    h.(routes := h.routes[k := h.routes[k].(entity := 0)], live := h.live - {h.routes[k].entity})
  }

  function Replaced(s: State, side: Side, k: string, r: Route): State {
    Put(s, side, ReplacedIn(Get(s, side), k, r))
  }

  /** A route leaves with its index entry and its DDS entity. */
  function Dropped(s: State, side: Side, k: string): State
    requires k in Get(s, side).routes
  {
    Put(s, side, DroppedFrom(Get(s, side), k)).(admin := s.admin - {RouteKey(side, k)})
  }

  function WithDds(s: State, side: Side, live: map<int, string>, issued: map<string, Spec>): State {
    Put(s, side, Get(s, side).(live := live, issued := issued))
  }

  /** A route gives up its DDS entity and stays. */
  function Unserved(s: State, side: Side, k: string): State
    requires k in Get(s, side).routes
  {
    Put(s, side, UnservedIn(Get(s, side), k))
  }

  /** Sweeping one route: a cut, then perhaps the loss of its DDS entity, then a drop of what nothing needs. */
  lemma SweepOneCases(s: State, side: Side, k: string, rule: Rule)
    requires k in Get(s, side).routes && 0 !in Get(s, side).live
    ensures var h := Get(s, side);
            var r := rule.cut.Apply(h.routes[k]);
            var s1 := Replaced(s, side, k, r);
            && k in Get(s1, side).routes && Get(s1, side).routes[k] == r && Get(s1, side).live == h.live && s1.info == s.info
            && var s2 := if rule.release && r.remote == {} then Unserved(s1, side, k) else s1;
            && k in Get(s2, side).routes
            && WithHalf(s, side, SweepOne(h, k, rule)) == if rule.need.Met(r) then s2 else Dropped(s2, side, k)
  {
    var h := Get(s, side);
    var h', r := SweepOne(h, k, rule), rule.cut.Apply(h.routes[k]);
    var h1 := ReplacedIn(h, k, r);
    var h2 := if rule.release && r.remote == {} then UnservedIn(h1, k) else h1;
    SweptHalf(h, k, rule);
    if rule.need.Met(r) { SameKeysKept(s, side, h'); } else { OneKeyGone(s, side, h', k); }
    hide WithHalf, RouteKey, SweepOne, Conserved, Cut.Apply, Need.Met, Rule.After, Rule.Keeps, Get, Put, UnservedIn, DroppedFrom;
    PutTwice(s, side, h1, h2);
    PutTwice(s, side, h2, DroppedFrom(h2, k));
  }

  lemma PutTwice(s: State, side: Side, a: Half, b: Half)
    ensures Put(Put(s, side, a), side, b) == Put(s, side, b)
    ensures Get(Put(s, side, a), side) == a && Get(Put(s, side, b), side) == b
    ensures Put(s, side, a).info == s.info && Put(s, side, a).admin == s.admin && Put(s, side, b).admin == s.admin
  {
  }

  lemma SameKeysKept(s: State, side: Side, h: Half)
    requires h.routes.Keys == Get(s, side).routes.Keys
    ensures WithHalf(s, side, h) == Put(s, side, h)
  {
    IndexStays(side, s.admin, h.routes.Keys);
  }

  lemma OneKeyGone(s: State, side: Side, h: Half, k: string)
    requires k in Get(s, side).routes && h.routes.Keys == Get(s, side).routes.Keys - {k}
    ensures WithHalf(s, side, h) == Put(s, side, h).(admin := s.admin - {RouteKey(side, k)})
  {
    hide RouteKey, Reindex;
    var kes := Get(s, side).routes.Keys;
    IndexStays(side, s.admin, kes);
    IndexShrinks(side, s.admin, kes, kes, k);
  }

  lemma SweptHalf(h: Half, k: string, rule: Rule)
    requires k in h.routes && 0 !in h.live
    ensures var r := rule.cut.Apply(h.routes[k]);
            var h1 := ReplacedIn(h, k, r);
            && k in h1.routes && h1.routes[k] == r && h1.live == h.live && h1.routes.Keys == h.routes.Keys
            && var h2 := if rule.release && r.remote == {} then UnservedIn(h1, k) else h1;
            && k in h2.routes && h2.routes.Keys == h.routes.Keys
            && SweepOne(h, k, rule) == (if rule.need.Met(r) then h2 else DroppedFrom(h2, k))
            && (!rule.need.Met(r) ==> DroppedFrom(h2, k).routes.Keys == h.routes.Keys - {k})
  {
    var r := rule.cut.Apply(h.routes[k]);
    assert r.entity == h.routes[k].entity;
    assert h.live - {0} == h.live && (h.live - {r.entity}) - {0} == h.live - {r.entity};
    if rule.need.Met(r) {
      assert h.routes[k := r][k := r.(entity := 0)] == h.routes[k := r.(entity := 0)];
    } else {
      assert h.routes[k := r] - {k} == h.routes - {k};
      assert h.routes[k := r][k := r.(entity := 0)] - {k} == h.routes - {k};
    }
  }

  lemma SweepBegins(s: State, side: Side, rule: Rule)
    ensures var h := Get(s, side); WithHalf(s, side, SweepSome(h, h.routes.Keys - h.routes.Keys, rule)) == s
  {
    var h := Get(s, side);
    assert h.routes.Keys - h.routes.Keys == {};
    SweepStarts(h, rule);
    WithHalfSame(s, side);
  }

  /** One part of a discovered entity: its route is tried, and then noted on in place. */
  lemma LocalTurns(s: State, side: Side, u: Setup, make: Template, statuses: map<string, RouteStatus>, key: string,
          part: Option<string>, withEntity: bool, o: Outcome)
    ensures var r := LinkLocalStep(u, make, Linked(Get(s, side), statuses), key, part, withEntity, o);
            var (status, mid) := TryAdd(u.cfg, Get(s, side), u.Key(part), withEntity, o, u.SpecFor(make, part));
            var s1 := WithHalf(s, side, mid);
            && r.statuses == statuses[Label(part) := status]
            && Get(s1, side) == mid && (status.Routed? ==> u.Key(part) in mid.routes)
            && WithHalf(s, side, r.half) == if status.Routed? then Put(s1, side, AddLocal(mid, u.Key(part), key)) else s1
  {
    hide TryAdd, AddLocal, Reindex, TopicToKeyExpr, Conserved;
  }

  /** The same for an announced entity. */
  lemma RemoteTurns(s: State, side: Side, u: Setup, make: Template, statuses: map<string, RouteStatus>, ref: string,
          part: Option<string>, o: Outcome)
    ensures var r := LinkRemoteStep(u, make, Linked(Get(s, side), statuses), ref, part, o);
            var (status, mid) := TryAdd(u.cfg, Get(s, side), u.Key(part), true, o, u.SpecFor(make, part));
            var s1 := WithHalf(s, side, mid);
            && r.statuses == statuses[Label(part) := status]
            && Get(s1, side) == mid && (status.Routed? ==> u.Key(part) in mid.routes)
            && WithHalf(s, side, r.half) ==
                 if status.Routed? then Put(s1, side, AddRemote(mid, u.Key(part), ref, u.topic, part)) else s1
  {
    hide TryAdd, AddRemote, Reindex, TopicToKeyExpr, Conserved;
  }

  /** A step over one part adds its route or none. */
  lemma LinkStepKeys(u: Setup, make: Template, before: Linked, key: string, part: Option<string>, withEntity: bool, o: Outcome)
    ensures var after := LinkLocalStep(u, make, before, key, part, withEntity, o).half.routes.Keys;
            after == before.half.routes.Keys || after == before.half.routes.Keys + {u.Key(part)}
  {
    hide TryAdd, Conserved, TopicToKeyExpr, AddLocal;
  }

  /** One more part is linked, index included. */
  lemma LinkedHalf(s: State, side: Side, u: Setup, make: Template, key: string, parts: seq<Option<string>>, i: nat,
          withEntity: bool, oracle: Oracle)
    requires i < |parts|
    requires Get(s, side).routes.Keys <= LinkLocal(u, make, Get(s, side), key, parts[..i], withEntity, oracle).half.routes.Keys
    ensures var before := LinkLocal(u, make, Get(s, side), key, parts[..i], withEntity, oracle);
            var after := LinkLocal(u, make, Get(s, side), key, parts[..i + 1], withEntity, oracle);
            && after == LinkLocalStep(u, make, before, key, parts[i], withEntity, oracle(i))
            && Get(s, side).routes.Keys <= after.half.routes.Keys
            && Get(WithHalf(s, side, before.half), side) == before.half
            && WithHalf(WithHalf(s, side, before.half), side, after.half) == WithHalf(s, side, after.half)
  {
    var before := LinkLocal(u, make, Get(s, side), key, parts[..i], withEntity, oracle);
    LinkLocalUnfolds(u, make, Get(s, side), key, parts, i, withEntity, oracle);
    LinkStepKeys(u, make, before, key, parts[i], withEntity, oracle(i));
    OneMoreKey(s, side, before.half, LinkLocalStep(u, make, before, key, parts[i], withEntity, oracle(i)).half, u.Key(parts[i]));
    hide *;
  }

  lemma LinkLocalUnfolds(u: Setup, make: Template, h: Half, key: string, parts: seq<Option<string>>, i: nat,
          withEntity: bool, oracle: Oracle)
    requires i < |parts|
    ensures LinkLocal(u, make, h, key, parts[..i + 1], withEntity, oracle) ==
            LinkLocalStep(u, make, LinkLocal(u, make, h, key, parts[..i], withEntity, oracle),
                          key, parts[i], withEntity, oracle(i))
  {
    hide LinkLocalStep;
    assert parts[..i + 1][..i] == parts[..i];
  }

  lemma OneMoreKey(s: State, side: Side, mid: Half, after: Half, k: string)
    requires Get(s, side).routes.Keys <= mid.routes.Keys
    requires after.routes.Keys == mid.routes.Keys || after.routes.Keys == mid.routes.Keys + {k}
    ensures Get(s, side).routes.Keys <= after.routes.Keys
    ensures Get(WithHalf(s, side, mid), side) == mid
    ensures WithHalf(WithHalf(s, side, mid), side, after) == WithHalf(s, side, after)
  {
    hide Reindex;
    WithHalfTwice(s, side, mid, after);
  }

  /** The same for an announced entity. */
  lemma AnnouncedHalf(s: State, side: Side, u: Setup, make: Template, ref: string, parts: seq<Option<string>>, i: nat,
          oracle: Oracle)
    requires i < |parts|
    requires Get(s, side).routes.Keys <= LinkRemote(u, make, Get(s, side), ref, parts[..i], oracle).half.routes.Keys
    ensures var before := LinkRemote(u, make, Get(s, side), ref, parts[..i], oracle);
            var after := LinkRemote(u, make, Get(s, side), ref, parts[..i + 1], oracle);
            && after == LinkRemoteStep(u, make, before, ref, parts[i], oracle(i))
            && Get(s, side).routes.Keys <= after.half.routes.Keys
            && Get(WithHalf(s, side, before.half), side) == before.half
            && WithHalf(WithHalf(s, side, before.half), side, after.half) == WithHalf(s, side, after.half)
  {
    var before := LinkRemote(u, make, Get(s, side), ref, parts[..i], oracle);
    LinkRemoteLast(u, make, Get(s, side), ref, parts, i, oracle);
    LinkRemoteStepKeys(u, make, before, ref, parts[i], oracle(i));
    OneMoreKey(s, side, before.half, LinkRemoteStep(u, make, before, ref, parts[i], oracle(i)).half, u.Key(parts[i]));
    hide *;
  }

  lemma LinkRemoteStepKeys(u: Setup, make: Template, before: Linked, ref: string, part: Option<string>, o: Outcome)
    ensures var after := LinkRemoteStep(u, make, before, ref, part, o).half.routes.Keys;
            after == before.half.routes.Keys || after == before.half.routes.Keys + {u.Key(part)}
  {
    hide TryAdd, Conserved, TopicToKeyExpr, AddRemote;
  }

  /** The entities an announcement concerns are marked one at a time. */
  lemma MarkNext(entities: map<string, DdsEntity>, topic: string, part: Option<string>, todo: set<string>,
          k: string, ke: string)
    requires k in todo && todo <= entities.Keys
    ensures var hits, name, e := Hits(entities, topic, part), Label(part), entities[k];
            var before, after := MarkRouted(entities, hits - todo, name, ke), MarkRouted(entities, hits - (todo - {k}), name, ke);
            && k in before && before[k] == e
            && if Concerns(e, topic, part) then
                 after == before[k := e.(routes := e.routes[name := Routed(ke)])] && hits - (todo - {k}) == (hits - todo) + {k}
               else after == before && hits - (todo - {k}) == hits - todo
  {
    var hits, name, e := Hits(entities, topic, part), Label(part), entities[k];
    var before, after := MarkRouted(entities, hits - todo, name, ke), MarkRouted(entities, hits - (todo - {k}), name, ke);
    assert after == if k in hits then before[k := e.(routes := e.routes[name := Routed(ke)])] else before;
  }

  lemma MarkEnds(entities: map<string, DdsEntity>, topic: string, part: Option<string>, name: string, ke: string)
    ensures var hits := Hits(entities, topic, part);
            hits - entities.Keys == {} && hits - {} == hits && MarkRouted(entities, {}, name, ke) == entities
  {
  }

  lemma MarkedKeys(entities: map<string, DdsEntity>, hits: set<string>, name: string, ke: string)
    requires forall k :: k in entities ==> entities[k].key == k
    ensures var marked := MarkRouted(entities, hits, name, ke); forall k :: k in marked ==> marked[k].key == k
  {
  }

  /** The graph and the routes do not touch. */
  lemma InfoApart(s: State, side: Side, h: Half, info: map<string, Node>)
    ensures Get(s.(info := info), side) == Get(s, side)
    ensures WithHalf(s.(info := info), side, h) == WithHalf(s, side, h).(info := info)
    ensures WithHalf(s, side, h).info == s.info
  {
  }
}
