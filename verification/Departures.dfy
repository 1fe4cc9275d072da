/** When a bridge leaves, routes go one at a time, and each takes the GUID of its DDS entity out of the ROS graph. */
module Departures {
  import opened Wrappers
  import opened BridgeKeys
  import opened Bridge
  import opened Linking
  import opened BridgeState
  import opened RosGraph
  import opened ForwardMode
  import opened Sweeps
  import opened RosDiscovery

  function Forgotten(info: Graph, side: Side, gids: set<string>): Graph {
    if side.FromDds? then RemoveGids(info, gids, {}) else RemoveGids(info, {}, gids)
  }

  function LeaveRule(zid: string): Rule {
    Rule(CutContaining(DepartureSubkey(zid)), NeedRemote, false)
  }

  /** The routes of `done` have been judged. */
  function LeaveSome(s: State, side: Side, done: set<string>, zid: string): State {
    var h := Get(s, side);
    var mid := SweepSome(h, done, LeaveRule(zid));
    WithHalf(s, side, mid).(info := Forgotten(s.info, side, GoneGuids(h, mid)))
  }

  function GoneSome(s: State, side: Side, done: set<string>, zid: string): set<string> {
    GoneGuids(Get(s, side), SweepSome(Get(s, side), done, LeaveRule(zid)))
  }

  /** The GUID of a route that does not survive, if it can be had. */
  function GoneGuid(h: Half, k: string, zid: string): Option<string>
    requires k in h.routes
  {
    var r := h.routes[k];
    if !LeaveRule(zid).Keeps(r) && r.entity in h.live then Some(h.live[r.entity]) else None
  }

  function LeaveOne(s: State, side: Side, k: string, zid: string): State
    requires k in Get(s, side).routes
  {
    var h := Get(s, side);
    var gone := GoneGuid(h, k, zid);
    WithHalf(s, side, SweepOne(h, k, LeaveRule(zid)))
      .(info := if gone.Some? then Forgotten(s.info, side, {gone.value}) else s.info)
  }

  lemma ForgottenTwice(info: Graph, side: Side, a: set<string>, b: set<string>)
    ensures Forgotten(Forgotten(info, side, a), side, b) == Forgotten(info, side, a + b)
    ensures Forgotten(info, side, {}) == info
  {
    var none: set<string> := {};
    assert none + none == none;
    RemoveNothing(info);
    if side.FromDds? { RemovalsAddUp(info, a, {}, b, {}); } else { RemovalsAddUp(info, {}, a, {}, b); }
  }

  lemma GoneNext(h: Half, done: set<string>, k: string, zid: string)
    requires k in h.routes && k !in done && 0 !in h.live
    ensures var mid, next := SweepSome(h, done, LeaveRule(zid)), SweepSome(h, done + {k}, LeaveRule(zid));
            k in mid.routes && var gone := GoneGuid(mid, k, zid);
            GoneGuids(h, next) == GoneGuids(h, mid) + if gone.Some? then {gone.value} else {}
  {
    var rule := LeaveRule(zid);
    SweepNext(h, done, k, rule);
    var mid, next, x := SweepSome(h, done, rule), SweepSome(h, done + {k}, rule), h.routes[k].entity;
    assert forall y :: y in mid.live ==> y in h.live && mid.live[y] == h.live[y];
    assert next.live == if rule.Keeps(h.routes[k]) then mid.live else mid.live - {x};
    hide SweepSome, SweepOne;
    GoneMore(h, mid, next, x);
  }

  lemma GoneMore(h: Half, mid: Half, next: Half, x: int)
    requires forall y :: y in mid.live ==> y in h.live && mid.live[y] == h.live[y]
    requires next.live == mid.live || next.live == mid.live - {x}
    ensures GoneGuids(h, next) == GoneGuids(h, mid) + if x in mid.live && x !in next.live then {mid.live[x]} else {}
  {
    var a, b := GoneGuids(h, mid), GoneGuids(h, next);
    forall g | g in b ensures g in a || (x in mid.live && x !in next.live && g == mid.live[x]) {
      var y :| y in h.live && y !in next.live && g == h.live[y];
      if y !in mid.live { assert g in a; }
    }
    forall g | g in a ensures g in b {
      var y :| y in h.live && y !in mid.live && g == h.live[y];
      assert y !in next.live;
    }
    if x in mid.live && x !in next.live { assert mid.live[x] in b; }
  }

  lemma LeaveStep(s: State, side: Side, todo: set<string>, k: string, zid: string)
    requires k in todo && todo <= Get(s, side).routes.Keys && 0 !in Get(s, side).live
    ensures var keys := Get(s, side).routes.Keys;
            var now, next := LeaveSome(s, side, keys - todo, zid), LeaveSome(s, side, keys - (todo - {k}), zid);
            && k in Get(now, side).routes
            && next == LeaveOne(now, side, k, zid)
            && (GoneSome(s, side, keys - (todo - {k}), zid) != {} <==>
                  GoneSome(s, side, keys - todo, zid) != {} || GoneGuid(Get(now, side), k, zid).Some?)
  {
    var h, rule := Get(s, side), LeaveRule(zid);
    var keys := h.routes.Keys;
    assert (keys - todo) + {k} == keys - (todo - {k});
    var mid := SweepSome(h, keys - todo, rule);
    SweepStep(s, side, todo, k, rule);
    GoneNext(h, keys - todo, k, zid);
    var gone := GoneGuid(mid, k, zid);
    ForgottenTwice(s.info, side, GoneGuids(h, mid), if gone.Some? then {gone.value} else {});
    InfoApart(s, side, mid, Forgotten(s.info, side, GoneGuids(h, mid)));
    InfoApart(WithHalf(s, side, mid), side, SweepOne(mid, k, rule), Forgotten(s.info, side, GoneGuids(h, mid)));
    assert GoneGuids(h, mid) + {} == GoneGuids(h, mid);
    hide SweepSome, SweepOne, GoneGuids, Forgotten, GoneGuid, WithHalf, Get;
    var now := LeaveSome(s, side, keys - todo, zid);
    assert Get(now, side) == mid;
    assert now.info == Forgotten(s.info, side, GoneGuids(h, mid));
    assert WithHalf(now, side, SweepOne(mid, k, rule)) ==
      WithHalf(s, side, SweepSome(h, keys - (todo - {k}), rule)).(info := now.info);
  }

  lemma LeaveBegins(s: State, side: Side, zid: string)
    ensures var keys := Get(s, side).routes.Keys;
            LeaveSome(s, side, keys - keys, zid) == s && GoneSome(s, side, keys - keys, zid) == {}
  {
    var h := Get(s, side);
    assert h.routes.Keys - h.routes.Keys == {};
    SweepBegins(s, side, LeaveRule(zid));
    SweepStarts(h, LeaveRule(zid));
    assert GoneGuids(h, h) == {};
    ForgottenTwice(s.info, side, {}, {});
  }

  /** Both sides judged, and the graph cleaned up if anything went: that is the departure. */
  lemma LeaveEnds(s: State, zid: string)
    ensures var s1 := LeaveSome(s, ToDds, s.to.routes.Keys - {}, zid);
            var s2 := LeaveSome(s1, FromDds, s.from.routes.Keys - {}, zid);
            var changed := GoneSome(s, ToDds, s.to.routes.Keys - {}, zid) != {}
                           || GoneSome(s1, FromDds, s.from.routes.Keys - {}, zid) != {};
            s1.from == s.from && OnLeft(s, zid) == if changed then s2.(info := Cleanup(s2.info)) else s2
  {
    SweepEnds(s.to, LeaveRule(zid));
    SweepEnds(s.from, LeaveRule(zid));
    hide Sweep, SweepSome, GoneGuids, Reindex, Cleanup;
    var writers, readers := GoneGuids(s.to, HalfLeave(s.to, zid)), GoneGuids(s.from, HalfLeave(s.from, zid));
    RemovalsAddUp(s.info, {}, writers, readers, {});
    assert {} + readers == readers && writers + {} == writers;
    RemoveNothing(s.info);
  }

  /** The loop over the first `n` routes of one side, and whether it took a GUID out of the graph. */
  function LeaveInOrder(s: State, side: Side, order: seq<string>, n: nat, zid: string): (State, bool)
    requires n <= |order|
  {
    if n == 0 then (s, false)
    else
      var (before, changed) := LeaveInOrder(s, side, order, n - 1, zid);
      if order[n - 1] in Get(before, side).routes then
        (LeaveOne(before, side, order[n - 1], zid), changed || GoneGuid(Get(before, side), order[n - 1], zid).Some?)
      else (before, changed)
  }

  lemma {:induction false} LeaveSoFar(s: State, side: Side, order: seq<string>, n: nat, zid: string)
    requires EachOnce(order, Get(s, side).routes.Keys) && n <= |order| && 0 !in Get(s, side).live
    ensures LeaveInOrder(s, side, order, n, zid) ==
            (LeaveSome(s, side, Done(order, n), zid), GoneSome(s, side, Done(order, n), zid) != {})
  {
    hide *;
    var keys := Get(s, side).routes.Keys;
    DoneAll(order, keys);
    LeaveTurn(s, side, order, n, zid);
    if n == 0 {
      LeaveBegins(s, side, zid);
      assert keys - keys == {};
    } else {
      LeaveSoFar(s, side, order, n - 1, zid);
      DoneNext(order, keys, n - 1);
      var todo, k := keys - Done(order, n - 1), order[n - 1];
      assert keys - todo == Done(order, n - 1) && keys - (todo - {k}) == Done(order, n);
      LeaveStep(s, side, todo, k, zid);
    }
  }

  lemma LeaveTurn(s: State, side: Side, order: seq<string>, n: nat, zid: string)
    requires n <= |order|
    ensures LeaveInOrder(s, side, order, 0, zid) == (s, false)
    ensures n > 0 ==>
              var (before, changed) := LeaveInOrder(s, side, order, n - 1, zid);
              LeaveInOrder(s, side, order, n, zid) ==
              if order[n - 1] in Get(before, side).routes then
                (LeaveOne(before, side, order[n - 1], zid), changed || GoneGuid(Get(before, side), order[n - 1], zid).Some?)
              else (before, changed)
  {
  }

  /** A departure as the program handles it: both maps route by route, in whatever order, and a clean-up if anything went. */
  lemma DepartureInAnyOrder(s: State, to: seq<string>, from: seq<string>, zid: string)
    requires EachOnce(to, s.to.routes.Keys) && EachOnce(from, s.from.routes.Keys)
    requires 0 !in s.to.live && 0 !in s.from.live
    ensures var (s1, writersGone) := LeaveInOrder(s, ToDds, to, |to|, zid);
            var (s2, readersGone) := LeaveInOrder(s1, FromDds, from, |from|, zid);
            OnLeft(s, zid) == if writersGone || readersGone then s2.(info := Cleanup(s2.info)) else s2
  {
    var s1 := LeaveSome(s, ToDds, s.to.routes.Keys - {}, zid);
    assert Get(s, ToDds) == s.to && Get(s1, FromDds) == s1.from;
    hide *;
    LeaveSoFar(s, ToDds, to, |to|, zid);
    DoneAll(to, s.to.routes.Keys);
    LeaveEnds(s, zid);
    assert s.to.routes.Keys - {} == s.to.routes.Keys && s.from.routes.Keys - {} == s.from.routes.Keys;
    LeaveSoFar(s1, FromDds, from, |from|, zid);
    DoneAll(from, s.from.routes.Keys);
  }

  /** Judging one route: a cut, and for a route that serves nobody any more the GUID and the route go. */
  lemma LeaveOneCases(s: State, side: Side, k: string, zid: string)
    requires k in Get(s, side).routes && 0 !in Get(s, side).live
    ensures var r := CutContaining(DepartureSubkey(zid)).Apply(Get(s, side).routes[k]);
            var s1 := Replaced(s, side, k, r);
            && k in Get(s1, side).routes && Get(s1, side).routes[k] == r && Get(s1, side).live == Get(s, side).live
            && GoneGuid(Get(s, side), k, zid).Some? == (r.remote == {} && r.entity in Get(s, side).live)
            && LeaveOne(s, side, k, zid) == if r.remote != {} then s1 else Dropped(WithoutGuid(s1, side, k), side, k)
  {
    SweepOneCases(s, side, k, LeaveRule(zid));
    hide WithHalf, SweepOne, Forgotten;
  }

  /** The GUID of the route, if it can be had, leaves the graph. */
  function WithoutGuid(s: State, side: Side, k: string): (s': State)
    requires k in Get(s, side).routes
    ensures k in Get(s', side).routes
  {
    var h := Get(s, side);
    if h.routes[k].entity in h.live then s.(info := Forgotten(s.info, side, {h.live[h.routes[k].entity]})) else s
  }
}
