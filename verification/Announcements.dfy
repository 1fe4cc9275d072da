/**
What each event does to the references a bridge holds: for every key, which remote entities its routes
serve. Everything the bridges agree on is said in these terms.
*/
module Announcements {
  import opened Wrappers
  import opened KeyExprs
  import opened BridgeKeys
  import opened Bridge
  import opened Linking
  import opened BridgeState
  import opened LocalMode
  import opened ForwardMode

  /** Does a route of this side for this key serve the remote entity? */
  ghost predicate View(s: State, side: Side, ref: string, ke: string) {
    ref in Remote(Get(s, side), ke)
  }

  /** Is this one of the keys the announced entity asks for, and does the receiver allow it? */
  ghost predicate Announced(cfg: Config, e: DdsEntity, scope: Option<string>, ke: string) {
    cfg.Allowed(ke) && exists p :: p in e.Parts() && RemoteSetup(cfg, e, scope).Key(p) == ke
  }

  /** No route of the announcement failed to be created. */
  ghost predicate AllCreated(r: Linked) {
    forall n :: n in r.statuses ==> r.statuses[n] != CreationFailure
  }

  lemma RoutedIffAnnounced(cfg: Config, e: DdsEntity, scope: Option<string>, r: Linked, ke: string)
    requires StatusesFor(RemoteSetup(cfg, e, scope), e.Parts(), r.statuses) && AllCreated(r)
    ensures RoutedTo(r.statuses, ke) <==> Announced(cfg, e, scope, ke)
  {
    hide TopicToKeyExpr;
    var u := RemoteSetup(cfg, e, scope);
    if RoutedTo(r.statuses, ke) {
      var n :| n in r.statuses && r.statuses[n] == Routed(ke);
      var p :| p in e.Parts() && Label(p) == n;
      assert StatusFor(u, p, r.statuses[n]);
    }
    if Announced(cfg, e, scope, ke) {
      var p :| p in e.Parts() && u.Key(p) == ke;
      assert StatusFor(u, p, r.statuses[Label(p)]);
      assert r.statuses[Label(p)] == Routed(ke);
    }
  }

  /** An announcement adds its reference under exactly the allowed keys of the entity. */
  lemma AnnounceView(cfg: Config, s: State, at: Side, ref: string, e: DdsEntity, scope: Option<string>, oracle: Oracle,
                     side: Side, r: string, ke: string)
    requires AllCreated(HalfAnnounce(cfg, at, Get(s, at), ref, e, scope, oracle))
    ensures View(OnAnnounce(cfg, s, at, ref, e, scope, oracle), side, r, ke) <==>
            View(s, side, r, ke) || (side == at && r == ref && Announced(cfg, e, scope, ke))
  {
    var l := HalfAnnounce(cfg, at, Get(s, at), ref, e, scope, oracle);
    LinkRemoteEffect(RemoteSetup(cfg, e, scope), RemoteTemplate(at, e), Get(s, at), ref, e.Parts(), oracle);
    hide LinkRemote, Reindex, StatusesFor, Announced;
    RoutedIffAnnounced(cfg, e, scope, l, ke);
    assert Remote(l.half, ke) == Remote(Get(s, at), ke) + if RoutedTo(l.statuses, ke) then {ref} else {};
  }

  /** A deletion takes its reference off every key. */
  lemma DeleteView(s: State, at: Side, ref: string, side: Side, r: string, ke: string)
    ensures View(OnDelete(s, at, ref), side, r, ke) <==> View(s, side, r, ke) && !(side == at && r == ref)
  {
    hide Reindex;
    var h, h' := Get(s, at), HalfDelete(Get(s, at), at, ref);
    assert Remote(h', ke) == Remote(h, ke) - {ref};
  }

  /** The ids bridges may have. */
  type Ids = string -> bool

  /** Of all bridges, only the departure of `c` sweeps the reference. */
  ghost predicate SweptWithOnly(ids: Ids, c: string, ref: string) {
    forall z :: ids(z) && NoSlash(z) && Contains(ref, DepartureSubkey(z)) ==> z == c
  }

  /** References have the form the bridges give them, name a bridge that was ever there, and spell out no other. */
  ghost predicate GoodRef(ids: Ids, used: set<string>, ref: string) {
    exists c, r :: c in used && GoodZid(c) && ref == FullAdminKey(c, r) && SweptWithOnly(ids, c, ref)
  }

  ghost predicate GoodZid(zid: string) {
    NoSlash(zid) && '@' !in zid
  }

  ghost predicate GoodRefs(ids: Ids, used: set<string>, s: State) {
    forall side, ref, ke :: View(s, side, ref, ke) ==> GoodRef(ids, used, ref)
  }

  /** A departure takes off all references of the bridge that left, and no other. */
  lemma LeaveView(ids: Ids, used: set<string>, s: State, zid: string, side: Side, r: string, ke: string)
    requires GoodRefs(ids, used, s) && ids(zid) && NoSlash(zid)
    ensures View(OnLeft(s, zid), side, r, ke) <==> View(s, side, r, ke) && !OwnedBy(zid, r)
  {
    hide Reindex;
    var h, h' := Get(s, side), HalfLeave(Get(s, side), zid);
    if View(s, side, r, ke) { SweptIffOwned(ids, used, r, zid); }
    assert Remote(h', ke) == set x | x in Remote(h, ke) && !Contains(x, DepartureSubkey(zid));
  }

  lemma SweptIffOwned(ids: Ids, used: set<string>, ref: string, zid: string)
    requires GoodRef(ids, used, ref) && ids(zid) && NoSlash(zid)
    ensures Contains(ref, DepartureSubkey(zid)) <==> OwnedBy(zid, ref)
  {
    var c, rest :| c in used && GoodZid(c) && ref == FullAdminKey(c, rest) && SweptWithOnly(ids, c, ref);
    OwnerOfFullAdminKey(c, rest, zid);
    if OwnedBy(zid, ref) { assert OccursAt(ref, DepartureSubkey(zid), 0); }
  }

  /** None of the remote entities of the route, if it has any, stays when the bridge leaves. */
  predicate AllSwept(r: Route, zid: string) {
    forall ref :: ref in r.remote ==> Contains(ref, DepartureSubkey(zid))
  }

  /** In any state: a route survives a departure if and only if it has a remote reference that is not swept; its locals stay. */
  lemma SurvivesDepartureIff(s: State, zid: string, side: Side, ke: string)
    ensures var h, h' := Get(s, side), Get(OnLeft(s, zid), side);
            && (ke in h'.routes <==> ke in h.routes && !AllSwept(h.routes[ke], zid))
            && (ke in h'.routes ==> h'.routes[ke].local == h.routes[ke].local)
  {
    hide Reindex, Conserved;
    var h := Get(s, side);
    if ke in h.routes {
      var r, r' := h.routes[ke], Swept(h.routes[ke], CutContaining(DepartureSubkey(zid)), false);
      assert forall ref :: ref in r'.remote <==> ref in r.remote && !Contains(ref, DepartureSubkey(zid));
    }
  }

  /**
  A route survives a deletion if and only if another remote entity is left or, to DDS, a local reader holds it; its locals
  stay.
  */
  lemma SurvivesDeletionIff(s: State, side: Side, ref: string, ke: string)
    ensures var h, h' := Get(s, side), Get(OnDelete(s, side, ref), side);
            && (ke in h'.routes <==>
                  ke in h.routes &&
                  ((side.ToDds? && h.routes[ke].local != {}) || exists r :: r in h.routes[ke].remote && r != ref))
            && (ke in h'.routes ==> h'.routes[ke].local == h.routes[ke].local)
  {
    hide Reindex, Conserved;
    var h := Get(s, side);
    if ke in h.routes {
      var r, r' := h.routes[ke], Swept(h.routes[ke], CutRemote(ref), side.ToDds?);
      assert forall x :: x in r'.remote <==> x in r.remote && x != ref;
    }
  }

  /**
  Samples and liveliness reach the bridge on two ways, so an announcement may be handled after the departure of its
  bridge. Both orders leave the same references, if and only if another bridge announced, or no key is asked for.
  */
  lemma OvertakenIff(ids: Ids, used: set<string>, cfg: Config, s: State, at: Side, ref: string, e: DdsEntity,
          scope: Option<string>,
          before: Oracle, after: Oracle, zid: string)
    requires GoodRefs(ids, used, s) && GoodRef(ids, used, ref) && ids(zid) && NoSlash(zid)
    requires AllCreated(HalfAnnounce(cfg, at, Get(s, at), ref, e, scope, before))
    requires AllCreated(HalfAnnounce(cfg, at, Get(OnLeft(s, zid), at), ref, e, scope, after))
    ensures var last := OnLeft(OnAnnounce(cfg, s, at, ref, e, scope, before), zid);
            var first := OnAnnounce(cfg, OnLeft(s, zid), at, ref, e, scope, after);
            (forall side, r, ke :: View(last, side, r, ke) <==> View(first, side, r, ke)) <==>
            !OwnedBy(zid, ref) || forall ke :: !Announced(cfg, e, scope, ke)
  {
    var s1 := OnAnnounce(cfg, s, at, ref, e, scope, before);
    var last, first := OnLeft(s1, zid), OnAnnounce(cfg, OnLeft(s, zid), at, ref, e, scope, after);
    hide OnAnnounce, OnLeft, HalfAnnounce, View, Announced, GoodRef, AllCreated;
    forall side, r, ke
      ensures View(s1, side, r, ke) <==> View(s, side, r, ke) || (side == at && r == ref && Announced(cfg, e, scope, ke))
    {
      AnnounceView(cfg, s, at, ref, e, scope, before, side, r, ke);
    }
    assert GoodRefs(ids, used, s1);
    forall side, r, ke
      ensures View(last, side, r, ke) <==>
              (View(s, side, r, ke) || (side == at && r == ref && Announced(cfg, e, scope, ke))) && !OwnedBy(zid, r)
      ensures View(first, side, r, ke) <==>
              (View(s, side, r, ke) && !OwnedBy(zid, r)) || (side == at && r == ref && Announced(cfg, e, scope, ke))
    {
      LeaveView(ids, used, s, zid, side, r, ke);
      LeaveView(ids, used, s1, zid, side, r, ke);
      AnnounceView(cfg, OnLeft(s, zid), at, ref, e, scope, after, side, r, ke);
    }
    if ke :| OwnedBy(zid, ref) && Announced(cfg, e, scope, ke) {
      assert View(first, at, ref, ke) && !View(last, at, ref, ke);
    }
  }

  /** After a departure every surviving route still serves some remote entity. */
  lemma SurvivorsAreServed(s: State, zid: string, side: Side)
    ensures forall ke :: ke in Get(OnLeft(s, zid), side).routes ==> Get(OnLeft(s, zid), side).routes[ke].remote != {}
  {
    hide Reindex;
  }

  /** Local discovery does not touch remote references, whether or not its announcement can be encoded. */
  lemma LocalView(cfg: Config, s: State, ev: DdsEvent, serializable: bool, oracle: Oracle, side: Side, r: string, ke: string)
    ensures View(FwdDds(cfg, s, ev, serializable, oracle), side, r, ke) <==> View(s, side, r, ke)
  {
    hide FwdDiscoverReader, FwdUndiscoverReader, AdminKey;
    match ev
    case Discovered(ToDds, e) =>
      ReaderDiscovered(cfg, s, e, serializable, oracle);
      LinkLocalEffect(SetupOf(cfg, e), LocalTemplate(ToDds, e), s.to, e.key, e.Parts(), false, oracle);
      hide LinkLocal, RoutedTo, DomainEffect, OwnersEffect, StandingRouted, StatusesFor;
      assert Remote(LinkLocal(SetupOf(cfg, e), LocalTemplate(ToDds, e), s.to, e.key, e.Parts(), false, oracle).half, ke)
        == Remote(s.to, ke);
    case Undiscovered(ToDds, key) => ReaderUndiscovered(s, key);
    case _ =>
  }
}
