/** Receiving an announcement a second time changes nothing. */
module Idempotence {
  import opened Wrappers
  import opened QosAdaptation
  import opened BridgeKeys
  import opened Bridge
  import opened Linking
  import opened BridgeState
  import opened ForwardMode

  /** The part of an announcement has had all its effects. */
  ghost predicate Settled(u: Setup, h: Half, ref: string, part: Option<string>) {
    var ke := u.Key(part);
    u.cfg.Allowed(ke) ==>
      && ke in h.routes && h.routes[ke].entity != 0 && ref in h.routes[ke].remote
      && Hits(h.entities, u.topic, part) <= h.routes[ke].local
      && forall k :: k in Hits(h.entities, u.topic, part) ==> Marked(h.entities[k], part, ke)
  }

  ghost predicate Marked(e: DdsEntity, part: Option<string>, ke: string) {
    Label(part) in e.routes && e.routes[Label(part)] == Routed(ke)
  }

  /** A step on a settled part has nothing left to do. */
  lemma SettledStep(u: Setup, make: Template, before: Linked, ref: string, part: Option<string>, o: Outcome)
    requires Settled(u, before.half, ref, part)
    ensures LinkRemoteStep(u, make, before, ref, part, o).half == before.half
  {
    hide Conserved, TopicToKeyExpr;
    var h, ke := before.half, u.Key(part);
    if u.cfg.Allowed(ke) {
      var hits := Hits(h.entities, u.topic, part);
      var r := h.routes[ke];
      assert r.remote + {ref} == r.remote && r.local + hits == r.local;
      forall k | k in hits ensures h.entities[k].(routes := h.entities[k].routes[Label(part) := Routed(ke)]) == h.entities[k] {
        assert Marked(h.entities[k], part, ke);
        assert h.entities[k].routes[Label(part) := Routed(ke)] == h.entities[k].routes;
      }
      assert MarkRouted(h.entities, hits, Label(part), ke) == h.entities;
      assert h.routes[ke := r] == h.routes;
    }
  }

  lemma {:induction false} SettledAll(u: Setup, make: Template, h: Half, ref: string, parts: seq<Option<string>>, oracle: Oracle)
    requires forall p :: p in parts ==> Settled(u, h, ref, p)
    ensures LinkRemote(u, make, h, ref, parts, oracle).half == h
  {
    if parts != [] {
      var n := |parts| - 1;
      assert parts == parts[..n] + [parts[n]];
      SettledAll(u, make, h, ref, parts[..n], oracle);
      SettledStep(u, make, LinkRemote(u, make, h, ref, parts[..n], oracle), ref, parts[n], oracle(n));
    }
  }

  /** A step settles its part, and leaves settled parts settled. */
  lemma StepSettles(u: Setup, make: Template, before: Linked, ref: string, part: Option<string>, o: Outcome, p: Option<string>)
    requires p == part || (Label(p) != Label(part) && Settled(u, before.half, ref, p))
    requires p == part ==> TryAdd(u.cfg, before.half, u.Key(part), true, o, u.SpecFor(make, part)).0 != CreationFailure
    ensures Settled(u, LinkRemoteStep(u, make, before, ref, part, o).half, ref, p)
  {
    hide TryAdd, Conserved;
    var (status, h1) := TryAdd(u.cfg, before.half, u.Key(part), true, o, u.SpecFor(make, part));
    var h2 := LinkRemoteStep(u, make, before, ref, part, o).half;
    if status.Routed? {
      SameHits(before.half.entities, h2.entities, u.topic, p);
      assert forall ke :: Remote(h1, ke) == Remote(before.half, ke) && Local(h1, ke) == Local(before.half, ke);
      SettledGrows(u, before.half, h1, h2, ref, part, p, u.Key(part));
    }
  }

  lemma SettledGrows(u: Setup, h: Half, h1: Half, h2: Half, ref: string, part: Option<string>, p: Option<string>,
          at: string)
    requires at == u.Key(part) && at in h1.routes && h1.routes[at].entity != 0 && h1.entities == h.entities
    requires h2 == AddRemote(h1, at, ref, u.topic, part)
    requires forall ke :: ke in h.routes ==> ke in h1.routes && (h.routes[ke].entity != 0 ==> h1.routes[ke] == h.routes[ke])
    requires p == part || (Label(p) != Label(part) && Settled(u, h, ref, p))
    ensures Settled(u, h2, ref, p)
  {
    hide Conserved, TopicToKeyExpr;
    var ke, hits := u.Key(p), Hits(h.entities, u.topic, p);
    SameHits(h.entities, h2.entities, u.topic, p);
    if u.cfg.Allowed(ke) {
      forall k | k in hits ensures Marked(h2.entities[k], p, ke) {
        if p != part { assert Marked(h.entities[k], p, ke); }
      }
    }
  }

  lemma {:induction false} LinkSettles(u: Setup, make: Template, h: Half, ref: string, parts: seq<Option<string>>, oracle: Oracle,
          p: Option<string>)
    requires Homogeneous(parts) && p in parts && CreatesAll(u, make, h, ref, parts, oracle)
    ensures Settled(u, LinkRemote(u, make, h, ref, parts, oracle).half, ref, p)
  {
    hide Settled, TryAdd, LinkRemoteStep;
    var n := |parts| - 1;
    assert parts == parts[..n] + [parts[n]];
    var before := LinkRemote(u, make, h, ref, parts[..n], oracle);
    if p != parts[n] {
      assert CreatesAll(u, make, h, ref, parts[..n], oracle) by {
        forall i | 0 <= i < n ensures CreatedAt(u, make, h, ref, parts[..n], oracle, i) {
          assert CreatedAt(u, make, h, ref, parts, oracle, i);
          assert parts[..n][..i] == parts[..i];
        }
      }
      LinkSettles(u, make, h, ref, parts[..n], oracle, p);
    }
    assert CreatedAt(u, make, h, ref, parts, oracle, n);
    StepSettles(u, make, before, ref, parts[n], oracle(n), p);
  }

  /** The attempt on part `i` did not fail. */
  ghost predicate CreatedAt(u: Setup, make: Template, h: Half, ref: string, parts: seq<Option<string>>, oracle: Oracle, i: nat)
    requires i < |parts|
  {
    TryAdd(u.cfg, LinkRemote(u, make, h, ref, parts[..i], oracle).half, u.Key(parts[i]), true, oracle(i),
           u.SpecFor(make, parts[i])).0 != CreationFailure
  }

  ghost predicate CreatesAll(u: Setup, make: Template, h: Half, ref: string, parts: seq<Option<string>>, oracle: Oracle) {
    forall i :: 0 <= i < |parts| ==> CreatedAt(u, make, h, ref, parts, oracle, i)
  }

  /** Handling an announcement whose routes were all created, then the same announcement again, is handling it once. */
  lemma AnnounceTwice(cfg: Config, s: State, side: Side, ref: string, e: DdsEntity, scope: Option<string>,
          first: Oracle, second: Oracle)
    requires CreatesAll(RemoteSetup(cfg, e, scope), RemoteTemplate(side, e), Get(s, side), ref, e.Parts(), first)
    ensures var s1 := OnAnnounce(cfg, s, side, ref, e, scope, first);
            OnAnnounce(cfg, s1, side, ref, e, scope, second) == s1
  {
    var u, make, h := RemoteSetup(cfg, e, scope), RemoteTemplate(side, e), Get(s, side);
    hide LinkRemote, CreatesAll, Settled;
    var h1 := LinkRemote(u, make, h, ref, e.Parts(), first).half;
    forall p | p in e.Parts() ensures Settled(u, h1, ref, p) {
      LinkSettles(u, make, h, ref, e.Parts(), first, p);
    }
    SettledAll(u, make, h1, ref, e.Parts(), second);
    var s1 := OnAnnounce(cfg, s, side, ref, e, scope, first);
    assert Get(s1, side) == h1;
    NothingReindexed(side, s1.admin, h1.routes.Keys);
  }

  lemma NothingReindexed(side: Side, admin: map<string, AdminRef>, kes: set<string>)
    ensures Reindex(side, admin, kes, kes) == admin
  {
    assert kes - kes == {};
  }
}
