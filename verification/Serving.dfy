/**
Which gids of a received ROS graph the routes of a bridge serve. A route tells by searching its references for the gid; with
references as bridges give them, that is whether it serves the entity with this very key.
*/
module Serving {
  import opened KeyExprs
  import opened BridgeKeys
  import opened Bridge
  import opened BridgeState
  import opened RosGraph
  import opened Network

  /** The text stands somewhere in the reference. */
  ghost predicate StandsIn(ref: string, gid: string) {
    exists head, tail :: ref == head + gid + tail
  }

  /** It stands in a reference of some route. */
  ghost predicate StandsInRoutes(h: Half, gid: string) {
    exists ke, ref :: ke in h.routes && ref in h.routes[ke].remote && StandsIn(ref, gid)
  }

  lemma ContainsIff(ref: string, gid: string)
    ensures Contains(ref, gid) <==> StandsIn(ref, gid)
  {
    if i :| 0 <= i <= |ref| && OccursAt(ref, gid, i) { assert ref == ref[..i] + gid + ref[i + |gid|..]; }
    if head, tail :| ref == head + gid + tail { assert OccursAt(ref, gid, |head|); }
  }

  lemma RoutedIff(h: Half, gid: string)
    ensures RoutedGid(h, gid) <==> StandsInRoutes(h, gid)
  {
    forall ref ensures Contains(ref, gid) <==> StandsIn(ref, gid) { ContainsIff(ref, gid); }
    hide Contains, StandsIn;
    if ke :| ke in h.routes && IsRouting(h.routes[ke], gid) {
      var ref :| ref in h.routes[ke].remote && Contains(ref, gid);
      assert StandsIn(ref, gid);
    }
    if ke, ref :| ke in h.routes && ref in h.routes[ke].remote && StandsIn(ref, gid) {
      assert Contains(ref, gid) && IsRouting(h.routes[ke], gid);
    }
  }

  /** The served gids, one by one and in order: a gid is kept if and only if it stands in a reference. */
  lemma {:induction false} ServedSplits(h: Half, a: seq<string>, b: seq<string>)
    ensures Served(h, a + b) == Served(h, a) + Served(h, b)
  {
    if b == [] {
      assert a + b == a;
    } else {
      var n := |b| - 1;
      assert (a + b)[..|a + b| - 1] == a + b[..n];
      ServedSplits(h, a, b[..n]);
    }
  }

  lemma ServedIff(h: Half, a: seq<string>, gid: string, b: seq<string>)
    ensures Served(h, a + [gid] + b) == Served(h, a) + (if StandsInRoutes(h, gid) then [gid] else []) + Served(h, b)
  {
    ServedSplits(h, a + [gid], b);
    ServedSplits(h, a, [gid]);
    RoutedIff(h, gid);
    assert [gid][..0] == [];
    assert Served(h, [gid]) == if RoutedGid(h, gid) then [gid] else [];
  }

  /** Remapping drops a gid that stands in no reference, wherever it is. */
  lemma UnservedDropped(h: Half, a: seq<string>, gid: string, b: seq<string>, out: seq<string>)
    requires !StandsInRoutes(h, gid)
    ensures Remapped(h, a + [gid] + b, out) <==> Remapped(h, a + b, out)
  {
    ServedIff(h, a, gid, b);
    ServedSplits(h, a, b);
    assert Served(h, a + [gid] + b) == Served(h, a + b);
  }

  lemma ReplacedByServing(h: Half, gid: string, guid: string)
    requires Replaces(h, gid, guid)
    ensures exists ke, ref :: ke in h.routes && ref in h.routes[ke].remote && StandsIn(ref, gid) && GuidOf(h, ke, guid)
  {
    hide GuidOf, Contains, StandsIn;
    var ke :| ke in h.routes && IsRouting(h.routes[ke], gid) && GuidOf(h, ke, guid);
    var ref :| ref in h.routes[ke].remote && Contains(ref, gid);
    ContainsIff(ref, gid);
  }

  /** Remapping turns a gid that stands in references into the GUID of a route that has one of them, in its place. */
  lemma ServedReplaced(h: Half, a: seq<string>, gid: string, b: seq<string>, out: seq<string>)
    requires StandsInRoutes(h, gid) && Remapped(h, a + [gid] + b, out)
    ensures var n := |Served(h, a)|;
            && n < |out| && Remapped(h, a, out[..n]) && Remapped(h, b, out[n + 1..])
            && exists ke, ref :: ke in h.routes && ref in h.routes[ke].remote && StandsIn(ref, gid) && GuidOf(h, ke, out[n])
  {
    hide StandsIn, GuidOf, StandsInRoutes, Replaces;
    ServedIff(h, a, gid, b);
    var n, all := |Served(h, a)|, Served(h, a + [gid] + b);
    assert all[n] == gid && all[..n] == Served(h, a) && all[n + 1..] == Served(h, b);
    ReplacedByServing(h, gid, out[n]);
    forall i | 0 <= i < n ensures Replaces(h, Served(h, a)[i], out[..n][i]) { assert Replaces(h, all[i], out[i]); }
    forall i | 0 <= i < |Served(h, b)| ensures Replaces(h, Served(h, b)[i], out[n + 1..][i]) {
      assert Replaces(h, all[n + 1 + i], out[n + 1 + i]);
    }
  }

  // ---------- with references as bridges give them ----------

  /** Longer than any fixed word of a reference, and without slash, as 32 hexadecimal digits are. */
  predicate KeyLike(k: string) {
    |k| > |"participant"| && NoSlash(k)
  }

  /** The text occurs in none of the other parts of the reference. */
  predicate OnlyAsKey(z: string, e: DdsEntity, gid: string) {
    !Contains(z, gid) && !Contains(e.participantKey, gid) && !Contains(e.topic, gid)
  }

  lemma ShorterLacks(s: string, gid: string)
    requires |s| < |gid|
    ensures !Contains(s, gid)
  {
  }

  lemma SameLength(s: string, gid: string)
    requires |s| == |gid|
    ensures Contains(s, gid) <==> s == gid
  {
    if s == gid { assert OccursAt(s, gid, 0); }
  }

  lemma RefHoldsGidIff(z: string, x: Side, e: DdsEntity, gid: string)
    requires KeyLike(gid) && |e.key| == |gid| && OnlyAsKey(z, e, gid)
    ensures Contains(RefOf(z, x, e), gid) <==> e.key == gid
  {
    var kind := Kind(x.FromDds?);
    ShorterLacks("@", gid);
    ShorterLacks("dds", gid);
    ShorterLacks("participant", gid);
    ShorterLacks(kind, gid);
    SameLength(e.key, gid);
    hide Contains;
    ContainsInPath(e.key, e.topic, gid);
    ContainsInPath(kind, Path(e.key, e.topic), gid);
    ContainsInPath(e.participantKey, Path(kind, Path(e.key, e.topic)), gid);
    ContainsInPath("participant", Path(e.participantKey, Path(kind, Path(e.key, e.topic))), gid);
    ContainsInPath("dds", AdminRest(x, e), gid);
    ContainsInPath(z, Path("dds", AdminRest(x, e)), gid);
    ContainsInPath("@", Path(z, Path("dds", AdminRest(x, e))), gid);
  }

  /** The reference is that of an entity of some bridge, in which the gid could stand as its key only. */
  ghost predicate Regular(ref: string, x: Side, gid: string) {
    exists z, e :: RegularFor(ref, z, x, e, gid)
  }

  predicate RegularFor(ref: string, z: string, x: Side, e: DdsEntity, gid: string) {
    ref == RefOf(z, x, e) && |e.key| == |gid| && OnlyAsKey(z, e, gid)
  }

  /** A route serves the gid if and only if it has the reference of an entity with this key. */
  lemma ServesKeyIff(r: Route, x: Side, gid: string)
    requires KeyLike(gid) && forall ref :: ref in r.remote ==> Regular(ref, x, gid)
    ensures IsRouting(r, gid) <==>
            exists z, e :: RefOf(z, x, e) in r.remote && RegularFor(RefOf(z, x, e), z, x, e, gid) && e.key == gid
  {
    hide Contains, RefOf, OnlyAsKey;
    if ref :| ref in r.remote && Contains(ref, gid) {
      var z, e :| RegularFor(ref, z, x, e, gid);
      RefHoldsGidIff(z, x, e, gid);
      assert RefOf(z, x, e) in r.remote && e.key == gid;
    }
    if z, e :| RefOf(z, x, e) in r.remote && RegularFor(RefOf(z, x, e), z, x, e, gid) && e.key == gid {
      RefHoldsGidIff(z, x, e, gid);
    }
  }
}
