/**
Who gets data from whom through two bridges. Each route has one DDS entity, made for the first discovered
or announced entity that needed it; later ones on the same key have to do with that one. So what is carried is
decided by the entities the routes were made for, as they stand in the states the bridges have reached.
*/
module Relays {
  import opened Wrappers
  import opened QosAdaptation
  import opened QosMatching
  import opened KeyExprs
  import opened BridgeKeys
  import opened Bridge
  import opened BridgeState
  import opened LocalMode
  import opened ForwardMode
  import opened ForwardRuns
  import opened Makers

  /** The discovered entity as DDS sees it; in what process it lives is not known. */
  function AsEndpoint(e: DdsEntity): Endpoint {
    Endpoint(0, e.participantKey, e.topic, e.typeName, e.qos)
  }

  /** The DDS entity of a route, owned by the participant of the bridge. */
  function EndpointAt(b: Owner, h: Half, ke: string): Endpoint
    requires Serves(h, ke)
  {
    var spec := SpecAt(h, ke);
    Endpoint(b.process, b.participant, spec.topic, spec.typeName, spec.qos)
  }

  /** Does a publication on one key reach a subscription on the other? Left to zenoh. */
  type KeysMeet = (string, string) -> bool

  /** Data of `w` enters a route from DDS of one bridge, and leaves a route to DDS of the other towards `r`. */
  ghost predicate Carried(glob: Glob, meet: KeysMeet, a: Owner, ha: Half, b: Owner, hb: Half, w: Endpoint, r: Endpoint) {
    exists ke, kf :: CarriedOver(glob, meet, a, ha, ke, b, hb, kf, w, r)
  }

  predicate CarriedOver(glob: Glob, meet: KeysMeet, a: Owner, ha: Half, ke: string, b: Owner, hb: Half, kf: string,
          w: Endpoint, r: Endpoint)
  {
    && Serves(ha, ke) && Serves(hb, kf) && meet(ke, kf)
    && Relays(glob, EndpointAt(a, ha, ke), EndpointAt(b, hb, kf), w, r)
  }

  // ---------- forward mode ----------

  /** What a writer must be to match the proxy of an announced reader. */
  predicate ReachesProxyOf(glob: Glob, a: Owner, w: Endpoint, e: DdsEntity, p: Option<string>) {
    && w.topic == e.topic && w.typeName == e.typeName && !IgnoresOwner(w, a) && Compatible(w.qos, e.qos)
    && PartitionsMatch(glob, w.qos.partition, NarrowedPartition(e.qos.partition, p))
  }

  /** What a reader must be to match the proxy of an announced writer, which is reliable in any case. */
  predicate ServedByProxyOf(glob: Glob, b: Owner, r: Endpoint, e: DdsEntity, p: Option<string>) {
    && r.topic == e.topic && r.typeName == e.typeName && r.participant != b.participant && !IgnoresOwner(r, b)
    && Meets(TermsOf(e.qos, true).(reliable := true), TermsOf(r.qos, false))
    && PartitionsMatch(glob, NarrowedPartition(e.qos.partition, p), r.qos.partition)
  }

  /** The route on `ke` in state `i` was made when `e` was announced. */
  ghost predicate ForwardMadeFor(cfg: Config, states: seq<State>, events: seq<(FwdEvent, Oracle)>, i: nat, side: Side, ke: string,
          e: DdsEntity, scope: Option<string>, p: Option<string>)
    requires i < |states|
  {
    var h := Get(states[i], side);
    Serves(h, ke)
    && exists j: nat :: j < i && MadeOnAnnouncement(cfg, states, events, j, side, e, scope, p, ke, GuidAt(h, ke), SpecAt(h, ke))
  }

  lemma ForwardReaderIs(cfg: Config, states: seq<State>, events: seq<(FwdEvent, Oracle)>, i: nat, ke: string,
          e: DdsEntity, scope: Option<string>, p: Option<string>, a: Owner)
    requires i < |states| && ForwardMadeFor(cfg, states, events, i, FromDds, ke, e, scope, p)
    ensures EndpointAt(a, states[i].from, ke) == ProxyReader(a, AsEndpoint(e), p, cfg.periodic(ke)) && p in e.Parts()
    ensures ke == TopicToKeyExpr(e.topic, scope, p)
  {
  }

  lemma ForwardWriterIs(cfg: Config, states: seq<State>, events: seq<(FwdEvent, Oracle)>, i: nat, ke: string,
          e: DdsEntity, scope: Option<string>, p: Option<string>, b: Owner)
    requires i < |states| && ForwardMadeFor(cfg, states, events, i, ToDds, ke, e, scope, p)
    ensures EndpointAt(b, states[i].to, ke) == ProxyWriter(b, AsEndpoint(e), p) && p in e.Parts()
    ensures ke == TopicToKeyExpr(e.topic, scope, p)
  {
  }

  lemma ForwardReaderAdmitsIff(cfg: Config, states: seq<State>, events: seq<(FwdEvent, Oracle)>, i: nat, ke: string,
          e: DdsEntity, scope: Option<string>, p: Option<string>, glob: Glob, a: Owner, w: Endpoint)
    requires i < |states| && ForwardMadeFor(cfg, states, events, i, FromDds, ke, e, scope, p)
    ensures Matches(glob, w, EndpointAt(a, states[i].from, ke)) <==> ReachesProxyOf(glob, a, w, e, p)
  {
    ForwardReaderIs(cfg, states, events, i, ke, e, scope, p, a);
    ProxyReaderAdmitsIff(glob, a, AsEndpoint(e), w, p, cfg.periodic(ke));
    hide TermsOf, PartitionsMatch, Matches, ProxyReader;
  }

  lemma ForwardWriterAdmitsIff(cfg: Config, states: seq<State>, events: seq<(FwdEvent, Oracle)>, i: nat, ke: string,
          e: DdsEntity, scope: Option<string>, p: Option<string>, glob: Glob, b: Owner, r: Endpoint)
    requires i < |states| && ForwardMadeFor(cfg, states, events, i, ToDds, ke, e, scope, p)
    ensures Matches(glob, EndpointAt(b, states[i].to, ke), r) <==> ServedByProxyOf(glob, b, r, e, p)
  {
    ForwardWriterIs(cfg, states, events, i, ke, e, scope, p, b);
    ProxyWriterAdmitsIff(glob, b, AsEndpoint(e), r, p);
    hide TermsOf, PartitionsMatch, Matches, ProxyWriter;
  }

  /** There are routes on meeting keys, made for announced entities of which the one lets `w` in and the other reaches `r`. */
  ghost predicate MakersLetThrough(glob: Glob, meet: KeysMeet, cfgA: Config, sa: seq<State>, ea: seq<(FwdEvent, Oracle)>, i: nat,
          a: Owner, cfgB: Config, sb: seq<State>, eb: seq<(FwdEvent, Oracle)>, k: nat, b: Owner, w: Endpoint, r: Endpoint)
    requires i < |sa| && k < |sb|
  {
    exists ke, kf, e, scope, p, f, scope', q ::
      && ForwardMadeFor(cfgA, sa, ea, i, FromDds, ke, e, scope, p) && ForwardMadeFor(cfgB, sb, eb, k, ToDds, kf, f, scope', q)
      && meet(ke, kf) && ReachesProxyOf(glob, a, w, e, p) && ServedByProxyOf(glob, b, r, f, q)
  }

  /**
  In any states two bridges in forward mode have reached, data goes from a writer beyond the one to a reader
  beyond the other if and only if there are routes on meeting keys such that the writer meets the announced
  reader for which the one was made, and the announced writer for which the other was made satisfies the reader.
  */
  lemma ForwardCarriedIff(glob: Glob, meet: KeysMeet, cfgA: Config, sa: seq<State>, ea: seq<(FwdEvent, Oracle)>, i: nat,
          a: Owner, cfgB: Config, sb: seq<State>, eb: seq<(FwdEvent, Oracle)>, k: nat, b: Owner, w: Endpoint, r: Endpoint)
    requires FwdRun(cfgA, sa, ea) && i < |sa| && FwdRun(cfgB, sb, eb) && k < |sb|
    ensures Carried(glob, meet, a, sa[i].from, b, sb[k].to, w, r) <==>
            MakersLetThrough(glob, meet, cfgA, sa, ea, i, a, cfgB, sb, eb, k, b, w, r)
  {
    hide FwdRun, Matches, ReachesProxyOf, ServedByProxyOf, EndpointAt;
    if Carried(glob, meet, a, sa[i].from, b, sb[k].to, w, r) {
      var ke, kf :| CarriedOver(glob, meet, a, sa[i].from, ke, b, sb[k].to, kf, w, r);
      var j, e, scope, p := ForwardMaker(cfgA, sa, ea, i, FromDds, ke);
      var l, f, scope', q := ForwardMaker(cfgB, sb, eb, k, ToDds, kf);
      assert ForwardMadeFor(cfgA, sa, ea, i, FromDds, ke, e, scope, p)
             && ForwardMadeFor(cfgB, sb, eb, k, ToDds, kf, f, scope', q);
      hide MadeOnAnnouncement, ForwardMadeFor;
      ForwardReaderAdmitsIff(cfgA, sa, ea, i, ke, e, scope, p, glob, a, w);
      ForwardWriterAdmitsIff(cfgB, sb, eb, k, kf, f, scope', q, glob, b, r);
    }
    if MakersLetThrough(glob, meet, cfgA, sa, ea, i, a, cfgB, sb, eb, k, b, w, r) {
      var ke, kf, e, scope, p, f, scope', q :|
        && ForwardMadeFor(cfgA, sa, ea, i, FromDds, ke, e, scope, p) && ForwardMadeFor(cfgB, sb, eb, k, ToDds, kf, f, scope', q)
        && meet(ke, kf) && ReachesProxyOf(glob, a, w, e, p) && ServedByProxyOf(glob, b, r, f, q);
      ForwardReaderAdmitsIff(cfgA, sa, ea, i, ke, e, scope, p, glob, a, w);
      ForwardWriterAdmitsIff(cfgB, sb, eb, k, kf, f, scope', q, glob, b, r);
      assert CarriedOver(glob, meet, a, sa[i].from, ke, b, sb[k].to, kf, w, r);
    }
  }

  // ---------- when two routes connect only what would match directly ----------

  lemma KeyTellsPart(topic: string, scope: Option<string>, p: Option<string>, q: Option<string>)
    requires TopicToKeyExpr(topic, scope, p) == TopicToKeyExpr(topic, scope, q)
    ensures p == q
  {
    var pre := if scope.None? then 0 else |scope.value| + 1;
    var x := if p.None? then topic else Path(p.value, topic);
    var y := if q.None? then topic else Path(q.value, topic);
    assert x == TopicToKeyExpr(topic, scope, p)[pre..] && y == TopicToKeyExpr(topic, scope, q)[pre..];
    if p.Some? && q.Some? {
      assert p.value == x[..|p.value|] && q.value == y[..|q.value|];
    }
  }

  /**
  Two bridges that share the scope, a route from DDS of the one made for reader `e`, a route to DDS of the other
  made for writer `f`, both on one key without patterns: they connect only pairs that would match directly if and
  only if `e` asks for at least what `f`, made reliable, offers.
  */
  lemma ForwardRoutesSoundIff(glob: Glob, cfgA: Config, sa: seq<State>, ea: seq<(FwdEvent, Oracle)>, i: nat, a: Owner,
          cfgB: Config, sb: seq<State>, eb: seq<(FwdEvent, Oracle)>, k: nat, b: Owner, ke: string,
          e: DdsEntity, f: DdsEntity, scope: Option<string>, p: Option<string>, q: Option<string>)
    requires i < |sa| && ForwardMadeFor(cfgA, sa, ea, i, FromDds, ke, e, scope, p)
    requires k < |sb| && ForwardMadeFor(cfgB, sb, eb, k, ToDds, ke, f, scope, q)
    requires e.topic == f.topic && e.typeName == f.typeName && Literal(p)
    ensures var reader, writer := EndpointAt(a, sa[i].from, ke), EndpointAt(b, sb[k].to, ke);
            (forall w, r :: Relays(glob, reader, writer, w, r) && MayMatch(w, r, reader) ==> Matches(glob, w, r)) <==>
            Meets(TermsOf(e.qos, false), TermsOf(f.qos, true).(reliable := true))
  {
    var reader, writer := EndpointAt(a, sa[i].from, ke), EndpointAt(b, sb[k].to, ke);
    var periodic := cfgA.periodic(ke);
    ForwardReaderIs(cfgA, sa, ea, i, ke, e, scope, p, a);
    ForwardWriterIs(cfgB, sb, eb, k, ke, f, scope, q, b);
    KeyTellsPart(e.topic, scope, p, q);
    hide TermsOf, Meets, Matches, EndpointAt;
    ProxyRoutesSoundIff(glob, a, b, AsEndpoint(e), AsEndpoint(f), p, periodic);
  }

  // ---------- local mode ----------

  predicate ReachesMirrorOf(glob: Glob, a: Owner, w: Endpoint, e: DdsEntity, p: Option<string>) {
    && w.topic == e.topic && w.typeName == e.typeName && !IgnoresOwner(w, a)
    && Meets(TermsOf(w.qos, true), TermsOf(e.qos, true).(reliable := IsReaderReliable(e.qos.reliability)))
    && PartitionsMatch(glob, w.qos.partition, NarrowedPartition(e.qos.partition, p))
  }

  predicate ServedByMirrorOf(glob: Glob, b: Owner, r: Endpoint, e: DdsEntity, p: Option<string>) {
    && r.topic == e.topic && r.typeName == e.typeName && r.participant != b.participant && !IgnoresOwner(r, b)
    && Meets(TermsOf(e.qos, false).(reliable := true), TermsOf(r.qos, false))
    && PartitionsMatch(glob, NarrowedPartition(e.qos.partition, p), r.qos.partition)
  }

  /** The route on `ke` in state `i` was made when `e` was discovered. */
  ghost predicate LocallyMadeFor(cfg: Config, states: seq<State>, events: seq<(DdsEvent, Oracle)>, i: nat, side: Side, ke: string,
          e: DdsEntity, p: Option<string>)
    requires i < |states|
  {
    var h := Get(states[i], side);
    Serves(h, ke)
    && exists j: nat :: j < i && MadeOnDiscovery(cfg, states, events, j, side, e, p, ke, GuidAt(h, ke), SpecAt(h, ke))
  }

  lemma LocalReaderIs(cfg: Config, states: seq<State>, events: seq<(DdsEvent, Oracle)>, i: nat, ke: string,
          e: DdsEntity, p: Option<string>, a: Owner)
    requires i < |states| && LocallyMadeFor(cfg, states, events, i, FromDds, ke, e, p)
    ensures EndpointAt(a, states[i].from, ke) == MirrorReader(a, AsEndpoint(e), p, cfg.periodic(ke)) && p in e.Parts()
    ensures ke == TopicToKeyExpr(e.topic, cfg.scope, p)
  {
  }

  lemma LocalWriterIs(cfg: Config, states: seq<State>, events: seq<(DdsEvent, Oracle)>, i: nat, ke: string,
          e: DdsEntity, p: Option<string>, b: Owner)
    requires i < |states| && LocallyMadeFor(cfg, states, events, i, ToDds, ke, e, p)
    ensures EndpointAt(b, states[i].to, ke) == MirrorWriter(b, AsEndpoint(e), p) && p in e.Parts()
    ensures ke == TopicToKeyExpr(e.topic, cfg.scope, p)
  {
  }

  lemma LocalReaderAdmitsIff(cfg: Config, states: seq<State>, events: seq<(DdsEvent, Oracle)>, i: nat, ke: string,
          e: DdsEntity, p: Option<string>, glob: Glob, a: Owner, w: Endpoint)
    requires i < |states| && LocallyMadeFor(cfg, states, events, i, FromDds, ke, e, p)
    ensures Matches(glob, w, EndpointAt(a, states[i].from, ke)) <==> ReachesMirrorOf(glob, a, w, e, p)
  {
    LocalReaderIs(cfg, states, events, i, ke, e, p, a);
    MirrorReaderAdmitsIff(glob, a, AsEndpoint(e), w, p, cfg.periodic(ke));
    hide TermsOf, PartitionsMatch, Matches, MirrorReader;
  }

  lemma LocalWriterAdmitsIff(cfg: Config, states: seq<State>, events: seq<(DdsEvent, Oracle)>, i: nat, ke: string,
          e: DdsEntity, p: Option<string>, glob: Glob, b: Owner, r: Endpoint)
    requires i < |states| && LocallyMadeFor(cfg, states, events, i, ToDds, ke, e, p)
    ensures Matches(glob, EndpointAt(b, states[i].to, ke), r) <==> ServedByMirrorOf(glob, b, r, e, p)
  {
    LocalWriterIs(cfg, states, events, i, ke, e, p, b);
    MirrorWriterAdmitsIff(glob, b, AsEndpoint(e), r, p);
    hide TermsOf, PartitionsMatch, Matches, MirrorWriter;
  }

  ghost predicate MirrorsLetThrough(glob: Glob, meet: KeysMeet, cfgA: Config, sa: seq<State>, ea: seq<(DdsEvent, Oracle)>, i: nat,
          a: Owner, cfgB: Config, sb: seq<State>, eb: seq<(DdsEvent, Oracle)>, k: nat, b: Owner, w: Endpoint, r: Endpoint)
    requires i < |sa| && k < |sb|
  {
    exists ke, kf, e, p, f, q ::
      && LocallyMadeFor(cfgA, sa, ea, i, FromDds, ke, e, p) && LocallyMadeFor(cfgB, sb, eb, k, ToDds, kf, f, q)
      && meet(ke, kf) && ReachesMirrorOf(glob, a, w, e, p) && ServedByMirrorOf(glob, b, r, f, q)
  }

  /**
  The same for local mode: the writer must be able to stand in for the one its route mirrors, and the reader must
  ask for no more than the one its route mirrors.
  */
  lemma LocalCarriedIff(glob: Glob, meet: KeysMeet, cfgA: Config, sa: seq<State>, ea: seq<(DdsEvent, Oracle)>, i: nat,
          a: Owner, cfgB: Config, sb: seq<State>, eb: seq<(DdsEvent, Oracle)>, k: nat, b: Owner, w: Endpoint, r: Endpoint)
    requires LocalRun(cfgA, sa, ea) && i < |sa| && LocalRun(cfgB, sb, eb) && k < |sb|
    ensures Carried(glob, meet, a, sa[i].from, b, sb[k].to, w, r) <==>
            MirrorsLetThrough(glob, meet, cfgA, sa, ea, i, a, cfgB, sb, eb, k, b, w, r)
  {
    hide LocalRun, Matches, ReachesMirrorOf, ServedByMirrorOf, EndpointAt;
    if Carried(glob, meet, a, sa[i].from, b, sb[k].to, w, r) {
      var ke, kf :| CarriedOver(glob, meet, a, sa[i].from, ke, b, sb[k].to, kf, w, r);
      var j, e, p := LocalMaker(cfgA, sa, ea, i, FromDds, ke);
      var l, f, q := LocalMaker(cfgB, sb, eb, k, ToDds, kf);
      assert LocallyMadeFor(cfgA, sa, ea, i, FromDds, ke, e, p) && LocallyMadeFor(cfgB, sb, eb, k, ToDds, kf, f, q);
      hide MadeOnDiscovery, LocallyMadeFor;
      LocalReaderAdmitsIff(cfgA, sa, ea, i, ke, e, p, glob, a, w);
      LocalWriterAdmitsIff(cfgB, sb, eb, k, kf, f, q, glob, b, r);
    }
    if MirrorsLetThrough(glob, meet, cfgA, sa, ea, i, a, cfgB, sb, eb, k, b, w, r) {
      var ke, kf, e, p, f, q :|
        && LocallyMadeFor(cfgA, sa, ea, i, FromDds, ke, e, p) && LocallyMadeFor(cfgB, sb, eb, k, ToDds, kf, f, q)
        && meet(ke, kf) && ReachesMirrorOf(glob, a, w, e, p) && ServedByMirrorOf(glob, b, r, f, q);
      LocalReaderAdmitsIff(cfgA, sa, ea, i, ke, e, p, glob, a, w);
      LocalWriterAdmitsIff(cfgB, sb, eb, k, kf, f, q, glob, b, r);
      assert CarriedOver(glob, meet, a, sa[i].from, ke, b, sb[k].to, kf, w, r);
    }
  }

  /** In local mode the two entities know nothing of each other: the routes are sound just if they happen to fit. */
  lemma LocalRoutesSoundIff(glob: Glob, cfgA: Config, sa: seq<State>, ea: seq<(DdsEvent, Oracle)>, i: nat, a: Owner,
          cfgB: Config, sb: seq<State>, eb: seq<(DdsEvent, Oracle)>, k: nat, b: Owner, ke: string,
          e: DdsEntity, f: DdsEntity, p: Option<string>, q: Option<string>)
    requires i < |sa| && LocallyMadeFor(cfgA, sa, ea, i, FromDds, ke, e, p)
    requires k < |sb| && LocallyMadeFor(cfgB, sb, eb, k, ToDds, ke, f, q)
    requires cfgA.scope == cfgB.scope && e.topic == f.topic && e.typeName == f.typeName && Literal(p)
    ensures var reader, writer := EndpointAt(a, sa[i].from, ke), EndpointAt(b, sb[k].to, ke);
            (forall w, r :: Relays(glob, reader, writer, w, r) && MayMatch(w, r, reader) ==> Matches(glob, w, r)) <==>
            Meets(TermsOf(e.qos, true).(reliable := IsReaderReliable(e.qos.reliability)),
                  TermsOf(f.qos, false).(reliable := true))
  {
    var reader, writer := EndpointAt(a, sa[i].from, ke), EndpointAt(b, sb[k].to, ke);
    var periodic := cfgA.periodic(ke);
    LocalReaderIs(cfgA, sa, ea, i, ke, e, p, a);
    LocalWriterIs(cfgB, sb, eb, k, ke, f, q, b);
    KeyTellsPart(e.topic, cfgA.scope, p, q);
    hide TermsOf, Meets, Matches, EndpointAt;
    MirrorRoutesSoundIff(glob, a, b, AsEndpoint(e), AsEndpoint(f), p, periodic);
  }
}
