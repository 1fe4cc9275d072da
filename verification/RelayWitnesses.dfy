/**
Two bridges that hear of two readers and of two writers on one key each. The later ones are connected or not on
account of the first ones, whatever they offer and ask for themselves.
*/
module RelayWitnesses {
  import opened Wrappers
  import opened QosTypes
  import opened QosAdaptation
  import opened QosMatching
  import opened Bridge
  import opened Linking
  import opened BridgeState
  import opened ForwardMode
  import opened Network
  import opened Makers
  import opened Relays
  import opened Witnesses

  ghost function TwoAnnounced(cfg: Config, z: string, x: Side, e: DdsEntity, f: DdsEntity, first: Oracle, second: Oracle): State {
    var s := FwdStep(cfg, INIT, SampleAbout(z, x, e, Announce(e, None)), first);
    FwdStep(cfg, s, SampleAbout(z, x, f, Announce(f, None)), second)
  }

  /** One route serves both, with the DDS entity made for the first. */
  ghost predicate SharedRoute(cfg: Config, h: Half, side: Side, e: DdsEntity) {
    && h.routes.Keys == {e.topic} && Serves(h, e.topic)
    && SpecAt(h, e.topic) == RemoteSetup(cfg, e, None).SpecFor(RemoteTemplate(side, e), None)
  }

  lemma FirstDecides(cfg: Config, z: string, x: Side, e: DdsEntity, f: DdsEntity, first: Oracle, second: Oracle)
    requires Readable(z, x, e) && Readable(z, x, f) && f.topic == e.topic && cfg.Allowed(e.topic)
    requires Grants(first(0), EMPTY_HALF)
    ensures var s := TwoAnnounced(cfg, z, x, e, f, first, second);
            Reached(cfg, s) && SharedRoute(cfg, Get(s, Opposite(x)), Opposite(x), e)
  {
    var ev1, ev2 := SampleAbout(z, x, e, Announce(e, None)), SampleAbout(z, x, f, Announce(f, None));
    var s1 := FwdStep(cfg, INIT, ev1, first);
    var s2 := FwdStep(cfg, s1, ev2, second);
    assert FwdEventOk(INIT, ev1) && FwdEventOk(s1, ev2);
    assert s2 == TwoAnnounced(cfg, z, x, e, f, first, second);
    InitGrants(first(0), x);
    hide *;
    FirstStep(cfg, INIT, z, x, e, first);
    MadeIsShared(cfg, s1, z, x, e, first(0));
    LaterStep(cfg, s1, z, x, f, second);
    StillShared(cfg, Get(s1, Opposite(x)), Get(s2, Opposite(x)), Opposite(x), e);
    InitReached(cfg);
    NextReached(cfg, INIT, ev1, first);
    NextReached(cfg, s1, ev2, second);
  }

  lemma InitGrants(o: Outcome, x: Side)
    requires Grants(o, EMPTY_HALF)
    ensures o.entity.Some? && Grants(o, Get(INIT, Opposite(x))) && Get(INIT, Opposite(x)).routes == map[]
  {
  }

  lemma MadeIsShared(cfg: Config, s: State, z: string, x: Side, e: DdsEntity, o: Outcome)
    requires Grants(o, EMPTY_HALF) && NewlyRouted(cfg, INIT, s, z, x, e, o)
    ensures var h := Get(s, Opposite(x));
            e.topic in h.routes && h.routes[e.topic].entity != 0 && SharedRoute(cfg, h, Opposite(x), e)
  {
    hide RefOf, Hits, RemoteSetup, RemoteTemplate;
  }

  lemma StillShared(cfg: Config, h: Half, h': Half, side: Side, e: DdsEntity)
    requires SharedRoute(cfg, h, side, e) && h'.routes.Keys == h.routes.Keys && h'.live == h.live && h'.issued == h.issued
    requires h'.routes[e.topic].entity == h.routes[e.topic].entity
    ensures SharedRoute(cfg, h', side, e)
  {
    hide RemoteSetup, RemoteTemplate;
  }

  lemma LaterStep(cfg: Config, s: State, z: string, x: Side, e: DdsEntity, oracle: Oracle)
    requires Readable(z, x, e) && cfg.Allowed(e.topic)
    requires var h := Get(s, Opposite(x)); e.topic in h.routes && h.routes[e.topic].entity != 0
    ensures var s' := FwdStep(cfg, s, SampleAbout(z, x, e, Announce(e, None)), oracle);
            var h, h' := Get(s, Opposite(x)), Get(s', Opposite(x));
            && h'.routes.Keys == h.routes.Keys && h'.live == h.live && h'.issued == h.issued
            && h'.routes[e.topic].entity == h.routes[e.topic].entity
  {
    SampleIsRead(cfg, s, z, x, e, Announce(e, None), oracle);
    AnnouncedOneSide(cfg, s, Opposite(x), RefOf(z, x, e), e, oracle);
    LaterAnnounced(cfg, Get(s, Opposite(x)), Opposite(x), RefOf(z, x, e), e, oracle);
    hide FwdStep, OnEntity, RefOf, Readable, HalfAnnounce, Hits;
  }

  /** Nobody asks to be left alone, and all are of one topic and type. */
  predicate OfOneTopic(e: DdsEntity, f: DdsEntity) {
    && e.topic == f.topic && e.typeName == f.typeName && e.qos.ignoreLocal == None == f.qos.ignoreLocal
    && PartitionIsEmpty(e.qos.partition) && PartitionIsEmpty(f.qos.partition)
  }

  lemma LetInIff(glob: Glob, a: Owner, cfg: Config, h: Half, e: DdsEntity, w: DdsEntity)
    requires SharedRoute(cfg, h, FromDds, e) && OfOneTopic(e, w)
    ensures Matches(glob, AsEndpoint(w), EndpointAt(a, h, e.topic)) <==> Compatible(w.qos, e.qos)
  {
    assert EndpointAt(a, h, e.topic) == ProxyReader(a, AsEndpoint(e), None, cfg.periodic(e.topic));
    ProxyReaderAdmitsIff(glob, a, AsEndpoint(e), AsEndpoint(w), None, cfg.periodic(e.topic));
    hide TermsOf, Meets, Matches, EndpointAt, ProxyReader;
    assert "" in NamesOf(w.qos.partition) && NamesMatch(glob, "", "");
  }

  lemma LetOutIff(glob: Glob, b: Owner, cfg: Config, h: Half, f: DdsEntity, r: DdsEntity)
    requires SharedRoute(cfg, h, ToDds, f) && OfOneTopic(f, r) && r.participantKey != b.participant
    ensures Matches(glob, EndpointAt(b, h, f.topic), AsEndpoint(r)) <==>
            Meets(TermsOf(f.qos, true).(reliable := true), TermsOf(r.qos, false))
  {
    assert EndpointAt(b, h, f.topic) == ProxyWriter(b, AsEndpoint(f), None);
    ProxyWriterAdmitsIff(glob, b, AsEndpoint(f), AsEndpoint(r), None);
    hide TermsOf, Meets, Matches, EndpointAt, ProxyWriter;
    assert "" in NamesOf(r.qos.partition) && NamesMatch(glob, "", "");
  }

  /**
  Bridge `a` hears of the readers `e` and then `r`, bridge `b` of the writers `f` and then `w`, all on one topic.
  Data goes from `w` to `r` if and only if `w` satisfies `e`, and `f`, made reliable, satisfies `r`.
  */
  lemma SecondPairCarriedIff(glob: Glob, meet: KeysMeet, a: Owner, cfgA: Config, ha: Half, b: Owner, cfgB: Config, hb: Half,
          e: DdsEntity, r: DdsEntity, f: DdsEntity, w: DdsEntity)
    requires SharedRoute(cfgA, ha, FromDds, e) && SharedRoute(cfgB, hb, ToDds, f) && meet(e.topic, f.topic)
    requires OfOneTopic(e, w) && OfOneTopic(f, r) && r.participantKey != b.participant
    ensures Carried(glob, meet, a, ha, b, hb, AsEndpoint(w), AsEndpoint(r)) <==>
            Compatible(w.qos, e.qos) && Meets(TermsOf(f.qos, true).(reliable := true), TermsOf(r.qos, false))
  {
    LetInIff(glob, a, cfgA, ha, e, w);
    LetOutIff(glob, b, cfgB, hb, f, r);
    hide TermsOf, Meets, Matches, EndpointAt, Compatible, OfOneTopic;
    assert CarriedOver(glob, meet, a, ha, e.topic, b, hb, f.topic, AsEndpoint(w), AsEndpoint(r)) <==>
      Carried(glob, meet, a, ha, b, hb, AsEndpoint(w), AsEndpoint(r));
  }

  const PLAIN := Qos(None, None, None, None, None, None, None, None, None, None, None, None, None, None, None, None, None,
                     None, None, None, None)

  /** Within `n` nanoseconds, or without deadline. */
  function Timely(n: Option<int>): Qos {
    PLAIN.(deadline := n)
  }

  lemma TimelyTerms(n: Option<int>, m: Option<int>)
    ensures Meets(TermsOf(Timely(n), true), TermsOf(Timely(m), false)) <==>
            (if n.None? then INFINITE else n.value) <= if m.None? then INFINITE else m.value
    ensures TermsOf(Timely(n), true).(reliable := true) == TermsOf(Timely(n), true)
  {
  }

  /** Four endpoints on one topic, of which readers `e`, `r` and writers `f`, `w` have these deadlines. */
  predicate WithDeadlines(e: DdsEntity, r: DdsEntity, f: DdsEntity, w: DdsEntity, de: Option<int>, dr: Option<int>,
          df: Option<int>, dw: Option<int>)
  {
    && e.qos == Timely(de) && r.qos == Timely(dr) && f.qos == Timely(df) && w.qos == Timely(dw)
    && e.topic == r.topic == f.topic == w.topic && e.typeName == r.typeName == f.typeName == w.typeName
  }

  /**
  Whatever the first reader and the first writer on a key, the later reader and writer are connected on their account:
  an incompatible pair where the first reader asks for no deadline and the first writer meets one, and a compatible pair
  is not connected where the first reader asks for a deadline.
  */
  lemma FirstPairDecides(glob: Glob, meet: KeysMeet, a: Owner, cfgA: Config, b: Owner, cfgB: Config, y: string, z: string,
          e: DdsEntity, r: DdsEntity, f: DdsEntity, w: DdsEntity, oracles: seq<Oracle>, d: int)
    requires |oracles| == 4 && Grants(oracles[0](0), EMPTY_HALF) && Grants(oracles[2](0), EMPTY_HALF)
    requires Readable(z, ToDds, e) && Readable(z, ToDds, r) && Readable(y, FromDds, f) && Readable(y, FromDds, w)
    requires cfgA.Allowed(e.topic) && cfgB.Allowed(e.topic) && meet(e.topic, e.topic) && r.participantKey != b.participant
    requires 0 <= d < INFINITE
    requires WithDeadlines(e, r, f, w, None, Some(d), Some(d), None) || WithDeadlines(e, r, f, w, Some(d), None, None, None)
    ensures var sa := TwoAnnounced(cfgA, z, ToDds, e, r, oracles[0], oracles[1]);
            var sb := TwoAnnounced(cfgB, y, FromDds, f, w, oracles[2], oracles[3]);
            && Reached(cfgA, sa) && Reached(cfgB, sb)
            && (Carried(glob, meet, a, sa.from, b, sb.to, AsEndpoint(w), AsEndpoint(r)) <==>
                !Matches(glob, AsEndpoint(w), AsEndpoint(r)))
            && (Matches(glob, AsEndpoint(w), AsEndpoint(r)) <==> e.qos.deadline.Some?)
  {
    FirstDecides(cfgA, z, ToDds, e, r, oracles[0], oracles[1]);
    FirstDecides(cfgB, y, FromDds, f, w, oracles[2], oracles[3]);
    var sa := TwoAnnounced(cfgA, z, ToDds, e, r, oracles[0], oracles[1]);
    var sb := TwoAnnounced(cfgB, y, FromDds, f, w, oracles[2], oracles[3]);
    hide TwoAnnounced, Reached, Readable, SharedRoute;
    assert OfOneTopic(e, w) && OfOneTopic(f, r) && OfOneTopic(w, r);
    SecondPairCarriedIff(glob, meet, a, cfgA, sa.from, b, cfgB, sb.to, e, r, f, w);
    DirectlyIff(glob, w, r);
    hide *;
    DeadlinesDecide(e, r, f, w, d);
  }

  lemma DirectlyIff(glob: Glob, w: DdsEntity, r: DdsEntity)
    requires OfOneTopic(w, r)
    ensures Matches(glob, AsEndpoint(w), AsEndpoint(r)) <==> Compatible(w.qos, r.qos)
  {
    hide TermsOf, Meets;
    assert "" in NamesOf(r.qos.partition) && "" in NamesOf(w.qos.partition) && NamesMatch(glob, "", "");
  }

  lemma DeadlinesDecide(e: DdsEntity, r: DdsEntity, f: DdsEntity, w: DdsEntity, d: int)
    requires 0 <= d < INFINITE
    requires WithDeadlines(e, r, f, w, None, Some(d), Some(d), None) || WithDeadlines(e, r, f, w, Some(d), None, None, None)
    ensures Compatible(w.qos, e.qos) && Meets(TermsOf(f.qos, true).(reliable := true), TermsOf(r.qos, false)) <==>
            !Compatible(w.qos, r.qos)
    ensures Compatible(w.qos, r.qos) <==> e.qos.deadline.Some?
  {
    TimelyTerms(w.qos.deadline, e.qos.deadline);
    TimelyTerms(f.qos.deadline, r.qos.deadline);
    TimelyTerms(w.qos.deadline, r.qos.deadline);
    hide TermsOf, Meets;
  }
}
