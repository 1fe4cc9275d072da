/**
The quality of service of the DDS readers and writers a bridge creates for its routes, and what DDS then
connects. Matching follows sections 2.2.3 and 2.2.3.13 of the OMG DDS specification, version 1.4.
*/
module QosMatching {
  import opened Wrappers
  import opened QosTypes
  import opened QosAdaptation

  // ---------- request and offer ----------

  /** The policies that reader and writer negotiate, with the defaults of absent ones. */
  datatype Terms = Terms(
    durability: nat, scope: nat, coherent: bool, ordered: bool, deadline: int, budget: int,
    ownership: OwnershipKind, liveliness: nat, lease: int, reliable: bool, bySource: bool)

  function TermsOf(q: Qos, writer: bool): Terms {
    var presentation := if q.presentation.None? then Presentation(InstanceScope, false, false) else q.presentation.value;
    var liveliness := if q.liveliness.None? then Liveliness(Automatic, INFINITE) else q.liveliness.value;
    Terms(
      if q.durability.None? then 0 else DurabilityRank(q.durability.value),
      ScopeRank(presentation.scope), presentation.coherent, presentation.ordered,
      if q.deadline.None? then INFINITE else q.deadline.value,
      if q.latencyBudget.None? then 0 else q.latencyBudget.value,
      if q.ownership.None? then Shared else q.ownership.value,
      LivelinessRank(liveliness.kind), liveliness.lease,
      if writer then IsWriterReliable(q.reliability) else IsReaderReliable(q.reliability),
      q.destinationOrder == Some(BySource))
  }

  function DurabilityRank(k: DurabilityKind): nat {
    match k case Volatile => 0 case TransientLocal => 1 case Transient => 2 case Persistent => 3
  }

  function ScopeRank(s: AccessScope): nat {
    match s case InstanceScope => 0 case TopicScope => 1 case GroupScope => 2
  }

  function LivelinessRank(k: LivelinessKind): nat {
    match k case Automatic => 0 case ManualByParticipant => 1 case ManualByTopic => 2
  }

  predicate Meets(offered: Terms, requested: Terms) {
    && offered.durability >= requested.durability
    && offered.scope >= requested.scope
    && (requested.coherent ==> offered.coherent) && (requested.ordered ==> offered.ordered)
    && offered.deadline <= requested.deadline
    && offered.budget <= requested.budget
    && offered.ownership == requested.ownership
    && offered.liveliness >= requested.liveliness && offered.lease <= requested.lease
    && (requested.reliable ==> offered.reliable)
    && (requested.bySource ==> offered.bySource)
  }

  predicate Compatible(writer: Qos, reader: Qos) {
    Meets(TermsOf(writer, true), TermsOf(reader, false))
  }

  // ---------- partitions ----------

  /** Which names a pattern covers is left to DDS. */
  type Glob = (string, string) -> bool

  predicate Wild(name: string) {
    '*' in name || '?' in name || '[' in name
  }

  /** Names match if equal or if one is a pattern for the other; two patterns never match. */
  predicate NamesMatch(glob: Glob, x: string, y: string) {
    if Wild(x) then !Wild(y) && glob(x, y)
    else if Wild(y) then glob(y, x)
    else x == y
  }

  function NamesOf(partition: Option<seq<string>>): seq<string> {
    if PartitionIsEmpty(partition) then [""] else partition.value
  }

  predicate PartitionsMatch(glob: Glob, a: Option<seq<string>>, b: Option<seq<string>>) {
    exists x, y :: x in NamesOf(a) && y in NamesOf(b) && NamesMatch(glob, x, y)
  }

  // ---------- matching ----------

  datatype Endpoint = Endpoint(process: nat, participant: string, topic: string, typeName: string, qos: Qos)
  {
    function Parts(): seq<Option<string>> {
      PartitionList(qos.partition)
    }
  }

  predicate Ignores(a: Endpoint, b: Endpoint) {
    || (a.qos.ignoreLocal == Some(IgnoreParticipant) && a.participant == b.participant)
    || (a.qos.ignoreLocal == Some(IgnoreProcess) && a.process == b.process)
  }

  predicate SameTopic(w: Endpoint, r: Endpoint) {
    w.topic == r.topic && w.typeName == r.typeName
  }

  /** Nothing but the partitions may keep the two apart. */
  predicate Suits(w: Endpoint, r: Endpoint) {
    SameTopic(w, r) && !Ignores(w, r) && !Ignores(r, w) && Compatible(w.qos, r.qos)
  }

  predicate Matches(glob: Glob, w: Endpoint, r: Endpoint) {
    Suits(w, r) && PartitionsMatch(glob, w.qos.partition, r.qos.partition)
  }

  /** The bridge's own participant. */
  datatype Owner = Owner(process: nat, participant: string)

  predicate Foreign(e: Endpoint, b: Owner) {
    e.process != b.process && e.participant != b.participant
  }

  /** Local mode: the reader that mirrors a discovered writer, on one of its partitions. */
  function MirrorReader(b: Owner, w: Endpoint, part: Option<string>, periodic: bool): Endpoint {
    Endpoint(b.process, b.participant, w.topic, w.typeName, AsReader(Narrow(AdaptWriterQosForReader(w.qos), part), periodic))
  }

  /** Local mode: the writer that mirrors a discovered reader. */
  function MirrorWriter(b: Owner, r: Endpoint, part: Option<string>): Endpoint {
    Endpoint(b.process, b.participant, r.topic, r.typeName, AsWriter(Narrow(AdaptReaderQosForWriter(r.qos), part)))
  }

  /** Forward mode: the reader that stands for an announced remote reader. */
  function ProxyReader(b: Owner, r: Endpoint, part: Option<string>, periodic: bool): Endpoint {
    Endpoint(b.process, b.participant, r.topic, r.typeName, AsReader(Narrow(AdaptReaderQosForProxyReader(r.qos), part), periodic))
  }

  /** Forward mode: the writer that stands for an announced remote writer. */
  function ProxyWriter(b: Owner, w: Endpoint, part: Option<string>): Endpoint {
    Endpoint(b.process, b.participant, w.topic, w.typeName, AsWriter(Narrow(AdaptWriterQosForProxyWriter(w.qos), part)))
  }

  // ---------- partition splitting ----------

  /** An endpoint on its whole partition list matches one split off for `part`: a pattern needs some other, literal name. */
  predicate Usable(glob: Glob, partition: Option<seq<string>>, part: Option<string>) {
    && part in PartitionList(partition)
    && (part.Some? && Wild(part.value) ==> exists l :: l in partition.value && !Wild(l) && glob(part.value, l))
  }

  lemma NamesMatchSymmetric(glob: Glob, x: string, y: string)
    ensures NamesMatch(glob, x, y) == NamesMatch(glob, y, x)
  {
  }

  lemma SplitMatchesIff(glob: Glob, partition: Option<seq<string>>, part: Option<string>, narrowed: Option<seq<string>>)
    requires part in PartitionList(partition)
    requires narrowed == if part.None? then partition else Some([part.value])
    ensures PartitionsMatch(glob, partition, narrowed) <==> Usable(glob, partition, part)
    ensures PartitionsMatch(glob, narrowed, partition) <==> Usable(glob, partition, part)
  {
    if part.None? {
      assert "" in NamesOf(partition) && NamesMatch(glob, "", "");
    } else {
      var p := part.value;
      assert p in NamesOf(partition) && NamesOf(narrowed) == [p] && p in NamesOf(narrowed);
      forall x ensures NamesMatch(glob, x, p) == NamesMatch(glob, p, x) { NamesMatchSymmetric(glob, x, p); }
      if !Wild(p) { assert NamesMatch(glob, p, p); }
      if Usable(glob, partition, part) && Wild(p) {
        var l :| l in partition.value && !Wild(l) && glob(p, l);
        assert l in NamesOf(partition) && NamesMatch(glob, p, l);
      }
    }
  }

  // ---------- terms of mirrors and proxies ----------

  /** Equal in all that reader and writer negotiate, reliability aside. */
  predicate SamePolicies(q: Qos, q': Qos) {
    && q'.durability == q.durability && q'.presentation == q.presentation && q'.deadline == q.deadline
    && q'.latencyBudget == q.latencyBudget && q'.ownership == q.ownership && q'.liveliness == q.liveliness
    && q'.destinationOrder == q.destinationOrder
  }

  lemma SameTerms(q: Qos, writer: bool, q': Qos, writer': bool)
    requires SamePolicies(q, q')
    ensures TermsOf(q', writer') == TermsOf(q, writer).(reliable := TermsOf(q', writer').reliable)
  {
    hide DurabilityRank, ScopeRank, LivelinessRank;
  }

  lemma ReliableTerm(q: Qos, writer: bool)
    ensures TermsOf(q, writer).reliable == if writer then IsWriterReliable(q.reliability) else IsReaderReliable(q.reliability)
  {
    hide DurabilityRank, ScopeRank, LivelinessRank;
  }

  /** What narrowing and the last touch leave of a reader's and of a writer's policies. */
  lemma TouchedReader(q: Qos, part: Option<string>, periodic: bool)
    ensures var q' := AsReader(Narrow(q, part), periodic); SamePolicies(q, q') && q'.reliability == q.reliability
  {
  }

  lemma TouchedWriter(q: Qos, part: Option<string>)
    ensures var q' := AsWriter(Narrow(q, part)); SamePolicies(q, q') && IsWriterReliable(q'.reliability)
  {
  }

  lemma MirrorReaderTerms(q: Qos, part: Option<string>, periodic: bool)
    ensures TermsOf(AsReader(Narrow(AdaptWriterQosForReader(q), part), periodic), false) ==
            TermsOf(q, true).(reliable := IsReaderReliable(q.reliability))
  {
    var made := AsReader(Narrow(AdaptWriterQosForReader(q), part), periodic);
    TouchedReader(AdaptWriterQosForReader(q), part, periodic);
    hide TermsOf, AsReader, Narrow;
    SameTerms(q, true, made, false);
    ReliableTerm(made, false);
  }

  lemma MirrorWriterTerms(q: Qos, part: Option<string>)
    ensures TermsOf(AsWriter(Narrow(AdaptReaderQosForWriter(q), part)), true) == TermsOf(q, false).(reliable := true)
  {
    var made := AsWriter(Narrow(AdaptReaderQosForWriter(q), part));
    TouchedWriter(AdaptReaderQosForWriter(q), part);
    hide TermsOf, AsWriter, Narrow;
    SameTerms(q, false, made, true);
    ReliableTerm(made, true);
  }

  lemma ProxyReaderTerms(q: Qos, part: Option<string>, periodic: bool)
    ensures TermsOf(AsReader(Narrow(AdaptReaderQosForProxyReader(q), part), periodic), false) == TermsOf(q, false)
  {
    var made := AsReader(Narrow(AdaptReaderQosForProxyReader(q), part), periodic);
    TouchedReader(AdaptReaderQosForProxyReader(q), part, periodic);
    hide TermsOf, AsReader, Narrow;
    SameTerms(q, false, made, false);
    ReliableTerm(q, false);
    ReliableTerm(made, false);
  }

  lemma ProxyWriterTerms(q: Qos, part: Option<string>)
    ensures TermsOf(AsWriter(Narrow(AdaptWriterQosForProxyWriter(q), part)), true) == TermsOf(q, true).(reliable := true)
  {
    var made := AsWriter(Narrow(AdaptWriterQosForProxyWriter(q), part));
    TouchedWriter(AdaptWriterQosForProxyWriter(q), part);
    hide TermsOf, AsWriter, Narrow;
    SameTerms(q, true, made, true);
    ReliableTerm(made, true);
  }

  // ---------- the policies nobody negotiates ----------

  /** No policy that only writers have. */
  predicate ForReaders(q: Qos) {
    && q.durabilityService == None && q.ownershipStrength == None && q.transportPriority == None && q.lifespan == None
    && q.writerDataLifecycle == None && q.writerBatching == None
  }

  /** No policy that only readers have. */
  predicate ForWriters(q: Qos) {
    q.timeBasedFilter == None && q.readerDataLifecycle == None
  }

  predicate Anonymous(q: Qos) {
    q.properties == None && q.entityName == None
  }

  /** The mirror of a writer has policies of readers only; polled at intervals, it keeps the last sample. */
  lemma MirrorReaderPolicies(q: Qos, part: Option<string>, periodic: bool)
    ensures var made := AsReader(Narrow(AdaptWriterQosForReader(q), part), periodic);
            && ForReaders(made) && Anonymous(made) && made.ignoreLocal == None
            && made.timeBasedFilter == q.timeBasedFilter && made.readerDataLifecycle == q.readerDataLifecycle
            && made.history == (if periodic then Some(History(KeepLast, 1)) else q.history)
            && made.reliability == if q.reliability.None? then Some(Reliability(BestEffort, 100_000_000)) else q.reliability
  {
  }

  /**
  The mirror of a reader has policies of writers only, and keeps for late readers of a transient-local one as much history as
  that reader does.
  */
  lemma MirrorWriterPolicies(q: Qos, part: Option<string>)
    ensures var made := AsWriter(Narrow(AdaptReaderQosForWriter(q), part));
            && ForWriters(made) && Anonymous(made) && made.ignoreLocal == Some(IgnoreParticipant) && made.history == q.history
            && made.lifespan == q.lifespan && made.transportPriority == q.transportPriority
            && made.durabilityService ==
                 if q.durability == Some(TransientLocal) then
                   Some(DurabilityService(60_000_000_000, if q.history.None? then History(KeepLast, 1) else q.history.value,
                                          -1, -1, -1))
                 else q.durabilityService
  {
    hide SaturatingAdd;
  }

  /**
  A reliable reader's blocking time is exceeded by the least amount, an infinite one staying so; without stated reliability it
  is a little over 100 ms.
  */
  lemma MirrorWriterBlocks(q: Qos, part: Option<string>)
    requires q.reliability.Some? ==> q.reliability.value.maxBlockingTime <= INFINITE
    ensures var made := AsWriter(Narrow(AdaptReaderQosForWriter(q), part)).reliability;
            match q.reliability
            case None => made == Some(Reliability(Reliable, 100_000_001))
            case Some(Reliability(BestEffort, _)) => made == None
            case Some(Reliability(Reliable, t)) => made == Some(Reliability(Reliable, if t == INFINITE then t else t + 1))
  {
  }

  /** Proxies keep every policy, but for names and for whom they ignore. */
  lemma ProxyPolicies(q: Qos, part: Option<string>)
    ensures var r := AsReader(Narrow(AdaptReaderQosForProxyReader(q), part), false);
            r == q.(partition := r.partition, properties := None, entityName := None, ignoreLocal := None)
    ensures var w := AsWriter(Narrow(AdaptWriterQosForProxyWriter(q), part));
            w == q.(partition := w.partition, reliability := w.reliability, properties := None, entityName := None,
                    ignoreLocal := Some(IgnoreParticipant))
  {
  }

  /** In local mode every mirror matches the entity it mirrors, exactly on its usable partitions. */
  lemma MirrorsMatchIff(glob: Glob, b: Owner, e: Endpoint, part: Option<string>, periodic: bool)
    requires Foreign(e, b) && part in e.Parts()
    ensures Matches(glob, e, MirrorReader(b, e, part, periodic)) <==> Usable(glob, e.qos.partition, part)
    ensures Matches(glob, MirrorWriter(b, e, part), e) <==> Usable(glob, e.qos.partition, part)
  {
    MirrorReaderTerms(e.qos, part, periodic);
    MirrorWriterTerms(e.qos, part);
    SplitMatchesIff(glob, e.qos.partition, part, MirrorReader(b, e, part, periodic).qos.partition);
    hide TermsOf, Usable, PartitionsMatch;
  }

  /** An announced pair: the two proxies connect the pair exactly when it is compatible and the partition usable on both ends. */
  lemma ProxiesMatchIff(glob: Glob, a: Owner, b: Owner, w: Endpoint, r: Endpoint, part: Option<string>, periodic: bool)
    requires Foreign(w, a) && Foreign(r, b) && part in w.Parts() && part in r.Parts()
    ensures Matches(glob, w, ProxyReader(a, r, part, periodic)) && Matches(glob, ProxyWriter(b, w, part), r) <==>
            SameTopic(w, r) && Compatible(w.qos, r.qos)
            && Usable(glob, w.qos.partition, part) && Usable(glob, r.qos.partition, part)
  {
    ProxyWriterTerms(w.qos, part);
    ProxyReaderTerms(r.qos, part, periodic);
    SplitForBoth(glob, w.qos.partition, r.qos.partition, part);
    hide TermsOf, Usable, PartitionsMatch;
  }

  /** Where an endpoint has no partition, any absent or empty list is as good as its own. */
  lemma SplitForBoth(glob: Glob, w: Option<seq<string>>, r: Option<seq<string>>, part: Option<string>)
    requires part in PartitionList(w) && part in PartitionList(r)
    ensures PartitionsMatch(glob, w, if part.None? then r else Some([part.value])) <==> Usable(glob, w, part)
    ensures PartitionsMatch(glob, if part.None? then w else Some([part.value]), r) <==> Usable(glob, r, part)
  {
    if part.None? {
      assert "" in NamesOf(w) && "" in NamesOf(r) && NamesMatch(glob, "", "");
    } else {
      SplitMatchesIff(glob, w, part, Some([part.value]));
      SplitMatchesIff(glob, r, part, Some([part.value]));
    }
  }

  // ---------- whom the DDS entity of a route matches ----------

  function NarrowedPartition(partition: Option<seq<string>>, part: Option<string>): Option<seq<string>> {
    if part.None? then partition else Some([part.value])
  }

  predicate IgnoresOwner(e: Endpoint, b: Owner) {
    || (e.qos.ignoreLocal == Some(IgnoreParticipant) && e.participant == b.participant)
    || (e.qos.ignoreLocal == Some(IgnoreProcess) && e.process == b.process)
  }

  /**
  The reader of a route is made for the first writer on its key and stays. Any writer `v` matches it
  exactly if it could stand in for that first one, whose reliability counts as stated.
  */
  lemma MirrorReaderAdmitsIff(glob: Glob, b: Owner, w: Endpoint, v: Endpoint, part: Option<string>, periodic: bool)
    ensures Matches(glob, v, MirrorReader(b, w, part, periodic)) <==>
            && SameTopic(v, w) && !IgnoresOwner(v, b)
            && Meets(TermsOf(v.qos, true), TermsOf(w.qos, true).(reliable := IsReaderReliable(w.qos.reliability)))
            && PartitionsMatch(glob, v.qos.partition, NarrowedPartition(w.qos.partition, part))
  {
    MirrorReaderTerms(w.qos, part, periodic);
    hide TermsOf, Meets, PartitionsMatch;
  }

  /**
  Any reader `v` matches the writer made for the first reader on its key exactly if that one asks as much,
  reliability aside.
  */
  lemma MirrorWriterAdmitsIff(glob: Glob, b: Owner, r: Endpoint, v: Endpoint, part: Option<string>)
    ensures Matches(glob, MirrorWriter(b, r, part), v) <==>
            && SameTopic(r, v) && v.participant != b.participant && !IgnoresOwner(v, b)
            && Meets(TermsOf(r.qos, false).(reliable := true), TermsOf(v.qos, false))
            && PartitionsMatch(glob, NarrowedPartition(r.qos.partition, part), v.qos.partition)
  {
    MirrorWriterTerms(r.qos, part);
    hide TermsOf, Meets, PartitionsMatch;
  }

  /** Any writer `v` matches the proxy of the first remote reader on its key exactly if it meets that reader. */
  lemma ProxyReaderAdmitsIff(glob: Glob, b: Owner, r: Endpoint, v: Endpoint, part: Option<string>, periodic: bool)
    ensures Matches(glob, v, ProxyReader(b, r, part, periodic)) <==>
            && SameTopic(v, r) && !IgnoresOwner(v, b) && Compatible(v.qos, r.qos)
            && PartitionsMatch(glob, v.qos.partition, NarrowedPartition(r.qos.partition, part))
  {
    ProxyReaderTerms(r.qos, part, periodic);
    hide TermsOf, Meets, PartitionsMatch;
  }

  /** Any reader `v` matches the proxy of the first remote writer on its key exactly if that writer, made reliable, meets it. */
  lemma ProxyWriterAdmitsIff(glob: Glob, b: Owner, w: Endpoint, v: Endpoint, part: Option<string>)
    ensures Matches(glob, ProxyWriter(b, w, part), v) <==>
            && SameTopic(w, v) && v.participant != b.participant && !IgnoresOwner(v, b)
            && Meets(TermsOf(w.qos, true).(reliable := true), TermsOf(v.qos, false))
            && PartitionsMatch(glob, NarrowedPartition(w.qos.partition, part), v.qos.partition)
  {
    ProxyWriterTerms(w.qos, part);
    hide TermsOf, Meets, PartitionsMatch;
  }

  // ---------- a writer, the reader and the writer of two routes, and a reader ----------

  /** Data goes from `w` into the route of `reader` and out of the route of `writer` to `r`. */
  predicate Relays(glob: Glob, reader: Endpoint, writer: Endpoint, w: Endpoint, r: Endpoint) {
    Matches(glob, w, reader) && Matches(glob, writer, r)
  }

  lemma MeetsTransitive(a: Terms, b: Terms, c: Terms)
    requires Meets(a, b) && Meets(b, c)
    ensures Meets(a, c)
  {
  }

  /** A writer that offers just what the reader asks for, and a reader that asks for just what the writer offers. */
  function JustMeeting(q: Qos): Qos {
    q.(reliability := Some(Reliability(if IsReaderReliable(q.reliability) then Reliable else BestEffort, 0)), ignoreLocal := None)
  }

  function JustAsking(q: Qos): Qos {
    q.(reliability := Some(Reliability(if IsWriterReliable(q.reliability) then Reliable else BestEffort, 0)), ignoreLocal := None)
  }

  lemma JustTerms(q: Qos)
    ensures TermsOf(JustMeeting(q), true) == TermsOf(q, false) && TermsOf(JustAsking(q), false) == TermsOf(q, true)
  {
  }

  /** Two routes on one key, with literal partition or none. */
  predicate SameRoute(reader: Endpoint, writer: Endpoint) {
    && SameTopic(reader, writer)
    && NamesOf(reader.qos.partition) == NamesOf(writer.qos.partition)
    && exists p :: p in NamesOf(reader.qos.partition) && NamesOf(reader.qos.partition) == [p] && !Wild(p)
  }

  /** Names the partition of the route, rather than reaching it by patterns only. */
  predicate OnPartitionOf(e: Endpoint, route: Endpoint) {
    exists p :: p in NamesOf(route.qos.partition) && p in NamesOf(e.qos.partition)
  }

  predicate MayMatch(w: Endpoint, r: Endpoint, route: Endpoint) {
    !Ignores(w, r) && !Ignores(r, w) && (OnPartitionOf(w, route) || OnPartitionOf(r, route))
  }

  /**
  Two routes connect only pairs that would match directly if and only if the reader of the one asks for at
  least what the writer of the other offers. Pairs that both reach the partition by patterns are set aside:
  they never match directly, as two patterns do not match.
  */
  lemma RelayedPairsMatchIff(glob: Glob, reader: Endpoint, writer: Endpoint)
    requires SameRoute(reader, writer)
    ensures (forall w, r :: Relays(glob, reader, writer, w, r) && MayMatch(w, r, reader) ==> Matches(glob, w, r)) <==>
            Meets(TermsOf(reader.qos, false), TermsOf(writer.qos, true))
  {
    if Meets(TermsOf(reader.qos, false), TermsOf(writer.qos, true)) {
      forall w, r | Relays(glob, reader, writer, w, r) && MayMatch(w, r, reader) ensures Matches(glob, w, r) {
        RelayedPairMatches(glob, reader, writer, w, r);
      }
    } else {
      var other := reader.participant + writer.participant + "x";
      var process := reader.process + writer.process + 1;
      var w := Endpoint(process, other, reader.topic, reader.typeName, JustMeeting(reader.qos));
      var r := Endpoint(process, other, reader.topic, reader.typeName, JustAsking(writer.qos));
      OwnTermsRelay(glob, reader, writer, w, r);
      JustTerms(reader.qos);
      JustTerms(writer.qos);
      hide TermsOf, Meets, PartitionsMatch;
      assert OnPartitionOf(w, reader);
      assert Relays(glob, reader, writer, w, r) && MayMatch(w, r, reader) && !Matches(glob, w, r);
    }
  }

  lemma RelayedPairMatches(glob: Glob, reader: Endpoint, writer: Endpoint, w: Endpoint, r: Endpoint)
    requires SameRoute(reader, writer) && Relays(glob, reader, writer, w, r) && MayMatch(w, r, reader)
    requires Meets(TermsOf(reader.qos, false), TermsOf(writer.qos, true))
    ensures Matches(glob, w, r)
  {
    var p :| NamesOf(reader.qos.partition) == [p] && !Wild(p);
    var x :| x in NamesOf(w.qos.partition) && NamesMatch(glob, x, p);
    var y :| y in NamesOf(r.qos.partition) && NamesMatch(glob, p, y);
    MeetsTransitive(TermsOf(w.qos, true), TermsOf(reader.qos, false), TermsOf(writer.qos, true));
    MeetsTransitive(TermsOf(w.qos, true), TermsOf(writer.qos, true), TermsOf(r.qos, false));
    hide TermsOf, Meets;
    if p in NamesOf(w.qos.partition) { assert NamesMatch(glob, p, y); } else { assert NamesMatch(glob, x, p); }
  }

  /** The partition of a route has no pattern in it. */
  predicate Literal(p: Option<string>) {
    p.Some? ==> !Wild(p.value)
  }

  /** The part of an entity names the partition of its route; without partition it is the default one. */
  lemma NarrowedNames(q: Qos, parts: seq<Option<string>>, p: Option<string>)
    requires parts == PartitionList(q.partition) && p in parts
    ensures NamesOf(NarrowedPartition(q.partition, p)) == [if p.None? then "" else p.value]
  {
  }

  /** Routes made for an announced reader and an announced writer, on one key. */
  lemma ProxyRoutesSoundIff(glob: Glob, a: Owner, b: Owner, e: Endpoint, f: Endpoint, p: Option<string>, periodic: bool)
    requires SameTopic(e, f) && p in e.Parts() && p in f.Parts() && Literal(p)
    ensures var reader, writer := ProxyReader(a, e, p, periodic), ProxyWriter(b, f, p);
            (forall w, r :: Relays(glob, reader, writer, w, r) && MayMatch(w, r, reader) ==> Matches(glob, w, r)) <==>
            Meets(TermsOf(e.qos, false), TermsOf(f.qos, true).(reliable := true))
  {
    ProxyReaderTerms(e.qos, p, periodic);
    ProxyWriterTerms(f.qos, p);
    NarrowedNames(e.qos, e.Parts(), p);
    NarrowedNames(f.qos, f.Parts(), p);
    var reader, writer := ProxyReader(a, e, p, periodic), ProxyWriter(b, f, p);
    assert NamesOf(reader.qos.partition) == [if p.None? then "" else p.value] == NamesOf(writer.qos.partition);
    hide TermsOf, Meets, Matches, NamesOf;
    RelayedPairsMatchIff(glob, reader, writer);
  }

  /** Routes made for a discovered writer and a discovered reader. */
  lemma MirrorRoutesSoundIff(glob: Glob, a: Owner, b: Owner, e: Endpoint, f: Endpoint, p: Option<string>, periodic: bool)
    requires SameTopic(e, f) && p in e.Parts() && p in f.Parts() && Literal(p)
    ensures var reader, writer := MirrorReader(a, e, p, periodic), MirrorWriter(b, f, p);
            (forall w, r :: Relays(glob, reader, writer, w, r) && MayMatch(w, r, reader) ==> Matches(glob, w, r)) <==>
            Meets(TermsOf(e.qos, true).(reliable := IsReaderReliable(e.qos.reliability)),
                  TermsOf(f.qos, false).(reliable := true))
  {
    MirrorReaderTerms(e.qos, p, periodic);
    MirrorWriterTerms(f.qos, p);
    NarrowedNames(e.qos, e.Parts(), p);
    NarrowedNames(f.qos, f.Parts(), p);
    var reader, writer := MirrorReader(a, e, p, periodic), MirrorWriter(b, f, p);
    assert NamesOf(reader.qos.partition) == [if p.None? then "" else p.value] == NamesOf(writer.qos.partition);
    hide TermsOf, Meets, Matches, NamesOf;
    RelayedPairsMatchIff(glob, reader, writer);
  }

  predicate Covers(glob: Glob, e: Endpoint, name: string) {
    exists x :: x in NamesOf(e.qos.partition) && glob(x, name)
  }

  predicate PatternsOnly(e: Endpoint) {
    forall x :: x in NamesOf(e.qos.partition) ==> Wild(x)
  }

  /**
  By way of the one literal partition between them, endpoints with patterns only are connected just if both cover it.
  Directly they never match.
  */
  lemma PatternsRelayedOnlyIff(glob: Glob, reader: Endpoint, writer: Endpoint, w: Endpoint, r: Endpoint, p: string)
    requires NamesOf(reader.qos.partition) == NamesOf(writer.qos.partition) == [p] && !Wild(p)
    requires PatternsOnly(w) && PatternsOnly(r)
    ensures Relays(glob, reader, writer, w, r) <==>
            Suits(w, reader) && Suits(writer, r) && Covers(glob, w, p) && Covers(glob, r, p)
    ensures !Matches(glob, w, r)
  {
    hide Suits, NamesOf;
    assert p in NamesOf(reader.qos.partition) && p in NamesOf(writer.qos.partition);
    if x :| x in NamesOf(w.qos.partition) && glob(x, p) { assert NamesMatch(glob, x, p); }
    if y :| y in NamesOf(r.qos.partition) && glob(y, p) { assert NamesMatch(glob, p, y); }
  }

  /**
  For a reader `r`, the two routes let through exactly the writers it would match directly, if and only if
  the first reader on the key asks for the same as `r` and the writer of the other route satisfies `r`.
  */
  lemma RelayIsDirectIff(reader: Qos, writer: Qos, r: Qos)
    ensures (forall w :: Compatible(w, reader) && Compatible(writer, r) <==> Compatible(w, r)) <==>
            TermsOf(reader, false) == TermsOf(r, false) && Compatible(writer, r)
  {
    JustTerms(reader);
    JustTerms(r);
    var a, b := JustMeeting(reader), JustMeeting(r);
    assert Compatible(a, reader) && Compatible(b, r);
    if forall w :: Compatible(w, reader) && Compatible(writer, r) <==> Compatible(w, r) {
      assert Compatible(b, reader) && Compatible(a, r);
      MeetsBothWays(TermsOf(reader, false), TermsOf(r, false));
    }
  }

  lemma MeetsBothWays(a: Terms, b: Terms)
    requires Meets(a, b) && Meets(b, a)
    ensures a == b
  {
  }

  lemma OwnTermsRelay(glob: Glob, reader: Endpoint, writer: Endpoint, w: Endpoint, r: Endpoint)
    requires SameRoute(reader, writer) && SameTopic(w, reader) && SameTopic(r, reader)
    requires w.qos == JustMeeting(reader.qos) && r.qos == JustAsking(writer.qos)
    requires |w.participant| > |reader.participant| && |r.participant| > |writer.participant|
    requires w.process > reader.process && r.process > writer.process
    ensures Relays(glob, reader, writer, w, r)
  {
    JustTerms(reader.qos);
    JustTerms(writer.qos);
    var p :| NamesOf(reader.qos.partition) == [p] && !Wild(p);
    assert NamesMatch(glob, p, p) && p in NamesOf(reader.qos.partition);
    assert PartitionsMatch(glob, w.qos.partition, reader.qos.partition)
           && PartitionsMatch(glob, writer.qos.partition, r.qos.partition);
    hide TermsOf, PartitionsMatch;
  }

  /**
  Any writer that the mirror of `w` accepts could stand in for `w` towards every reader, if and only if
  `w` states its reliability: for an unstated one the mirror asks for best effort although `w` is reliable.
  */
  lemma MirrorIsMostDemandingIff(w: Qos, part: Option<string>, periodic: bool)
    ensures var mirror := AsReader(Narrow(AdaptWriterQosForReader(w), part), periodic);
            (forall v, r :: Compatible(v, mirror) && Compatible(w, r) ==> Compatible(v, r)) <==> w.reliability.Some?
  {
    MirrorReaderTerms(w, part, periodic);
    var m := AsReader(Narrow(AdaptWriterQosForReader(w), part), periodic);
    if w.reliability.None? {
      var v := w.(reliability := Some(Reliability(BestEffort, 0)));
      var r := w.(reliability := Some(Reliability(Reliable, 0)));
      assert TermsOf(v, true) == TermsOf(m, false);
      assert Compatible(v, m) && Compatible(w, r) && !Compatible(v, r);
    } else {
      assert TermsOf(m, false) == TermsOf(w, true);
      hide TermsOf;
    }
  }

  /** The bridge's own writers never match its own readers, in either mode: no data goes in circles. */
  lemma NoLoop(glob: Glob, b: Owner, r: Endpoint, p: Option<string>, reader: Endpoint)
    requires reader.participant == b.participant
    ensures !Matches(glob, MirrorWriter(b, r, p), reader) && !Matches(glob, ProxyWriter(b, r, p), reader)
  {
  }

  /** A forward route is blocking for a reliable reader only: whatever writer it serves is reliable as well. */
  lemma ReliableReaderHasReliableWriter(glob: Glob, b: Owner, w: Endpoint, r: Endpoint, part: Option<string>,
          periodic: bool)
    requires Matches(glob, w, ProxyReader(b, r, part, periodic)) && IsReaderReliable(r.qos.reliability)
    ensures IsWriterReliable(w.qos.reliability)
  {
  }
}
