/**
Any number of bridges in forward discovery mode. Each announces its local entities to all others over
in-order channels and keeps the last message per key for bridges that join later. At every moment,
what a bridge has still to receive from another turns its references into exactly the entities the
other has discovered.
*/
module Network {
  import opened Wrappers
  import opened KeyExprs
  import opened BridgeKeys
  import opened Bridge
  import opened Linking
  import opened BridgeState
  import opened RosGraph
  import opened LocalMode
  import opened EventLog
  import opened ForwardMode
  import opened Announcements

  /** `Gone` is the liveliness sample of a bridge that left. */
  datatype Msg = Disco(ke: string, payload: Payload) | Gone

  /** The ids bridges may have, the scope they share, and the configuration of each. */
  datatype World = World(ids: Ids, scope: Option<string>, cfgs: string -> Config)

  datatype Net = Net(
    members: map<string, State>, cache: map<string, map<string, Payload>>,
    channels: map<(string, string), seq<Msg>>, used: set<string>)

  datatype NetEvent =
    | Local(b: string, ev: DdsEvent, oracle: Oracle)
    | Deliver(a: string, b: string, oracle: Oracle)
    | Join(b: string, replay: map<string, seq<Msg>>)
    | Leave(a: string)

  // ---------- what one message means ----------

  /** Entities discovered on one side are served by routes of the other side at the other bridges. */
  function Opposite(side: Side): Side {
    if side.FromDds? then ToDds else FromDds
  }

  function KindOf(side: Side): DiscoKind {
    if side.FromDds? then WriterDisco else ReaderDisco
  }

  function AdminRest(side: Side, e: DdsEntity): string {
    EntityAdminKey(e.participantKey, side.FromDds?, e.key, e.topic)
  }

  function MsgKey(w: World, a: string, side: Side, e: DdsEntity): string {
    FwdKey(a, w.scope, KindOf(side), AdminRest(side, e))
  }

  function RefOf(a: string, side: Side, e: DdsEntity): string {
    FullAdminKey(a, AdminRest(side, e))
  }

  /**
  DDS keys are hexadecimal, and no topic spells out the departure subkey of a bridge: that is exactly when the sweeps
  hit their own references only. No kind word gets in the way of the parser: given such keys, the last two lines
  are exactly the condition under which the discovery key is read as it was meant.
  */
  ghost predicate Plain(w: World, side: Side, e: DdsEntity) {
    && GoodEntity(e) && e.participantKey != "reader" && e.key != "reader"
    && '@' !in e.participantKey && '@' !in e.key
    && (forall z :: w.ids(z) && NoSlash(z) ==> !Contains(e.topic, DepartureSubkey(z)))
    && "reader" !in ScopeSegments(w.scope)
    && (side.FromDds? ==> "writer" !in ScopeSegments(w.scope) && !NonFinalSegment(e.topic, "reader"))
  }

  /** The effect of a message from `a` on whether the reference is served under `ke`. */
  ghost function Effect(cfg: Config, a: string, m: Msg, side: Side, ref: string, ke: string, served: bool): bool {
    match m
    case Gone => served && !OwnedBy(a, ref)
    case Disco(key, payload) =>
      var p := ParseFwdKey(key);
      if p.Some? && !p.value.kind.RosDisco? && SideOf(p.value.kind) == side
         && FullAdminKey(p.value.uuid, p.value.rest) == ref then
        match payload
        case Announce(e, scope) => served || Announced(cfg, e, scope, ke)
        case Delete => false
        case _ => served
      else served
  }

  ghost function Pending(cfg: Config, a: string, ms: seq<Msg>, side: Side, ref: string, ke: string, served: bool): bool {
    if ms == [] then served
    else Pending(cfg, a, ms[1..], side, ref, ke, Effect(cfg, a, ms[0], side, ref, ke, served))
  }

  lemma {:induction false} PendingAppend(cfg: Config, a: string, ms: seq<Msg>, ns: seq<Msg>, side: Side,
          ref: string, ke: string, served: bool)
    ensures Pending(cfg, a, ms + ns, side, ref, ke, served) ==
            Pending(cfg, a, ns, side, ref, ke, Pending(cfg, a, ms, side, ref, ke, served))
  {
    if ms == [] {
      assert ms + ns == ns;
    } else {
      assert (ms + ns)[1..] == ms[1..] + ns;
      PendingAppend(cfg, a, ms[1..], ns, side, ref, ke, Effect(cfg, a, ms[0], side, ref, ke, served));
    }
  }

  /** A message bridge `a` sends about one of its entities. */
  ghost predicate BuiltFor(w: World, a: string, m: Msg, x: Side, e: DdsEntity) {
    m.Disco? && Plain(w, x, e) && m.ke == MsgKey(w, a, x, e)
    && (m.payload.Delete? || (m.payload.Announce? && m.payload.scope == w.scope && m.payload.e.SameContent(e)))
  }

  ghost predicate Built(w: World, a: string, m: Msg) {
    m.Gone? || exists x, e :: BuiltFor(w, a, m, x, e)
  }

  /** A sent message is read as it was meant: the parse of its key gives back its bridge, kind and entity. */
  lemma BuiltEffect(w: World, cfg: Config, a: string, m: Msg, x: Side, e: DdsEntity, side: Side, ref: string,
          ke: string, served: bool)
    requires NoSlash(a) && BuiltFor(w, a, m, x, e)
    ensures Effect(cfg, a, m, side, ref, ke, served) ==
            if side == Opposite(x) && ref == RefOf(a, x, e) then m.payload.Announce? && (served || Announced(cfg, e, w.scope, ke))
            else served
  {
    EntityKeyParsesIff(a, w.scope, x.FromDds?, e.participantKey, e.key, e.topic);
    hide ParseFwdKey, FwdKey, FullAdminKey, EntityAdminKey, Announced;
    assert ParseFwdKey(m.ke) == Some(FwdParsed(a, KindOf(x), AdminRest(x, e)));
    if m.payload.Announce? { SameKeysAnnounced(cfg, m.payload.e, e, w.scope, ke); }
  }

  lemma SameKeysAnnounced(cfg: Config, a: DdsEntity, b: DdsEntity, scope: Option<string>, ke: string)
    requires a.SameIdentity(b)
    ensures Announced(cfg, a, scope, ke) <==> Announced(cfg, b, scope, ke)
  {
    assert RemoteSetup(cfg, a, scope) == RemoteSetup(cfg, b, scope) && a.Parts() == b.Parts();
  }

  /**
  The condition on scope and topic is needed: an announcement makes a bridge serve the entity under its
  own reference, on a key it asks for, if and only if no kind word gets in the way of the parser.
  */
  lemma AnnouncementServedIff(w: World, cfg: Config, a: string, x: Side, e: DdsEntity, ke: string)
    requires NoSlash(a) && GoodEntity(e) && e.participantKey != "reader" && e.key != "reader"
    requires Announced(cfg, e, w.scope, ke)
    ensures Effect(cfg, a, Disco(MsgKey(w, a, x, e), Announce(e, w.scope)), Opposite(x), RefOf(a, x, e), ke, false) <==>
            "reader" !in ScopeSegments(w.scope)
            && (x.FromDds? ==> "writer" !in ScopeSegments(w.scope) && !NonFinalSegment(e.topic, "reader"))
  {
    EntityKeyParsesIff(a, w.scope, x.FromDds?, e.participantKey, e.key, e.topic);
    var p := ParseFwdKey(MsgKey(w, a, x, e));
    if p.Some? {
      ParsedUuidNoSlash(MsgKey(w, a, x, e));
      if FullAdminKey(p.value.uuid, p.value.rest) == RefOf(a, x, e) {
        FullAdminKeyInjective(p.value.uuid, p.value.rest, a, AdminRest(x, e));
      }
    }
    hide ParseFwdKey, FwdKey, FullAdminKey, EntityAdminKey, Announced, NonFinalSegment;
  }

  lemma ParsedUuidNoSlash(ke: string)
    requires ParseFwdKey(ke).Some?
    ensures NoSlash(ParseFwdKey(ke).value.uuid)
  {
    var remaining := ke[2..];
    var i := Find(remaining, "/").value;
    forall j | 0 <= j < i ensures remaining[j] != '/' {
      assert !OccursAt(remaining, "/", j);
    }
    assert ParseFwdKey(ke).value.uuid == remaining[..i];
  }

  /** References tell entities apart. */
  lemma RefInjective(a: string, x: Side, e: DdsEntity, b: string, y: Side, f: DdsEntity)
    requires NoSlash(a) && NoSlash(b) && GoodEntity(e) && GoodEntity(f) && RefOf(a, x, e) == RefOf(b, y, f)
    ensures a == b && x == y && e.key == f.key && e.participantKey == f.participantKey && e.topic == f.topic
  {
    FullAdminKeyInjective(a, AdminRest(x, e), b, AdminRest(y, f));
    AdminKeyInjective(EntityIdOf(x, e), EntityIdOf(y, f));
  }

  // ---------- steps ----------

  /** What bridge `b` sends when the event takes it from `s` to `s'`. */
  function Sent(w: World, b: string, s: State, s': State, ev: DdsEvent): seq<Msg> {
    match ev
    case Discovered(x, e) =>
      if e.key in Get(s', x).entities then [Disco(MsgKey(w, b, x, e), Announce(Get(s', x).entities[e.key], w.scope))] else []
    case Undiscovered(x, key) =>
      if key in Get(s, x).entities then [Disco(MsgKey(w, b, x, Get(s, x).entities[key]), Delete)] else []
    case _ => []
  }

  function Remember(cache: map<string, Payload>, ms: seq<Msg>): map<string, Payload> {
    if ms == [] || ms[0].Gone? then cache else cache[ms[0].ke := ms[0].payload]
  }

  /** How a bridge handles the next message from `a`. */
  ghost function Handle(cfg: Config, s: State, a: string, m: Msg, oracle: Oracle): State {
    match m
    case Disco(ke, payload) => OnSample(cfg, s, ke, payload, oracle)
    case Gone => OnLeft(s, a)
  }

  /** No route of an announcement fails. */
  ghost predicate Succeeds(cfg: Config, s: State, m: Msg, oracle: Oracle) {
    m.Disco? && m.payload.Announce? && ParseFwdKey(m.ke).Some? && !ParseFwdKey(m.ke).value.kind.RosDisco? ==>
      var p := ParseFwdKey(m.ke).value;
      AllCreated(HalfAnnounce(cfg, SideOf(p.kind), Get(s, SideOf(p.kind)),
                              FullAdminKey(p.uuid, p.rest), m.payload.e, m.payload.scope, oracle))
  }

  ghost predicate EventPlain(w: World, ev: DdsEvent) {
    ev.Discovered? ==> Plain(w, ev.side, ev.e)
  }

  /** A replay gives each cached message once, in any order. */
  ghost predicate Enumerates(cache: map<string, Payload>, ms: seq<Msg>) {
    && (forall i :: 0 <= i < |ms| ==> ms[i].Disco? && ms[i].ke in cache && ms[i].payload == cache[ms[i].ke])
    && (forall i, j :: 0 <= i < j < |ms| ==> ms[i].ke != ms[j].ke)
    && (forall k :: k in cache ==> exists i :: 0 <= i < |ms| && ms[i].ke == k)
  }

  ghost predicate Enabled(w: World, n: Net, ev: NetEvent) {
    match ev
    case Local(b, e, _) => b in n.members && b in n.cache && EventOk(n.members[b], e) && EventPlain(w, e)
    case Deliver(a, b, oracle) =>
      (a, b) in n.channels && b in n.members && n.channels[(a, b)] != []
      && Succeeds(w.cfgs(b), n.members[b], n.channels[(a, b)][0], oracle)
    case Join(b, replay) =>
      w.ids(b) && b !in n.used && b !in n.members && GoodZid(b) && w.cfgs(b).scope == w.scope
      && replay.Keys == n.members.Keys == n.cache.Keys
      && forall a :: a in n.members ==> Enumerates(n.cache[a], replay[a])
    case Leave(a) => a in n.members
  }

  ghost function AfterLocal(w: World, n: Net, b: string, ev: DdsEvent, oracle: Oracle): Net
    requires b in n.members && b in n.cache
  {
    var s := n.members[b];
    var s' := FwdDds(w.cfgs(b), s, ev, true, oracle);
    var ms := Sent(w, b, s, s', ev);
    n.(members := n.members[b := s'],
       cache := n.cache[b := Remember(n.cache[b], ms)],
       channels := map p | p in n.channels :: if p.0 == b then n.channels[p] + ms else n.channels[p])
  }

  ghost function AfterDeliver(w: World, n: Net, a: string, b: string, oracle: Oracle): Net
    requires (a, b) in n.channels && b in n.members && n.channels[(a, b)] != []
  {
    n.(members := n.members[b := Handle(w.cfgs(b), n.members[b], a, n.channels[(a, b)][0], oracle)],
       channels := n.channels[(a, b) := n.channels[(a, b)][1..]])
  }

  /** The channels between a newcomer and the members. */
  ghost function NewChannels(members: set<string>, b: string): (r: set<(string, string)>)
    ensures forall p, q :: (p, q) in r <==> (q == b && p in members) || (p == b && q in members)
  {
    (set a | a in members :: (a, b)) + (set a | a in members :: (b, a))
  }

  ghost function AfterJoin(n: Net, b: string, replay: map<string, seq<Msg>>): Net
    requires replay.Keys == n.members.Keys && b !in n.members
  {
    Net(n.members[b := INIT], n.cache[b := map[]],
        map p | p in n.channels.Keys + NewChannels(n.members.Keys, b) ::
          if p !in NewChannels(n.members.Keys, b) then n.channels[p] else if p.1 == b then replay[p.0] else [],
        n.used + {b})
  }

  ghost function AfterLeave(n: Net, a: string): Net {
    Net(n.members - {a}, n.cache - {a},
        map p | p in n.channels && p.1 != a :: if p.0 == a then n.channels[p] + [Gone] else n.channels[p],
        n.used)
  }

  ghost predicate NetNext(w: World, n: Net, ev: NetEvent, n': Net) {
    Enabled(w, n, ev)
    && match ev
       case Local(b, e, oracle) => n' == AfterLocal(w, n, b, e, oracle)
       case Deliver(a, b, oracle) => n' == AfterDeliver(w, n, a, b, oracle)
       case Join(b, replay) => n' == AfterJoin(n, b, replay)
       case Leave(a) => n' == AfterLeave(n, a)
  }

  // ---------- the invariant ----------

  /** Should a bridge with this configuration serve the reference under `ke`, seeing what `a` has discovered? */
  ghost predicate Wanted(w: World, a: string, s: State, cfg: Config, side: Side, ref: string, ke: string) {
    exists k :: k in Get(s, Opposite(side)).entities && WantedBy(w, a, Get(s, Opposite(side)).entities[k], cfg, side, ref, ke)
  }

  ghost predicate WantedBy(w: World, a: string, e: DdsEntity, cfg: Config, side: Side, ref: string, ke: string) {
    ref == RefOf(a, Opposite(side), e) && Announced(cfg, e, w.scope, ke)
  }

  /** The references of `sb`, after all of `ms` from `a`, are exactly what `a` has discovered: nothing if it left. */
  ghost predicate Converges(w: World, a: string, sa: Option<State>, cfg: Config, ms: seq<Msg>, sb: State) {
    forall side, ref, ke :: OwnedBy(a, ref) ==>
      (Pending(cfg, a, ms, side, ref, ke, View(sb, side, ref, ke)) <==> sa.Some? && Wanted(w, a, sa.value, cfg, side, ref, ke))
  }

  ghost function Member(n: Net, a: string): Option<State> {
    if a in n.members then Some(n.members[a]) else None
  }

  ghost predicate GoodState(w: World, s: State) {
    forall x, k :: k in Get(s, x).entities ==> Get(s, x).entities[k].key == k && Plain(w, x, Get(s, x).entities[k])
  }

  /** The cache holds the last word on every entity: an announcement if it is discovered, else a deletion. */
  ghost predicate CacheOk(w: World, a: string, s: State, cache: map<string, Payload>) {
    EntitiesCached(w, a, s, cache) && EntriesExplained(w, a, s, cache)
  }

  ghost predicate EntitiesCached(w: World, a: string, s: State, cache: map<string, Payload>) {
    forall x, k :: k in Get(s, x).entities ==>
      MsgKey(w, a, x, Get(s, x).entities[k]) in cache && cache[MsgKey(w, a, x, Get(s, x).entities[k])].Announce?
  }

  ghost predicate EntriesExplained(w: World, a: string, s: State, cache: map<string, Payload>) {
    forall key :: key in cache ==> exists x, e :: CacheEntry(w, a, s, Disco(key, cache[key]), x, e)
  }

  ghost predicate CacheEntry(w: World, a: string, s: State, m: Msg, x: Side, e: DdsEntity) {
    && BuiltFor(w, a, m, x, e)
    && (m.payload.Announce? ==> e.key in Get(s, x).entities && Get(s, x).entities[e.key].SameContent(e))
  }

  ghost predicate Shape(w: World, n: Net) {
    && n.cache.Keys == n.members.Keys <= n.used
    && (forall z :: z in n.used ==> w.ids(z) && GoodZid(z))
    && (forall a, b :: (a, b) in n.channels ==> b in n.members && a in n.used && a != b)
    && (forall a, b :: a in n.members && b in n.members && a != b ==> (a, b) in n.channels)
  }

  ghost predicate ChannelsBuilt(w: World, n: Net) {
    forall a, b, i :: (a, b) in n.channels && 0 <= i < |n.channels[(a, b)]| ==> Built(w, a, n.channels[(a, b)][i])
  }

  ghost predicate MemberOk(w: World, used: set<string>, b: string, s: State, cache: map<string, Payload>) {
    GoodState(w, s) && GoodRefs(w.ids, used, s) && CacheOk(w, b, s, cache)
  }

  ghost predicate MembersOk(w: World, n: Net) {
    forall b :: b in n.members ==> b in n.cache && MemberOk(w, n.used, b, n.members[b], n.cache[b])
  }

  ghost predicate AllConverge(w: World, n: Net) {
    forall a, b :: (a, b) in n.channels && b in n.members ==>
      Converges(w, a, Member(n, a), w.cfgs(b), n.channels[(a, b)], n.members[b])
  }

  ghost predicate NetInv(w: World, n: Net) {
    Shape(w, n) && ChannelsBuilt(w, n) && MembersOk(w, n) && AllConverge(w, n)
  }

  // ---------- local discovery ----------

  lemma DdsEntities(cfg: Config, s: State, ev: DdsEvent, oracle: Oracle)
    ensures EntitiesAfter(s, FwdDds(cfg, s, ev, true, oracle), ev)
  {
    hide FwdDiscoverReader, FwdUndiscoverReader, AdminKey;
    match ev
    case Discovered(ToDds, e) => ReaderEntities(cfg, s, e, oracle);
    case Undiscovered(ToDds, key) => ReaderUndiscovered(s, key);
    case _ =>
  }

  lemma ReaderEntities(cfg: Config, s: State, e: DdsEntity, oracle: Oracle)
    ensures var s' := FwdDiscoverReader(cfg, s, e, true, oracle);
            s'.from == s.from && s'.participants == s.participants
            && exists statuses :: s'.to.entities == s.to.entities[e.key := e.(routes := statuses)]
  {
    var l := LinkLocal(SetupOf(cfg, e), LocalTemplate(ToDds, e), s.to, e.key, e.Parts(), false, oracle);
    LinkLocalEffect(SetupOf(cfg, e), LocalTemplate(ToDds, e), s.to, e.key, e.Parts(), false, oracle);
    ReaderDiscovered(cfg, s, e, true, oracle);
    assert l.half.entities == s.to.entities;
    hide *;
    assert FwdDiscoverReader(cfg, s, e, true, oracle).to.entities == s.to.entities[e.key := e.(routes := l.statuses)];
  }

  /** A discovered entity is wanted from now on, on top of what was wanted before. */
  lemma WantedAfterDiscovery(w: World, a: string, s: State, s': State, x: Side, e: DdsEntity, cfg: Config,
          side: Side, ref: string, ke: string)
    requires EntitiesAfter(s, s', Discovered(x, e)) && MayStore(Get(s, x), e)
    ensures Wanted(w, a, s', cfg, side, ref, ke) <==>
            Wanted(w, a, s, cfg, side, ref, ke) || (side == Opposite(x) && WantedBy(w, a, e, cfg, side, ref, ke))
  {
    hide Announced, FullAdminKey, EntityAdminKey;
    var old', new' := Get(s, Opposite(side)).entities, Get(s', Opposite(side)).entities;
    if side == Opposite(x) {
      SameKeysAnnounced(cfg, new'[e.key], e, w.scope, ke);
      assert WantedBy(w, a, new'[e.key], cfg, side, ref, ke) <==> WantedBy(w, a, e, cfg, side, ref, ke);
      if Wanted(w, a, s, cfg, side, ref, ke) {
        var k :| k in old' && WantedBy(w, a, old'[k], cfg, side, ref, ke);
        if k == e.key { SameKeysAnnounced(cfg, old'[k], e, w.scope, ke); }
        assert k in new' && WantedBy(w, a, new'[k], cfg, side, ref, ke);
      }
    }
  }

  /** An undiscovered entity is wanted no more, and it alone. */
  lemma WantedAfterLoss(w: World, a: string, s: State, s': State, x: Side, key: string, cfg: Config, side: Side,
          ref: string, ke: string)
    requires EntitiesAfter(s, s', Undiscovered(x, key)) && GoodState(w, s) && NoSlash(a) && key in Get(s, x).entities
    ensures Wanted(w, a, s', cfg, side, ref, ke) <==>
            Wanted(w, a, s, cfg, side, ref, ke) && !(side == Opposite(x) && ref == RefOf(a, x, Get(s, x).entities[key]))
  {
    hide Announced, FullAdminKey, EntityAdminKey;
    var old', new' := Get(s, Opposite(side)).entities, Get(s', Opposite(side)).entities;
    if Wanted(w, a, s, cfg, side, ref, ke) {
      var k :| k in old' && WantedBy(w, a, old'[k], cfg, side, ref, ke);
      if side == Opposite(x) && ref == RefOf(a, x, Get(s, x).entities[key]) {
        forall j | j in new' ensures !WantedBy(w, a, new'[j], cfg, side, ref, ke) {
          if ref == RefOf(a, x, new'[j]) { RefInjective(a, x, new'[j], a, x, old'[key]); }
        }
      } else {
        assert k in new' && WantedBy(w, a, new'[k], cfg, side, ref, ke);
      }
    }
  }

  /** What is sent has, on any receiver, just the effect of the event on what is wanted. */
  lemma SentIsWanted(w: World, b: string, s: State, s': State, ev: DdsEvent, cfg: Config, side: Side, ref: string,
          ke: string)
    requires EntitiesAfter(s, s', ev) && EventOk(s, ev) && EventPlain(w, ev) && GoodState(w, s) && NoSlash(b)
    ensures Pending(cfg, b, Sent(w, b, s, s', ev), side, ref, ke, Wanted(w, b, s, cfg, side, ref, ke)) <==>
            Wanted(w, b, s', cfg, side, ref, ke)
  {
    var ms := Sent(w, b, s, s', ev);
    hide Announced, FullAdminKey, EntityAdminKey, FwdKey, Effect;
    match ev
    case Discovered(x, e) =>
      assert BuiltFor(w, b, ms[0], x, e);
      WantedAfterDiscovery(w, b, s, s', x, e, cfg, side, ref, ke);
      BuiltEffect(w, cfg, b, ms[0], x, e, side, ref, ke, Wanted(w, b, s, cfg, side, ref, ke));
      assert ms[1..] == [];
    case Undiscovered(x, key) =>
      if key in Get(s, x).entities {
        var e := Get(s, x).entities[key];
        assert BuiltFor(w, b, ms[0], x, e);
        WantedAfterLoss(w, b, s, s', x, key, cfg, side, ref, ke);
        BuiltEffect(w, cfg, b, ms[0], x, e, side, ref, ke, Wanted(w, b, s, cfg, side, ref, ke));
        assert ms[1..] == [];
      } else {
        assert s'.from.entities == s.from.entities && s'.to.entities == s.to.entities;
        assert Get(s, Opposite(side)).entities == Get(s', Opposite(side)).entities && ms == [];
      }
    case _ =>
      assert Get(s, Opposite(side)).entities == Get(s', Opposite(side)).entities;
  }

  lemma SentBuilt(w: World, b: string, s: State, s': State, ev: DdsEvent)
    requires EntitiesAfter(s, s', ev) && EventPlain(w, ev) && GoodState(w, s)
    ensures forall i :: 0 <= i < |Sent(w, b, s, s', ev)| ==> Built(w, b, Sent(w, b, s, s', ev)[i])
  {
    hide Plain;
    var ms := Sent(w, b, s, s', ev);
    match ev
    case Discovered(x, e) => assert BuiltFor(w, b, ms[0], x, e);
    case Undiscovered(x, key) =>
      if key in Get(s, x).entities { assert BuiltFor(w, b, ms[0], x, Get(s, x).entities[key]); }
    case _ =>
  }

  /** Message keys tell entities apart as well: they are parsed back to what they were built from. */
  lemma MsgKeyInjective(w: World, a: string, x: Side, e: DdsEntity, y: Side, f: DdsEntity)
    requires NoSlash(a) && Plain(w, x, e) && Plain(w, y, f) && MsgKey(w, a, x, e) == MsgKey(w, a, y, f)
    ensures x == y && e.key == f.key && e.participantKey == f.participantKey && e.topic == f.topic
  {
    EntityKeyParsesIff(a, w.scope, x.FromDds?, e.participantKey, e.key, e.topic);
    EntityKeyParsesIff(a, w.scope, y.FromDds?, f.participantKey, f.key, f.topic);
    AdminKeyInjective(EntityIdOf(x, e), EntityIdOf(y, f));
  }

  lemma SameMsgKey(w: World, b: string, x: Side, e: DdsEntity, f: DdsEntity)
    requires e.SameIdentity(f) || e == f.(routes := e.routes)
    ensures MsgKey(w, b, x, e) == MsgKey(w, b, x, f) && (Plain(w, x, e) <==> Plain(w, x, f))
  {
  }

  /** What follows `key` in the cache when `lastWord` is sent about it. */
  lemma EntitiesStayCached(w: World, b: string, s: State, s': State, ev: DdsEvent, cache: map<string, Payload>)
    requires EntitiesAfter(s, s', ev) && EventOk(s, ev) && EventPlain(w, ev) && GoodState(w, s) && NoSlash(b)
    requires EntitiesCached(w, b, s, cache)
    ensures EntitiesCached(w, b, s', Remember(cache, Sent(w, b, s, s', ev)))
  {
    hide MsgKey, Plain;
    var cache' := Remember(cache, Sent(w, b, s, s', ev));
    forall y, k | k in Get(s', y).entities
      ensures MsgKey(w, b, y, Get(s', y).entities[k]) in cache' && cache'[MsgKey(w, b, y, Get(s', y).entities[k])].Announce?
    {
      var f := Get(s', y).entities[k];
      match ev
      case Discovered(x, e) =>
        if y == x && k == e.key { SameMsgKey(w, b, x, e, f); } else { assert f == Get(s, y).entities[k]; }
      case Undiscovered(x, gone) =>
        assert k in Get(s, y).entities && f == Get(s, y).entities[k];
        if gone in Get(s, x).entities {
          var lost := Get(s, x).entities[gone];
          if MsgKey(w, b, y, f) == MsgKey(w, b, x, lost) { MsgKeyInjective(w, b, y, f, x, lost); }
        }
      case _ => assert Get(s, y).entities == Get(s', y).entities;
    }
  }

  lemma EntriesStayExplained(w: World, b: string, s: State, s': State, ev: DdsEvent, cache: map<string, Payload>)
    requires EntitiesAfter(s, s', ev) && EventOk(s, ev) && EventPlain(w, ev) && GoodState(w, s) && NoSlash(b)
    requires EntriesExplained(w, b, s, cache)
    ensures EntriesExplained(w, b, s', Remember(cache, Sent(w, b, s, s', ev)))
  {
    hide MsgKey, Plain;
    var ms := Sent(w, b, s, s', ev);
    var cache' := Remember(cache, ms);
    forall key | key in cache' ensures exists y, f :: CacheEntry(w, b, s', Disco(key, cache'[key]), y, f) {
      if ms != [] && key == ms[0].ke {
        NewestExplained(w, b, s, s', ev);
      } else {
        var y, f :| CacheEntry(w, b, s, Disco(key, cache[key]), y, f);
        match ev
        case Discovered(x, e) =>
          if cache[key].Announce? && y == x && f.key == e.key { SameMsgKey(w, b, x, f, e); }
          assert CacheEntry(w, b, s', Disco(key, cache'[key]), y, f);
        case Undiscovered(x, gone) =>
          if cache[key].Announce? && y == x && f.key == gone { SameMsgKey(w, b, x, f, Get(s, x).entities[gone]); }
          assert CacheEntry(w, b, s', Disco(key, cache'[key]), y, f);
        case _ => assert CacheEntry(w, b, s', Disco(key, cache'[key]), y, f);
      }
    }
  }

  lemma NewestExplained(w: World, b: string, s: State, s': State, ev: DdsEvent)
    requires EntitiesAfter(s, s', ev) && EventPlain(w, ev) && GoodState(w, s)
    requires Sent(w, b, s, s', ev) != []
    ensures exists y, f :: CacheEntry(w, b, s', Sent(w, b, s, s', ev)[0], y, f)
  {
    hide MsgKey, Plain;
    var m := Sent(w, b, s, s', ev)[0];
    match ev
    case Discovered(x, e) => assert CacheEntry(w, b, s', m, x, e);
    case Undiscovered(x, gone) => assert CacheEntry(w, b, s', m, x, Get(s, x).entities[gone]);
  }

  /** Handling messages changes route statuses of entities at most, which the cache does not depend on. */
  lemma CacheSame(w: World, b: string, s: State, s': State, cache: map<string, Payload>)
    requires CacheOk(w, b, s, cache)
    requires SameEntities(s.from.entities, s'.from.entities) && SameEntities(s.to.entities, s'.to.entities)
    ensures CacheOk(w, b, s', cache)
  {
    hide EntitiesCached, EntriesExplained;
    CachedSame(w, b, s, s', cache);
    ExplainedSame(w, b, s, s', cache);
  }

  lemma CachedSame(w: World, b: string, s: State, s': State, cache: map<string, Payload>)
    requires EntitiesCached(w, b, s, cache)
    requires SameEntities(s.from.entities, s'.from.entities) && SameEntities(s.to.entities, s'.to.entities)
    ensures EntitiesCached(w, b, s', cache)
  {
    hide MsgKey, Plain;
    forall x, k | k in Get(s', x).entities
      ensures MsgKey(w, b, x, Get(s', x).entities[k]) in cache && cache[MsgKey(w, b, x, Get(s', x).entities[k])].Announce?
    {
      SameMsgKey(w, b, x, Get(s, x).entities[k], Get(s', x).entities[k]);
    }
  }

  lemma ExplainedSame(w: World, b: string, s: State, s': State, cache: map<string, Payload>)
    requires EntriesExplained(w, b, s, cache)
    requires SameEntities(s.from.entities, s'.from.entities) && SameEntities(s.to.entities, s'.to.entities)
    ensures EntriesExplained(w, b, s', cache)
  {
    hide MsgKey, Plain, BuiltFor;
    forall key | key in cache ensures exists x, e :: CacheEntry(w, b, s', Disco(key, cache[key]), x, e) {
      var x, e :| CacheEntry(w, b, s, Disco(key, cache[key]), x, e);
      assert CacheEntry(w, b, s', Disco(key, cache[key]), x, e);
    }
  }

  // ---------- receiving ----------

  /** Handling a message has its effect on every reference, and no other. */
  lemma HandleView(w: World, used: set<string>, cfg: Config, s: State, a: string, m: Msg, oracle: Oracle, side: Side,
          ref: string, ke: string)
    requires GoodRefs(w.ids, used, s) && w.ids(a) && NoSlash(a) && Succeeds(cfg, s, m, oracle)
    ensures View(Handle(cfg, s, a, m, oracle), side, ref, ke) <==> Effect(cfg, a, m, side, ref, ke, View(s, side, ref, ke))
  {
    hide Announced, FullAdminKey, OnAnnounce, OnDelete, OnLeft;
    if m.Gone? {
      LeaveView(w.ids, used, s, a, side, ref, ke);
    } else if ParseFwdKey(m.ke).Some? {
      var p := ParseFwdKey(m.ke).value;
      if !p.kind.RosDisco? {
        if m.payload.Announce? {
          AnnounceView(cfg, s, SideOf(p.kind), FullAdminKey(p.uuid, p.rest), m.payload.e, m.payload.scope, oracle, side, ref, ke);
        }
        DeleteView(s, SideOf(p.kind), FullAdminKey(p.uuid, p.rest), side, ref, ke);
      }
    }
  }

  lemma HandleEntities(cfg: Config, s: State, a: string, m: Msg, oracle: Oracle)
    ensures SameEntities(s.from.entities, Handle(cfg, s, a, m, oracle).from.entities)
    ensures SameEntities(s.to.entities, Handle(cfg, s, a, m, oracle).to.entities)
  {
    hide OnAnnounce, OnDelete, OnLeft, FullAdminKey, UpdateWith;
    match m
    case Gone => LeftEntities(s, a);
    case Disco(ke, payload) =>
      if ParseFwdKey(ke).Some? {
        var p := ParseFwdKey(ke).value;
        hide ParseFwdKey;
        var side, ref := SideOf(p.kind), FullAdminKey(p.uuid, p.rest);
        if payload.Announce? { AnnounceEntities(cfg, s, side, ref, payload.e, payload.scope, oracle); }
        DeleteEntities(s, side, ref);
      }
  }

  lemma HandleParticipants(cfg: Config, s: State, a: string, m: Msg, oracle: Oracle)
    ensures Handle(cfg, s, a, m, oracle).participants == s.participants
  {
    hide ParseFwdKey, FullAdminKey, HalfAnnounce, HalfDelete, HalfLeave, UpdateWith;
  }

  lemma BridgeUsed(w: World, n: Net, a: string)
    requires NetInv(w, n)
    ensures (a in n.members ==> a in n.used) && n.members.Keys == n.cache.Keys
    ensures forall p, q :: (p, q) in n.channels ==> p in n.used && q in n.members
  {
    hide ChannelsBuilt, MembersOk, AllConverge, GoodZid;
  }

  lemma LeftEntities(s: State, a: string)
    ensures OnLeft(s, a).from.entities == s.from.entities && OnLeft(s, a).to.entities == s.to.entities
  {
    hide Reindex;
  }

  lemma AnnounceEntities(cfg: Config, s: State, side: Side, ref: string, e: DdsEntity, scope: Option<string>,
          oracle: Oracle)
    ensures SameEntities(s.from.entities, OnAnnounce(cfg, s, side, ref, e, scope, oracle).from.entities)
    ensures SameEntities(s.to.entities, OnAnnounce(cfg, s, side, ref, e, scope, oracle).to.entities)
  {
    LinkRemoteEffect(RemoteSetup(cfg, e, scope), RemoteTemplate(side, e), Get(s, side), ref, e.Parts(), oracle);
    hide LinkRemote, Reindex;
  }

  lemma DeleteEntities(s: State, side: Side, ref: string)
    ensures OnDelete(s, side, ref).from.entities == s.from.entities && OnDelete(s, side, ref).to.entities == s.to.entities
  {
    hide Reindex;
  }

  lemma RefIsGood(w: World, used: set<string>, a: string, x: Side, e: DdsEntity)
    requires a in used && GoodZid(a) && Plain(w, x, e)
    ensures GoodRef(w.ids, used, RefOf(a, x, e)) && OwnedBy(a, RefOf(a, x, e))
  {
    var ref := RefOf(a, x, e);
    OwnerOfFullAdminKey(a, AdminRest(x, e), a);
    forall z | w.ids(z) && NoSlash(z) && Contains(ref, DepartureSubkey(z)) ensures z == a {
      DepartureSweepHitsIff(a, e.participantKey, x.FromDds?, e.key, e.topic, z);
    }
    assert SweptWithOnly(w.ids, a, ref);
  }

  /** A message only adds references of its sender, in good form. */
  lemma HandleKeepsRefs(w: World, used: set<string>, cfg: Config, s: State, a: string, m: Msg, oracle: Oracle)
    requires GoodRefs(w.ids, used, s) && a in used && w.ids(a) && GoodZid(a) && Succeeds(cfg, s, m, oracle) && Built(w, a, m)
    ensures GoodRefs(w.ids, used, Handle(cfg, s, a, m, oracle))
  {
    hide View, GoodRef, Succeeds, Handle, Plain, Announced, RefOf;
    forall side, ref, ke | View(Handle(cfg, s, a, m, oracle), side, ref, ke) ensures GoodRef(w.ids, used, ref) {
      HandleView(w, used, cfg, s, a, m, oracle, side, ref, ke);
      if m.Disco? && !View(s, side, ref, ke) {
        var x, e :| BuiltFor(w, a, m, x, e);
        BuiltEffect(w, cfg, a, m, x, e, side, ref, ke, View(s, side, ref, ke));
        RefIsGood(w, used, a, x, e);
      }
    }
  }

  /** Messages of one bridge leave the references of all others alone. */
  lemma EffectOnOthers(w: World, used: set<string>, cfg: Config, a: string, m: Msg, c: string, side: Side,
          ref: string, ke: string, served: bool)
    requires a in used && GoodZid(a) && GoodZid(c) && Built(w, a, m) && OwnedBy(c, ref) && a != c
    requires served ==> GoodRef(w.ids, used, ref)
    ensures Effect(cfg, a, m, side, ref, ke, served) == served
  {
    if m.Gone? {
      if served {
        var d, r :| d in used && GoodZid(d) && ref == FullAdminKey(d, r) && SweptWithOnly(w.ids, d, ref);
        OwnerOfFullAdminKey(d, r, a);
        OwnerOfFullAdminKey(d, r, c);
      }
    } else {
      var x, e :| BuiltFor(w, a, m, x, e);
      BuiltEffect(w, cfg, a, m, x, e, side, ref, ke, served);
      OwnerOfFullAdminKey(a, AdminRest(x, e), c);
    }
  }

  // ---------- replaying the cache ----------

  /** The message is about this reference, for routes of this side. */
  ghost predicate About(w: World, a: string, m: Msg, side: Side, ref: string) {
    exists x, e :: BuiltFor(w, a, m, x, e) && side == Opposite(x) && ref == RefOf(a, x, e)
  }

  lemma AboutSameKey(w: World, a: string, m: Msg, m': Msg, side: Side, ref: string)
    requires NoSlash(a) && About(w, a, m, side, ref) && About(w, a, m', side, ref)
    ensures m.ke == m'.ke
  {
    var x, e :| BuiltFor(w, a, m, x, e) && side == Opposite(x) && ref == RefOf(a, x, e);
    var y, f :| BuiltFor(w, a, m', y, f) && side == Opposite(y) && ref == RefOf(a, y, f);
    FullAdminKeyInjective(a, AdminRest(x, e), a, AdminRest(y, f));
  }

  lemma {:induction false} PendingOfOthers(w: World, cfg: Config, a: string, ms: seq<Msg>, side: Side, ref: string,
          ke: string, served: bool)
    requires NoSlash(a)
    requires forall i :: 0 <= i < |ms| ==> ms[i].Disco? && Built(w, a, ms[i]) && !About(w, a, ms[i], side, ref)
    ensures Pending(cfg, a, ms, side, ref, ke, served) == served
  {
    if ms != [] {
      var x, e :| BuiltFor(w, a, ms[0], x, e);
      BuiltEffect(w, cfg, a, ms[0], x, e, side, ref, ke, served);
      hide Effect, About, Built;
      PendingOfOthers(w, cfg, a, ms[1..], side, ref, ke, served);
    }
  }

  /** With one message per key, only the message about a reference counts for it, wherever it stands. */
  lemma PendingOfOne(w: World, cfg: Config, a: string, ms: seq<Msg>, i: nat, side: Side, ref: string, ke: string,
          served: bool)
    requires NoSlash(a) && i < |ms| && About(w, a, ms[i], side, ref)
    requires forall j :: 0 <= j < |ms| ==> ms[j].Disco? && Built(w, a, ms[j])
    requires forall j, k :: 0 <= j < k < |ms| ==> ms[j].ke != ms[k].ke
    ensures Pending(cfg, a, ms, side, ref, ke, served) == Effect(cfg, a, ms[i], side, ref, ke, served)
  {
    hide About, Built, Effect;
    forall j | 0 <= j < |ms| && j != i ensures !About(w, a, ms[j], side, ref) {
      if About(w, a, ms[j], side, ref) { AboutSameKey(w, a, ms[i], ms[j], side, ref); }
    }
    var before, after := ms[..i], ms[i + 1..];
    assert ms == before + ([ms[i]] + after);
    PendingAppend(cfg, a, before, [ms[i]] + after, side, ref, ke, served);
    PendingOfOthers(w, cfg, a, before, side, ref, ke, served);
    assert ([ms[i]] + after)[1..] == after;
    PendingOfOthers(w, cfg, a, after, side, ref, ke, Effect(cfg, a, ms[i], side, ref, ke, served));
  }

  ghost predicate Replay(w: World, a: string, s: State, cache: map<string, Payload>, ms: seq<Msg>) {
    NoSlash(a) && GoodState(w, s) && CacheOk(w, a, s, cache) && Enumerates(cache, ms)
  }

  lemma ReplayBuilt(w: World, a: string, s: State, cache: map<string, Payload>, ms: seq<Msg>)
    requires Replay(w, a, s, cache, ms)
    ensures forall i :: 0 <= i < |ms| ==> ms[i].Disco? && Built(w, a, ms[i])
  {
    hide EntitiesCached;
    forall i | 0 <= i < |ms| ensures ms[i].Disco? && Built(w, a, ms[i]) {
      var x, e :| CacheEntry(w, a, s, Disco(ms[i].ke, cache[ms[i].ke]), x, e);
      assert BuiltFor(w, a, ms[i], x, e);
    }
  }

  lemma WantedIsReplayed(w: World, cfg: Config, a: string, s: State, cache: map<string, Payload>, ms: seq<Msg>,
          side: Side, ref: string, ke: string, k: string)
    requires Replay(w, a, s, cache, ms)
    requires var es := Get(s, Opposite(side)).entities; k in es && WantedBy(w, a, es[k], cfg, side, ref, ke)
    ensures Pending(cfg, a, ms, side, ref, ke, false)
  {
    hide Announced, FullAdminKey, EntityAdminKey, FwdKey, Effect, Plain;
    ReplayBuilt(w, a, s, cache, ms);
    var x := Opposite(side);
    var e := Get(s, x).entities[k];
    var key := MsgKey(w, a, x, e);
    assert key in cache && cache[key].Announce? by { hide EntriesExplained; }
    hide EntitiesCached;
    var i :| 0 <= i < |ms| && ms[i].ke == key;
    var y, f :| CacheEntry(w, a, s, Disco(key, cache[key]), y, f);
    MsgKeyInjective(w, a, x, e, y, f);
    assert BuiltFor(w, a, ms[i], y, f);
    SameKeysAnnounced(cfg, e, f, w.scope, ke);
    assert RefOf(a, y, f) == ref;
    PendingOfOne(w, cfg, a, ms, i, side, ref, ke, false);
    BuiltEffect(w, cfg, a, ms[i], y, f, side, ref, ke, false);
  }

  lemma EntryIsWanted(w: World, cfg: Config, a: string, s: State, m: Msg, x: Side, e: DdsEntity, side: Side,
          ref: string, ke: string)
    requires NoSlash(a) && CacheEntry(w, a, s, m, x, e) && Effect(cfg, a, m, side, ref, ke, false)
    ensures Wanted(w, a, s, cfg, side, ref, ke)
  {
    BuiltEffect(w, cfg, a, m, x, e, side, ref, ke, false);
    hide Announced, FullAdminKey, EntityAdminKey, FwdKey, Effect, Plain;
    var stored := Get(s, x).entities[e.key];
    SameKeysAnnounced(cfg, stored, e, w.scope, ke);
    assert WantedBy(w, a, stored, cfg, side, ref, ke);
  }

  lemma ReplayedIsWanted(w: World, cfg: Config, a: string, s: State, cache: map<string, Payload>, ms: seq<Msg>,
          side: Side, ref: string, ke: string)
    requires Replay(w, a, s, cache, ms) && Pending(cfg, a, ms, side, ref, ke, false)
    ensures Wanted(w, a, s, cfg, side, ref, ke)
  {
    hide Announced, FullAdminKey, EntityAdminKey, FwdKey, Effect, Plain, EntitiesCached;
    ReplayBuilt(w, a, s, cache, ms);
    if i :| 0 <= i < |ms| && About(w, a, ms[i], side, ref) {
      PendingOfOne(w, cfg, a, ms, i, side, ref, ke, false);
      var y, f :| CacheEntry(w, a, s, Disco(ms[i].ke, cache[ms[i].ke]), y, f);
      EntryIsWanted(w, cfg, a, s, ms[i], y, f, side, ref, ke);
    } else {
      PendingOfOthers(w, cfg, a, ms, side, ref, ke, false);
    }
  }

  /** A bridge that joins and replays a cache comes to serve exactly what the cached bridge has discovered. */
  lemma ReplayConverges(w: World, cfg: Config, a: string, s: State, cache: map<string, Payload>, ms: seq<Msg>,
          side: Side, ref: string, ke: string)
    requires Replay(w, a, s, cache, ms)
    ensures Pending(cfg, a, ms, side, ref, ke, false) <==> Wanted(w, a, s, cfg, side, ref, ke)
  {
    hide Pending, Replay, WantedBy;
    if Wanted(w, a, s, cfg, side, ref, ke) {
      var k :| k in Get(s, Opposite(side)).entities && WantedBy(w, a, Get(s, Opposite(side)).entities[k], cfg, side, ref, ke);
      WantedIsReplayed(w, cfg, a, s, cache, ms, side, ref, ke, k);
    }
    if Pending(cfg, a, ms, side, ref, ke, false) {
      ReplayedIsWanted(w, cfg, a, s, cache, ms, side, ref, ke);
    }
  }

  // ---------- every step keeps the invariant ----------

  lemma MemberAfterLocal(w: World, used: set<string>, b: string, s: State, cache: map<string, Payload>,
          ev: DdsEvent, oracle: Oracle)
    requires MemberOk(w, used, b, s, cache) && NoSlash(b) && EventOk(s, ev) && EventPlain(w, ev)
    ensures var s' := FwdDds(w.cfgs(b), s, ev, true, oracle);
            MemberOk(w, used, b, s', Remember(cache, Sent(w, b, s, s', ev)))
  {
    hide FwdDds, CacheOk, Plain, View, EventOk, Remember, Sent;
    var s' := FwdDds(w.cfgs(b), s, ev, true, oracle);
    DdsEntities(w.cfgs(b), s, ev, oracle);
    CacheFollows(w, b, s, s', ev, cache);
    EntitiesStayGood(w, s, s', ev);
    forall side, ref, ke | View(s', side, ref, ke) ensures GoodRef(w.ids, used, ref)
    {
      LocalView(w.cfgs(b), s, ev, true, oracle, side, ref, ke);
    }
  }

  lemma CacheFollows(w: World, b: string, s: State, s': State, ev: DdsEvent, cache: map<string, Payload>)
    requires EntitiesAfter(s, s', ev) && EventOk(s, ev) && EventPlain(w, ev) && GoodState(w, s) && NoSlash(b)
    requires CacheOk(w, b, s, cache)
    ensures CacheOk(w, b, s', Remember(cache, Sent(w, b, s, s', ev)))
  {
    hide EntitiesCached, EntriesExplained;
    EntitiesStayCached(w, b, s, s', ev, cache);
    EntriesStayExplained(w, b, s, s', ev, cache);
  }

  lemma EntitiesStayGood(w: World, s: State, s': State, ev: DdsEvent)
    requires EntitiesAfter(s, s', ev) && EventPlain(w, ev) && GoodState(w, s)
    ensures GoodState(w, s')
  {
    forall x, k | k in Get(s', x).entities ensures Get(s', x).entities[k].key == k && Plain(w, x, Get(s', x).entities[k]) {
      if ev.Discovered? && ev.side == x && ev.e.key == k {
        SameMsgKey(w, "", x, ev.e, Get(s', x).entities[k]);
      } else {
        assert k in Get(s, x).entities && Get(s', x).entities[k] == Get(s, x).entities[k];
      }
    }
  }

  /** The sender discovers or loses an entity: what it sends makes up for it. */
  lemma ConvergesSending(w: World, a: string, s: State, ev: DdsEvent, oracle: Oracle, cfg: Config, ms: seq<Msg>,
          sb: State)
    requires Converges(w, a, Some(s), cfg, ms, sb)
    requires GoodState(w, s) && NoSlash(a) && EventOk(s, ev) && EventPlain(w, ev)
    ensures var s' := FwdDds(w.cfgs(a), s, ev, true, oracle);
            Converges(w, a, Some(s'), cfg, ms + Sent(w, a, s, s', ev), sb)
  {
    hide FwdDds, Sent, Wanted, View, Pending, GoodState, OwnedBy, EventOk, EventPlain;
    var s' := FwdDds(w.cfgs(a), s, ev, true, oracle);
    DdsEntities(w.cfgs(a), s, ev, oracle);
    forall side, ref, ke | OwnedBy(a, ref)
      ensures Pending(cfg, a, ms + Sent(w, a, s, s', ev), side, ref, ke, View(sb, side, ref, ke)) <==>
              Wanted(w, a, s', cfg, side, ref, ke)
    {
      PendingAppend(cfg, a, ms, Sent(w, a, s, s', ev), side, ref, ke, View(sb, side, ref, ke));
      SentIsWanted(w, a, s, s', ev, cfg, side, ref, ke);
    }
  }

  /** A receiver that serves the same remote references converges to the same. */
  lemma ConvergesSameView(w: World, a: string, sa: Option<State>, cfg: Config, ms: seq<Msg>, sb: State, sb': State)
    requires Converges(w, a, sa, cfg, ms, sb)
    requires forall side, ref, ke :: OwnedBy(a, ref) ==> (View(sb', side, ref, ke) <==> View(sb, side, ref, ke))
    ensures Converges(w, a, sa, cfg, ms, sb')
  {
    hide Wanted, View, Pending, OwnedBy;
  }

  /** A sender that has discovered the same is waited for in the same way. */
  lemma ConvergesSameSender(w: World, a: string, s: State, s': State, cfg: Config, ms: seq<Msg>, sb: State)
    requires Converges(w, a, Some(s), cfg, ms, sb)
    requires SameEntities(s.from.entities, s'.from.entities) && SameEntities(s.to.entities, s'.to.entities)
    ensures Converges(w, a, Some(s'), cfg, ms, sb)
  {
    hide View, Pending, OwnedBy, Wanted;
    forall side, ref, ke ensures Wanted(w, a, s, cfg, side, ref, ke) <==> Wanted(w, a, s', cfg, side, ref, ke) {
      WantedSame(w, a, s, s', cfg, side, ref, ke);
      WantedSame(w, a, s', s, cfg, side, ref, ke);
    }
  }

  lemma WantedSame(w: World, a: string, s: State, s': State, cfg: Config, side: Side, ref: string, ke: string)
    requires SameEntities(s.from.entities, s'.from.entities) && SameEntities(s.to.entities, s'.to.entities)
    ensures Wanted(w, a, s, cfg, side, ref, ke) ==> Wanted(w, a, s', cfg, side, ref, ke)
  {
    hide Announced, FullAdminKey, EntityAdminKey;
    var x := Opposite(side);
    if Wanted(w, a, s, cfg, side, ref, ke) {
      var k :| k in Get(s, x).entities && WantedBy(w, a, Get(s, x).entities[k], cfg, side, ref, ke);
      SameKeysAnnounced(cfg, Get(s, x).entities[k], Get(s', x).entities[k], w.scope, ke);
      assert WantedBy(w, a, Get(s', x).entities[k], cfg, side, ref, ke);
    }
  }

  /** Handling the next message moves its effect from the channel to the receiver. */
  lemma ConvergesDelivering(w: World, used: set<string>, a: string, sa: Option<State>, cfg: Config, ms: seq<Msg>,
          sb: State, oracle: Oracle)
    requires ms != [] && Converges(w, a, sa, cfg, ms, sb)
    requires GoodRefs(w.ids, used, sb) && w.ids(a) && NoSlash(a) && Succeeds(cfg, sb, ms[0], oracle)
    ensures Converges(w, a, sa, cfg, ms[1..], Handle(cfg, sb, a, ms[0], oracle))
  {
    hide Wanted, View, Effect, OwnedBy, Handle, Succeeds, GoodRefs;
    forall side, ref, ke | OwnedBy(a, ref)
      ensures Pending(cfg, a, ms[1..], side, ref, ke, View(Handle(cfg, sb, a, ms[0], oracle), side, ref, ke)) <==>
              sa.Some? && Wanted(w, a, sa.value, cfg, side, ref, ke)
    {
      HandleView(w, used, cfg, sb, a, ms[0], oracle, side, ref, ke);
    }
  }

  /** Handling a message of `a` changes nothing for another bridge `c`. */
  lemma ConvergesForOthers(w: World, used: set<string>, a: string, m: Msg, oracle: Oracle, c: string,
          sc: Option<State>, cfg: Config, ms: seq<Msg>, sb: State)
    requires Converges(w, c, sc, cfg, ms, sb)
    requires GoodRefs(w.ids, used, sb) && a in used && w.ids(a) && GoodZid(a) && GoodZid(c) && a != c
             && Built(w, a, m) && Succeeds(cfg, sb, m, oracle)
    ensures Converges(w, c, sc, cfg, ms, Handle(cfg, sb, a, m, oracle))
  {
    hide Wanted, View, Effect, OwnedBy, Handle, Succeeds, Built, GoodRef, Pending, Converges;
    var sb' := Handle(cfg, sb, a, m, oracle);
    forall side, ref, ke | OwnedBy(c, ref) ensures View(sb', side, ref, ke) <==> View(sb, side, ref, ke) {
      HandleView(w, used, cfg, sb, a, m, oracle, side, ref, ke);
      EffectOnOthers(w, used, cfg, a, m, c, side, ref, ke, View(sb, side, ref, ke));
    }
    ConvergesSameView(w, c, sc, cfg, ms, sb, sb');
  }

  /** Once `Gone` is in the channel, nothing of the bridge that left is to remain. */
  lemma ConvergesLeaving(w: World, a: string, sa: Option<State>, cfg: Config, ms: seq<Msg>, sb: State)
    ensures Converges(w, a, None, cfg, ms + [Gone], sb)
  {
    forall side, ref, ke | OwnedBy(a, ref)
      ensures !Pending(cfg, a, ms + [Gone], side, ref, ke, View(sb, side, ref, ke))
    {
      PendingAppend(cfg, a, ms, [Gone], side, ref, ke, View(sb, side, ref, ke));
      assert [Gone][1..] == [];
    }
  }

  /** A bridge that joins starts with the caches of the others. */
  lemma ConvergesJoining(w: World, a: string, s: State, cfg: Config, cache: map<string, Payload>, ms: seq<Msg>)
    requires Replay(w, a, s, cache, ms)
    ensures Converges(w, a, Some(s), cfg, ms, INIT)
  {
    hide Wanted, Pending, Replay, OwnedBy;
    forall side, ref, ke
      ensures Pending(cfg, a, ms, side, ref, ke, View(INIT, side, ref, ke)) <==> Wanted(w, a, s, cfg, side, ref, ke)
    {
      ReplayConverges(w, cfg, a, s, cache, ms, side, ref, ke);
    }
  }

  /** And nobody serves anything of it yet. */
  lemma ConvergesToNewcomer(w: World, used: set<string>, b: string, cfg: Config, sc: State)
    requires b !in used && NoSlash(b) && GoodRefs(w.ids, used, sc)
    ensures Converges(w, b, Some(INIT), cfg, [], sc)
  {
    forall side, ref, ke | OwnedBy(b, ref) ensures !View(sc, side, ref, ke) {
      if View(sc, side, ref, ke) {
        var c, r :| c in used && GoodZid(c) && ref == FullAdminKey(c, r) && SweptWithOnly(w.ids, c, ref);
        OwnerOfFullAdminKey(c, r, b);
      }
    }
  }

  // ---------- every step keeps the invariant ----------

  lemma LocalKeeps(w: World, n: Net, b: string, ev: DdsEvent, oracle: Oracle)
    requires NetInv(w, n) && Enabled(w, n, Local(b, ev, oracle))
    ensures NetInv(w, AfterLocal(w, n, b, ev, oracle))
  {
    hide FwdDds, Sent, MemberOk, Converges, Built, EventOk, EventPlain, GoodZid, Remember;
    var n', s := AfterLocal(w, n, b, ev, oracle), n.members[b];
    var s' := FwdDds(w.cfgs(b), s, ev, true, oracle);
    assert GoodZid(b) && NoSlash(b) by { ZidOk(w, n, b); }
    MemberAfterLocal(w, n.used, b, s, n.cache[b], ev, oracle);
    assert ChannelsBuilt(w, n') by { LocalChannels(w, n, b, ev, oracle); }
    forall p, q | (p, q) in n'.channels && q in n'.members
      ensures Converges(w, p, Member(n', p), w.cfgs(q), n'.channels[(p, q)], n'.members[q])
    {
      LocalPair(w, n, b, ev, oracle, p, q);
    }
  }

  lemma ZidOk(w: World, n: Net, b: string)
    requires Shape(w, n) && b in n.used
    ensures w.ids(b) && GoodZid(b) && NoSlash(b)
  {
  }

  lemma LocalChannels(w: World, n: Net, b: string, ev: DdsEvent, oracle: Oracle)
    requires NetInv(w, n) && Enabled(w, n, Local(b, ev, oracle))
    ensures ChannelsBuilt(w, AfterLocal(w, n, b, ev, oracle))
  {
    var s := n.members[b];
    var s' := FwdDds(w.cfgs(b), s, ev, true, oracle);
    assert GoodState(w, s) by { hide GoodState, GoodRefs, CacheOk; }
    assert EventPlain(w, ev) by { hide EventOk; }
    hide FwdDds, Sent, MemberOk, Converges, Built, EventOk, EventPlain, GoodState;
    DdsEntities(w.cfgs(b), s, ev, oracle);
    SentBuilt(w, b, s, s', ev);
  }

  lemma LocalPair(w: World, n: Net, b: string, ev: DdsEvent, oracle: Oracle, p: string, q: string)
    requires NetInv(w, n) && Enabled(w, n, Local(b, ev, oracle)) && (p, q) in n.channels && q in n.members
    ensures var n' := AfterLocal(w, n, b, ev, oracle);
            Converges(w, p, Member(n', p), w.cfgs(q), n'.channels[(p, q)], n'.members[q])
  {
    hide FwdDds, Sent, Converges, Built, EventOk, EventPlain, GoodZid, View, GoodState, GoodRefs, CacheOk, ChannelsBuilt;
    var n', s := AfterLocal(w, n, b, ev, oracle), n.members[b];
    var s' := FwdDds(w.cfgs(b), s, ev, true, oracle);
    assert Converges(w, p, Member(n, p), w.cfgs(q), n.channels[(p, q)], n.members[q]);
    if p == b {
      assert NoSlash(b) by { ZidOk(w, n, b); }
      assert MemberOk(w, n.used, b, s, n.cache[b]);
      ConvergesSending(w, b, s, ev, oracle, w.cfgs(q), n.channels[(p, q)], n.members[q]);
    } else if q == b {
      forall side, ref, ke | OwnedBy(p, ref) ensures View(s', side, ref, ke) <==> View(s, side, ref, ke) {
        LocalView(w.cfgs(b), s, ev, true, oracle, side, ref, ke);
      }
      ConvergesSameView(w, p, Member(n, p), w.cfgs(q), n.channels[(p, q)], s, s');
    }
  }

  lemma DeliverKeeps(w: World, n: Net, a: string, b: string, oracle: Oracle)
    requires NetInv(w, n) && Enabled(w, n, Deliver(a, b, oracle))
    ensures NetInv(w, AfterDeliver(w, n, a, b, oracle))
  {
    hide Handle, Converges, Built, GoodZid, Succeeds, MemberOk;
    var n' := AfterDeliver(w, n, a, b, oracle);
    assert ChannelsBuilt(w, n') by { DeliverChannels(w, n, a, b, oracle); }
    MemberAfterDelivery(w, n, a, b, oracle);
    forall p, q | (p, q) in n'.channels && q in n'.members
      ensures Converges(w, p, Member(n', p), w.cfgs(q), n'.channels[(p, q)], n'.members[q])
    {
      DeliverPair(w, n, a, b, oracle, p, q);
    }
  }

  lemma DeliverChannels(w: World, n: Net, a: string, b: string, oracle: Oracle)
    requires ChannelsBuilt(w, n) && Enabled(w, n, Deliver(a, b, oracle))
    ensures ChannelsBuilt(w, AfterDeliver(w, n, a, b, oracle))
  {
    hide Handle, Built, Succeeds;
    assert forall i :: 0 <= i < |n.channels[(a, b)]| ==> Built(w, a, n.channels[(a, b)][i]);
  }

  lemma MemberAfterDelivery(w: World, n: Net, a: string, b: string, oracle: Oracle)
    requires NetInv(w, n) && Enabled(w, n, Deliver(a, b, oracle))
    ensures b in n.cache && MemberOk(w, n.used, b, AfterDeliver(w, n, a, b, oracle).members[b], n.cache[b])
  {
    hide Handle, Converges, Built, GoodZid, Succeeds, View, CacheOk, Plain;
    var s, m := n.members[b], n.channels[(a, b)][0];
    var s' := Handle(w.cfgs(b), s, a, m, oracle);
    assert MemberOk(w, n.used, b, s, n.cache[b]);
    HandleEntities(w.cfgs(b), s, a, m, oracle);
    CacheSame(w, b, s, s', n.cache[b]);
    SameStaysGood(w, s, s');
    HandleKeepsRefs(w, n.used, w.cfgs(b), s, a, m, oracle);
  }

  lemma SameStaysGood(w: World, s: State, s': State)
    requires GoodState(w, s)
    requires SameEntities(s.from.entities, s'.from.entities) && SameEntities(s.to.entities, s'.to.entities)
    ensures GoodState(w, s')
  {
    hide Plain;
    forall x, k | k in Get(s', x).entities ensures Get(s', x).entities[k].key == k && Plain(w, x, Get(s', x).entities[k]) {
      SameMsgKey(w, "", x, Get(s, x).entities[k], Get(s', x).entities[k]);
    }
  }

  lemma DeliverPair(w: World, n: Net, a: string, b: string, oracle: Oracle, p: string, q: string)
    requires NetInv(w, n) && Enabled(w, n, Deliver(a, b, oracle)) && (p, q) in n.channels && q in n.members
    ensures var n' := AfterDeliver(w, n, a, b, oracle);
            Converges(w, p, Member(n', p), w.cfgs(q), n'.channels[(p, q)], n'.members[q])
  {
    hide Handle, Converges, Built, Succeeds, GoodState, GoodRefs, CacheOk;
    var n', m, s := AfterDeliver(w, n, a, b, oracle), n.channels[(a, b)][0], n.members[b];
    var s', cfg := Handle(w.cfgs(b), s, a, m, oracle), w.cfgs(q);
    assert Converges(w, p, Member(n, p), cfg, n.channels[(p, q)], n.members[q]);
    assert MemberOk(w, n.used, b, s, n.cache[b]);
    if q == b {
      if p == a {
        ConvergesDelivering(w, n.used, a, Member(n, a), cfg, n.channels[(a, b)], s, oracle);
      } else {
        ConvergesForOthers(w, n.used, a, m, oracle, p, Member(n, p), cfg, n.channels[(p, q)], s);
      }
    } else if p == b {
      HandleEntities(w.cfgs(b), s, a, m, oracle);
      ConvergesSameSender(w, b, s, s', cfg, n.channels[(p, q)], n.members[q]);
    }
  }

  lemma JoinShape(w: World, n: Net, b: string, replay: map<string, seq<Msg>>)
    requires Shape(w, n) && replay.Keys == n.members.Keys && b !in n.used && b !in n.members && w.ids(b) && GoodZid(b)
    ensures Shape(w, AfterJoin(n, b, replay))
  {
    hide GoodZid, NewChannels;
    var n' := AfterJoin(n, b, replay);
    forall p, q | (p, q) in n'.channels ensures q in n'.members && p in n'.used && p != q { }
    forall p, q | p in n'.members && q in n'.members && p != q ensures (p, q) in n'.channels { }
  }

  lemma JoinKeeps(w: World, n: Net, b: string, replay: map<string, seq<Msg>>)
    requires NetInv(w, n) && Enabled(w, n, Join(b, replay))
    ensures NetInv(w, AfterJoin(n, b, replay))
  {
    hide Converges, Built, GoodZid, MemberOk, Enumerates, ChannelsBuilt, Shape, AllConverge;
    var n' := AfterJoin(n, b, replay);
    JoinShape(w, n, b, replay);
    JoinChannels(w, n, b, replay);
    assert AllConverge(w, n') by { JoinConverges(w, n, b, replay); }
    forall c | c in n'.members ensures c in n'.cache && MemberOk(w, n'.used, c, n'.members[c], n'.cache[c]) {
      if c == b { NewcomerOk(w, n'.used, b); } else { MoreUsed(w, n.used, n'.used, c, n.members[c], n.cache[c]); }
    }
  }

  lemma JoinConverges(w: World, n: Net, b: string, replay: map<string, seq<Msg>>)
    requires NetInv(w, n) && Enabled(w, n, Join(b, replay))
    ensures AllConverge(w, AfterJoin(n, b, replay))
  {
    assert replay.Keys == n.members.Keys && b !in n.members;
    hide Converges, NetInv, Enabled, AfterJoin;
    var n' := AfterJoin(n, b, replay);
    forall p, q | (p, q) in n'.channels && q in n'.members
      ensures Converges(w, p, Member(n', p), w.cfgs(q), n'.channels[(p, q)], n'.members[q])
    {
      JoinPair(w, n, b, replay, p, q);
    }
  }

  lemma NewcomerOk(w: World, used: set<string>, b: string)
    ensures MemberOk(w, used, b, INIT, map[])
  {
  }

  lemma MoreUsed(w: World, used: set<string>, used': set<string>, c: string, s: State, cache: map<string, Payload>)
    requires MemberOk(w, used, c, s, cache) && used <= used'
    ensures MemberOk(w, used', c, s, cache)
  {
    hide CacheOk, GoodState, View;
    forall side, ref, ke | View(s, side, ref, ke) ensures GoodRef(w.ids, used', ref) {
      var d, r :| d in used && GoodZid(d) && ref == FullAdminKey(d, r) && SweptWithOnly(w.ids, d, ref);
      assert d in used';
    }
  }

  lemma ReplayOf(w: World, n: Net, b: string, replay: map<string, seq<Msg>>, a: string)
    requires NetInv(w, n) && Enabled(w, n, Join(b, replay)) && a in n.members
    ensures a in n.cache && Replay(w, a, n.members[a], n.cache[a], replay[a])
  {
    hide Converges, Built, GoodState, GoodRefs, CacheOk, Enumerates;
    ZidOk(w, n, a);
    assert MemberOk(w, n.used, a, n.members[a], n.cache[a]);
  }

  lemma JoinChannels(w: World, n: Net, b: string, replay: map<string, seq<Msg>>)
    requires NetInv(w, n) && Enabled(w, n, Join(b, replay))
    ensures ChannelsBuilt(w, AfterJoin(n, b, replay))
  {
    hide Converges, Built, MemberOk, Enumerates;
    var n' := AfterJoin(n, b, replay);
    forall p, q, i | (p, q) in n'.channels && 0 <= i < |n'.channels[(p, q)]| ensures Built(w, p, n'.channels[(p, q)][i]) {
      if q == b {
        ReplayOf(w, n, b, replay, p);
        ReplayBuilt(w, p, n.members[p], n.cache[p], replay[p]);
      }
    }
  }

  lemma JoinPair(w: World, n: Net, b: string, replay: map<string, seq<Msg>>, p: string, q: string)
    requires NetInv(w, n) && Enabled(w, n, Join(b, replay))
    requires var n' := AfterJoin(n, b, replay); (p, q) in n'.channels && q in n'.members
    ensures var n' := AfterJoin(n, b, replay);
            Converges(w, p, Member(n', p), w.cfgs(q), n'.channels[(p, q)], n'.members[q])
  {
    hide Converges, Built, Enumerates, Replay, GoodState, GoodRefs, CacheOk;
    var n' := AfterJoin(n, b, replay);
    if q == b {
      ReplayOf(w, n, b, replay, p);
      ConvergesJoining(w, p, n.members[p], w.cfgs(b), n.cache[p], replay[p]);
    } else if p == b {
      assert MemberOk(w, n.used, q, n.members[q], n.cache[q]);
      ConvergesToNewcomer(w, n.used, b, w.cfgs(q), n.members[q]);
    } else {
      assert Converges(w, p, Member(n, p), w.cfgs(q), n.channels[(p, q)], n.members[q]);
    }
  }

  lemma LeaveKeeps(w: World, n: Net, a: string)
    requires NetInv(w, n) && Enabled(w, n, Leave(a))
    ensures NetInv(w, AfterLeave(n, a))
  {
    LeaveChannels(w, n, a);
    LeaveMembers(w, n, a);
    hide Converges, GoodZid, MemberOk, MembersOk, Built, ChannelsBuilt, AfterLeave, Shape, Enabled;
    var n' := AfterLeave(n, a);
    forall p, q | (p, q) in n'.channels && q in n'.members
      ensures Converges(w, p, Member(n', p), w.cfgs(q), n'.channels[(p, q)], n'.members[q])
    {
      LeavePair(w, n, a, p, q);
    }
  }

  lemma LeaveMembers(w: World, n: Net, a: string)
    requires Shape(w, n) && MembersOk(w, n)
    ensures Shape(w, AfterLeave(n, a)) && MembersOk(w, AfterLeave(n, a))
  {
    hide GoodZid, MemberOk;
  }

  lemma LeavePair(w: World, n: Net, a: string, p: string, q: string)
    requires NetInv(w, n) && (p, q) in AfterLeave(n, a).channels && q in AfterLeave(n, a).members
    ensures var n' := AfterLeave(n, a); Converges(w, p, Member(n', p), w.cfgs(q), n'.channels[(p, q)], n'.members[q])
  {
    hide Converges, GoodZid, MemberOk, MembersOk, Built, ChannelsBuilt;
    assert Converges(w, p, Member(n, p), w.cfgs(q), n.channels[(p, q)], n.members[q]);
    if p == a { ConvergesLeaving(w, a, Member(n, a), w.cfgs(q), n.channels[(a, q)], n.members[q]); }
  }

  lemma LeaveChannels(w: World, n: Net, a: string)
    requires ChannelsBuilt(w, n)
    ensures ChannelsBuilt(w, AfterLeave(n, a))
  {
    hide BuiltFor;
  }

  // ---------- whole runs ----------

  const NO_BRIDGES := Net(map[], map[], map[], {})

  /** Bridges join, discover, announce, receive and leave in any order. */
  ghost predicate NetRun(w: World, nets: seq<Net>, events: seq<NetEvent>) {
    && |nets| == |events| + 1
    && nets[0] == NO_BRIDGES
    && forall i :: 0 <= i < |events| ==> NetNext(w, nets[i], events[i], nets[i + 1])
  }

  lemma NetStart(w: World, nets: seq<Net>, events: seq<NetEvent>)
    requires NetRun(w, nets, events)
    ensures |nets| == |events| + 1 && nets[0] == NO_BRIDGES
  {
    hide NetNext;
  }

  lemma NetStep(w: World, nets: seq<Net>, events: seq<NetEvent>, i: nat)
    requires NetRun(w, nets, events) && i < |events|
    ensures |nets| == |events| + 1 && NetNext(w, nets[i], events[i], nets[i + 1])
  {
    hide NetNext;
  }

  lemma StepKeepsNet(w: World, n: Net, ev: NetEvent, n': Net)
    requires NetInv(w, n) && NetNext(w, n, ev, n')
    ensures NetInv(w, n')
  {
    hide NetInv, AfterLocal, AfterDeliver, AfterJoin, AfterLeave, Enabled;
    match ev
    case Local(b, e, oracle) => LocalKeeps(w, n, b, e, oracle);
    case Deliver(a, b, oracle) => DeliverKeeps(w, n, a, b, oracle);
    case Join(b, replay) => JoinKeeps(w, n, b, replay);
    case Leave(a) => LeaveKeeps(w, n, a);
  }

  lemma {:induction false} NetRunKeeps(w: World, nets: seq<Net>, events: seq<NetEvent>, i: nat)
    requires NetRun(w, nets, events) && i < |nets|
    ensures NetInv(w, nets[i])
  {
    hide *;
    NetStart(w, nets, events);
    if i == 0 {
      NobodyInv(w);
    } else {
      NetRunKeeps(w, nets, events, i - 1);
      NetStep(w, nets, events, i - 1);
      StepKeepsNet(w, nets[i - 1], events[i - 1], nets[i]);
    }
  }

  lemma NobodyInv(w: World)
    ensures NetInv(w, NO_BRIDGES)
  {
  }

  /**
  At every moment, for any two bridges, late joiners included: what `b` still has to receive from `a`
  turns the references its routes hold on each key into exactly the entities `a` has discovered that
  ask for the key and that `b` allows.
  */
  lemma Convergence(w: World, nets: seq<Net>, events: seq<NetEvent>, i: nat, a: string, b: string, side: Side,
          e: DdsEntity, ke: string)
    requires NetRun(w, nets, events) && i < |nets|
    requires a in nets[i].members && b in nets[i].members && a != b && GoodEntity(e)
    ensures (a, b) in nets[i].channels
    ensures var ref := RefOf(a, Opposite(side), e);
            Pending(w.cfgs(b), a, nets[i].channels[(a, b)], side, ref, ke, View(nets[i].members[b], side, ref, ke)) <==>
            Wanted(w, a, nets[i].members[a], w.cfgs(b), side, ref, ke)
  {
    NetRunKeeps(w, nets, events, i);
    var n := nets[i];
    ZidOk(w, n, a);
    assert Converges(w, a, Member(n, a), w.cfgs(b), n.channels[(a, b)], n.members[b]);
    OwnerOfFullAdminKey(a, AdminRest(Opposite(side), e), a);
  }

  /** When nothing is in flight, the references are exactly those. */
  lemma QuietConvergence(w: World, nets: seq<Net>, events: seq<NetEvent>, i: nat, a: string, b: string, side: Side,
          ref: string, ke: string)
    requires NetRun(w, nets, events) && i < |nets|
    requires a in nets[i].members && b in nets[i].members && a != b && OwnedBy(a, ref)
    requires (a, b) in nets[i].channels ==> nets[i].channels[(a, b)] == []
    ensures ref in Remote(Get(nets[i].members[b], side), ke) <==> Wanted(w, a, nets[i].members[a], w.cfgs(b), side, ref, ke)
  {
    NetRunKeeps(w, nets, events, i);
    hide Wanted;
    var n := nets[i];
    assert Converges(w, a, Member(n, a), w.cfgs(b), n.channels[(a, b)], n.members[b]);
    assert View(n.members[b], side, ref, ke) <==> Wanted(w, a, n.members[a], w.cfgs(b), side, ref, ke);
  }

  /** Once a departure is handled, no route anywhere refers to the bridge that left. */
  lemma DepartureIsComplete(w: World, nets: seq<Net>, events: seq<NetEvent>, i: nat, a: string, b: string,
          side: Side, ref: string, ke: string)
    requires NetRun(w, nets, events) && i < |nets|
    requires a !in nets[i].members && b in nets[i].members && (a, b) in nets[i].channels
    requires nets[i].channels[(a, b)] == [] && OwnedBy(a, ref)
    ensures ref !in Remote(Get(nets[i].members[b], side), ke)
  {
    NetRunKeeps(w, nets, events, i);
    var n := nets[i];
    assert Converges(w, a, Member(n, a), w.cfgs(b), n.channels[(a, b)], n.members[b]);
    assert !View(n.members[b], side, ref, ke);
  }

  /**
  In every state the network can reach: a route to DDS survives the handling of a departure if and only if it has a
  remote writer of another bridge, whether or not local readers are on it, and whoever left.
  */
  lemma DepartureKeepsServedIff(w: World, nets: seq<Net>, events: seq<NetEvent>, i: nat, b: string, zid: string, ke: string)
    requires NetRun(w, nets, events) && i < |nets| && b in nets[i].members && w.ids(zid) && NoSlash(zid)
    ensures var s := nets[i].members[b];
            ke in OnLeft(s, zid).to.routes <==>
            ke in s.to.routes && exists ref :: ref in s.to.routes[ke].remote && !OwnedBy(zid, ref)
  {
    NetRunKeeps(w, nets, events, i);
    var s := nets[i].members[b];
    assert MemberOk(w, nets[i].used, b, s, nets[i].cache[b]);
    assert GoodRefs(w.ids, nets[i].used, s);
    hide *;
    SurvivesDepartureIff(s, zid, ToDds, ke);
    if ke in s.to.routes { RemotesSweptIffOwned(w.ids, nets[i].used, s, zid, ke); }
  }

  lemma RemotesSweptIffOwned(ids: Ids, used: set<string>, s: State, zid: string, ke: string)
    requires GoodRefs(ids, used, s) && ids(zid) && NoSlash(zid) && ke in s.to.routes
    ensures forall ref :: ref in s.to.routes[ke].remote ==> (Contains(ref, DepartureSubkey(zid)) <==> OwnedBy(zid, ref))
  {
    hide OwnedBy, GoodRef, Contains;
    forall ref | ref in s.to.routes[ke].remote ensures Contains(ref, DepartureSubkey(zid)) <==> OwnedBy(zid, ref) {
      assert View(s, ToDds, ref, ke);
      SweptIffOwned(ids, used, ref, zid);
    }
  }
}
