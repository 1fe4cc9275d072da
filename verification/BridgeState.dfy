/**
The whole state of a bridge: both directions, the participants, the admin-space index and the ROS graph
information it publishes. The index is proved to agree with what is stored.
*/
module BridgeState {
  import opened Wrappers
  import opened KeyExprs
  import opened BridgeKeys
  import opened Bridge
  import opened Linking

  datatype Side = FromDds | ToDds

  datatype DdsParticipant = DdsParticipant(key: string)

  datatype AdminRef =
    | ParticipantRef(key: string)
    | EntityRef(side: Side, key: string)
    | RouteRef(side: Side, ke: string)
    | ConfigRef
    | VersionRef

  /** A node of the ROS graph with the gids of its readers and writers. */
  datatype Node = Node(namespace: string, name: string, readers: seq<string>, writers: seq<string>)

  datatype State = State(
    participants: map<string, DdsParticipant>, from: Half, to: Half, admin: map<string, AdminRef>, info: map<string, Node>)

  function Get(s: State, side: Side): Half {
    match side case FromDds => s.from case ToDds => s.to
  }

  function Put(s: State, side: Side, h: Half): State {
    match side case FromDds => s.(from := h) case ToDds => s.(to := h)
  }

  const EMPTY_HALF := Half(map[], map[], map[], map[])

  const INIT := State(map[], EMPTY_HALF, EMPTY_HALF, map["config" := ConfigRef, "version" := VersionRef], map[])

  // ---------- the admin space ----------

  /** What `get_admin_value` finds under a reference. */
  datatype AdminValue = ParticipantValue(p: DdsParticipant) | EntityValue(e: DdsEntity)
    | RouteValue(r: Route) | ConfigValue | VersionValue

  function GetAdminValue(s: State, ref: AdminRef): Option<AdminValue> {
    match ref
    case ParticipantRef(k) => if k in s.participants then Some(ParticipantValue(s.participants[k])) else None
    case EntityRef(side, k) => if k in Get(s, side).entities then Some(EntityValue(Get(s, side).entities[k])) else None
    case RouteRef(side, ke) => if ke in Get(s, side).routes then Some(RouteValue(Get(s, side).routes[ke])) else None
    case ConfigRef => Some(ConfigValue)
    case VersionRef => Some(VersionValue)
  }

  predicate Resolves(s: State, ref: AdminRef) {
    GetAdminValue(s, ref).Some?
  }

  function EntityIdOf(side: Side, e: DdsEntity): AdminId {
    EntityId(e.participantKey, side.FromDds?, e.key, e.topic)
  }

  function IdOf(s: State, ref: AdminRef): AdminId
    requires Resolves(s, ref)
  {
    match ref
    case ParticipantRef(k) => ParticipantId(s.participants[k].key)
    case EntityRef(side, k) => EntityIdOf(side, Get(s, side).entities[k])
    case RouteRef(side, ke) => RouteId(side.FromDds?, ke)
    case ConfigRef => ConfigId
    case VersionRef => VersionId
  }

  predicate GoodEntity(e: DdsEntity) {
    NoSlash(e.key) && NoSlash(e.participantKey)
  }

  /** Maps are indexed by the DDS keys, which are slash-free. */
  ghost predicate WellKeyed(s: State) {
    && (forall k :: k in s.participants ==> s.participants[k].key == k && NoSlash(k))
    && (forall k :: k in s.from.entities ==> s.from.entities[k].key == k && GoodEntity(s.from.entities[k]))
    && (forall k :: k in s.to.entities ==> s.to.entities[k].key == k && GoodEntity(s.to.entities[k]))
  }

  ghost predicate Indexed(s: State, ref: AdminRef)
    requires Resolves(s, ref)
  {
    var ak := AdminKey(IdOf(s, ref));
    ak in s.admin && s.admin[ak] == ref
  }

  /** Everything stored is under its own admin key, and every admin key leads to something stored under it. */
  ghost predicate AdminAgrees(s: State) {
    && (forall ref :: Resolves(s, ref) ==> Indexed(s, ref))
    && (forall ak :: ak in s.admin ==> Resolves(s, s.admin[ak]) && AdminKey(IdOf(s, s.admin[ak])) == ak)
  }

  lemma IdsDistinct(s: State, a: AdminRef, b: AdminRef)
    requires WellKeyed(s) && Resolves(s, a) && Resolves(s, b)
    requires AdminKey(IdOf(s, a)) == AdminKey(IdOf(s, b))
    ensures a == b
  {
    AdminKeyInjective(IdOf(s, a), IdOf(s, b));
  }

  /** One reference appears: adding it under its key keeps the agreement. */
  lemma AdminInsert(s: State, s': State, ref: AdminRef)
    requires AdminAgrees(s) && WellKeyed(s')
    requires Resolves(s', ref) && s'.admin == s.admin[AdminKey(IdOf(s', ref)) := ref]
    requires forall r :: r != ref ==> (Resolves(s, r) <==> Resolves(s', r))
    requires forall r :: Resolves(s, r) ==> Resolves(s', r) && IdOf(s, r) == IdOf(s', r)
    ensures AdminAgrees(s')
  {
    hide GetAdminValue, IdOf, AdminKey, WellKeyed;
    var ak := AdminKey(IdOf(s', ref));
    forall r | Resolves(s', r) ensures Indexed(s', r) {
      if r != ref {
        assert Resolves(s, r) && Indexed(s, r);
        if AdminKey(IdOf(s', r)) == ak { IdsDistinct(s', r, ref); }
      }
    }
  }

  /** One reference disappears: removing its key keeps the agreement. */
  lemma AdminRemove(s: State, s': State, ref: AdminRef)
    requires AdminAgrees(s) && WellKeyed(s)
    requires Resolves(s, ref) && s'.admin == s.admin - {AdminKey(IdOf(s, ref))}
    requires forall r :: Resolves(s', r) <==> Resolves(s, r) && r != ref
    requires forall r :: Resolves(s', r) ==> IdOf(s, r) == IdOf(s', r)
    ensures AdminAgrees(s')
  {
    hide GetAdminValue, IdOf, AdminKey, WellKeyed;
    assert Indexed(s, ref);
    forall r | Resolves(s', r) ensures Indexed(s', r) {
      assert Resolves(s, r) && Indexed(s, r);
      if AdminKey(IdOf(s, r)) == AdminKey(IdOf(s, ref)) { IdsDistinct(s, r, ref); }
    }
  }

  /** Reading the admin space under the key of anything stored gives just that. */
  lemma AdminReadsBack(s: State, side: Side, k: string)
    requires Agreed(s)
    ensures k in s.participants ==> var ak := AdminKey(ParticipantId(k));
              ak in s.admin && GetAdminValue(s, s.admin[ak]) == Some(ParticipantValue(s.participants[k]))
    ensures k in Get(s, side).entities ==> var e := Get(s, side).entities[k];
              var ak := AdminKey(EntityId(e.participantKey, side.FromDds?, k, e.topic));
              ak in s.admin && GetAdminValue(s, s.admin[ak]) == Some(EntityValue(e))
    ensures k in Get(s, side).routes ==> var ak := AdminKey(RouteId(side.FromDds?, k));
              ak in s.admin && GetAdminValue(s, s.admin[ak]) == Some(RouteValue(Get(s, side).routes[k]))
  {
    hide AdminKey;
    if k in s.participants { assert Resolves(s, ParticipantRef(k)) && Indexed(s, ParticipantRef(k)); }
    if k in Get(s, side).entities { assert Resolves(s, EntityRef(side, k)) && Indexed(s, EntityRef(side, k)); }
    if k in Get(s, side).routes { assert Resolves(s, RouteRef(side, k)) && Indexed(s, RouteRef(side, k)); }
  }

  // ---------- storing and forgetting ----------

  /** `insert_dds_participant` */
  function StoreParticipant(s: State, p: DdsParticipant): State {
    s.(participants := s.participants[p.key := p], admin := s.admin[AdminKey(ParticipantId(p.key)) := ParticipantRef(p.key)])
  }

  /** `remove_dds_participant` */
  function ForgetParticipant(s: State, key: string): State {
    if key in s.participants then
      s.(participants := s.participants - {key}, admin := s.admin - {AdminKey(ParticipantId(s.participants[key].key))})
    else s
  }

  /** `insert_dds_writer` and `insert_dds_reader` */
  function Store(s: State, side: Side, e: DdsEntity): State {
    var h := Get(s, side);
    Put(s, side, h.(entities := h.entities[e.key := e]))
      .(admin := s.admin[AdminKey(EntityIdOf(side, e)) := EntityRef(side, e.key)])
  }

  /** `remove_dds_writer` and `remove_dds_reader` */
  function Forget(s: State, side: Side, key: string): State
    requires key in Get(s, side).entities
  {
    var h := Get(s, side);
    Put(s, side, h.(entities := h.entities - {key})).(admin := s.admin - {AdminKey(EntityIdOf(side, h.entities[key]))})
  }

  function RouteKey(side: Side, ke: string): string {
    AdminKey(RouteId(side.FromDds?, ke))
  }

  /** The text a route key has in front of the key expression. */
  function RoutePrefix(side: Side): string {
    RouteKey(side, "")
  }

  lemma RouteKeyParts(side: Side, ke: string)
    ensures RouteKey(side, ke) == RoutePrefix(side) + ke && RouteKey(side, ke)[|RoutePrefix(side)|..] == ke
  {
    assert Path(Direction(side.FromDds?), ke) == Path(Direction(side.FromDds?), "") + ke;
  }

  function RouteKeys(side: Side, kes: set<string>): (keys: set<string>)
    ensures forall ak :: ak in keys ==> RoutePrefix(side) <= ak
  {
    assert forall ke :: RoutePrefix(side) <= RouteKey(side, ke) by {
      forall ke ensures RoutePrefix(side) <= RouteKey(side, ke) { RouteKeyParts(side, ke); }
    }
    set ke | ke in kes :: RouteKey(side, ke)
  }

  /** The index follows the routes: each comes and goes with its own admin key. */
  function Reindex(side: Side, admin: map<string, AdminRef>, before: set<string>,
          after: set<string>): map<string, AdminRef> {
    var gone, added := RouteKeys(side, before - after), RouteKeys(side, after - before);
    map ak | ak in (admin.Keys - gone) + added ::
      if ak in added then RouteRef(side, ak[|RoutePrefix(side)|..]) else admin[ak]
  }

  lemma Reindexed(side: Side, admin: map<string, AdminRef>, before: set<string>, after: set<string>)
    ensures var r, gone := Reindex(side, admin, before, after), RouteKeys(side, before - after);
            var added := RouteKeys(side, after - before);
            && r.Keys == (admin.Keys - gone) + added
            && (forall ke :: ke in after - before ==> RouteKey(side, ke) in r && r[RouteKey(side, ke)] == RouteRef(side, ke))
            && (forall ak :: ak in r && ak !in added ==> r[ak] == admin[ak])
  {
    hide RouteKey, RoutePrefix;
    forall ke | ke in after - before
      ensures RouteKey(side, ke) in RouteKeys(side, after - before)
      ensures RouteKey(side, ke)[|RoutePrefix(side)|..] == ke
    {
      RouteKeyParts(side, ke);
    }
  }

  /** Replaces the routes of one side, and the index with them. */
  function WithHalf(s: State, side: Side, h: Half): State {
    Put(s, side, h).(admin := Reindex(side, s.admin, Get(s, side).routes.Keys, h.routes.Keys))
  }

  // ---------- agreement is kept ----------

  ghost predicate Agreed(s: State) {
    WellKeyed(s) && AdminAgrees(s)
  }

  lemma StoreParticipantAgrees(s: State, p: DdsParticipant)
    requires Agreed(s) && NoSlash(p.key)
    ensures Agreed(StoreParticipant(s, p))
  {
    hide AdminKey, AdminAgrees, NoSlash;
    var s' := StoreParticipant(s, p);
    assert WellKeyed(s');
    hide WellKeyed;
    AdminInsert(s, s', ParticipantRef(p.key));
  }

  lemma ForgetParticipantAgrees(s: State, key: string)
    requires Agreed(s)
    ensures Agreed(ForgetParticipant(s, key))
  {
    hide AdminKey;
    if key in s.participants {
      AdminRemove(s, ForgetParticipant(s, key), ParticipantRef(key));
    }
  }

  /** A key may be discovered again while it is stored, but only as the same entity. */
  ghost predicate MayStore(h: Half, e: DdsEntity) {
    GoodEntity(e) && (e.key in h.entities ==> h.entities[e.key].SameIdentity(e))
  }

  lemma StoreAgrees(s: State, side: Side, e: DdsEntity)
    requires Agreed(s) && MayStore(Get(s, side), e)
    ensures Agreed(Store(s, side, e))
  {
    hide AdminKey, AdminAgrees, NoSlash;
    var s', ref := Store(s, side, e), EntityRef(side, e.key);
    StoredResolves(s, side, e);
    assert WellKeyed(s');
    hide WellKeyed, Resolves, GoodEntity;
    AdminInsert(s, s', ref);
  }

  /** The stored entity is the only one to resolve anew, and none is found under another key. */
  lemma StoredResolves(s: State, side: Side, e: DdsEntity)
    requires MayStore(Get(s, side), e)
    ensures var s', ref := Store(s, side, e), EntityRef(side, e.key);
            && Resolves(s', ref) && IdOf(s', ref) == EntityIdOf(side, e)
            && (forall r :: r != ref ==> (Resolves(s, r) <==> Resolves(s', r)))
            && (Agreed(s) ==> forall r :: Resolves(s, r) ==> Resolves(s', r) && IdOf(s, r) == IdOf(s', r))
  {
    hide AdminKey, AdminAgrees, NoSlash;
  }

  lemma ForgetAgrees(s: State, side: Side, key: string)
    requires Agreed(s) && key in Get(s, side).entities
    ensures Agreed(Forget(s, side, key))
  {
    hide AdminKey, AdminAgrees, NoSlash;
    var s' := Forget(s, side, key);
    assert WellKeyed(s');
    hide WellKeyed;
    AdminRemove(s, Forget(s, side, key), EntityRef(side, key));
  }

  lemma WithHalfAgrees(s: State, side: Side, h: Half)
    requires Agreed(s) && SameEntities(Get(s, side).entities, h.entities)
    ensures Agreed(WithHalf(s, side, h))
  {
    var s' := WithHalf(s, side, h);
    SameKeysStayWell(s, side, h);
    hide WithHalf, WellKeyed, GetAdminValue, IdOf, AdminKey, SameEntities, Get;
    forall r | Resolves(s', r) ensures Indexed(s', r) { ReindexedStays(s, side, h, r); }
    forall ak | ak in s'.admin ensures Resolves(s', s'.admin[ak]) && AdminKey(IdOf(s', s'.admin[ak])) == ak {
      ReindexedResolves(s, side, h, ak);
    }
  }

  lemma SameKeysStayWell(s: State, side: Side, h: Half)
    requires WellKeyed(s) && SameEntities(Get(s, side).entities, h.entities)
    ensures WellKeyed(WithHalf(s, side, h))
  {
    hide Reindex, NoSlash;
  }

  lemma ReindexedStays(s: State, side: Side, h: Half, r: AdminRef)
    requires Agreed(s) && SameEntities(Get(s, side).entities, h.entities)
    requires Resolves(WithHalf(s, side, h), r)
    ensures Indexed(WithHalf(s, side, h), r)
  {
    hide AdminKey, RouteKeys, Reindex;
    var s', before, after := WithHalf(s, side, h), Get(s, side).routes.Keys, h.routes.Keys;
    Reindexed(side, s.admin, before, after);
    if r.RouteRef? && r.side == side && r.ke !in before {
      assert r.ke in after - before;
    } else {
      assert Resolves(s, r) && IdOf(s, r) == IdOf(s', r);
      assert Indexed(s, r);
      NotAnEntry(s, r, side, before - after);
      NotAnEntry(s, r, side, after - before);
    }
  }

  lemma ReindexedResolves(s: State, side: Side, h: Half, ak: string)
    requires Agreed(s) && SameEntities(Get(s, side).entities, h.entities)
    requires ak in WithHalf(s, side, h).admin
    ensures var s' := WithHalf(s, side, h);
            Resolves(s', s'.admin[ak]) && AdminKey(IdOf(s', s'.admin[ak])) == ak
  {
    hide AdminKey, Reindex;
    var before, after := Get(s, side).routes.Keys, h.routes.Keys;
    if ak in RouteKeys(side, after - before) {
      var ke :| ke in after - before && ak == RouteKey(side, ke);
      Reindexed(side, s.admin, before, after);
    } else {
      OldEntryResolves(s, side, h, ak);
    }
  }

  lemma OldEntryResolves(s: State, side: Side, h: Half, ak: string)
    requires Agreed(s) && SameEntities(Get(s, side).entities, h.entities)
    requires ak in WithHalf(s, side, h).admin && ak !in RouteKeys(side, h.routes.Keys - Get(s, side).routes.Keys)
    ensures var s' := WithHalf(s, side, h);
            Resolves(s', s'.admin[ak]) && AdminKey(IdOf(s', s'.admin[ak])) == ak
  {
    hide AdminKey, Reindex;
    var before, after := Get(s, side).routes.Keys, h.routes.Keys;
    Reindexed(side, s.admin, before, after);
    var r := s.admin[ak];
    assert Resolves(s, r) && AdminKey(IdOf(s, r)) == ak;
    if r.RouteRef? && r.side == side {
      assert r.ke in before && RouteKey(side, r.ke) == ak;
      assert r.ke in after;
    }
  }

  /** The key of anything but one of these routes is not among their keys. */
  lemma NotAnEntry(s: State, r: AdminRef, side: Side, kes: set<string>)
    requires WellKeyed(s) && Resolves(s, r)
    requires !(r.RouteRef? && r.side == side && r.ke in kes)
    ensures AdminKey(IdOf(s, r)) !in RouteKeys(side, kes)
  {
    if AdminKey(IdOf(s, r)) in RouteKeys(side, kes) {
      var ke :| ke in kes && RouteKey(side, ke) == AdminKey(IdOf(s, r));
      AdminKeyInjective(IdOf(s, r), RouteId(side.FromDds?, ke));
    }
  }
}
