/**
What a bridge has been told by DDS discovery, as a log of events, and what it remembers of it: the entities and
participants that were discovered and not undiscovered since, each as it was discovered last.
*/
module EventLog {
  import opened Bridge
  import opened Linking
  import opened BridgeState
  import opened LocalMode

  type Log = seq<DdsEvent>

  /** The event is about the entity with this key. */
  predicate Touches(ev: DdsEvent, side: Side, key: string) {
    match ev
    case Discovered(x, e) => x == side && e.key == key
    case Undiscovered(x, k) => x == side && k == key
    case _ => false
  }

  ghost predicate StandsFrom(log: Log, j: nat, side: Side, e: DdsEntity) {
    && j < |log| && log[j] == Discovered(side, e)
    && forall l :: j < l < |log| ==> !Touches(log[l], side, e.key)
  }

  /** Discovered, and neither discovered again nor undiscovered since. */
  ghost predicate Stands(log: Log, side: Side, e: DdsEntity) {
    exists j: nat :: StandsFrom(log, j, side, e)
  }

  predicate TouchesParticipant(ev: DdsEvent, key: string) {
    match ev
    case DiscoveredParticipant(p) => p.key == key
    case UndiscoveredParticipant(k) => k == key
    case _ => false
  }

  ghost predicate ParticipantFrom(log: Log, j: nat, p: DdsParticipant) {
    && j < |log| && log[j] == DiscoveredParticipant(p)
    && forall l :: j < l < |log| ==> !TouchesParticipant(log[l], p.key)
  }

  ghost predicate ParticipantStands(log: Log, p: DdsParticipant) {
    exists j: nat :: ParticipantFrom(log, j, p)
  }

  /** The entities stored are those that stand, with all that was discovered of them. */
  ghost predicate RemembersEntities(log: Log, h: Half, side: Side) {
    && (forall e :: Stands(log, side, e) ==> e.key in h.entities && h.entities[e.key].SameContent(e))
    && (forall k :: k in h.entities ==> exists e :: Stands(log, side, e) && e.key == k)
  }

  ghost predicate RemembersParticipants(log: Log, participants: map<string, DdsParticipant>) {
    && (forall p :: ParticipantStands(log, p) ==> p.key in participants && participants[p.key] == p)
    && (forall k :: k in participants ==> exists p :: ParticipantStands(log, p) && p.key == k)
  }

  ghost predicate Remembers(log: Log, s: State) {
    RemembersEntities(log, s.from, FromDds) && RemembersEntities(log, s.to, ToDds) && RemembersParticipants(log, s.participants)
  }

  // ---------- one more event ----------

  lemma StandsNext(log: Log, ev: DdsEvent, side: Side, e: DdsEntity)
    ensures Stands(log + [ev], side, e) <==> ev == Discovered(side, e) || (Stands(log, side, e) && !Touches(ev, side, e.key))
  {
    var log' := log + [ev];
    if j: nat :| StandsFrom(log', j, side, e) {
      if j < |log| {
        assert log'[|log|] == ev;
        assert forall l :: j <= l < |log| ==> log[l] == log'[l];
        assert StandsFrom(log, j, side, e);
      }
    }
    if ev == Discovered(side, e) {
      assert StandsFrom(log', |log|, side, e);
    } else if Stands(log, side, e) && !Touches(ev, side, e.key) {
      var j: nat :| StandsFrom(log, j, side, e);
      assert StandsFrom(log', j, side, e);
    }
  }

  lemma ParticipantNext(log: Log, ev: DdsEvent, p: DdsParticipant)
    ensures ParticipantStands(log + [ev], p) <==>
            ev == DiscoveredParticipant(p) || (ParticipantStands(log, p) && !TouchesParticipant(ev, p.key))
  {
    var log' := log + [ev];
    if j: nat :| ParticipantFrom(log', j, p) {
      if j < |log| {
        assert log'[|log|] == ev;
        assert forall l :: j <= l < |log| ==> log[l] == log'[l];
        assert ParticipantFrom(log, j, p);
      }
    }
    if ev == DiscoveredParticipant(p) {
      assert ParticipantFrom(log', |log|, p);
    } else if ParticipantStands(log, p) && !TouchesParticipant(ev, p.key) {
      var j: nat :| ParticipantFrom(log, j, p);
      assert ParticipantFrom(log', j, p);
    }
  }

  /** What an event does to the entities of one side. */
  ghost predicate SideAfter(h: Half, h': Half, side: Side, ev: DdsEvent) {
    match ev
    case Discovered(x, e) =>
      if x == side then
        e.key in h'.entities && h'.entities[e.key].SameContent(e) && h'.entities == h.entities[e.key := h'.entities[e.key]]
      else h'.entities == h.entities
    case Undiscovered(x, key) => h'.entities == if x == side then h.entities - {key} else h.entities
    case _ => h'.entities == h.entities
  }

  ghost predicate ParticipantsAfter(s: State, s': State, ev: DdsEvent) {
    match ev
    case DiscoveredParticipant(p) => s'.participants == s.participants[p.key := p]
    case UndiscoveredParticipant(key) => s'.participants == s.participants - {key}
    case _ => s'.participants == s.participants
  }

  /** What local discovery does to what is discovered. */
  ghost predicate EntitiesAfter(s: State, s': State, ev: DdsEvent) {
    SideAfter(s.from, s'.from, FromDds, ev) && SideAfter(s.to, s'.to, ToDds, ev) && ParticipantsAfter(s, s', ev)
  }

  lemma SideRemembers(log: Log, h: Half, h': Half, side: Side, ev: DdsEvent)
    requires RemembersEntities(log, h, side) && SideAfter(h, h', side, ev)
    ensures RemembersEntities(log + [ev], h', side)
  {
    hide Stands, SideAfter;
    forall e | Stands(log + [ev], side, e) ensures e.key in h'.entities && h'.entities[e.key].SameContent(e) {
      StandingIsStored(log, h, h', side, ev, e);
    }
    forall k | k in h'.entities ensures exists e :: Stands(log + [ev], side, e) && e.key == k {
      StoredStands(log, h, h', side, ev, k);
    }
  }

  lemma StandingIsStored(log: Log, h: Half, h': Half, side: Side, ev: DdsEvent, e: DdsEntity)
    requires RemembersEntities(log, h, side) && SideAfter(h, h', side, ev) && Stands(log + [ev], side, e)
    ensures e.key in h'.entities && h'.entities[e.key].SameContent(e)
  {
    StandsNext(log, ev, side, e);
    hide Stands;
  }

  lemma StoredStands(log: Log, h: Half, h': Half, side: Side, ev: DdsEvent, k: string)
    requires RemembersEntities(log, h, side) && SideAfter(h, h', side, ev) && k in h'.entities
    ensures exists e :: Stands(log + [ev], side, e) && e.key == k
  {
    hide Stands;
    if Touches(ev, side, k) {
      StandsNext(log, ev, side, ev.e);
    } else {
      var e :| Stands(log, side, e) && e.key == k;
      StandsNext(log, ev, side, e);
    }
  }

  lemma ParticipantsRemembered(log: Log, s: State, s': State, ev: DdsEvent)
    requires RemembersParticipants(log, s.participants) && ParticipantsAfter(s, s', ev)
    ensures RemembersParticipants(log + [ev], s'.participants)
  {
    hide ParticipantStands;
    forall p
      ensures ParticipantStands(log + [ev], p) <==>
              ev == DiscoveredParticipant(p) || (ParticipantStands(log, p) && !TouchesParticipant(ev, p.key))
    {
      ParticipantNext(log, ev, p);
    }
    forall k | k in s'.participants ensures exists p :: ParticipantStands(log + [ev], p) && p.key == k {
      if TouchesParticipant(ev, k) {
        assert ParticipantStands(log + [ev], ev.p);
      } else {
        var p :| ParticipantStands(log, p) && p.key == k;
        assert ParticipantStands(log + [ev], p);
      }
    }
  }

  lemma RemembersNext(log: Log, s: State, s': State, ev: DdsEvent)
    requires Remembers(log, s) && EntitiesAfter(s, s', ev)
    ensures Remembers(log + [ev], s')
  {
    hide RemembersEntities, RemembersParticipants, SideAfter, ParticipantsAfter;
    SideRemembers(log, s.from, s'.from, FromDds, ev);
    SideRemembers(log, s.to, s'.to, ToDds, ev);
    ParticipantsRemembered(log, s, s', ev);
  }

  /** Whatever else happens changes route statuses at most. */
  lemma RemembersSame(log: Log, s: State, s': State)
    requires Remembers(log, s) && s'.participants == s.participants
    requires SameEntities(s.from.entities, s'.from.entities) && SameEntities(s.to.entities, s'.to.entities)
    ensures Remembers(log, s')
  {
    hide Stands, ParticipantStands;
  }

  lemma RemembersNothing()
    ensures Remembers([], INIT)
  {
  }
}
