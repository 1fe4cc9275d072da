/**
What a bridge has sent over a run of the network. It is a history in the sense of compaction, the cache of the
bridge holds its last message under each key, and so the replay a newcomer gets is a compaction of it.
*/
module Histories {
  import opened KeyExprs
  import opened Bridge
  import opened BridgeState
  import opened LocalMode
  import opened EventLog
  import opened ForwardMode
  import opened Announcements
  import opened Network
  import opened Compaction

  /** What the step took from `n` to `n'` made bridge `a` send. */
  ghost function SentBy(w: World, a: string, n: Net, ev: NetEvent, n': Net): seq<Msg> {
    if ev.Local? && ev.b == a && a in n.members && a in n'.members then Sent(w, a, n.members[a], n'.members[a], ev.ev) else []
  }

  /** All that `a` has sent up to state `i`. */
  ghost function SentSoFar(w: World, nets: seq<Net>, events: seq<NetEvent>, i: nat, a: string): seq<Msg>
    requires |nets| == |events| + 1 && i < |nets|
  {
    if i == 0 then [] else SentSoFar(w, nets, events, i - 1, a) + SentBy(w, a, nets[i - 1], events[i - 1], nets[i])
  }

  ghost predicate LastAt(h: seq<Msg>, i: int, key: string) {
    LastUnderKey(h, i) && h[i].ke == key
  }

  /** The cache has the last message under each key, and nothing else. */
  ghost predicate CachesLast(h: seq<Msg>, cache: map<string, Payload>) {
    && (forall i, key :: LastAt(h, i, key) ==> key in cache && cache[key] == h[i].payload)
    && (forall key :: key in cache ==> exists i :: LastAt(h, i, key))
  }

  // ---------- one more message ----------

  lemma LastAfterAppend(h: seq<Msg>, m: Msg, i: int)
    requires m.Disco?
    ensures LastUnderKey(h + [m], i) <==> i == |h| || (LastUnderKey(h, i) && h[i].ke != m.ke)
  {
    var g := h + [m];
    if LastUnderKey(g, i) && i < |h| {
      forall j | i < j < |h| && h[j].Disco? ensures h[j].ke != h[i].ke { assert g[j] == h[j]; }
      assert g[|h|] == m;
    }
    if LastUnderKey(h, i) && h[i].ke != m.ke {
      forall j | i < j < |g| && g[j].Disco? ensures g[j].ke != g[i].ke { }
    }
  }

  lemma CacheAfterAppend(h: seq<Msg>, cache: map<string, Payload>, m: Msg)
    requires CachesLast(h, cache) && m.Disco?
    ensures CachesLast(h + [m], cache[m.ke := m.payload])
  {
    var g, cache' := h + [m], cache[m.ke := m.payload];
    forall i, key | LastAt(g, i, key) ensures key in cache' && cache'[key] == g[i].payload {
      LastAfterAppend(h, m, i);
      if i < |h| { assert LastAt(h, i, key); }
    }
    forall key | key in cache' ensures exists i :: LastAt(g, i, key) {
      if key == m.ke {
        LastAfterAppend(h, m, |h|);
        assert LastAt(g, |h|, key);
      } else {
        var i :| LastAt(h, i, key);
        LastAfterAppend(h, m, i);
        assert LastAt(g, i, key);
      }
    }
  }

  /** The last announcement before the new one under its key is of the same entity. */
  ghost predicate Continues(h: seq<Msg>, m: Msg) {
    m.Disco? && m.payload.Announce? ==>
      forall i :: LastAt(h, i, m.ke) && h[i].payload.Announce? ==> h[i].payload.e.SameIdentity(m.payload.e)
  }

  lemma StableAfterAppend(h: seq<Msg>, m: Msg)
    requires Stable(h) && Continues(h, m)
    ensures Stable(h + [m])
  {
    var g := h + [m];
    forall i, j | 0 <= i < j < |g| && AnnouncedAgain(g, i, j) ensures g[i].payload.e.SameIdentity(g[j].payload.e) {
      if j < |h| {
        AgainBefore(h, m, i, j);
      } else {
        AgainAtEnd(h, m, i);
      }
    }
  }

  lemma AgainBefore(h: seq<Msg>, m: Msg, i: nat, j: nat)
    requires i < j < |h| && AnnouncedAgain(h + [m], i, j)
    ensures AnnouncedAgain(h, i, j)
  {
    var g := h + [m];
    forall l | i < l < j && h[l].Disco? && h[l].ke == h[i].ke ensures h[l].payload.Announce? { assert g[l] == h[l]; }
  }

  /** By way of the last announcement before the new one. */
  lemma AgainAtEnd(h: seq<Msg>, m: Msg, i: nat)
    requires Stable(h) && Continues(h, m) && i < |h| && AnnouncedAgain(h + [m], i, |h|)
    ensures h[i].payload.e.SameIdentity(m.payload.e)
  {
    var g := h + [m];
    assert g[i] == h[i] && g[|h|] == m;
    assert forall l :: i < l < |h| ==> g[l] == h[l];
    var l := LastFrom(h, i);
    if i < l {
      assert AnnouncedAgain(h, i, l) by {
        forall k | i < k < l && h[k].Disco? && h[k].ke == h[i].ke ensures h[k].payload.Announce? { assert g[k] == h[k]; }
      }
    }
  }

  /** The last message under the key of message `i`. */
  lemma LastFrom(h: seq<Msg>, i: nat) returns (l: nat)
    requires i < |h| && h[i].Disco?
    ensures i <= l < |h| && LastAt(h, l, h[i].ke)
    decreases |h| - i
  {
    if j :| i < j < |h| && h[j].Disco? && h[j].ke == h[i].ke {
      l := LastFrom(h, j);
    } else {
      l := i;
    }
  }

  // ---------- what local discovery sends ----------

  lemma SentContinues(w: World, b: string, s: State, s': State, ev: DdsEvent, h: seq<Msg>, cache: map<string, Payload>)
    requires EntitiesAfter(s, s', ev) && EventOk(s, ev) && EventPlain(w, ev) && GoodState(w, s) && NoSlash(b)
    requires CacheOk(w, b, s, cache) && CachesLast(h, cache) && Sent(w, b, s, s', ev) != []
    ensures Continues(h, Sent(w, b, s, s', ev)[0])
  {
    var m := Sent(w, b, s, s', ev)[0];
    if ev.Discovered? {
      forall i | LastAt(h, i, m.ke) && h[i].payload.Announce? ensures h[i].payload.e.SameIdentity(m.payload.e) {
        AnnouncedBefore(w, b, s, s', ev.side, ev.e, cache);
      }
    }
  }

  /** What the cache announces under the key of a discovered entity is that entity. */
  lemma AnnouncedBefore(w: World, b: string, s: State, s': State, x: Side, e: DdsEntity, cache: map<string, Payload>)
    requires EntitiesAfter(s, s', Discovered(x, e)) && EventOk(s, Discovered(x, e)) && Plain(w, x, e) && NoSlash(b)
    requires EntriesExplained(w, b, s, cache) && MsgKey(w, b, x, e) in cache && cache[MsgKey(w, b, x, e)].Announce?
    ensures cache[MsgKey(w, b, x, e)].e.SameIdentity(Get(s', x).entities[e.key])
  {
    hide MsgKey, Plain;
    var key := MsgKey(w, b, x, e);
    var y, f :| CacheEntry(w, b, s, Disco(key, cache[key]), y, f);
    MsgKeyInjective(w, b, y, f, x, e);
  }

  lemma SentStep(w: World, b: string, s: State, s': State, ev: DdsEvent, h: seq<Msg>, cache: map<string, Payload>)
    requires EntitiesAfter(s, s', ev) && EventOk(s, ev) && EventPlain(w, ev) && GoodState(w, s) && NoSlash(b)
    requires CacheOk(w, b, s, cache) && History(w, b, h) && CachesLast(h, cache)
    ensures var ms := Sent(w, b, s, s', ev); History(w, b, h + ms) && CachesLast(h + ms, Remember(cache, ms))
  {
    var ms := Sent(w, b, s, s', ev);
    SentBuilt(w, b, s, s', ev);
    AtMostOneSent(w, b, s, s', ev, cache);
    if ms == [] {
      assert h + ms == h;
    } else {
      SentContinues(w, b, s, s', ev, h, cache);
      hide *;
      HistoryAfterAppend(w, b, h, ms[0]);
      CacheAfterAppend(h, cache, ms[0]);
    }
  }

  lemma AtMostOneSent(w: World, b: string, s: State, s': State, ev: DdsEvent, cache: map<string, Payload>)
    ensures var ms := Sent(w, b, s, s', ev);
            if ms == [] then Remember(cache, ms) == cache
            else ms == [ms[0]] && ms[0].Disco? && Remember(cache, ms) == cache[ms[0].ke := ms[0].payload]
  {
    hide MsgKey;
  }

  lemma HistoryAfterAppend(w: World, b: string, h: seq<Msg>, m: Msg)
    requires History(w, b, h) && m.Disco? && Built(w, b, m) && Continues(h, m)
    ensures History(w, b, h + [m])
  {
    StableAfterAppend(h, m);
    hide Built, Stable, Continues;
  }

  // ---------- over whole runs ----------

  ghost predicate Recorded(w: World, n: Net, a: string, h: seq<Msg>) {
    && (a in n.members ==> a in n.cache && History(w, a, h) && CachesLast(h, n.cache[a]))
    && (a !in n.used ==> h == [])
  }

  lemma RecordedStep(w: World, n: Net, ev: NetEvent, n': Net, a: string, h: seq<Msg>)
    requires NetInv(w, n) && NetNext(w, n, ev, n') && Recorded(w, n, a, h)
    ensures Recorded(w, n', a, h + SentBy(w, a, n, ev, n'))
  {
    assert h + [] == h;
    if ev.Local? && ev.b == a {
      LocalRecorded(w, n, a, ev.ev, ev.oracle, h);
    } else {
      OthersRecorded(w, n, ev, n', a, h);
    }
  }

  /** A bridge records nothing but its own local discoveries. */
  lemma OthersRecorded(w: World, n: Net, ev: NetEvent, n': Net, a: string, h: seq<Msg>)
    requires NetInv(w, n) && NetNext(w, n, ev, n') && Recorded(w, n, a, h) && !(ev.Local? && ev.b == a)
    ensures Recorded(w, n', a, h)
  {
    hide FwdDds, Handle, Succeeds, EventOk, EventPlain, History, ChannelsBuilt, MembersOk, AllConverge, Sent, Remember, GoodZid;
    if ev.Join? && ev.b == a { NothingRecorded(w, a); }
    hide CachesLast;
    assert a in n'.members && !(ev.Join? && ev.b == a) ==>
      a in n.members && a in n.cache && a in n'.cache && n'.cache[a] == n.cache[a];
  }

  lemma NothingRecorded(w: World, a: string)
    ensures History(w, a, []) && CachesLast([], map[])
  {
  }

  lemma LocalRecorded(w: World, n: Net, a: string, ev: DdsEvent, oracle: Oracle, h: seq<Msg>)
    requires NetInv(w, n) && Enabled(w, n, Local(a, ev, oracle)) && Recorded(w, n, a, h)
    ensures var n' := AfterLocal(w, n, a, ev, oracle); Recorded(w, n', a, h + SentBy(w, a, n, Local(a, ev, oracle), n'))
  {
    var s := n.members[a];
    ZidOk(w, n, a);
    assert MemberOk(w, n.used, a, s, n.cache[a]);
    DdsEntities(w.cfgs(a), s, ev, oracle);
    hide History, CachesLast, FwdDds, EventOk, EventPlain, GoodState, CacheOk, Sent, Remember, GoodRefs;
    SentStep(w, a, s, FwdDds(w.cfgs(a), s, ev, true, oracle), ev, h, n.cache[a]);
  }

  /** At every moment, what a bridge has sent is a history, and its cache is what is left of it after compaction. */
  lemma {:induction false} SentIsHistory(w: World, nets: seq<Net>, events: seq<NetEvent>, i: nat, a: string)
    requires NetRun(w, nets, events) && i < |nets|
    ensures Recorded(w, nets[i], a, SentSoFar(w, nets, events, i, a))
  {
    hide *;
    NetStart(w, nets, events);
    SentGrows(w, nets, events, i, a);
    if i == 0 {
      NobodyRecorded(w, a);
    } else {
      SentIsHistory(w, nets, events, i - 1, a);
      NetRunKeeps(w, nets, events, i - 1);
      NetStep(w, nets, events, i - 1);
      RecordedStep(w, nets[i - 1], events[i - 1], nets[i], a, SentSoFar(w, nets, events, i - 1, a));
    }
  }

  lemma NobodyRecorded(w: World, a: string)
    ensures Recorded(w, NO_BRIDGES, a, [])
  {
  }

  lemma SentGrows(w: World, nets: seq<Net>, events: seq<NetEvent>, i: nat, a: string)
    requires |nets| == |events| + 1 && i < |nets|
    ensures SentSoFar(w, nets, events, 0, a) == []
    ensures i > 0 ==>
              SentSoFar(w, nets, events, i, a) ==
              SentSoFar(w, nets, events, i - 1, a) + SentBy(w, a, nets[i - 1], events[i - 1], nets[i])
  {
  }

  lemma EnumerationCompacts(h: seq<Msg>, cache: map<string, Payload>, ms: seq<Msg>)
    requires CachesLast(h, cache) && Enumerates(cache, ms)
    ensures Compacts(h, ms)
  {
    forall i | 0 <= i < |ms| ensures IsLast(h, ms[i]) {
      var j :| LastAt(h, j, ms[i].ke);
      assert h[j] == ms[i];
    }
    forall j | LastUnderKey(h, j) ensures exists i :: 0 <= i < |ms| && ms[i] == h[j] {
      assert LastAt(h, j, h[j].ke);
      var i :| 0 <= i < |ms| && ms[i].ke == h[j].ke;
      assert ms[i] == h[j];
    }
  }

  /** What a newcomer is replayed is the compaction of all the sender has sent. */
  lemma ReplayCompacts(w: World, nets: seq<Net>, events: seq<NetEvent>, i: nat, a: string, ms: seq<Msg>)
    requires NetRun(w, nets, events) && i < |nets| && a in nets[i].members
    requires a in nets[i].cache && Enumerates(nets[i].cache[a], ms)
    ensures History(w, a, SentSoFar(w, nets, events, i, a)) && Compacts(SentSoFar(w, nets, events, i, a), ms)
  {
    SentIsHistory(w, nets, events, i, a);
    hide History, Enumerates, NetRun, CachesLast;
    EnumerationCompacts(SentSoFar(w, nets, events, i, a), nets[i].cache[a], ms);
  }

  /**
  In any run of the network: a bridge that serves nothing of `a` and handles what `a` replays comes to serve the same
  remote references, and to have DDS writers on the same routes, as if it had handled all `a` has ever sent.
  */
  lemma LateJoinerInRun(w: World, nets: seq<Net>, events: seq<NetEvent>, i: nat, a: string, cfg: Config, s: State,
          oh: nat -> Oracle, replay: seq<Msg>, or: nat -> Oracle, side: Side, ke: string)
    requires NetRun(w, nets, events) && i < |nets| && a in nets[i].members
    requires Newcomer(w, nets[i].used, s, a) && a in nets[i].cache && Enumerates(nets[i].cache[a], replay)
    requires AllSucceed(cfg, s, a, SentSoFar(w, nets, events, i, a), oh) && AllSucceed(cfg, s, a, replay, or)
    ensures var full, late := HandleAll(cfg, s, a, SentSoFar(w, nets, events, i, a), oh), HandleAll(cfg, s, a, replay, or);
            && Remote(Get(full, side), ke) == Remote(Get(late, side), ke)
            && (HasWriter(full, ke) <==> HasWriter(late, ke))
  {
    assert |nets| == |events| + 1;
    hide *;
    ReplayCompacts(w, nets, events, i, a, replay);
    LateJoinerCompaction(w, nets[i].used, cfg, s, a, SentSoFar(w, nets, events, i, a), oh, replay, or, side, ke);
  }
}
