/**
A bridge that joins late only gets the last message per discovery key, in any order. It ends up serving
the same remote entities, with DDS writers on the same routes, as if it had handled the whole history.
*/
module Compaction {
  import opened Wrappers
  import opened KeyExprs
  import opened BridgeKeys
  import opened Bridge
  import opened BridgeState
  import opened ForwardMode
  import opened Announcements
  import opened Network

  /** Between two announcements under one key that differ in more than statuses, there is a deletion. */
  ghost predicate Stable(h: seq<Msg>) {
    forall i, j :: 0 <= i < j < |h| && AnnouncedAgain(h, i, j) ==> h[i].payload.e.SameIdentity(h[j].payload.e)
  }

  ghost predicate AnnouncedAgain(h: seq<Msg>, i: nat, j: nat)
    requires i < j < |h|
  {
    && h[i].Disco? && h[j].Disco? && h[i].ke == h[j].ke && h[i].payload.Announce? && h[j].payload.Announce?
    && forall m :: i < m < j && h[m].Disco? && h[m].ke == h[i].ke ==> h[m].payload.Announce?
  }

  /** What bridge `a` may have sent so far, before leaving. */
  ghost predicate History(w: World, a: string, h: seq<Msg>) {
    (forall i :: 0 <= i < |h| ==> h[i].Disco? && Built(w, a, h[i])) && Stable(h)
  }

  ghost predicate LastUnderKey(h: seq<Msg>, i: int) {
    0 <= i < |h| && h[i].Disco? && forall j :: i < j < |h| && h[j].Disco? ==> h[j].ke != h[i].ke
  }

  ghost predicate IsLast(h: seq<Msg>, m: Msg) {
    exists j :: LastUnderKey(h, j) && h[j] == m
  }

  /** `c` has the last message of `h` under each key, once, in any order. */
  ghost predicate Compacts(h: seq<Msg>, c: seq<Msg>) {
    && (forall i :: 0 <= i < |c| ==> IsLast(h, c[i]))
    && (forall j :: LastUnderKey(h, j) ==> exists i :: 0 <= i < |c| && c[i] == h[j])
    && (forall i, j :: 0 <= i < j < |c| && c[i].Disco? && c[j].Disco? ==> c[i].ke != c[j].ke)
  }

  /** The last message about a reference. */
  ghost function LastWord(w: World, a: string, h: seq<Msg>, side: Side, ref: string): (r: Option<nat>)
    ensures r.Some? ==> r.value < |h|
  {
    if h == [] then None
    else if About(w, a, h[|h| - 1], side, ref) then Some(|h| - 1)
    else LastWord(w, a, h[..|h| - 1], side, ref)
  }

  lemma {:induction false} LastWordIs(w: World, a: string, h: seq<Msg>, side: Side, ref: string)
    ensures var r := LastWord(w, a, h, side, ref);
            && (r.Some? ==> About(w, a, h[r.value], side, ref))
            && forall j :: (if r.Some? then r.value else -1) < j < |h| ==> !About(w, a, h[j], side, ref)
  {
    hide About;
    if h != [] {
      var n := |h| - 1;
      LastWordIs(w, a, h[..n], side, ref);
      assert forall j :: 0 <= j < n ==> h[..n][j] == h[j];
    }
  }

  ghost predicate SaysServed(w: World, cfg: Config, a: string, h: seq<Msg>, side: Side, ref: string, ke: string) {
    var r := LastWord(w, a, h, side, ref);
    r.Some? && SaysSo(w, cfg, h[r.value], ke)
  }

  ghost predicate SaysSo(w: World, cfg: Config, m: Msg, ke: string) {
    m.Disco? && m.payload.Announce? && Announced(cfg, m.payload.e, w.scope, ke)
  }

  /** Folding a history is looking at the last word. */
  lemma {:induction false} PendingIsLastWord(w: World, cfg: Config, a: string, h: seq<Msg>, side: Side, ref: string,
          ke: string)
    requires NoSlash(a) && History(w, a, h)
    ensures Pending(cfg, a, h, side, ref, ke, false) <==> SaysServed(w, cfg, a, h, side, ref, ke)
  {
    hide *;
    if h == [] {
      NothingSaid(w, cfg, a, side, ref, ke);
    } else {
      var n := |h| - 1;
      PrefixHistory(w, a, h);
      PendingIsLastWord(w, cfg, a, h[..n], side, ref, ke);
      PendingAppend(cfg, a, h[..n], [h[n]], side, ref, ke, false);
      assert h == h[..n] + [h[n]];
      PendingOfSingle(cfg, a, h[n], side, ref, ke, SaysServed(w, cfg, a, h[..n], side, ref, ke));
      LastStep(w, cfg, a, h, side, ref, ke);
    }
  }

  lemma NothingSaid(w: World, cfg: Config, a: string, side: Side, ref: string, ke: string)
    ensures !Pending(cfg, a, [], side, ref, ke, false) && !SaysServed(w, cfg, a, [], side, ref, ke)
  {
  }

  lemma PendingOfSingle(cfg: Config, a: string, m: Msg, side: Side, ref: string, ke: string, served: bool)
    ensures Pending(cfg, a, [m], side, ref, ke, served) == Effect(cfg, a, m, side, ref, ke, served)
  {
    hide Effect;
    assert [m][1..] == [];
  }

  lemma PrefixHistory(w: World, a: string, h: seq<Msg>)
    requires h != [] && History(w, a, h)
    ensures History(w, a, h[..|h| - 1])
  {
    hide Built;
    var g := h[..|h| - 1];
    forall i, j | 0 <= i < j < |g| && AnnouncedAgain(g, i, j) ensures g[i].payload.e.SameIdentity(g[j].payload.e) {
      forall m | i < m < j && h[m].Disco? && h[m].ke == h[i].ke ensures h[m].payload.Announce? { assert g[m] == h[m]; }
      assert AnnouncedAgain(h, i, j);
    }
  }

  lemma LastStep(w: World, cfg: Config, a: string, h: seq<Msg>, side: Side, ref: string, ke: string)
    requires NoSlash(a) && h != [] && History(w, a, h)
    ensures var n := |h| - 1;
            Effect(cfg, a, h[n], side, ref, ke, SaysServed(w, cfg, a, h[..n], side, ref, ke)) <==>
            SaysServed(w, cfg, a, h, side, ref, ke)
  {
    var n := |h| - 1;
    var served := SaysServed(w, cfg, a, h[..n], side, ref, ke);
    assert h[n].Disco? && Built(w, a, h[n]);
    LastWordAtEnd(w, cfg, a, h, side, ref, ke);
    hide *;
    if About(w, a, h[n], side, ref) {
      AboutMeans(w, cfg, a, h[n], side, ref, ke, served);
      if served && h[n].payload.Announce? { SaidAgain(w, cfg, a, h, side, ref, ke); }
    } else {
      NotAboutMeans(w, cfg, a, h[n], side, ref, ke, served);
    }
  }

  /** The last message has the last word, if it is about the reference. */
  lemma LastWordAtEnd(w: World, cfg: Config, a: string, h: seq<Msg>, side: Side, ref: string, ke: string)
    requires h != [] && h[|h| - 1].Disco?
    ensures var n := |h| - 1;
            SaysServed(w, cfg, a, h, side, ref, ke) ==
            if About(w, a, h[n], side, ref) then SaysSo(w, cfg, h[n], ke) else SaysServed(w, cfg, a, h[..n], side, ref, ke)
    ensures About(w, a, h[|h| - 1], side, ref) && !h[|h| - 1].payload.Announce? ==> !SaysServed(w, cfg, a, h, side, ref, ke)
  {
    hide About, Announced;
  }

  /** A repeated announcement is of the same keys. */
  lemma SaidAgain(w: World, cfg: Config, a: string, h: seq<Msg>, side: Side, ref: string, ke: string)
    requires NoSlash(a) && h != [] && History(w, a, h) && SaysServed(w, cfg, a, h[..|h| - 1], side, ref, ke)
    requires About(w, a, h[|h| - 1], side, ref) && h[|h| - 1].Disco? && h[|h| - 1].payload.Announce?
    ensures SaysSo(w, cfg, h[|h| - 1], ke)
  {
    var n := |h| - 1;
    var i := LastWord(w, a, h[..n], side, ref).value;
    hide About, Built, Announced;
    LastWordIs(w, a, h[..n], side, ref);
    assert SaysSo(w, cfg, h[i], ke);
    WordInPrefix(w, a, h, h[..n], i, side, ref);
    HistoryParts(w, a, h);
    assert Announced(cfg, h[i].payload.e, w.scope, ke);
    assert Announced(cfg, h[n].payload.e, w.scope, ke) ==> SaysSo(w, cfg, h[n], ke);
    hide *;
    AboutSameKey(w, a, h[i], h[n], side, ref);
    NoneUnderKey(w, a, h, i, n, side, ref);
    StableAt(h, i, n);
    SameKeysAnnounced(cfg, h[i].payload.e, h[n].payload.e, w.scope, ke);
  }

  lemma WordInPrefix(w: World, a: string, h: seq<Msg>, before: seq<Msg>, i: nat, side: Side, ref: string)
    requires h != [] && before == h[..|h| - 1] && i < |before| && About(w, a, before[i], side, ref)
    requires forall m :: i < m < |before| ==> !About(w, a, before[m], side, ref)
    ensures About(w, a, h[i], side, ref) && forall m :: i < m < |h| - 1 ==> !About(w, a, h[m], side, ref)
  {
    hide About;
    assert forall m :: 0 <= m < |before| ==> before[m] == h[m];
  }

  lemma AboutMeans(w: World, cfg: Config, a: string, m: Msg, side: Side, ref: string, ke: string, served: bool)
    requires NoSlash(a) && About(w, a, m, side, ref)
    ensures Effect(cfg, a, m, side, ref, ke, served) == (m.payload.Announce? && (served || SaysSo(w, cfg, m, ke)))
  {
    var x, e :| BuiltFor(w, a, m, x, e) && side == Opposite(x) && ref == RefOf(a, x, e);
    BuiltEffect(w, cfg, a, m, x, e, side, ref, ke, served);
    hide Effect, Announced;
    if m.payload.Announce? { SameKeysAnnounced(cfg, m.payload.e, e, w.scope, ke); }
  }

  lemma NotAboutMeans(w: World, cfg: Config, a: string, m: Msg, side: Side, ref: string, ke: string, served: bool)
    requires NoSlash(a) && m.Disco? && Built(w, a, m) && !About(w, a, m, side, ref)
    ensures Effect(cfg, a, m, side, ref, ke, served) == served
  {
    var x, e :| BuiltFor(w, a, m, x, e);
    BuiltEffect(w, cfg, a, m, x, e, side, ref, ke, served);
  }

  lemma HistoryParts(w: World, a: string, h: seq<Msg>)
    requires History(w, a, h)
    ensures Stable(h) && forall j :: 0 <= j < |h| ==> h[j].Disco? && Built(w, a, h[j])
  {
    hide Stable, Built;
  }

  lemma NoneUnderKey(w: World, a: string, h: seq<Msg>, i: nat, n: nat, side: Side, ref: string)
    requires NoSlash(a) && i < n < |h| && About(w, a, h[i], side, ref)
             && forall j :: 0 <= j < |h| ==> h[j].Disco? && Built(w, a, h[j])
    requires forall m :: i < m < n ==> !About(w, a, h[m], side, ref)
    ensures forall m :: i < m < n ==> h[m].ke != h[i].ke
  {
    hide About, Built;
    forall m | i < m < n ensures h[m].ke != h[i].ke {
      if h[m].ke == h[i].ke { KeyMeansAbout(w, a, h[i], h[m], side, ref); }
    }
  }

  lemma StableAt(h: seq<Msg>, i: nat, n: nat)
    requires Stable(h) && i < n < |h| && h[i].Disco? && h[n].Disco? && h[i].ke == h[n].ke
    requires h[i].payload.Announce? && h[n].payload.Announce?
    requires forall m :: i < m < n && h[m].Disco? ==> h[m].ke != h[i].ke
    ensures h[i].payload.e.SameIdentity(h[n].payload.e)
  {
    assert AnnouncedAgain(h, i, n);
  }

  /** Messages under one key are about one reference. */
  lemma KeyMeansAbout(w: World, a: string, m: Msg, m': Msg, side: Side, ref: string)
    requires NoSlash(a) && About(w, a, m, side, ref) && m'.Disco? && Built(w, a, m') && m.ke == m'.ke
    ensures About(w, a, m', side, ref)
  {
    hide MsgKey, Plain;
    var x, e :| BuiltFor(w, a, m, x, e) && side == Opposite(x) && ref == RefOf(a, x, e);
    var y, f :| BuiltFor(w, a, m', y, f);
    MsgKeyInjective(w, a, x, e, y, f);
    assert RefOf(a, y, f) == ref;
  }

  // ---------- the compacted history ----------

  lemma CompactedHistory(w: World, a: string, h: seq<Msg>, c: seq<Msg>)
    requires History(w, a, h) && Compacts(h, c)
    ensures History(w, a, c)
  {
    hide Built;
    forall i | 0 <= i < |c| ensures c[i].Disco? && Built(w, a, c[i]) {
      assert IsLast(h, c[i]);
    }
  }

  lemma LastWordIsLastUnderKey(w: World, a: string, h: seq<Msg>, side: Side, ref: string, i: nat)
    requires NoSlash(a) && History(w, a, h) && LastWord(w, a, h, side, ref) == Some(i)
    ensures LastUnderKey(h, i)
  {
    LastWordIs(w, a, h, side, ref);
    hide About, Built;
    forall j | i < j < |h| && h[j].Disco? ensures h[j].ke != h[i].ke {
      assert !About(w, a, h[j], side, ref);
      if h[j].ke == h[i].ke { KeyMeansAbout(w, a, h[i], h[j], side, ref); }
    }
  }

  lemma SameLastWord(w: World, cfg: Config, a: string, h: seq<Msg>, c: seq<Msg>, side: Side, ref: string, ke: string)
    requires NoSlash(a) && History(w, a, h) && Compacts(h, c)
    ensures SaysServed(w, cfg, a, h, side, ref, ke) <==> SaysServed(w, cfg, a, c, side, ref, ke)
  {
    CompactedHistory(w, a, h, c);
    LastWordIs(w, a, h, side, ref);
    LastWordIs(w, a, c, side, ref);
    hide About, Built, SaysSo;
    var r, s := LastWord(w, a, h, side, ref), LastWord(w, a, c, side, ref);
    if r.Some? {
      LastWordIsLastUnderKey(w, a, h, side, ref, r.value);
      var k :| 0 <= k < |c| && c[k] == h[r.value];
      AboutSameKey(w, a, c[k], c[s.value], side, ref);
      assert k == s.value;
    } else {
      forall i | 0 <= i < |c| ensures !About(w, a, c[i], side, ref) {
        assert IsLast(h, c[i]);
      }
    }
  }

  // ---------- on a bridge ----------

  /** Handling messages of `a` one after the other. */
  ghost function HandleAll(cfg: Config, s: State, a: string, ms: seq<Msg>, oracles: nat -> Oracle): State {
    if ms == [] then s
    else
      var n := |ms| - 1;
      Handle(cfg, HandleAll(cfg, s, a, ms[..n], oracles), a, ms[n], oracles(n))
  }

  ghost predicate AllSucceed(cfg: Config, s: State, a: string, ms: seq<Msg>, oracles: nat -> Oracle) {
    forall i :: 0 <= i < |ms| ==> Succeeds(cfg, HandleAll(cfg, s, a, ms[..i], oracles), ms[i], oracles(i))
  }

  /** A bridge that serves nothing of `a` yet. */
  ghost predicate Newcomer(w: World, used: set<string>, s: State, a: string) {
    && FwdInv(s) && GoodRefs(w.ids, used, s) && a in used && w.ids(a) && GoodZid(a)
    && forall side, ref, ke :: OwnedBy(a, ref) ==> !View(s, side, ref, ke)
  }

  lemma PrefixSucceeds(cfg: Config, s: State, a: string, ms: seq<Msg>, oracles: nat -> Oracle)
    requires ms != [] && AllSucceed(cfg, s, a, ms, oracles)
    ensures var n := |ms| - 1;
            AllSucceed(cfg, s, a, ms[..n], oracles) && Succeeds(cfg, HandleAll(cfg, s, a, ms[..n], oracles), ms[n], oracles(n))
  {
    hide Succeeds, HandleAll;
    var before := ms[..|ms| - 1];
    forall i | 0 <= i < |before| ensures Succeeds(cfg, HandleAll(cfg, s, a, before[..i], oracles), before[i], oracles(i)) {
      assert before[..i] == ms[..i];
    }
  }

  lemma {:induction false} HandleAllView(w: World, used: set<string>, cfg: Config, s: State, a: string,
          ms: seq<Msg>, oracles: nat -> Oracle)
    requires FwdInv(s) && GoodRefs(w.ids, used, s) && a in used && w.ids(a) && GoodZid(a)
    requires (forall i :: 0 <= i < |ms| ==> ms[i].Disco? && Built(w, a, ms[i])) && AllSucceed(cfg, s, a, ms, oracles)
    ensures var s' := HandleAll(cfg, s, a, ms, oracles);
            && FwdInv(s') && GoodRefs(w.ids, used, s')
            && forall side, ref, ke :: View(s', side, ref, ke) <==> Pending(cfg, a, ms, side, ref, ke, View(s, side, ref, ke))
  {
    hide FwdInv, View, GoodRefs, GoodZid, Built, Effect, Handle, Succeeds, AllSucceed;
    if ms != [] {
      var n := |ms| - 1;
      var before := ms[..n];
      PrefixSucceeds(cfg, s, a, ms, oracles);
      HandleAllView(w, used, cfg, s, a, before, oracles);
      HandleOne(w, used, cfg, HandleAll(cfg, s, a, before, oracles), a, ms[n], oracles(n));
      assert ms == before + [ms[n]] && [ms[n]][1..] == [];
      forall side, ref, ke
        ensures View(HandleAll(cfg, s, a, ms, oracles), side, ref, ke) <==>
                Pending(cfg, a, ms, side, ref, ke, View(s, side, ref, ke))
      {
        HandleView(w, used, cfg, HandleAll(cfg, s, a, before, oracles), a, ms[n], oracles(n), side, ref, ke);
        PendingAppend(cfg, a, before, [ms[n]], side, ref, ke, View(s, side, ref, ke));
      }
    }
  }

  lemma HandleOne(w: World, used: set<string>, cfg: Config, s: State, a: string, m: Msg, oracle: Oracle)
    requires FwdInv(s) && GoodRefs(w.ids, used, s) && a in used && w.ids(a) && GoodZid(a)
    requires m.Disco? && Built(w, a, m) && Succeeds(cfg, s, m, oracle)
    ensures FwdInv(Handle(cfg, s, a, m, oracle)) && GoodRefs(w.ids, used, Handle(cfg, s, a, m, oracle)) && NoSlash(a)
  {
    HandleKeepsRefs(w, used, cfg, s, a, m, oracle);
    hide FwdInv, GoodRefs, Succeeds, Plain, MsgKey, OnSample;
    var x, e :| BuiltFor(w, a, m, x, e);
    SampleKeepsInv(cfg, s, m.ke, m.payload, oracle);
  }

  /**
  Late joining is exact: handling only the last message per key, in any order, leaves on every key the
  same remote references as handling the whole history, and DDS writers on the same routes.
  */
  lemma LateJoinerCompaction(w: World, used: set<string>, cfg: Config, s: State, a: string, h: seq<Msg>,
          oh: nat -> Oracle,
                             c: seq<Msg>, oc: nat -> Oracle, side: Side, ke: string)
    requires Newcomer(w, used, s, a) && History(w, a, h) && Compacts(h, c)
    requires AllSucceed(cfg, s, a, h, oh) && AllSucceed(cfg, s, a, c, oc)
    ensures var full, late := HandleAll(cfg, s, a, h, oh), HandleAll(cfg, s, a, c, oc);
            && Remote(Get(full, side), ke) == Remote(Get(late, side), ke)
            && (HasWriter(full, ke) <==> HasWriter(late, ke))
  {
    CompactedHistory(w, a, h, c);
    hide HandleAll, AllSucceed, FwdInv, GoodRefs, Built, Stable, Compacts;
    HandleAllView(w, used, cfg, s, a, h, oh);
    HandleAllView(w, used, cfg, s, a, c, oc);
    var full, late := HandleAll(cfg, s, a, h, oh), HandleAll(cfg, s, a, c, oc);
    forall x, ref ensures View(full, x, ref, ke) <==> View(late, x, ref, ke) {
      SamePending(w, cfg, a, h, c, x, ref, ke, View(s, x, ref, ke));
    }
    SameRemote(full, late, side, ke);
    SameRemote(full, late, ToDds, ke);
    WriterIffRemote(full, ke);
    WriterIffRemote(late, ke);
  }

  ghost predicate HasWriter(s: State, ke: string) {
    ke in s.to.routes && s.to.routes[ke].entity != 0
  }

  lemma WriterIffRemote(s: State, ke: string)
    requires FwdInv(s)
    ensures HasWriter(s, ke) <==> Remote(s.to, ke) != {}
  {
    if ke in s.to.routes { assert RouteOk(true, s.to.routes[ke]); }
  }

  lemma SameRemote(s: State, t: State, side: Side, ke: string)
    requires forall x, ref :: View(s, x, ref, ke) <==> View(t, x, ref, ke)
    ensures Remote(Get(s, side), ke) == Remote(Get(t, side), ke)
  {
    forall ref ensures ref in Remote(Get(s, side), ke) <==> ref in Remote(Get(t, side), ke) {
      assert View(s, side, ref, ke) <==> View(t, side, ref, ke);
    }
  }

  lemma SamePending(w: World, cfg: Config, a: string, h: seq<Msg>, c: seq<Msg>, side: Side, ref: string, ke: string,
          served: bool)
    requires NoSlash(a) && History(w, a, h) && History(w, a, c) && Compacts(h, c)
    requires OwnedBy(a, ref) ==> !served
    ensures Pending(cfg, a, h, side, ref, ke, served) == Pending(cfg, a, c, side, ref, ke, served)
  {
    if served {
      NobodyElse(w, cfg, a, h, side, ref, ke);
      NobodyElse(w, cfg, a, c, side, ref, ke);
    } else {
      PendingIsLastWord(w, cfg, a, h, side, ref, ke);
      PendingIsLastWord(w, cfg, a, c, side, ref, ke);
      SameLastWord(w, cfg, a, h, c, side, ref, ke);
    }
  }

  lemma NobodyElse(w: World, cfg: Config, a: string, h: seq<Msg>, side: Side, ref: string, ke: string)
    requires NoSlash(a) && History(w, a, h) && !OwnedBy(a, ref)
    ensures Pending(cfg, a, h, side, ref, ke, true)
  {
    hide Built;
    forall i | 0 <= i < |h| ensures !About(w, a, h[i], side, ref) {
      if About(w, a, h[i], side, ref) {
        var x, e :| BuiltFor(w, a, h[i], x, e) && side == Opposite(x) && ref == RefOf(a, x, e);
        OwnerOfFullAdminKey(a, AdminRest(x, e), a);
      }
    }
    PendingOfOthers(w, cfg, a, h, side, ref, ke, true);
  }
}
