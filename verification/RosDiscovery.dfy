/** The ROS graph information a bridge publishes, updated in place. */
module RosDiscovery {
  import opened BridgeState
  import opened Bridge
  import opened RosGraph
  import opened RosCodec
  import opened ForwardMode
  import opened ForwardRuns

  class ParticipantEntitiesInfo {
    const gid: string
    var nodes: Graph

    constructor (gid: string)
      ensures this.gid == gid && nodes == map[]
    {
      this.gid, nodes := gid, map[];
    }

    method UpdateWith(news: Graph)
      modifies this
      ensures nodes == RosGraph.UpdateWith(old(nodes), news)
    {
      nodes := nodes + news;
      Cleanup();
    }

    /** Node by node, in whatever order the map has. */
    method RemoveReaderGid(gone: string)
      modifies this
      ensures nodes == RemoveGids(old(nodes), {gone}, {})
    {
      var todo := nodes.Keys;
      while todo != {}
        invariant todo <= nodes.Keys == old(nodes).Keys
        invariant forall k :: k in nodes ==> nodes[k] == if k in todo then old(nodes)[k] else Removed(old(nodes)[k], {gone}, {})
        decreases todo
      {
        var k :| k in todo;
        NothingWithout(nodes[k].writers);
        nodes := nodes[k := nodes[k].(readers := Without(nodes[k].readers, {gone}))];
        todo := todo - {k};
      }
    }

    method RemoveWriterGid(gone: string)
      modifies this
      ensures nodes == RemoveGids(old(nodes), {}, {gone})
    {
      var todo := nodes.Keys;
      while todo != {}
        invariant todo <= nodes.Keys == old(nodes).Keys
        invariant forall k :: k in nodes ==> nodes[k] == if k in todo then old(nodes)[k] else Removed(old(nodes)[k], {}, {gone})
        decreases todo
      {
        var k :| k in todo;
        NothingWithout(nodes[k].readers);
        nodes := nodes[k := nodes[k].(writers := Without(nodes[k].writers, {gone}))];
        todo := todo - {k};
      }
    }

    method Cleanup()
      modifies this
      ensures nodes == RosGraph.Cleanup(old(nodes))
    {
      nodes := map k | k in nodes && nodes[k].readers != [] && nodes[k].writers != [] :: nodes[k];
    }
  }

  // ---------- removals add up ----------

  lemma {:induction false} NothingWithout(gids: seq<string>)
    ensures Without(gids, {}) == gids
  {
    if gids != [] { NothingWithout(gids[1..]); }
  }

  lemma {:induction false} WithoutTwice(gids: seq<string>, a: set<string>, b: set<string>)
    ensures Without(Without(gids, a), b) == Without(gids, a + b)
  {
    if gids != [] {
      WithoutTwice(gids[1..], a, b);
      if gids[0] !in a {
        assert ([gids[0]] + Without(gids[1..], a))[1..] == Without(gids[1..], a);
      }
    }
  }

  /** The gids of a departure can be taken off one at a time. */
  lemma RemovalsAddUp(info: Graph, readers: set<string>, writers: set<string>, more: set<string>, others: set<string>)
    ensures RemoveGids(RemoveGids(info, readers, writers), more, others) == RemoveGids(info, readers + more, writers + others)
  {
    var once, twice := RemoveGids(info, readers + more, writers + others),
                       RemoveGids(RemoveGids(info, readers, writers), more, others);
    forall k | k in info ensures once[k] == twice[k] {
      WithoutTwice(info[k].readers, readers, more);
      WithoutTwice(info[k].writers, writers, others);
    }
  }

  lemma RemoveNothing(info: Graph)
    ensures RemoveGids(info, {}, {}) == info
  {
    forall k | k in info ensures RemoveGids(info, {}, {})[k] == info[k] {
      NothingWithout(info[k].readers);
      NothingWithout(info[k].writers);
    }
  }

  // ---------- what updates and clean-ups amount to ----------

  predicate Complete(n: Node) {
    n.readers != [] && n.writers != []
  }

  /** Updates received one after the other. */
  function Updates(info: Graph, news: seq<Graph>): Graph {
    if news == [] then info else RosGraph.UpdateWith(Updates(info, news[..|news| - 1]), news[|news| - 1])
  }

  /** Update `i` is the last to speak of the node. */
  ghost predicate LastToName(news: seq<Graph>, k: string, i: nat) {
    i < |news| && k in news[i] && forall j :: i < j < |news| ==> k !in news[j]
  }

  /**
  After any sequence of updates a node is in the graph if and only if the last update that speaks of it gives it both
  readers and writers, and then just as that update gives it.
  */
  lemma {:induction false} LastUpdateDecides(info: Graph, news: seq<Graph>, k: string, i: nat)
    requires LastToName(news, k, i)
    ensures k in Updates(info, news) <==> Complete(news[i][k])
    ensures k in Updates(info, news) ==> Updates(info, news)[k] == news[i][k]
  {
    var n := |news| - 1;
    if i < n {
      assert LastToName(news[..n], k, i);
      LastUpdateDecides(info, news[..n], k, i);
    }
  }

  /** A node no update speaks of stays as it is, unless it lacks readers or writers. */
  lemma {:induction false} UnnamedNodesStay(info: Graph, news: seq<Graph>, k: string)
    requires forall j :: 0 <= j < |news| ==> k !in news[j]
    ensures k in Updates(info, news) <==> k in info && (news == [] || Complete(info[k]))
    ensures k in Updates(info, news) ==> Updates(info, news)[k] == info[k]
  {
    if news != [] { UnnamedNodesStay(info, news[..|news| - 1], k); }
  }

  /** One clean-up at the end of a departure does the work of one after each removal. */
  lemma CleanupOnceIsEnough(info: Graph, readers: set<string>, writers: set<string>, more: set<string>, others: set<string>)
    ensures RosGraph.Cleanup(RemoveGids(RosGraph.Cleanup(RemoveGids(info, readers, writers)), more, others)) ==
            RosGraph.Cleanup(RemoveGids(info, readers + more, writers + others))
  {
    RemovalsAddUp(info, readers, writers, more, others);
    CleanedFirst(RemoveGids(info, readers, writers), more, others);
  }

  lemma CleanedFirst(info: Graph, more: set<string>, others: set<string>)
    ensures RosGraph.Cleanup(RemoveGids(RosGraph.Cleanup(info), more, others)) == RosGraph.Cleanup(RemoveGids(info, more, others))
  {
    assert forall n: Node :: !Complete(n) ==> !Complete(Removed(n, more, others));
    hide Removed;
  }

  // ---------- the published graph survives the wire ----------

  /** GUIDs are 16 bytes in hexadecimal. */
  ghost predicate GuidsCanonical(h: Half) {
    forall g :: g in h.issued ==> CanonicalGid(g)
  }

  /**
  At every moment of a run, reading the published graph back gives the same graph, in whatever order its nodes
  were written.
  */
  lemma PublishedGraphRoundTrips(cfg: Config, states: seq<State>, events: seq<(FwdEvent, Oracle)>, i: nat,
                                 nodes: seq<WireNode>, order: seq<string>)
    requires FwdRun(cfg, states, events) && i < |states|
    requires GuidsCanonical(states[i].from) && GuidsCanonical(states[i].to)
    requires WrittenAs(states[i].info, nodes, order)
    ensures FromWire(nodes) == states[i].info
  {
    RunKeepsFwdInv(cfg, states, events, i);
    var s := states[i];
    assert CanonicalGraph(s.info) by {
      forall k | k in s.info ensures k == s.info[k].namespace + s.info[k].name && CanonicalNode(s.info[k]) {
        assert GraphOk(s);
        assert forall j :: 0 <= j < |s.info[k].readers| ==> s.info[k].readers[j] in s.from.issued;
        assert forall j :: 0 <= j < |s.info[k].writers| ==> s.info[k].writers[j] in s.to.issued;
      }
    }
    GraphRoundTripIff(s.info, nodes, order);
  }

  /** And it can be written: no gid of it fails. */
  lemma PublishedGraphIsWritable(cfg: Config, states: seq<State>, events: seq<(FwdEvent, Oracle)>, i: nat, k: string)
    requires FwdRun(cfg, states, events) && i < |states| && k in states[i].info
    requires GuidsCanonical(states[i].from) && GuidsCanonical(states[i].to)
    ensures SerializeNode(states[i].info[k]).Some?
  {
    RunKeepsFwdInv(cfg, states, events, i);
    var s := states[i];
    assert GraphOk(s);
    assert CanonicalNode(s.info[k]) by {
      assert forall j :: 0 <= j < |s.info[k].readers| ==> s.info[k].readers[j] in s.from.issued;
      assert forall j :: 0 <= j < |s.info[k].writers| ==> s.info[k].writers[j] in s.to.issued;
    }
    NodeRoundTripIff(s.info[k]);
  }

  /** A graph read from the wire has the keys that remapping and publication count on. */
  lemma ReadGraphIsCanonical(nodes: seq<WireNode>)
    requires forall i :: 0 <= i < |nodes| ==> WireOk(nodes[i])
    ensures CanonicalGraph(FromWire(nodes))
  {
    var m := FromWire(nodes);
    forall k | k in m ensures k == m[k].namespace + m[k].name && CanonicalNode(m[k]) {
      FromWireHoldsTheLast(nodes, k);
      var i :| LastWith(nodes, k, i) && m[k] == DeserializeNode(nodes[i]);
      ReadNodesAreCanonical(nodes[i]);
    }
  }
}
