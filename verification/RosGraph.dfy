/** The ROS graph information of a bridge: gids of remote entities are replaced by those of its own routes. */
module RosGraph {
  import opened KeyExprs
  import opened Bridge
  import opened BridgeState

  type Graph = map<string, Node>

  /** `retain(|gid| gid != gone)`, for a set of gids */
  function Without(gids: seq<string>, gone: set<string>): (r: seq<string>)
    ensures forall g :: g in r <==> g in gids && g !in gone
  {
    if gids == [] then []
    else if gids[0] in gone then Without(gids[1..], gone)
    else [gids[0]] + Without(gids[1..], gone)
  }

  /** `remove_reader_gid` and `remove_writer_gid`, for all gids of a sweep. */
  function RemoveGids(info: Graph, readers: set<string>, writers: set<string>): Graph {
    map k | k in info :: Removed(info[k], readers, writers)
  }

  function Removed(n: Node, readers: set<string>, writers: set<string>): Node {
    n.(readers := Without(n.readers, readers), writers := Without(n.writers, writers))
  }

  /** Keeps the nodes that have both readers and writers. */
  function Cleanup(info: Graph): Graph {
    map n | n in info && info[n].readers != [] && info[n].writers != [] :: info[n]
  }

  function UpdateWith(info: Graph, news: Graph): Graph {
    Cleanup(info + news)
  }

  // ---------- remapping ----------

  /** `is_routing_remote_reader` and `is_routing_remote_writer` */
  predicate IsRouting(r: Route, gid: string) {
    exists ref :: ref in r.remote && Contains(ref, gid)
  }

  ghost predicate RoutedGid(h: Half, gid: string) {
    exists ke :: ke in h.routes && IsRouting(h.routes[ke], gid)
  }

  ghost predicate GuidOf(h: Half, ke: string, guid: string) {
    ke in h.routes && h.routes[ke].entity in h.live && h.live[h.routes[ke].entity] == guid
  }

  /** The GUID of a route that routes the gid. */
  ghost predicate Replaces(h: Half, gid: string, guid: string) {
    exists ke :: ke in h.routes && IsRouting(h.routes[ke], gid) && GuidOf(h, ke, guid)
  }

  /** The gids some route serves, in order. */
  ghost function Served(h: Half, gids: seq<string>): (r: seq<string>)
    ensures |r| <= |gids|
    ensures forall g :: g in r <==> g in gids && RoutedGid(h, g)
  {
    if gids == [] then []
    else
      var n := |gids| - 1;
      if RoutedGid(h, gids[n]) then Served(h, gids[..n]) + [gids[n]] else Served(h, gids[..n])
  }

  /** One output per served input, in order, each the GUID of a route that serves it. */
  ghost predicate Remapped(h: Half, gids: seq<string>, out: seq<string>) {
    |out| == |Served(h, gids)| && forall i :: 0 <= i < |out| ==> Replaces(h, Served(h, gids)[i], out[i])
  }

  ghost predicate RemappedNode(s: State, n: Node, out: Node) {
    out.namespace == n.namespace && out.name == n.name
    && Remapped(s.from, n.readers, out.readers) && Remapped(s.to, n.writers, out.writers)
  }

  ghost predicate RemappedGraph(s: State, info: Graph, out: Graph) {
    info.Keys == out.Keys && forall k :: k in info ==> RemappedNode(s, info[k], out[k])
  }

  ghost predicate ServedOnce(h: Half, gid: string) {
    forall a, b :: a in h.routes && b in h.routes && IsRouting(h.routes[a], gid) && IsRouting(h.routes[b], gid) ==> a == b
  }

  /** Where each gid is served by one route only, the outcome does not depend on the order of the routes. */
  lemma RemapUnique(h: Half, gids: seq<string>, a: seq<string>, b: seq<string>)
    requires Remapped(h, gids, a) && Remapped(h, gids, b)
    requires forall g :: g in gids ==> ServedOnce(h, g)
    ensures a == b
  {
    forall i | 0 <= i < |a| ensures a[i] == b[i] {
      var g := Served(h, gids)[i];
      assert g in Served(h, gids);
      var ke :| ke in h.routes && IsRouting(h.routes[ke], g) && GuidOf(h, ke, a[i]);
      var ke' :| ke' in h.routes && IsRouting(h.routes[ke'], g) && GuidOf(h, ke', b[i]);
      assert ServedOnce(h, g) && ke == ke';
    }
  }

  // ---------- what every published graph satisfies ----------

  /** Gids are those of route entities, nodes are under namespace and name, and none lacks readers or writers. */
  ghost predicate GraphOk(s: State) {
    forall k :: k in s.info ==>
      && s.info[k].readers != [] && s.info[k].writers != []
      && k == s.info[k].namespace + s.info[k].name
      && (forall g :: g in s.info[k].readers ==> g in s.from.issued)
      && (forall g :: g in s.info[k].writers ==> g in s.to.issued)
  }

  lemma RemappedIssued(h: Half, gids: seq<string>, out: seq<string>)
    requires Remapped(h, gids, out) && Conserved(h)
    ensures forall g :: g in out ==> g in h.issued
  {
    forall g | g in out ensures g in h.issued {
      var i :| 0 <= i < |out| && out[i] == g;
      assert Replaces(h, Served(h, gids)[i], g);
    }
  }
}
