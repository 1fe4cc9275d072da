/**
The wire form of the ROS graph: gids are hexadecimal strings inside the bridge and arrays of 24 bytes in
ROS messages, nodes are a map inside and a sequence outside.
*/
module RosCodec {
  import opened Wrappers
  import opened KeyExprs
  import opened BridgeKeys
  import opened BridgeState
  import opened RosGraph

  type Byte = b: int | 0 <= b < 256
  type Bytes = seq<Byte>

  const GID_LENGTH := 16
  const ROS_GID_LENGTH := 24

  // ---------- hexadecimal ----------

  function Digit(n: int): (c: char)
    requires 0 <= n < 16
    ensures LowerHex(c)
  {
    if n < 10 then '0' + n as char else 'a' + (n - 10) as char
  }

  predicate LowerHex(c: char) {
    '0' <= c <= '9' || 'a' <= c <= 'f'
  }

  /** Decoding takes both cases. */
  function DigitValue(c: char): (r: Option<int>)
    ensures r.Some? ==> 0 <= r.value < 16
    ensures LowerHex(c) ==> r.Some? && Digit(r.value) == c
  {
    if '0' <= c <= '9' then Some(c as int - '0' as int)
    else if 'a' <= c <= 'f' then Some(c as int - 'a' as int + 10)
    else if 'A' <= c <= 'F' then Some(c as int - 'A' as int + 10)
    else None
  }

  function EncodeHex(b: Bytes): (s: string)
    ensures |s| == 2 * |b|
    ensures forall i :: 0 <= i < |s| ==> LowerHex(s[i])
  {
    if b == [] then "" else [Digit(b[0] / 16), Digit(b[0] % 16)] + EncodeHex(b[1..])
  }

  function DecodeHex(s: string): (r: Option<Bytes>)
    ensures r.Some? ==> |s| == 2 * |r.value|
  {
    if |s| == 0 then Some([])
    else if |s| == 1 then None
    else
      var hi, lo, rest := DigitValue(s[0]), DigitValue(s[1]), DecodeHex(s[2..]);
      if hi.Some? && lo.Some? && rest.Some? then Some([16 * hi.value + lo.value] + rest.value) else None
  }

  lemma {:induction false} DecodeUndoesEncode(b: Bytes)
    ensures DecodeHex(EncodeHex(b)) == Some(b)
  {
    if b != [] {
      DecodeUndoesEncode(b[1..]);
      var s := EncodeHex(b);
      assert s[2..] == EncodeHex(b[1..]);
      assert DigitValue(s[0]) == Some(b[0] / 16) && DigitValue(s[1]) == Some(b[0] % 16);
      assert b == [b[0]] + b[1..];
    }
  }

  /** Encoding undoes decoding for exactly the lower-case strings. */
  lemma {:induction false} EncodeUndoesDecode(s: string)
    requires |s| % 2 == 0 && forall i :: 0 <= i < |s| ==> LowerHex(s[i])
    ensures DecodeHex(s).Some? && EncodeHex(DecodeHex(s).value) == s
  {
    if |s| > 0 {
      EncodeUndoesDecode(s[2..]);
      hide Digit, DigitValue, LowerHex;
      var b, rest, hi, lo := DecodeHex(s).value, DecodeHex(s[2..]).value, DigitValue(s[0]).value, DigitValue(s[1]).value;
      assert b == [16 * hi + lo] + rest && b[1..] == rest;
      TwoDigits(hi, lo);
      assert s == [Digit(hi), Digit(lo)] + s[2..];
    }
  }

  lemma TwoDigits(hi: int, lo: int)
    requires 0 <= hi < 16 && 0 <= lo < 16
    ensures (16 * hi + lo) / 16 == hi && (16 * hi + lo) % 16 == lo
  {
  }

  // ---------- gids ----------

  function Resize(b: Bytes, n: nat): (r: Bytes)
    ensures |r| == n
    ensures forall i :: 0 <= i < n ==> r[i] == if i < |b| then b[i] else 0
  {
    if |b| >= n then b[..n] else b + seq(n - |b|, _ => 0)
  }

  function SerializeGid(gid: string): (r: Option<Bytes>)
    ensures r.Some? ==> |r.value| == ROS_GID_LENGTH
  {
    var b := DecodeHex(gid);
    if b.None? then None else Some(Resize(b.value, ROS_GID_LENGTH))
  }

  function DeserializeGid(raw: Bytes): string
    requires |raw| == ROS_GID_LENGTH
  {
    EncodeHex(raw[..GID_LENGTH])
  }

  predicate CanonicalGid(gid: string) {
    |gid| == 2 * GID_LENGTH && forall i :: 0 <= i < |gid| ==> LowerHex(gid[i])
  }

  /** A gid comes back from the wire as it went exactly if it is 16 bytes in lower-case hexadecimal. */
  lemma GidRoundTripIff(gid: string)
    ensures SerializeGid(gid).Some? && DeserializeGid(SerializeGid(gid).value) == gid <==> CanonicalGid(gid)
  {
    if CanonicalGid(gid) {
      EncodeUndoesDecode(gid);
      var b := DecodeHex(gid).value;
      assert Resize(b, ROS_GID_LENGTH)[..GID_LENGTH] == b;
    }
  }

  /** Every gid read from the wire is canonical; writing it back is exact if and only if its last 8 bytes are zero. */
  lemma RawGidRoundTripIff(raw: Bytes)
    requires |raw| == ROS_GID_LENGTH
    ensures CanonicalGid(DeserializeGid(raw))
    ensures SerializeGid(DeserializeGid(raw)) == Some(raw) <==> forall i :: GID_LENGTH <= i < ROS_GID_LENGTH ==> raw[i] == 0
  {
    DecodeUndoesEncode(raw[..GID_LENGTH]);
    var back := Resize(raw[..GID_LENGTH], ROS_GID_LENGTH);
    assert SerializeGid(DeserializeGid(raw)) == Some(back);
    if forall i :: GID_LENGTH <= i < ROS_GID_LENGTH ==> raw[i] == 0 {
      assert back == raw;
    }
    if back == raw {
      forall i | GID_LENGTH <= i < ROS_GID_LENGTH ensures raw[i] == 0 { assert back[i] == 0; }
    }
  }

  /** What the bridge puts into its forwarding keys for a participant is one segment, and read back whole. */
  lemma ForwardedGidParses(zid: string, scope: Option<string>, payload: Bytes)
    requires NoSlash(zid) && |payload| >= GID_LENGTH
    requires "reader" !in ScopeSegments(scope) && "writer" !in ScopeSegments(scope) && "ros_disco" !in ScopeSegments(scope)
    ensures var gid := EncodeHex(payload[..GID_LENGTH]);
            ParseFwdKey(FwdKey(zid, scope, RosDisco, gid)) == Some(FwdParsed(zid, RosDisco, gid))
  {
    RosKeyParsesIff(zid, scope, EncodeHex(payload[..GID_LENGTH]));
  }

  function SerializeGids(gids: seq<string>): (r: Option<seq<Bytes>>)
    ensures r.Some? <==> forall i :: 0 <= i < |gids| ==> SerializeGid(gids[i]).Some?
    ensures r.Some? ==> |r.value| == |gids| && forall i :: 0 <= i < |gids| ==> r.value[i] == SerializeGid(gids[i]).value
  {
    if gids == [] then Some([])
    else
      var n := |gids| - 1;
      var init, last := SerializeGids(gids[..n]), SerializeGid(gids[n]);
      assert init.None? ==> exists i :: 0 <= i < n && SerializeGid(gids[..n][i]).None? && gids[..n][i] == gids[i];
      if init.Some? && last.Some? then Some(init.value + [last.value]) else None
  }

  /** One element after the other, up to the first that is not hexadecimal. */
  method WriteGids(gids: seq<string>) returns (r: Option<seq<Bytes>>)
    ensures r == SerializeGids(gids)
  {
    var out: seq<Bytes> := [];
    for i := 0 to |gids|
      invariant SerializeGids(gids[..i]) == Some(out)
    {
      var raw := SerializeGid(gids[i]);
      assert gids[..i + 1][..i] == gids[..i];
      if raw.None? {
        return None;
      }
      out := out + [raw.value];
    }
    assert gids[..|gids|] == gids;
    return Some(out);
  }

  predicate RawGids(raw: seq<Bytes>) {
    forall i :: 0 <= i < |raw| ==> |raw[i]| == ROS_GID_LENGTH
  }

  function DeserializeGids(raw: seq<Bytes>): (r: seq<string>)
    requires RawGids(raw)
    ensures |r| == |raw| && forall i :: 0 <= i < |raw| ==> r[i] == DeserializeGid(raw[i])
  {
    seq(|raw|, i requires 0 <= i < |raw| => DeserializeGid(raw[i]))
  }

  // ---------- nodes ----------

  datatype WireNode = WireNode(namespace: string, name: string, readers: seq<Bytes>, writers: seq<Bytes>)

  predicate WireOk(n: WireNode) {
    RawGids(n.readers) && RawGids(n.writers)
  }

  function SerializeNode(n: Node): (r: Option<WireNode>)
    ensures r.Some? ==> WireOk(r.value)
  {
    var readers, writers := SerializeGids(n.readers), SerializeGids(n.writers);
    if readers.Some? && writers.Some? then Some(WireNode(n.namespace, n.name, readers.value, writers.value)) else None
  }

  function DeserializeNode(w: WireNode): Node
    requires WireOk(w)
  {
    Node(w.namespace, w.name, DeserializeGids(w.readers), DeserializeGids(w.writers))
  }

  function NodeKey(w: WireNode): string {
    w.namespace + w.name
  }

  ghost predicate CanonicalNode(n: Node) {
    && (forall i :: 0 <= i < |n.readers| ==> CanonicalGid(n.readers[i]))
    && (forall i :: 0 <= i < |n.writers| ==> CanonicalGid(n.writers[i]))
  }

  lemma GidsRoundTripIff(gids: seq<string>)
    ensures SerializeGids(gids).Some? && DeserializeGids(SerializeGids(gids).value) == gids <==>
            forall i :: 0 <= i < |gids| ==> CanonicalGid(gids[i])
  {
    hide SerializeGid, DeserializeGid, CanonicalGid;
    forall i | 0 <= i < |gids|
      ensures SerializeGid(gids[i]).Some? && DeserializeGid(SerializeGid(gids[i]).value) == gids[i] <==> CanonicalGid(gids[i])
    {
      GidRoundTripIff(gids[i]);
    }
    if SerializeGids(gids).Some? {
      var raw := SerializeGids(gids).value;
      assert forall i :: 0 <= i < |gids| ==>
          DeserializeGids(raw)[i] == DeserializeGid(raw[i]) == DeserializeGid(SerializeGid(gids[i]).value);
    }
  }

  lemma NodeRoundTripIff(n: Node)
    ensures SerializeNode(n).Some? && DeserializeNode(SerializeNode(n).value) == n <==> CanonicalNode(n)
  {
    hide SerializeGids, DeserializeGids, CanonicalGid;
    GidsRoundTripIff(n.readers);
    GidsRoundTripIff(n.writers);
  }

  lemma ReadNodesAreCanonical(w: WireNode)
    requires WireOk(w)
    ensures CanonicalNode(DeserializeNode(w))
  {
    hide CanonicalGid;
    forall i | 0 <= i < |w.readers| ensures CanonicalGid(DeserializeGid(w.readers[i])) { RawGidRoundTripIff(w.readers[i]); }
    forall i | 0 <= i < |w.writers| ensures CanonicalGid(DeserializeGid(w.writers[i])) { RawGidRoundTripIff(w.writers[i]); }
  }

  // ---------- the node map ----------

  ghost predicate Orders(order: seq<string>, keys: set<string>) {
    && (forall i :: 0 <= i < |order| ==> order[i] in keys)
    && (forall k :: k in keys ==> exists i :: 0 <= i < |order| && order[i] == k)
    && (forall i, j :: 0 <= i < j < |order| ==> order[i] != order[j])
  }

  /** The nodes are those of the map, each once, in this order. */
  ghost predicate WrittenAs(info: Graph, nodes: seq<WireNode>, order: seq<string>) {
    Orders(order, info.Keys) && |nodes| == |order|
    && forall i :: 0 <= i < |order| ==> SerializeNode(info[order[i]]) == Some(nodes[i])
  }

  /** A hash map is written in any order; one gid that is not hexadecimal fails the whole message. */
  method WriteNodes(info: Graph) returns (r: Option<seq<WireNode>>, ghost order: seq<string>)
    ensures r.Some? <==> forall k :: k in info ==> SerializeNode(info[k]).Some?
    ensures r.Some? ==> WrittenAs(info, r.value, order)
  {
    hide SerializeNode;
    var todo := info.Keys;
    var nodes: seq<WireNode> := [];
    order := [];
    while todo != {}
      invariant todo <= info.Keys
      invariant Orders(order, info.Keys - todo) && |nodes| == |order|
      invariant forall i :: 0 <= i < |order| ==> SerializeNode(info[order[i]]) == Some(nodes[i])
      decreases todo
    {
      var k :| k in todo;
      var w := SerializeNode(info[k]);
      if w.None? {
        return None, order;
      }
      OrderGrows(order, info.Keys - todo, k);
      assert info.Keys - todo + {k} == info.Keys - (todo - {k});
      todo, nodes, order := todo - {k}, nodes + [w.value], order + [k];
    }
    assert info.Keys - todo == info.Keys;
    forall k | k in info ensures SerializeNode(info[k]).Some? {
      var i :| 0 <= i < |order| && order[i] == k;
    }
    r := Some(nodes);
  }

  lemma OrderGrows(order: seq<string>, keys: set<string>, k: string)
    requires Orders(order, keys) && k !in keys
    ensures Orders(order + [k], keys + {k})
  {
    var after := order + [k];
    assert after[|order|] == k;
    forall x | x in keys ensures exists i :: 0 <= i < |after| && after[i] == x {
      var i :| 0 <= i < |order| && order[i] == x;
      assert after[i] == x;
    }
  }

  function FromWire(nodes: seq<WireNode>): (m: Graph)
    requires forall i :: 0 <= i < |nodes| ==> WireOk(nodes[i])
  {
    if nodes == [] then map[]
    else
      var n := |nodes| - 1;
      FromWire(nodes[..n])[NodeKey(nodes[n]) := DeserializeNode(nodes[n])]
  }

  method ReadNodes(nodes: seq<WireNode>) returns (m: Graph)
    requires forall i :: 0 <= i < |nodes| ==> WireOk(nodes[i])
    ensures m == FromWire(nodes)
  {
    m := map[];
    for i := 0 to |nodes|
      invariant m == FromWire(nodes[..i])
    {
      assert nodes[..i + 1][..i] == nodes[..i];
      m := m[nodes[i].namespace + nodes[i].name := DeserializeNode(nodes[i])];
    }
    assert nodes[..|nodes|] == nodes;
  }

  ghost predicate LastWith(nodes: seq<WireNode>, k: string, i: int) {
    0 <= i < |nodes| && NodeKey(nodes[i]) == k && forall j :: i < j < |nodes| ==> NodeKey(nodes[j]) != k
  }

  /** A key is there exactly if some node has it, and holds the last such node. */
  lemma {:induction false} FromWireHoldsTheLast(nodes: seq<WireNode>, k: string)
    requires forall i :: 0 <= i < |nodes| ==> WireOk(nodes[i])
    ensures k in FromWire(nodes) <==> exists i :: LastWith(nodes, k, i)
    ensures forall i :: LastWith(nodes, k, i) ==> k in FromWire(nodes) && FromWire(nodes)[k] == DeserializeNode(nodes[i])
  {
    hide NodeKey, DeserializeNode;
    if nodes != [] {
      var n := |nodes| - 1;
      FromWireHoldsTheLast(nodes[..n], k);
      LastWithGrows(nodes, n, k);
      if NodeKey(nodes[n]) == k {
        assert LastWith(nodes, k, n);
      } else if k in FromWire(nodes) {
        var i :| LastWith(nodes[..n], k, i);
        assert LastWith(nodes, k, i);
      }
    }
  }

  lemma LastWithGrows(nodes: seq<WireNode>, n: nat, k: string)
    requires n + 1 == |nodes|
    ensures forall i :: LastWith(nodes, k, i) <==> if NodeKey(nodes[n]) == k then i == n else LastWith(nodes[..n], k, i)
  {
    hide NodeKey;
    forall i ensures LastWith(nodes, k, i) <==> if NodeKey(nodes[n]) == k then i == n else LastWith(nodes[..n], k, i) {
      assert forall j :: 0 <= j < n ==> nodes[..n][j] == nodes[j];
    }
  }

  lemma {:induction false} SomeIsLast(nodes: seq<WireNode>, k: string, i: nat)
    requires i < |nodes| && NodeKey(nodes[i]) == k
    ensures exists j :: LastWith(nodes, k, j)
    decreases |nodes| - i
  {
    if j :| i < j < |nodes| && NodeKey(nodes[j]) == k {
      SomeIsLast(nodes, k, j);
    } else {
      assert LastWith(nodes, k, i);
    }
  }

  ghost predicate CanonicalGraph(info: Graph) {
    forall k :: k in info ==> k == info[k].namespace + info[k].name && CanonicalNode(info[k])
  }

  /** Whatever order a graph was written in, reading it gives the same graph exactly if its keys and gids are canonical. */
  lemma GraphRoundTripIff(info: Graph, nodes: seq<WireNode>, order: seq<string>)
    requires WrittenAs(info, nodes, order)
    ensures FromWire(nodes) == info <==> CanonicalGraph(info)
  {
    if FromWire(nodes) == info {
      forall k | k in info ensures k == info[k].namespace + info[k].name && CanonicalNode(info[k]) {
        FromWireHoldsTheLast(nodes, k);
        var i :| LastWith(nodes, k, i) && FromWire(nodes)[k] == DeserializeNode(nodes[i]);
        ReadNodesAreCanonical(nodes[i]);
      }
    }
    if CanonicalGraph(info) {
      forall k ensures k in FromWire(nodes) <==> k in info { CanonicalDomain(info, nodes, order, k); }
      forall k | k in info ensures FromWire(nodes)[k] == info[k] { CanonicalValue(info, nodes, order, k); }
    }
  }

  lemma SerializedKey(n: Node, w: WireNode)
    requires SerializeNode(n) == Some(w)
    ensures NodeKey(w) == n.namespace + n.name
  {
  }

  lemma CanonicalDomain(info: Graph, nodes: seq<WireNode>, order: seq<string>, k: string)
    requires WrittenAs(info, nodes, order) && CanonicalGraph(info)
    ensures k in FromWire(nodes) <==> k in info
    ensures forall i :: 0 <= i < |nodes| ==> NodeKey(nodes[i]) == order[i]
  {
    FromWireHoldsTheLast(nodes, k);
    hide SerializeNode, FromWire, CanonicalNode;
    forall i | 0 <= i < |nodes| ensures NodeKey(nodes[i]) == order[i] {
      SerializedKey(info[order[i]], nodes[i]);
    }
    hide NodeKey;
    if k in info {
      var i :| 0 <= i < |order| && order[i] == k;
      SomeIsLast(nodes, k, i);
    }
  }

  lemma CanonicalValue(info: Graph, nodes: seq<WireNode>, order: seq<string>, k: string)
    requires WrittenAs(info, nodes, order) && CanonicalGraph(info) && k in info
    ensures k in FromWire(nodes) && FromWire(nodes)[k] == info[k]
  {
    CanonicalDomain(info, nodes, order, k);
    FromWireHoldsTheLast(nodes, k);
    hide FromWire, SerializeNode, DeserializeNode, CanonicalNode;
    var i :| LastWith(nodes, k, i) && FromWire(nodes)[k] == DeserializeNode(nodes[i]);
    assert order[i] == k && SerializeNode(info[k]) == Some(nodes[i]);
    NodeRoundTripIff(info[k]);
  }

  /** Reading keeps every node exactly if no two have the same namespace and name put together. */
  lemma {:induction false} NoNodeLostIff(nodes: seq<WireNode>)
    requires forall i :: 0 <= i < |nodes| ==> WireOk(nodes[i])
    ensures |FromWire(nodes)| <= |nodes|
    ensures |FromWire(nodes)| == |nodes| <==> forall i, j :: 0 <= i < j < |nodes| ==> NodeKey(nodes[i]) != NodeKey(nodes[j])
  {
    hide NodeKey, DeserializeNode;
    if nodes != [] {
      var n := |nodes| - 1;
      var init, k := nodes[..n], NodeKey(nodes[n]);
      NoNodeLostIff(init);
      FromWireHoldsTheLast(init, k);
      assert forall i :: 0 <= i < n ==> init[i] == nodes[i];
      var before, after := FromWire(init), FromWire(nodes);
      assert after.Keys == before.Keys + {k};
      assert |after| == |after.Keys| && |before| == |before.Keys|;
      if k in before {
        assert after.Keys == before.Keys;
        var i :| LastWith(init, k, i);
        assert NodeKey(nodes[i]) == NodeKey(nodes[n]);
      } else {
        forall i | 0 <= i < n ensures NodeKey(nodes[i]) != k {
          if NodeKey(init[i]) == k { SomeIsLast(init, k, i); }
        }
      }
    }
  }

  /** A namespace and name split differently is enough to lose a node. */
  lemma SplitNamesCollide(readers: seq<Bytes>, writers: seq<Bytes>)
    requires RawGids(readers) && RawGids(writers)
    ensures |FromWire([WireNode("/a", "b", readers, writers), WireNode("/", "ab", readers, writers)])| == 1
  {
    var a, b := WireNode("/a", "b", readers, writers), WireNode("/", "ab", readers, writers);
    assert NodeKey(a) == "/ab" == NodeKey(b);
    assert [a, b][..1] == [a] && [a][..0] == [];
    var m := FromWire([a, b]);
    assert m == FromWire([a])["/ab" := DeserializeNode(b)] && FromWire([a]) == map["/ab" := DeserializeNode(a)];
    assert m == map["/ab" := DeserializeNode(b)];
  }

  // ---------- taking samples ----------

  /** A taken sample; `None` stands for one whose data could not be had. */
  datatype Taken = Taken(valid: bool, payload: Option<Bytes>)

  predicate Carries(t: Taken, gid: string) {
    t.valid && t.payload.Some? && |t.payload.value| >= GID_LENGTH && EncodeHex(t.payload.value[..GID_LENGTH]) == gid
  }

  ghost predicate LastOf(samples: seq<Taken>, gid: string, i: int) {
    0 <= i < |samples| && Carries(samples[i], gid) && forall j :: i < j < |samples| ==> !Carries(samples[j], gid)
  }

  /** Per participant the last sample, whatever lies in between. Samples begin with the participant's gid. */
  method TakeAll(samples: seq<Taken>) returns (m: map<string, Bytes>)
    requires forall i :: 0 <= i < |samples| && samples[i].payload.Some? ==> |samples[i].payload.value| >= GID_LENGTH
    ensures forall g :: g in m <==> exists i :: LastOf(samples, g, i)
    ensures forall g, i :: LastOf(samples, g, i) ==> g in m && m[g] == samples[i].payload.value
  {
    m := map[];
    for n := 0 to |samples|
      invariant LastOfEach(samples[..n], m)
    {
      var t := samples[n];
      assert samples[..n + 1] == samples[..n] + [t];
      OneMoreTaken(samples[..n], m, t);
      if t.valid && t.payload.Some? {
        m := m[EncodeHex(t.payload.value[..GID_LENGTH]) := t.payload.value];
      }
    }
    assert samples[..|samples|] == samples;
  }

  ghost predicate LastOfEach(samples: seq<Taken>, m: map<string, Bytes>) {
    && (forall g :: g in m ==> exists i :: LastOf(samples, g, i))
    && (forall g, i :: LastOf(samples, g, i) ==> g in m && m[g] == samples[i].payload.value)
  }

  lemma OneMoreTaken(samples: seq<Taken>, m: map<string, Bytes>, t: Taken)
    requires LastOfEach(samples, m)
    requires t.payload.Some? ==> |t.payload.value| >= GID_LENGTH
    ensures LastOfEach(samples + [t],
                       if t.valid && t.payload.Some? then m[EncodeHex(t.payload.value[..GID_LENGTH]) := t.payload.value] else m)
  {
    hide EncodeHex;
    var after := samples + [t];
    var m' := if t.valid && t.payload.Some? then m[EncodeHex(t.payload.value[..GID_LENGTH]) := t.payload.value] else m;
    LastGrows(samples, t);
    hide LastOf;
    forall g | g in m' ensures exists i :: LastOf(after, g, i) {
      if Carries(t, g) {
        assert LastOf(after, g, |samples|);
      } else {
        var i :| LastOf(samples, g, i);
        assert LastOf(after, g, i);
      }
    }
    forall g, i | LastOf(after, g, i) ensures g in m' && m'[g] == after[i].payload.value {
      if !Carries(t, g) { LastIsIn(samples, g, i); }
    }
  }

  lemma LastIsIn(samples: seq<Taken>, g: string, i: int)
    requires LastOf(samples, g, i)
    ensures 0 <= i < |samples|
  {
  }

  lemma LastGrows(samples: seq<Taken>, t: Taken)
    ensures forall g, i :: LastOf(samples + [t], g, i) <==>
              if Carries(t, g) then i == |samples| else LastOf(samples, g, i)
  {
    hide EncodeHex;
    var after := samples + [t];
    forall g, i ensures LastOf(after, g, i) <==> if Carries(t, g) then i == |samples| else LastOf(samples, g, i) {
      assert after[|samples|] == t;
      assert forall j :: 0 <= j < |samples| ==> after[j] == samples[j];
    }
  }
}
