/**
The keys the bridge builds: zenoh keys of topics, admin-space keys, and forwarded-discovery keys with
the parser that receives them.
*/
module BridgeKeys {
  import opened Wrappers
  import opened KeyExprs

  // ---------- topics ----------

  /** `<scope>/<partition>/<topic>`, scope and partition being optional. */
  function TopicToKeyExpr(topic: string, scope: Option<string>, partition: Option<string>): string {
    match (scope, partition)
    case (Some(s), Some(p)) => Path(s, Path(p, topic))
    case (Some(s), None) => Path(s, topic)
    case (None, Some(p)) => Path(p, topic)
    case (None, None) => topic
  }

  /** The key goes down from the scope by way of the partition to the topic, segment by segment. */
  lemma TopicKeySegments(topic: string, scope: Option<string>, partition: Option<string>)
    ensures Segments(TopicToKeyExpr(topic, scope, partition)) ==
            ScopeSegments(scope) + ScopeSegments(partition) + Segments(topic)
  {
    var below := if partition.Some? then Path(partition.value, topic) else topic;
    if partition.Some? { SegmentsAppend(partition.value, topic); }
    if scope.Some? { SegmentsAppend(scope.value, below); }
  }

  // ---------- admin space ----------

  /** What an admin-space key stands for. */
  datatype AdminId =
    | ParticipantId(key: string)
    | EntityId(participantKey: string, isWriter: bool, key: string, topic: string)
    | RouteId(fromDds: bool, ke: string)
    | ConfigId
    | VersionId
  {
    /** DDS keys are hexadecimal, so they never hold a slash. */
    predicate Valid() {
      match this
      case ParticipantId(k) => NoSlash(k)
      case EntityId(p, _, k, _) => NoSlash(p) && NoSlash(k)
      case _ => true
    }
  }

  function Kind(isWriter: bool): string {
    if isWriter then "writer" else "reader"
  }

  function EntityAdminKey(participantKey: string, isWriter: bool, key: string, topic: string): string {
    Path("participant", Path(participantKey, Path(Kind(isWriter), Path(key, topic))))
  }

  function Direction(fromDds: bool): string {
    if fromDds then "from_dds" else "to_dds"
  }

  function AdminKey(id: AdminId): string {
    match id
    case ParticipantId(k) => Path("participant", k)
    case EntityId(p, w, k, t) => EntityAdminKey(p, w, k, t)
    case RouteId(from, ke) => Path("route", Path(Direction(from), ke))
    case ConfigId => "config"
    case VersionId => "version"
  }

  ghost function AdminSegments(id: AdminId): seq<string> {
    match id
    case ParticipantId(k) => ["participant", k]
    case EntityId(p, w, k, t) => ["participant", p, Kind(w), k] + Segments(t)
    case RouteId(from, ke) => ["route", Direction(from)] + Segments(ke)
    case ConfigId => ["config"]
    case VersionId => ["version"]
  }

  lemma EntityKeySegments(p: string, w: bool, k: string, t: string)
    requires NoSlash(p) && NoSlash(k)
    ensures Segments(EntityAdminKey(p, w, k, t)) == ["participant", p, Kind(w), k] + Segments(t)
  {
    SegmentsPrepend(k, t);
    SegmentsPrepend(Kind(w), Path(k, t));
    SegmentsPrepend(p, Path(Kind(w), Path(k, t)));
    SegmentsPrepend("participant", Path(p, Path(Kind(w), Path(k, t))));
  }

  lemma AdminKeySegments(id: AdminId)
    requires id.Valid()
    ensures Segments(AdminKey(id)) == AdminSegments(id)
  {
    match id
    case ParticipantId(k) =>
      SegmentsPrepend("participant", k);
      SegmentsNoSlash(k);
    case EntityId(p, w, k, t) =>
      EntityKeySegments(p, w, k, t);
    case RouteId(from, ke) =>
      SegmentsPrepend(Direction(from), ke);
      SegmentsPrepend("route", Path(Direction(from), ke));
    case ConfigId => SegmentsNoSlash("config");
    case VersionId => SegmentsNoSlash("version");
  }

  /** No two entries of the admin space, of any kind, share a key. */
  lemma AdminKeyInjective(a: AdminId, b: AdminId)
    requires a.Valid() && b.Valid() && AdminKey(a) == AdminKey(b)
    ensures a == b
  {
    AdminKeySegments(a);
    AdminKeySegments(b);
    var s, t := AdminSegments(a), AdminSegments(b);
    assert |s| == |t| && s[0] == t[0];
    if a.RouteId? {
      assert s[1] == t[1] && s[2..] == Segments(a.ke) && t[2..] == Segments(b.ke);
      assert Join(Segments(a.ke)) == Join(Segments(b.ke));
    } else if a.EntityId? {
      assert s[1] == t[1] && s[2] == t[2] && s[3] == t[3];
      assert s[4..] == Segments(a.topic) && t[4..] == Segments(b.topic);
      assert Join(Segments(a.topic)) == Join(Segments(b.topic));
    } else if a.ParticipantId? {
      assert s[1] == t[1];
    }
  }

  // ---------- references to remote entities ----------

  /** The admin key of a remote entity, under the bridge that announced it. */
  function FullAdminKey(uuid: string, rest: string): string {
    Path("@", Path(uuid, Path("dds", rest)))
  }

  /** The text that selects all references of a bridge that left. */
  function DepartureSubkey(zid: string): string {
    FullAdminKey(zid, "")
  }

  predicate OwnedBy(uuid: string, ref: string) {
    DepartureSubkey(uuid) <= ref
  }

  lemma FullAdminKeyInjective(a: string, r: string, b: string, s: string)
    requires NoSlash(a) && NoSlash(b) && FullAdminKey(a, r) == FullAdminKey(b, s)
    ensures a == b && r == s
  {
    SplitAtSlash("@", Path(a, Path("dds", r)), "@", Path(b, Path("dds", s)));
    SplitAtSlash(a, Path("dds", r), b, Path("dds", s));
    SplitAtSlash("dds", r, "dds", s);
  }

  lemma SubkeyIsPrefix(a: string, r: string)
    ensures FullAdminKey(a, r) == DepartureSubkey(a) + r
  {
    assert Path("dds", r) == Path("dds", "") + r;
    assert Path(a, Path("dds", r)) == Path(a, Path("dds", "")) + r;
  }

  lemma OwnerOfFullAdminKey(a: string, r: string, zid: string)
    requires NoSlash(a) && NoSlash(zid)
    ensures OwnedBy(zid, FullAdminKey(a, r)) <==> a == zid
  {
    var ref := FullAdminKey(a, r);
    SubkeyIsPrefix(a, r);
    if OwnedBy(zid, ref) {
      SubkeyIsPrefix(zid, ref[|DepartureSubkey(zid)|..]);
      FullAdminKeyInjective(a, r, zid, ref[|DepartureSubkey(zid)|..]);
    }
  }

  /**
  The departure sweep looks for the subkey anywhere in a reference. Behind a part without `@` it finds exactly the
  references of the bridge that left, and those of other bridges that hold the subkey further in.
  */
  lemma DepartureSweepSplit(a: string, pre: string, t: string, zid: string)
    requires NoSlash(a) && NoSlash(zid) && '@' !in a && '@' !in pre
    ensures Contains(FullAdminKey(a, pre + t), DepartureSubkey(zid)) <==> a == zid || Contains(t, DepartureSubkey(zid))
  {
    var head, ref, sub := DepartureSubkey(a) + pre, FullAdminKey(a, pre + t), DepartureSubkey(zid);
    SubkeyIsPrefix(a, pre + t);
    assert ref == head + t && sub[0] == '@';
    OwnerOfFullAdminKey(a, pre + t, zid);
    assert OccursAt(ref, sub, 0) <==> OwnedBy(zid, ref);
    HeadWithoutAt(a, pre);
    assert forall i :: 0 < i < |head| ==> head[i] == head[1..][i - 1];
    ContainsBehind(head, t, sub);
  }

  lemma HeadWithoutAt(a: string, pre: string)
    requires '@' !in a && '@' !in pre
    ensures var head := DepartureSubkey(a) + pre; head == "@" + head[1..] && '@' !in head[1..]
  {
    assert DepartureSubkey(a) == "@" + ("/" + a + "/dds/");
    assert (DepartureSubkey(a) + pre)[1..] == "/" + a + "/dds/" + pre;
  }

  /**
  A reference to an entity is swept by the departure of a bridge if and only if that bridge announced it, or its
  topic spells out the subkey of that bridge.
  */
  lemma DepartureSweepHitsIff(a: string, p: string, isWriter: bool, k: string, t: string, zid: string)
    requires NoSlash(a) && NoSlash(zid) && '@' !in a && '@' !in p && '@' !in k
    ensures Contains(FullAdminKey(a, EntityAdminKey(p, isWriter, k, t)), DepartureSubkey(zid)) <==>
            a == zid || Contains(t, DepartureSubkey(zid))
  {
    var pre := EntityAdminKey(p, isWriter, k, "");
    assert EntityAdminKey(p, isWriter, k, t) == pre + t by {
      assert Path(k, t) == Path(k, "") + t;
      assert Path(Kind(isWriter), Path(k, t)) == Path(Kind(isWriter), Path(k, "")) + t;
      assert Path(p, Path(Kind(isWriter), Path(k, t))) == Path(p, Path(Kind(isWriter), Path(k, ""))) + t;
    }
    assert '@' !in Kind(isWriter) && '@' !in "participant";
    DepartureSweepSplit(a, pre, t, zid);
  }

  // ---------- forwarded discovery ----------

  datatype DiscoKind = WriterDisco | ReaderDisco | RosDisco

  function DiscoWord(k: DiscoKind): string {
    match k case WriterDisco => "writer" case ReaderDisco => "reader" case RosDisco => "ros_disco"
  }

  function KindPattern(k: DiscoKind): string {
    "/" + DiscoWord(k) + "/"
  }

  /** `@/<uuid>/@dds_fwd_disco[/<scope>]/<kind>/<rest>` */
  function FwdKey(uuid: string, scope: Option<string>, kind: DiscoKind, rest: string): string {
    var entry := Path(DiscoWord(kind), rest);
    Path("@", Path(uuid, Path(FWD_DISCO, if scope.Some? then Path(scope.value, entry) else entry)))
  }

  datatype FwdParsed = FwdParsed(uuid: string, kind: DiscoKind, rest: string)

  /**
  Takes a forwarded-discovery key apart. The subscription only delivers keys of at least three
  segments, so the one-character key, on which the slice of the source would fail, does not occur;
  it is not parsed here.
  */
  ghost function ParseFwdKey(ke: string): Option<FwdParsed> {
    if !("@" <= ke) || |ke| < 2 then None
    else
      var remaining := ke[2..];
      var slash := Find(remaining, "/");
      if slash.None? then None
      else
        var uuid := remaining[..slash.value];
        var body := remaining[slash.value + 1..];
        if FWD_DISCO <= body then ParseBody(uuid, body) else None
  }

  /** What follows the first occurrence of the pattern. */
  ghost function After(body: string, pattern: string): Option<string> {
    var i := Find(body, pattern);
    if i.Some? then Some(body[i.value + |pattern|..]) else None
  }

  /** The kind words are searched one after the other, each at its first occurrence. */
  ghost function ParseBody(uuid: string, body: string): Option<FwdParsed> {
    Choose(uuid, After(body, KindPattern(ReaderDisco)), After(body, KindPattern(WriterDisco)), After(body, KindPattern(RosDisco)))
  }

  ghost function Choose(uuid: string, reader: Option<string>, writer: Option<string>,
          ros: Option<string>): Option<FwdParsed> {
    if reader.Some? then Some(FwdParsed(uuid, ReaderDisco, reader.value))
    else if writer.Some? then Some(FwdParsed(uuid, WriterDisco, writer.value))
    else if ros.Some? then Some(FwdParsed(uuid, RosDisco, ros.value))
    else None
  }

  /** What follows the first interior segment equal to the word. */
  ghost function AfterSegment(segs: seq<string>, word: string): Option<string> {
    var j := FirstInterior(segs, word);
    if j.Some? then Some(Join(segs[j.value + 1..])) else None
  }

  /** The same, segment by segment: the first interior segment that is a kind word decides. */
  ghost function ParseSegments(uuid: string, segs: seq<string>): Option<FwdParsed> {
    Choose(uuid, AfterSegment(segs, "reader"), AfterSegment(segs, "writer"), AfterSegment(segs, "ros_disco"))
  }

  lemma UuidOfBuilt(uuid: string, body: string)
    requires NoSlash(uuid)
    ensures var ke := Path("@", Path(uuid, body));
            "@" <= ke && |ke| >= 2 && ke[2..] == Path(uuid, body)
            && Find(ke[2..], "/") == Some(|uuid|) && ke[2..][..|uuid|] == uuid && ke[2..][|uuid| + 1..] == body
  {
    FindAfterSlash(uuid, body, "/");
    assert Path(uuid, body)[|uuid|..|uuid| + 1] == "/";
    assert OccursAt(Path(uuid, body), "/", |uuid|);
    assert Path("@", Path(uuid, body))[2..] == Path(uuid, body);
  }

  /** The character-level parser agrees with the segment-level one. */
  lemma ParseRefinesSegments(uuid: string, segs: seq<string>)
    requires NoSlash(uuid) && AllSegments(segs)
    requires segs != [] && FWD_DISCO <= Join(segs)
    ensures ParseFwdKey(Path("@", Path(uuid, Join(segs)))) == ParseSegments(uuid, segs)
  {
    UuidOfBuilt(uuid, Join(segs));
    ParseBodyRefinesSegments(uuid, segs);
  }

  lemma ParseBodyRefinesSegments(uuid: string, segs: seq<string>)
    requires segs != [] && AllSegments(segs)
    ensures ParseBody(uuid, Join(segs)) == ParseSegments(uuid, segs)
  {
    hide After, AfterSegment, KindPattern, Join;
    FindKindWord(segs, ReaderDisco);
    FindKindWord(segs, WriterDisco);
    FindKindWord(segs, RosDisco);
  }

  lemma FindKindWord(segs: seq<string>, kind: DiscoKind)
    requires segs != [] && AllSegments(segs)
    ensures After(Join(segs), KindPattern(kind)) == AfterSegment(segs, DiscoWord(kind))
  {
    hide Find, FirstInterior, Join, AllSegments, Contains;
    FindWord(segs, DiscoWord(kind));
  }

  ghost function ScopeSegments(scope: Option<string>): seq<string> {
    if scope.None? then [] else Segments(scope.value)
  }

  ghost function BodySegments(scope: Option<string>, kind: DiscoKind, rest: string): seq<string> {
    [FWD_DISCO] + ScopeSegments(scope) + [DiscoWord(kind)] + Segments(rest)
  }

  lemma FwdKeySegments(uuid: string, scope: Option<string>, kind: DiscoKind, rest: string)
    ensures var segs := BodySegments(scope, kind, rest);
            AllSegments(segs) && FWD_DISCO <= Join(segs) && FwdKey(uuid, scope, kind, rest) == Path("@", Path(uuid, Join(segs)))
  {
    hide Segments, Join;
    var entry := [DiscoWord(kind)] + Segments(rest);
    JoinPrepend(DiscoWord(kind), Segments(rest));
    var body := ScopeSegments(scope) + entry;
    if scope.Some? { JoinAppend(Segments(scope.value), entry); } else { assert body == entry; }
    JoinPrepend(FWD_DISCO, body);
    assert [FWD_DISCO] + body == BodySegments(scope, kind, rest);
  }

  lemma JoinPrepend(a: string, segs: seq<string>)
    requires segs != []
    ensures Join([a] + segs) == Path(a, Join(segs))
  {
    assert ([a] + segs)[1..] == segs;
  }

  lemma ParseBuilt(uuid: string, scope: Option<string>, kind: DiscoKind, rest: string)
    requires NoSlash(uuid)
    ensures ParseFwdKey(FwdKey(uuid, scope, kind, rest)) == ParseSegments(uuid, BodySegments(scope, kind, rest))
  {
    FwdKeySegments(uuid, scope, kind, rest);
    ParseRefinesSegments(uuid, BodySegments(scope, kind, rest));
  }

  /** Is `word` a segment with at least one more after it? */
  ghost predicate NonFinalSegment(s: string, word: string) {
    var segs := Segments(s);
    exists j :: 0 <= j < |segs| - 1 && segs[j] == word
  }

  /** Where the search for a kind word ends in a built key. */
  lemma FirstInteriorOfBody(scope: Option<string>, kind: DiscoKind, rest: string, word: string)
    ensures var r := FirstInterior(BodySegments(scope, kind, rest), word);
            var n := |ScopeSegments(scope)|;
            && (word in ScopeSegments(scope) ==> r.Some? && r.value <= n)
            && (word !in ScopeSegments(scope) && word == DiscoWord(kind) ==> r == Some(n + 1))
            && (word !in ScopeSegments(scope) && word != DiscoWord(kind) ==> (r.Some? <==> NonFinalSegment(rest, word)))
  {
    var segs, sc, rs := BodySegments(scope, kind, rest), ScopeSegments(scope), Segments(rest);
    var n := |sc|;
    assert forall j :: 0 < j <= n ==> segs[j] == sc[j - 1];
    assert segs[n + 1] == DiscoWord(kind);
    assert forall j :: n + 2 <= j < |segs| ==> segs[j] == rs[j - n - 2];
    if word in sc {
      var j :| 0 <= j < n && sc[j] == word;
      assert segs[j + 1] == word;
    }
    if NonFinalSegment(rest, word) {
      var j :| 0 <= j < |rs| - 1 && rs[j] == word;
      assert segs[n + 2 + j] == word;
    }
  }

  /** A segment earlier than the kind gives a longer remainder than the one put in. */
  lemma EarlierIsLonger(scope: Option<string>, kind: DiscoKind, rest: string, j: nat)
    requires 0 < j <= |ScopeSegments(scope)|
    ensures |Join(BodySegments(scope, kind, rest)[j + 1..])| > |rest|
  {
    var segs := BodySegments(scope, kind, rest);
    var a := segs[j + 1..|segs| - |Segments(rest)|];
    assert segs[j + 1..] == a + Segments(rest);
    JoinAppend(a, Segments(rest));
  }

  lemma RemainderAtKind(scope: Option<string>, kind: DiscoKind, rest: string)
    ensures Join(BodySegments(scope, kind, rest)[|ScopeSegments(scope)| + 2..]) == rest
  {
    assert BodySegments(scope, kind, rest)[|ScopeSegments(scope)| + 2..] == Segments(rest);
  }

  /** What the search for a kind word leaves of a built key. */
  lemma AfterInBody(scope: Option<string>, kind: DiscoKind, rest: string, word: string)
    ensures var r := AfterSegment(BodySegments(scope, kind, rest), word);
            && (word in ScopeSegments(scope) ==> r.Some? && |r.value| > |rest|)
            && (word !in ScopeSegments(scope) && word == DiscoWord(kind) ==> r == Some(rest))
            && (word !in ScopeSegments(scope) && word != DiscoWord(kind) ==> (r.Some? <==> NonFinalSegment(rest, word)))
  {
    FirstInteriorOfBody(scope, kind, rest, word);
    RemainderAtKind(scope, kind, rest);
    if word in ScopeSegments(scope) {
      EarlierIsLonger(scope, kind, rest, FirstInterior(BodySegments(scope, kind, rest), word).value);
    }
  }

  /** When parsing a built key gives back what was put in, for each kind. */
  ghost predicate SurvivesParsing(scope: Option<string>, kind: DiscoKind, rest: string) {
    var sc := ScopeSegments(scope);
    match kind
    case ReaderDisco => "reader" !in sc
    case WriterDisco => "reader" !in sc && "writer" !in sc && !NonFinalSegment(rest, "reader")
    case RosDisco =>
      "reader" !in sc && "writer" !in sc && "ros_disco" !in sc
      && !NonFinalSegment(rest, "reader") && !NonFinalSegment(rest, "writer")
  }

  /** Parsing undoes building, exactly when no kind word gets in the way of the first-occurrence search. */
  lemma ParseUndoesBuildIff(uuid: string, scope: Option<string>, kind: DiscoKind, rest: string)
    requires NoSlash(uuid)
    ensures ParseFwdKey(FwdKey(uuid, scope, kind, rest)) == Some(FwdParsed(uuid, kind, rest)) <==>
            SurvivesParsing(scope, kind, rest)
  {
    ParseBuilt(uuid, scope, kind, rest);
    AfterInBody(scope, kind, rest, "reader");
    AfterInBody(scope, kind, rest, "writer");
    AfterInBody(scope, kind, rest, "ros_disco");
  }

  /** For entities only the scope and the topic matter: DDS keys are hexadecimal and so never kind words. */
  lemma EntityKeyParsesIff(uuid: string, scope: Option<string>, isWriter: bool, p: string, k: string, t: string)
    requires NoSlash(uuid) && NoSlash(p) && NoSlash(k) && p != "reader" && k != "reader"
    ensures var rest := EntityAdminKey(p, isWriter, k, t);
            var kind := if isWriter then WriterDisco else ReaderDisco;
            ParseFwdKey(FwdKey(uuid, scope, kind, rest)) == Some(FwdParsed(uuid, kind, rest)) <==>
            "reader" !in ScopeSegments(scope)
            && (isWriter ==> "writer" !in ScopeSegments(scope) && !NonFinalSegment(t, "reader"))
  {
    ParseUndoesBuildIff(uuid, scope, if isWriter then WriterDisco else ReaderDisco, EntityAdminKey(p, isWriter, k, t));
    if isWriter { InnerReaderOfEntityKey(p, k, t); }
  }

  lemma InnerReaderOfEntityKey(p: string, k: string, t: string)
    requires NoSlash(p) && NoSlash(k) && p != "reader" && k != "reader"
    ensures NonFinalSegment(EntityAdminKey(p, true, k, t), "reader") <==> NonFinalSegment(t, "reader")
  {
    EntityKeySegments(p, true, k, t);
    var head, ts := ["participant", p, "writer", k], Segments(t);
    var segs := head + ts;
    assert segs == Segments(EntityAdminKey(p, true, k, t));
    assert head[0] != "reader" && head[1] != "reader" && head[2] != "reader" && head[3] != "reader";
    if j :| 0 <= j < |segs| - 1 && segs[j] == "reader" {
      assert j >= 4 && ts[j - 4] == "reader";
    }
    if j :| 0 <= j < |ts| - 1 && ts[j] == "reader" {
      assert segs[j + 4] == "reader";
    }
  }

  /** ROS graph messages end in one gid, so only the scope matters. */
  lemma RosKeyParsesIff(uuid: string, scope: Option<string>, gid: string)
    requires NoSlash(uuid) && NoSlash(gid)
    ensures ParseFwdKey(FwdKey(uuid, scope, RosDisco, gid)) == Some(FwdParsed(uuid, RosDisco, gid)) <==>
            "reader" !in ScopeSegments(scope) && "writer" !in ScopeSegments(scope) && "ros_disco" !in ScopeSegments(scope)
  {
    ParseUndoesBuildIff(uuid, scope, RosDisco, gid);
    SegmentsNoSlash(gid);
  }

  /** A topic with an inner segment `reader` makes a writer announcement read as a reader one. */
  lemma WriterKeyMisread(uuid: string, scope: Option<string>, p: string, k: string, t: string)
    requires NoSlash(uuid) && NoSlash(p) && NoSlash(k) && p != "reader" && k != "reader"
    requires NonFinalSegment(t, "reader")
    ensures var r := ParseFwdKey(FwdKey(uuid, scope, WriterDisco, EntityAdminKey(p, true, k, t)));
            r.Some? && r.value.kind == ReaderDisco
  {
    var rest := EntityAdminKey(p, true, k, t);
    ParseBuilt(uuid, scope, WriterDisco, rest);
    EntityKeySegments(p, true, k, t);
    FirstInteriorOfBody(scope, WriterDisco, rest, "reader");
    var ts := Segments(t);
    var j :| 0 <= j < |ts| - 1 && ts[j] == "reader";
    assert Segments(rest)[j + 4] == "reader";
  }

  /** In terms of the text: the word stands between slashes, where the text counts as beginning after one. */
  lemma NonFinalSegmentIff(t: string, word: string)
    requires NoSlash(word)
    ensures NonFinalSegment(t, word) <==> Contains("/" + t, "/" + word + "/")
  {
    var ts := Segments(t);
    var segs := [""] + ts;
    SegmentsPrepend("", t);
    assert Path("", t) == "/" + t == Join(segs);
    FindWord(segs, word);
    assert forall j :: 0 <= j < |ts| ==> segs[j + 1] == ts[j];
    if FirstInterior(segs, word).Some? { assert ts[FirstInterior(segs, word).value - 1] == word; }
    if j :| 0 <= j < |ts| - 1 && ts[j] == word { assert segs[j + 1] == word; }
  }
}
