/**
Key expressions as the bridge writes and reads them: the topic mapping, the admin-space keys, the
forwarded-discovery keys and the parser that takes those apart again with first-occurrence searches.
*/
module KeyExprs {
  import opened Wrappers

  const FWD_DISCO := "@dds_fwd_disco"
  const ROS_DISCOVERY_INFO := "ros_discovery_info"

  // ---------- substrings ----------

  predicate NoSlash(s: string) {
    '/' !in s
  }

  /** The `/` operator that joins key expressions. */
  function Path(a: string, b: string): string {
    a + "/" + b
  }

  predicate OccursAt(s: string, pattern: string, i: int) {
    0 <= i <= |s| - |pattern| && s[i..i + |pattern|] == pattern
  }

  /** `str::contains` */
  predicate Contains(s: string, pattern: string) {
    exists i :: 0 <= i <= |s| && OccursAt(s, pattern, i)
  }

  /** `str::ends_with` */
  predicate EndsWith(s: string, suffix: string) {
    |suffix| <= |s| && s[|s| - |suffix|..] == suffix
  }

  /** Walks back from one occurrence to the first. */
  lemma FirstOccurrence(s: string, pattern: string, at: nat) returns (i: nat)
    requires OccursAt(s, pattern, at)
    ensures OccursAt(s, pattern, i) && forall j :: 0 <= j < i ==> !OccursAt(s, pattern, j)
    decreases at
  {
    i := at;
    if k :| 0 <= k < at && OccursAt(s, pattern, k) {
      i := FirstOccurrence(s, pattern, k);
    }
  }

  lemma FirstOccurrenceExists(s: string, pattern: string)
    requires Contains(s, pattern)
    ensures exists i: nat :: OccursAt(s, pattern, i) && forall j :: 0 <= j < i ==> !OccursAt(s, pattern, j)
  {
    var at :| 0 <= at <= |s| && OccursAt(s, pattern, at);
    var i := FirstOccurrence(s, pattern, at);
  }

  /** `str::find`: the first occurrence. */
  ghost function Find(s: string, pattern: string): (r: Option<nat>)
    ensures r.Some? <==> Contains(s, pattern)
    ensures r.Some? ==> OccursAt(s, pattern, r.value)
    ensures r.Some? ==> forall i :: 0 <= i < r.value ==> !OccursAt(s, pattern, i)
  {
    if Contains(s, pattern) then
      FirstOccurrenceExists(s, pattern);
      var i: nat :| OccursAt(s, pattern, i) && forall j :: 0 <= j < i ==> !OccursAt(s, pattern, j);
      Some(i)
    else None
  }

  lemma FindIsFirst(s: string, pattern: string, i: nat)
    requires OccursAt(s, pattern, i)
    requires forall j :: 0 <= j < i ==> !OccursAt(s, pattern, j)
    ensures Find(s, pattern) == Some(i)
  {
  }

  lemma SlashAt(a: string, b: string)
    ensures Path(a, b)[|a|] == '/'
    ensures forall i :: 0 <= i < |a| ==> Path(a, b)[i] == a[i]
  {
  }

  /** The text before the first slash is determined by the whole. */
  lemma SplitAtSlash(a: string, b: string, c: string, d: string)
    requires NoSlash(a) && NoSlash(c)
    requires Path(a, b) == Path(c, d)
    ensures a == c && b == d
  {
    SlashAt(a, b);
    SlashAt(c, d);
    assert |a| == |c|;
    assert a == Path(a, b)[..|a|] && c == Path(c, d)[..|c|];
    assert b == Path(a, b)[|a| + 1..] && d == Path(c, d)[|c| + 1..];
  }

  /** Behind a head in which it can only start at the front, a pattern occurs there or in the rest. */
  lemma ContainsBehind(head: string, t: string, pattern: string)
    requires pattern != "" && head != "" && forall i :: 0 < i < |head| ==> head[i] != pattern[0]
    ensures Contains(head + t, pattern) <==> OccursAt(head + t, pattern, 0) || Contains(t, pattern)
  {
    var s := head + t;
    if i :| 0 <= i <= |s| && OccursAt(s, pattern, i) {
      assert s[i..i + |pattern|][0] == s[i];
      if i >= |head| {
        assert s[i..i + |pattern|] == t[i - |head|..i - |head| + |pattern|];
        assert OccursAt(t, pattern, i - |head|);
      }
    }
    if i :| 0 <= i <= |t| && OccursAt(t, pattern, i) {
      assert s[i + |head|..i + |head| + |pattern|] == t[i..i + |pattern|];
      assert OccursAt(s, pattern, i + |head|);
    }
  }

  // ---------- segments ----------

  ghost predicate AllSegments(segs: seq<string>) {
    forall s :: s in segs ==> NoSlash(s)
  }

  function Join(segs: seq<string>): string
    requires segs != []
  {
    if |segs| == 1 then segs[0] else Path(segs[0], Join(segs[1..]))
  }

  lemma SegmentsExist(s: string)
    ensures exists segs :: segs != [] && AllSegments(segs) && Join(segs) == s
    decreases |s|
  {
    var slash := Find(s, "/");
    if slash.None? {
      FirstSlash(s, |s|);
      assert Join([s]) == s;
      assert AllSegments([s]);
    } else {
      var i := slash.value;
      FirstSlash(s, i);
      SegmentsExist(s[i + 1..]);
      var rest :| rest != [] && AllSegments(rest) && Join(rest) == s[i + 1..];
      var segs := [s[..i]] + rest;
      assert segs[1..] == rest;
      assert s[i..i + 1] == "/";
      assert s == Path(s[..i], s[i + 1..]);
      assert AllSegments(segs) && Join(segs) == s;
    }
  }

  lemma FirstSlash(s: string, i: nat)
    requires i <= |s| && forall j :: 0 <= j < i ==> !OccursAt(s, "/", j)
    ensures NoSlash(s[..i])
  {
    forall j | 0 <= j < i ensures s[j] != '/' {
      assert s[j..j + 1] == [s[j]];
      assert !OccursAt(s, "/", j);
    }
  }

  /** The segments between slashes: the one sequence of slash-free texts that joins to `s`. */
  ghost function Segments(s: string): (r: seq<string>)
    ensures r != [] && AllSegments(r) && Join(r) == s
  {
    SegmentsExist(s);
    var segs :| segs != [] && AllSegments(segs) && Join(segs) == s;
    segs
  }

  lemma {:induction false} JoinInjective(a: seq<string>, b: seq<string>)
    requires a != [] && b != [] && AllSegments(a) && AllSegments(b) && Join(a) == Join(b)
    ensures a == b
    decreases |a|
  {
    JoinHasSlash(a);
    JoinHasSlash(b);
    if |a| == 1 {
      assert a == [a[0]] && b == [b[0]];
    } else {
      SplitAtSlash(a[0], Join(a[1..]), b[0], Join(b[1..]));
      JoinInjective(a[1..], b[1..]);
      assert a == [a[0]] + a[1..] && b == [b[0]] + b[1..];
    }
  }

  lemma JoinHasSlash(segs: seq<string>)
    requires segs != [] && AllSegments(segs)
    ensures NoSlash(Join(segs)) <==> |segs| == 1
  {
    if |segs| > 1 {
      SlashAt(segs[0], Join(segs[1..]));
    }
  }

  lemma {:induction false} JoinAppend(a: seq<string>, b: seq<string>)
    requires a != [] && b != []
    ensures Join(a + b) == Path(Join(a), Join(b))
    decreases |a|
  {
    if |a| == 1 {
      assert (a + b)[1..] == b;
    } else {
      assert (a + b)[1..] == a[1..] + b;
      JoinAppend(a[1..], b);
    }
  }

  lemma SegmentsOfJoin(segs: seq<string>)
    requires segs != [] && AllSegments(segs)
    ensures Segments(Join(segs)) == segs
  {
    JoinInjective(Segments(Join(segs)), segs);
  }

  lemma SegmentsAppend(a: string, b: string)
    ensures Segments(Path(a, b)) == Segments(a) + Segments(b)
  {
    JoinAppend(Segments(a), Segments(b));
    SegmentsOfJoin(Segments(a) + Segments(b));
  }

  lemma SegmentsNoSlash(s: string)
    requires NoSlash(s)
    ensures Segments(s) == [s]
  {
    SegmentsOfJoin([s]);
  }

  /** Index of the first segment equal to `word` that has a neighbour on both sides. */
  function FirstInterior(segs: seq<string>, word: string): (r: Option<nat>)
    ensures r.Some? ==> 0 < r.value < |segs| - 1 && segs[r.value] == word
    ensures forall j :: 0 < j < (if r.Some? then r.value else |segs| - 1) ==> segs[j] != word
  {
    if |segs| <= 2 then None
    else if segs[1] == word then Some(1)
    else match FirstInterior(segs[1..], word)
      case None => assert forall j :: 1 < j < |segs| - 1 ==> segs[j] == segs[1..][j - 1]; None
      case Some(j) => assert forall i :: 1 < i < j + 1 ==> segs[i] == segs[1..][i - 1]; Some(j + 1)
  }

  /** Searching `/word/` in the text is searching an interior segment. */
  lemma {:induction false} FindWord(segs: seq<string>, word: string)
    requires segs != [] && AllSegments(segs) && NoSlash(word)
    ensures Find(Join(segs), "/" + word + "/").Some? <==> FirstInterior(segs, word).Some?
    ensures FirstInterior(segs, word).Some? ==>
              var i := Find(Join(segs), "/" + word + "/").value;
              i + |word| + 2 <= |Join(segs)|
              && Join(segs)[i + |word| + 2..] == Join(segs[FirstInterior(segs, word).value + 1..])
    decreases |segs|
  {
    var pattern := "/" + word + "/";
    if |segs| == 1 {
      NoOccurrenceWithoutSlash(segs[0], pattern);
    } else {
      var tail := Join(segs[1..]);
      FindAfterSlash(segs[0], tail, pattern);
      WordAtFirstSlash(segs, word);
      FindWord(segs[1..], word);
      if |segs| > 2 && segs[1] != word && FirstInterior(segs[1..], word).Some? {
        var j := FirstInterior(segs[1..], word).value;
        assert segs[1..][j + 1..] == segs[j + 2..];
        var i := Find(tail, pattern).value;
        assert Join(segs)[|segs[0]| + 1 + i + |word| + 2..] == tail[i + |word| + 2..];
      }
    }
  }

  lemma OccurrencesStart(s: string, pattern: string)
    requires pattern != ""
    ensures forall i :: OccursAt(s, pattern, i) ==> 0 <= i < |s| && s[i] == pattern[0]
  {
  }

  lemma OccursOnOneSide(a: string, b: string, pattern: string, i: int)
    requires NoSlash(pattern) && pattern != "" && OccursAt(Path(a, b), pattern, i)
    ensures OccursAt(a, pattern, i) || OccursAt(b, pattern, i - |a| - 1)
  {
    var s := Path(a, b);
    assert forall j :: i <= j < i + |pattern| ==> s[j] == pattern[j - i] != '/';
    assert s[|a|] == '/' && !(i <= |a| < i + |pattern|);
    if i < |a| {
      assert a[i..i + |pattern|] == s[i..i + |pattern|];
    } else {
      assert b[i - |a| - 1..i - |a| - 1 + |pattern|] == s[i..i + |pattern|];
    }
  }

  lemma OccursBeforeSlash(a: string, b: string, pattern: string, i: int)
    requires OccursAt(a, pattern, i)
    ensures OccursAt(Path(a, b), pattern, i)
  {
    assert Path(a, b)[i..i + |pattern|] == a[i..i + |pattern|];
  }

  /** Text without slash lies within one side of a slash. */
  lemma ContainsInPath(a: string, b: string, pattern: string)
    requires NoSlash(pattern) && pattern != ""
    ensures Contains(Path(a, b), pattern) <==> Contains(a, pattern) || Contains(b, pattern)
  {
    assert |Path(a, b)| == |a| + |b| + 1;
    if i :| 0 <= i <= |Path(a, b)| && OccursAt(Path(a, b), pattern, i) { OccursOnOneSide(a, b, pattern, i); }
    if i :| 0 <= i <= |a| && OccursAt(a, pattern, i) { OccursBeforeSlash(a, b, pattern, i); }
    if i :| 0 <= i <= |b| && OccursAt(b, pattern, i) { OccurrenceShifts(a, b, pattern, i); }
  }

  lemma NoOccurrenceWithoutSlash(s: string, pattern: string)
    requires NoSlash(s) && pattern != "" && pattern[0] == '/'
    ensures !Contains(s, pattern)
  {
    OccurrencesStart(s, pattern);
  }

  lemma OccurrenceAfterSlash(a: string, tail: string, pattern: string, i: int)
    requires NoSlash(a) && pattern != "" && pattern[0] == '/'
    requires OccursAt(Path(a, tail), pattern, i) && i != |a|
    ensures i > |a| && OccursAt(tail, pattern, i - |a| - 1)
  {
    SlashAt(a, tail);
    OccurrencesStart(Path(a, tail), pattern);
    assert Path(a, tail)[i..i + |pattern|] == tail[i - |a| - 1..i - |a| - 1 + |pattern|];
  }

  lemma OccurrenceShifts(a: string, tail: string, pattern: string, i: int)
    requires OccursAt(tail, pattern, i)
    ensures OccursAt(Path(a, tail), pattern, |a| + 1 + i)
  {
    assert Path(a, tail)[|a| + 1 + i..|a| + 1 + i + |pattern|] == tail[i..i + |pattern|];
  }

  lemma FindAfterSlash(a: string, tail: string, pattern: string)
    requires NoSlash(a) && pattern != "" && pattern[0] == '/'
    ensures Find(Path(a, tail), pattern) ==
            if OccursAt(Path(a, tail), pattern, |a|) then Some(|a|)
            else if Find(tail, pattern).Some? then Some(|a| + 1 + Find(tail, pattern).value)
            else None
  {
    var s, f, g := Path(a, tail), Find(Path(a, tail), pattern), Find(tail, pattern);
    if f.Some? && f.value != |a| {
      OccurrenceAfterSlash(a, tail, pattern, f.value);
    }
    if g.Some? {
      OccurrenceShifts(a, tail, pattern, g.value);
    }
  }

  lemma WordAtFirstSlash(segs: seq<string>, word: string)
    requires |segs| > 1 && AllSegments(segs) && NoSlash(word)
    ensures OccursAt(Join(segs), "/" + word + "/", |segs[0]|) <==> |segs| > 2 && segs[1] == word
    ensures |segs| > 2 && segs[1] == word ==>
              |segs[0]| + |word| + 2 <= |Join(segs)| && Join(segs)[|segs[0]| + |word| + 2..] == Join(segs[2..])
  {
    var tail := Join(segs[1..]);
    JoinHasSlash(segs[1..]);
    OccursAtFirstSlash(segs[0], tail, word);
    if |segs| > 2 {
      assert segs[1..][1..] == segs[2..];
      assert tail == Path(segs[1], Join(segs[2..]));
      if |word| < |tail| && tail == Path(word, tail[|word| + 1..]) {
        SplitAtSlash(word, tail[|word| + 1..], segs[1], Join(segs[2..]));
      }
      assert segs[1] == word ==> tail[|word| + 1..] == Join(segs[2..]);
      assert Join(segs)[|segs[0]| + 1..] == tail;
    }
  }

  lemma OccursAtFirstSlash(a: string, tail: string, word: string)
    requires NoSlash(word)
    ensures OccursAt(Path(a, tail), "/" + word + "/", |a|) <==> |word| < |tail| && tail == Path(word, tail[|word| + 1..])
    ensures |word| < |tail| && tail == Path(word, tail[|word| + 1..]) ==> !NoSlash(tail)
  {
    var s, pattern := Path(a, tail), "/" + word + "/";
    assert s[|a|..] == "/" + tail;
    if OccursAt(s, pattern, |a|) {
      assert s[|a|..][..|pattern|] == pattern;
      assert tail[..|word| + 1] == pattern[1..];
      assert tail == Path(word, tail[|word| + 1..]);
    }
    if |word| < |tail| && tail == Path(word, tail[|word| + 1..]) {
      SlashAt(word, tail[|word| + 1..]);
      assert s == a + pattern + tail[|word| + 1..];
    }
  }

  lemma SegmentsPrepend(a: string, b: string)
    requires NoSlash(a)
    ensures Segments(Path(a, b)) == [a] + Segments(b)
  {
    SegmentsAppend(a, b);
    SegmentsNoSlash(a);
  }
}
