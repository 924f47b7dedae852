/** Paths of uploaded files: their segments, and the directories they lie under. */
module FolderPaths {

  function Normalize(path: string): string {
    if path == "" then "" else [if path[0] == '\\' then '/' else path[0]] + Normalize(path[1..])
  }

  /** Where the segment at the front ends. */
  function SegmentEnd(path: string): (k: nat)
    ensures k <= |path| && '/' !in path[..k] && (k < |path| ==> path[k] == '/')
    ensures path != "" && path[0] != '/' ==> k > 0
  {
    if path == "" || path[0] == '/' then 0
    else
      var k := SegmentEnd(path[1..]);
      assert path[..k + 1] == [path[0]] + path[1..][..k];
      k + 1
  }

  /** The path cut at its slashes, without the empty pieces. */
  function Segments(path: string): (segs: seq<string>)
    ensures AreSegments(segs)
    decreases |path|
  {
    if path == "" then []
    else if path[0] == '/' then Segments(path[1..])
    else [path[..SegmentEnd(path)]] + Segments(path[SegmentEnd(path)..])
  }

  predicate IsSegment(s: string) {
    s != "" && '/' !in s
  }

  predicate AreSegments(segs: seq<string>) {
    forall k :: 0 <= k < |segs| ==> IsSegment(segs[k])
  }

  function Join(segs: seq<string>): string {
    if segs == [] then "" else if |segs| == 1 then segs[0] else segs[0] + "/" + Join(segs[1..])
  }

  lemma {:induction false} JoinInTwo(segs: seq<string>, d: nat)
    requires 0 < d < |segs|
    ensures Join(segs) == Join(segs[..d]) + "/" + Join(segs[d..])
  {
    var rest := segs[1..];
    if d == 1 {
      assert segs[..1] == [segs[0]] && segs[1..] == rest;
    } else {
      JoinInTwo(rest, d - 1);
      assert segs[..d][1..] == rest[..d - 1] && segs[..d][0] == segs[0] && rest[d - 1..] == segs[d..];
      Regroup(segs[0], Join(rest[..d - 1]), Join(segs[d..]));
    }
  }

  lemma Regroup(a: string, b: string, c: string)
    ensures a + "/" + (b + "/" + c) == (a + "/" + b) + "/" + c
  {}

  lemma SegmentEndIs(s: string, rest: string)
    requires '/' !in s && (rest == "" || rest[0] == '/')
    ensures SegmentEnd(s + rest) == |s|
  {
    var path := s + rest;
    var k := SegmentEnd(path);
    assert forall j :: 0 <= j < k ==> path[j] == path[..k][j] && path[..k][j] in path[..k];
    assert forall j :: 0 <= j < |s| ==> path[j] == s[j] && s[j] in s;
    assert rest != "" ==> path[|s|] == rest[0];
  }

  /** Joined segments are cut into the same segments. */
  lemma {:induction false} SegmentsOfJoin(segs: seq<string>)
    requires AreSegments(segs)
    ensures Segments(Join(segs)) == segs
  {
    if |segs| == 1 {
      SegmentEndIs(segs[0], "");
      assert segs[0] + "" == segs[0] && segs[0][0] in segs[0];
      assert segs[0][..|segs[0]|] == segs[0] && segs[0][|segs[0]|..] == "";
    } else if |segs| > 1 {
      var first, rest := segs[0], Join(segs[1..]);
      SegmentsOfJoin(segs[1..]);
      var path := first + ("/" + rest);
      assert Join(segs) == path;
      SegmentEndIs(first, "/" + rest);
      assert path[0] == first[0] && first[0] in first;
      assert path[..|first|] == first && path[|first|..] == "/" + rest;
      assert ("/" + rest)[1..] == rest;
      assert Segments(path) == [first] + Segments("/" + rest);
    }
  }

  /** Different segment lists never share a path. */
  lemma JoinInjective(a: seq<string>, b: seq<string>)
    requires AreSegments(a) && AreSegments(b) && Join(a) == Join(b)
    ensures a == b
  {
    SegmentsOfJoin(a);
    SegmentsOfJoin(b);
  }

  /** The path lies under the directory: it starts with the directory's path and a slash. */
  predicate LiesUnder(dir: string, path: string) {
    dir + "/" <= path
  }

  /** What a path lies under is exactly its proper prefixes. */
  lemma {:induction false} UnderPrefix(segs: seq<string>, d: nat)
    requires 0 < d < |segs|
    ensures LiesUnder(Join(segs[..d]), Join(segs))
  {
    JoinInTwo(segs, d);
  }

  lemma {:induction false} UnderOnlyPrefixes(dir: string, segs: seq<string>) returns (d: nat)
    requires AreSegments(segs) && LiesUnder(dir, Join(segs))
    ensures 0 < d < |segs| && dir == Join(segs[..d])
  {
    var first, path := segs[0], Join(segs);
    assert path[|dir|] == (dir + "/")[|dir|] == '/';
    assert |segs| == 1 ==> path == first;
    assert forall k :: 0 <= k < |first| ==> path[k] == first[k] && first[k] in first;
    assert |dir| >= |first| && |segs| > 1;
    var rest := Join(segs[1..]);
    assert path == first + "/" + rest;
    if |dir| == |first| {
      assert dir == path[..|first|] == first;
      assert segs[..1] == [first];
      d := 1;
    } else {
      var tail := dir[|first| + 1..];
      assert dir == path[..|dir|] == first + "/" + tail;
      assert tail + "/" == (dir + "/")[|first| + 1..] && rest == path[|first| + 1..];
      assert tail + "/" <= rest;
      var e := UnderOnlyPrefixes(tail, segs[1..]);
      assert segs[..e + 1][1..] == segs[1..][..e] && segs[..e + 1][0] == first;
      d := e + 1;
    }
  }

  /** One directory is the other's parent. */
  predicate IsChild(dir: string, child: string) {
    LiesUnder(dir, child) && IsSegment(child[|dir| + 1..])
  }

  lemma ChildOfParent(segs: seq<string>)
    requires |segs| > 1 && AreSegments(segs)
    ensures IsChild(Join(segs[..|segs| - 1]), Join(segs))
  {
    var d := |segs| - 1;
    JoinInTwo(segs, d);
    assert segs[d..] == [segs[d]];
    var dir := Join(segs[..d]);
    assert (dir + "/" + segs[d])[|dir| + 1..] == segs[d];
  }

  /** A directory has one parent. */
  lemma ChildOnlyOfParent(dir: string, segs: seq<string>)
    requires AreSegments(segs) && IsChild(dir, Join(segs))
    ensures |segs| > 1 && dir == Join(segs[..|segs| - 1])
  {
    hide Join, LiesUnder, AreSegments;
    var d := UnderOnlyPrefixes(dir, segs);
    JoinInTwo(segs, d);
    JoinHasSlash(segs[d..]);
    AfterSlash(dir, Join(segs[d..]));
    assert |segs[d..]| == |segs| - d;
  }

  lemma AfterSlash(dir: string, rest: string)
    ensures (dir + "/" + rest)[|dir| + 1..] == rest
  {}

  lemma JoinHasSlash(segs: seq<string>)
    ensures |segs| > 1 ==> '/' in Join(segs)
  {
    if |segs| > 1 {
      assert Join(segs)[|segs[0]|] == '/';
    }
  }

  // ---------------------------------------------------------------------------------------
  // Paths as they are written

  predicate IsSlash(c: char) {
    c == '/' || c == '\\'
  }

  predicate AllSlashes(s: string) {
    forall k :: 0 <= k < |s| ==> IsSlash(s[k])
  }

  predicate IsName(s: string) {
    s != "" && forall k :: 0 <= k < |s| ==> !IsSlash(s[k])
  }

  /** The names, each behind a run of slashes of either kind, and a last run. */
  function Written(runs: seq<string>, names: seq<string>): string
    requires |runs| == |names| + 1
  {
    if names == [] then runs[0] else runs[0] + names[0] + Written(runs[1..], names[1..])
  }

  /** All runs consist of slashes, and those between two names are not empty. */
  predicate AreRuns(runs: seq<string>, names: seq<string>) {
    && |runs| == |names| + 1
    && (forall k :: 0 <= k < |runs| ==> AllSlashes(runs[k]))
    && (forall k :: 0 < k < |names| ==> runs[k] != "")
  }

  lemma {:induction false} NormalizeInTwo(a: string, b: string)
    ensures Normalize(a + b) == Normalize(a) + Normalize(b)
  {
    if a == "" {
      assert a + b == b;
    } else {
      assert (a + b)[1..] == a[1..] + b;
      NormalizeInTwo(a[1..], b);
    }
  }

  lemma {:induction false} NormalizedName(name: string)
    requires forall k :: 0 <= k < |name| ==> !IsSlash(name[k])
    ensures Normalize(name) == name && '/' !in name
  {
    if name != "" {
      NormalizedName(name[1..]);
      assert name == [name[0]] + name[1..];
    }
  }

  lemma {:induction false} SlashesSkipped(run: string, rest: string)
    requires AllSlashes(run)
    ensures Segments(Normalize(run) + rest) == Segments(rest)
    ensures run != "" ==> Normalize(run) != "" && Normalize(run)[0] == '/'
  {
    if run == "" {
      assert "" + rest == rest;
    } else {
      var path := Normalize(run) + rest;
      assert path[0] == '/' && path[1..] == Normalize(run[1..]) + rest;
      SlashesSkipped(run[1..], rest);
    }
  }

  lemma NameTaken(name: string, rest: string)
    requires name != "" && '/' !in name && (rest == "" || rest[0] == '/')
    ensures Segments(name + rest) == [name] + Segments(rest)
  {
    SegmentEndIs(name, rest);
    var path := name + rest;
    assert path[0] == name[0] && name[0] in name && path[..|name|] == name && path[|name|..] == rest;
  }

  lemma StartsWithRun(runs: seq<string>, names: seq<string>)
    requires AreRuns(runs, names) && (names != [] ==> runs[0] != "")
    ensures var path := Normalize(Written(runs, names)); path == "" || path[0] == '/'
  {
    var run := runs[0];
    if names != [] {
      assert Written(runs, names)[0] == run[0];
    }
  }

  lemma {:induction false} NamesOf(runs: seq<string>, names: seq<string>)
    requires AreRuns(runs, names) && forall k :: 0 <= k < |names| ==> IsName(names[k])
    ensures Segments(Normalize(Written(runs, names))) == names
    decreases |names|
  {
    hide Segments, Normalize, IsSlash;
    if names == [] {
      SlashesSkipped(runs[0], "");
      assert Normalize(runs[0]) + "" == Normalize(runs[0]);
      assert Segments("") == [] by { SegmentsOfJoin([]); }
    } else {
      var rest := Written(runs[1..], names[1..]);
      NamesOf(runs[1..], names[1..]);
      NormalizeInTwo(runs[0] + names[0], rest);
      NormalizeInTwo(runs[0], names[0]);
      NormalizedName(names[0]);
      SlashesSkipped(runs[0], names[0] + Normalize(rest));
      StartsWithRun(runs[1..], names[1..]);
      NameTaken(names[0], Normalize(rest));
      assert Normalize(runs[0]) + names[0] + Normalize(rest) == Normalize(runs[0]) + (names[0] + Normalize(rest));
    }
  }
}
