/** The path group of a changed file (src/core/analyzer/rules.py). */
module PathGroups {
  import opened Basics
  import opened Text

  /** `str.strip("/")`. */
  function StripSlashes(s: string): (r: string)
    ensures s != "" && s[0] != '/' && s[|s| - 1] != '/' ==> r == s
    decreases |s|
  {
    if s == "" then s
    else if s[0] == '/' then StripSlashes(s[1..])
    else if s[|s| - 1] == '/' then StripSlashes(s[..|s| - 1])
    else s
  }

  /** `s.split("/")`. */
  function SplitSlashes(s: string): seq<string>
    decreases |s|
  {
    var b := Before(s, '/');
    if |b| >= |s| then [s] else [b] + SplitSlashes(s[|b| + 1..])
  }

  /** A component that `PurePosixPath.parts` keeps. */
  predicate IsPart(p: string) {
    p != "" && p != "."
  }

  /** `PurePosixPath(path).parts` of a relative path. */
  function Parts(path: string): seq<string> {
    Filter(IsPart, SplitSlashes(path))
  }

  /** The group as a function of the parts; without parts the code indexes an empty tuple and raises. */
  function GroupOf(parts: seq<string>): Option<string> {
    if parts == [] then None
    else if |parts| <= 2 && !(parts[0] == ".github" && |parts| == 2) then Some(parts[0])
    else if parts[0] == ".github" then Some(Join("/", parts[..2]))
    else Some(Join("/", parts[..|parts| - 1]))
  }

  /** `_path_group_for_file`. */
  function PathGroup(path: string): Option<string> {
    var clean := StripSlashes(path);
    if clean == "" then Some("unknown") else GroupOf(Parts(clean))
  }

  /** Grouping raises exactly on a path that is not only slashes but has no component besides `.`. */
  lemma GroupingRaisesIff(path: string)
    ensures PathGroup(path).None?
            <==> StripSlashes(path) != "" && forall p <- SplitSlashes(StripSlashes(path)) :: !IsPart(p)
  {
    var clean := StripSlashes(path);
    NoPartsIff(SplitSlashes(clean));
    NoGroupIff(Parts(clean));
    assert clean != "" ==> PathGroup(path) == GroupOf(Parts(clean));
  }

  /** A path of slashes alone has no name to go by. */
  lemma {:induction false} SlashesAreUnknown(path: string)
    requires forall c <- path :: c == '/'
    ensures StripSlashes(path) == "" && PathGroup(path) == Some("unknown")
  {
    if path != "" {
      assert path[0] in path && forall c <- path[1..] :: c in path;
      SlashesAreUnknown(path[1..]);
    }
  }

  lemma DotPathRaises()
    ensures PathGroup("./") == None
  {
    assert StripSlashes("./") == StripSlashes(".") == ".";
    GroupingRaisesIff("./");
    assert SplitSlashes(".") == ["."];
  }

  lemma NoGroupIff(parts: seq<string>)
    ensures GroupOf(parts).None? <==> parts == []
  {
  }

  lemma NoPartsIff(ps: seq<string>)
    ensures Filter(IsPart, ps) == [] <==> forall p <- ps :: !IsPart(p)
  {
    if Filter(IsPart, ps) == [] {
      forall p <- ps ensures !IsPart(p) {
        assert IsPart(p) ==> p in Filter(IsPart, ps);
      }
    } else {
      var p := Filter(IsPart, ps)[0];
      assert p in ps && IsPart(p);
    }
  }

  // Normal paths

  /** A component as repositories have them. */
  predicate Component(p: string) {
    IsPart(p) && '/' !in p
  }

  lemma {:induction false} SplitJoined(parts: seq<string>)
    requires parts != [] && forall p <- parts :: '/' !in p
    ensures SplitSlashes(Join("/", parts)) == parts
  {
    if |parts| == 1 {
      BeforeIs(parts[0], '/', "");
      assert parts[0] + "" == parts[0];
    } else {
      var rest := Join("/", parts[1..]);
      var s := Join("/", parts);
      assert s == parts[0] + ("/" + rest);
      BeforeIs(parts[0], '/', "/" + rest);
      assert s[|parts[0]| + 1..] == rest;
      assert parts[0] in parts;
      hide Before, Join;
      SplitJoined(parts[1..]);
      assert [parts[0]] + parts[1..] == parts;
    }
  }

  lemma {:induction false} JoinedEnds(parts: seq<string>)
    requires parts != [] && forall p <- parts :: Component(p)
    ensures var s := Join("/", parts);
            s != "" && s[0] != '/' && s[|s| - 1] != '/'
  {
    assert Component(parts[0]) && parts[0][0] in parts[0] && parts[0][|parts[0]| - 1] in parts[0];
    if |parts| > 1 {
      var rest := Join("/", parts[1..]);
      JoinedEnds(parts[1..]);
      assert Join("/", parts) == parts[0] + "/" + rest;
    }
  }

  /** The parts of a joined path are the parts it was joined from, and so determine its group. */
  lemma PartsOfJoined(parts: seq<string>)
    requires parts != [] && forall p <- parts :: Component(p)
    ensures Parts(Join("/", parts)) == parts && PathGroup(Join("/", parts)) == GroupOf(parts)
  {
    SplitJoined(parts);
    FilterAll(IsPart, parts);
    JoinedEnds(parts);
  }

  /** The group of a file is a leading piece of its path, never the whole of a path with directories. */
  lemma GroupIsPrefix(parts: seq<string>)
    requires parts != []
    ensures exists n :: 1 <= n <= |parts| && (n == |parts| ==> |parts| == 1 || (parts[0] == ".github" && n == 2))
                        && GroupOf(parts) == Some(Join("/", parts[..n]))
  {
    if |parts| <= 2 && !(parts[0] == ".github" && |parts| == 2) {
      assert parts[..1] == [parts[0]];
      assert GroupOf(parts) == Some(Join("/", parts[..1]));
    } else if parts[0] == ".github" {
      assert GroupOf(parts) == Some(Join("/", parts[..2]));
    } else {
      assert GroupOf(parts) == Some(Join("/", parts[..|parts| - 1]));
    }
  }

  /** The three kinds of groups: a lone file or a file in a top directory is grouped by its first component, a file
      under `.github` by its first two, any other file by its directory. */
  lemma GroupReads(ps: seq<string>)
    requires ps != [] && forall p <- ps :: Component(p)
    ensures |ps| == 1 ==> PathGroup(Join("/", ps)) == Some(ps[0])
    ensures |ps| == 2 && ps[0] != ".github" ==> PathGroup(Join("/", ps)) == Some(ps[0])
    ensures |ps| >= 2 && ps[0] == ".github" ==> PathGroup(Join("/", ps)) == Some(".github" + "/" + ps[1])
    ensures |ps| > 2 && ps[0] != ".github" ==> PathGroup(Join("/", ps)) == Some(Join("/", ps[..|ps| - 1]))
  {
    hide *;
    PartsOfJoined(ps);
    GroupOfReads(ps);
  }

  lemma GroupOfReads(ps: seq<string>)
    requires ps != []
    ensures |ps| == 1 ==> GroupOf(ps) == Some(ps[0])
    ensures |ps| == 2 && ps[0] != ".github" ==> GroupOf(ps) == Some(ps[0])
    ensures |ps| >= 2 && ps[0] == ".github" ==> GroupOf(ps) == Some(".github" + "/" + ps[1])
    ensures |ps| > 2 && ps[0] != ".github" ==> GroupOf(ps) == Some(Join("/", ps[..|ps| - 1]))
  {
    hide Join;
    if |ps| >= 2 && ps[0] == ".github" {
      assert ps[..2] == [ps[0], ps[1]];
      JoinTwo(ps[0], ps[1]);
    }
  }

  lemma JoinTwo(a: string, b: string)
    ensures Join("/", [a, b]) == a + "/" + b
  {
    assert [a, b][1..] == [b];
  }

  /** Files at least two directories deep, outside `.github`, share a group exactly when they share a directory. */
  lemma SameGroupIffSameDirectory(ps: seq<string>, qs: seq<string>)
    requires |ps| > 2 && |qs| > 2 && ps[0] != ".github" && qs[0] != ".github"
    requires (forall p <- ps :: Component(p)) && (forall q <- qs :: Component(q))
    ensures PathGroup(Join("/", ps)) == PathGroup(Join("/", qs)) <==> ps[..|ps| - 1] == qs[..|qs| - 1]
  {
    PartsOfJoined(ps);
    PartsOfJoined(qs);
    PartsOfJoined(ps[..|ps| - 1]);
    PartsOfJoined(qs[..|qs| - 1]);
  }
}
