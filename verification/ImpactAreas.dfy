/** Impact areas and diff statistics of a pull request (src/core/analyzer/rules.py, types.py). */
module ImpactAreas {
  import opened Basics
  import PathGroups
  import Text

  datatype FileStatus = Added | Modified | Removed | Renamed | Copied | Changed | Unchanged | Unknown

  datatype File = File(path: string, status: FileStatus, additions: int, deletions: int)

  datatype Area = Area(name: string, files: seq<File>)

  /** Python's order on strings, by code points. */
  predicate Less(a: string, b: string) {
    if b == "" then false
    else if a == "" then true
    else a[0] < b[0] || (a[0] == b[0] && Less(a[1..], b[1..]))
  }

  /** Up to `k` the same, and there `a` ends or has the smaller character. */
  predicate FirstDiffers(a: string, b: string, k: nat) {
    k <= |a| && k < |b| && a[..k] == b[..k] && (k == |a| || a[k] < b[k])
  }

  /** The order of strings in Python. */
  lemma {:induction false} LessReads(a: string, b: string)
    ensures Less(a, b) <==> exists k :: 0 <= k <= |a| && FirstDiffers(a, b, k)
  {
    if b != "" && a == "" {
      assert FirstDiffers(a, b, 0);
    } else if b != "" {
      LessReads(a[1..], b[1..]);
      if a[0] < b[0] {
        assert FirstDiffers(a, b, 0);
      }
      if a[0] == b[0] && Less(a[1..], b[1..]) {
        var k :| 0 <= k <= |a[1..]| && FirstDiffers(a[1..], b[1..], k);
        assert a[..k + 1] == [a[0]] + a[1..][..k] && b[..k + 1] == [b[0]] + b[1..][..k];
        assert FirstDiffers(a, b, k + 1);
      }
      if k :| 0 <= k <= |a| && FirstDiffers(a, b, k) {
        if k > 0 {
          assert a[0] == a[..k][0] == b[..k][0] == b[0];
          assert a[1..][..k - 1] == a[..k][1..] && b[1..][..k - 1] == b[..k][1..];
          assert FirstDiffers(a[1..], b[1..], k - 1);
        }
      }
    }
  }

  lemma {:induction false} LessIsTotal(a: string, b: string)
    ensures Less(a, b) || a == b || Less(b, a)
  {
    if a != "" && b != "" && a[0] == b[0] {
      LessIsTotal(a[1..], b[1..]);
      assert a == [a[0]] + a[1..] && b == [b[0]] + b[1..];
    }
  }

  lemma {:induction false} LessIsTransitive(a: string, b: string, c: string)
    requires Less(a, b) && Less(b, c)
    ensures Less(a, c)
  {
    if a != "" && a[0] == b[0] == c[0] {
      LessIsTransitive(a[1..], b[1..], c[1..]);
    }
  }

  lemma {:induction false} LessIsIrreflexive(a: string)
    ensures !Less(a, a)
  {
    if a != "" {
      LessIsIrreflexive(a[1..]);
    }
  }

  predicate Ascending(keys: seq<string>) {
    forall i, j :: 0 <= i < j < |keys| ==> Less(keys[i], keys[j])
  }

  function Insert(key: string, keys: seq<string>): (r: seq<string>)
    ensures multiset(r) == multiset(keys) + multiset{key}
  {
    if keys == [] || Less(key, keys[0]) then
      [key] + keys
    else
      assert keys == [keys[0]] + keys[1..];
      [keys[0]] + Insert(key, keys[1..])
  }

  /** `sorted` of a dictionary's keys, which are distinct. */
  function Sorted(keys: seq<string>): (r: seq<string>)
    ensures multiset(r) == multiset(keys)
  {
    if keys == [] then [] else
      assert keys == [keys[0]] + keys[1..];
      Insert(keys[0], Sorted(keys[1..]))
  }

  lemma {:induction false} InsertKeepsAscending(key: string, keys: seq<string>)
    requires Ascending(keys) && key !in keys
    ensures Ascending(Insert(key, keys))
  {
    if keys != [] {
      if Less(key, keys[0]) {
        forall j | 0 <= j < |keys| ensures Less(key, keys[j]) {
          if j > 0 {
            LessIsTransitive(key, keys[0], keys[j]);
          }
        }
      } else {
        LessIsTotal(key, keys[0]);
        InsertKeepsAscending(key, keys[1..]);
        var r := Insert(key, keys[1..]);
        forall j | 0 <= j < |r| ensures Less(keys[0], r[j]) {
          assert r[j] in multiset(r);
          if r[j] != key {
            var i :| 0 <= i < |keys[1..]| && keys[1..][i] == r[j];
            assert keys[i + 1] == r[j];
          }
        }
      }
    }
  }

  lemma SameElements(xs: seq<string>, ys: seq<string>)
    requires multiset(xs) == multiset(ys)
    ensures |xs| == |ys| && forall x :: x in xs <==> x in ys
  {
    assert |multiset(xs)| == |xs| && |multiset(ys)| == |ys|;
    forall x ensures x in xs <==> x in ys {
      assert x in xs <==> x in multiset(xs);
      assert x in ys <==> x in multiset(ys);
    }
  }

  lemma {:induction false} SortedAscends(keys: seq<string>)
    requires NoDuplicates(keys)
    ensures Ascending(Sorted(keys))
  {
    if keys != [] {
      SortedAscends(keys[1..]);
      SameElements(Sorted(keys[1..]), keys[1..]);
      assert forall i :: 0 <= i < |keys[1..]| ==> keys[1..][i] == keys[i + 1];
      InsertKeepsAscending(keys[0], Sorted(keys[1..]));
    }
  }

  // Grouping

  type Grouping = File -> Option<string>

  function ByPath(): Grouping {
    (f: File) => PathGroups.PathGroup(f.path)
  }

  /** The files of one group, in input order. */
  function Of(group: Grouping, key: string, files: seq<File>): seq<File> {
    Filter((f: File) => group(f) == Some(key), files)
  }

  /** The dictionary after grouping: each key holds its files, in the order of `files`. */
  ghost predicate Grouped(group: Grouping, files: seq<File>, keys: seq<string>, grouped: map<string, seq<File>>) {
    && NoDuplicates(keys)
    && (forall key :: key in keys <==> key in grouped)
    && (forall key <- grouped :: grouped[key] == Of(group, key, files) && grouped[key] != [])
    && (forall f <- files :: group(f).Some? && group(f).value in grouped)
  }

  lemma OneMoreFile(group: Grouping, key: string, files: seq<File>, f: File)
    ensures Of(group, key, files + [f]) == Of(group, key, files) + (if group(f) == Some(key) then [f] else [])
  {
    FilterAppend((x: File) => group(x) == Some(key), files, [f]);
  }

  lemma {:induction false} NoFileYet(group: Grouping, key: string, files: seq<File>)
    requires forall f <- files :: group(f) != Some(key)
    ensures Of(group, key, files) == []
  {
    if files != [] {
      assert files[0] in files;
      NoFileYet(group, key, files[1..]);
    }
  }

  /** `setdefault(group, []).append(file)`. */
  lemma GroupedStep(group: Grouping, files: seq<File>, keys: seq<string>, grouped: map<string, seq<File>>, f: File)
    requires Grouped(group, files, keys, grouped) && group(f).Some?
    ensures var key := group(f).value;
            var before := if key in grouped then grouped[key] else [];
            Grouped(group, files + [f], if key in grouped then keys else keys + [key], grouped[key := before + [f]])
  {
    hide Of;
    var key := group(f).value;
    var before := if key in grouped then grouped[key] else [];
    var grouped' := grouped[key := before + [f]];
    if key !in grouped {
      NoFileYet(group, key, files);
    }
    forall k <- grouped' ensures grouped'[k] == Of(group, k, files + [f]) && grouped'[k] != [] {
      OneMoreFile(group, k, files, f);
    }
  }

  /** `_build_impact_areas`: none exactly if some path has no component besides `.`, otherwise one area per path group
      that occurs. */
  method BuildImpactAreas(files: seq<File>) returns (areas: Option<seq<Area>>)
    ensures areas.None? <==> exists f <- files :: HasNoPart(f.path)
    ensures areas.Some? ==> AreasOf(ByPath(), files, areas.value)
  {
    PathsGroup(files);
    areas := GroupFiles(ByPath(), files);
  }

  /** Not only slashes, but no component besides `.`. */
  ghost predicate HasNoPart(path: string) {
    var clean := PathGroups.StripSlashes(path);
    clean != "" && forall p <- PathGroups.SplitSlashes(clean) :: !PathGroups.IsPart(p)
  }

  lemma PathsGroup(files: seq<File>)
    ensures forall f <- files :: ByPath()(f).None? <==> HasNoPart(f.path)
  {
    forall f <- files ensures ByPath()(f).None? <==> HasNoPart(f.path) {
      PathGroups.GroupingRaisesIff(f.path);
    }
  }

  /** The two loops, for any way of grouping. */
  method GroupFiles(group: Grouping, files: seq<File>) returns (areas: Option<seq<Area>>)
    ensures areas.None? <==> exists f <- files :: group(f).None?
    ensures areas.Some? ==> AreasOf(group, files, areas.value)
  {
    hide Of, AreasOf;
    var keys: seq<string> := [];
    var grouped: map<string, seq<File>> := map[];
    for n := 0 to |files|
      invariant Grouped(group, files[..n], keys, grouped)
    {
      var g := group(files[n]);
      if g.None? {
        assert files[n] in files;
        return None;
      }
      assert files[..n + 1] == files[..n] + [files[n]];
      GroupedStep(group, files[..n], keys, grouped, files[n]);
      keys := if g.value in grouped then keys else keys + [g.value];
      grouped := grouped[g.value := (if g.value in grouped then grouped[g.value] else []) + [files[n]]];
    }
    assert files[..|files|] == files;
    var out := AreasFrom(group, files, keys, grouped);
    return Some(out);
  }

  /** One area per key, in sorted order. */
  method AreasFrom(group: Grouping, files: seq<File>, keys: seq<string>, grouped: map<string, seq<File>>)
    returns (out: seq<Area>)
    requires Grouped(group, files, keys, grouped)
    ensures AreasOf(group, files, out)
  {
    hide Sorted, Less, Of;
    var names := Sorted(keys);
    SortedAscends(keys);
    SameElements(names, keys);
    out := [];
    for k := 0 to |names|
      invariant |out| == k
      invariant forall i :: 0 <= i < k ==> names[i] in grouped && out[i] == Area(names[i], grouped[names[i]])
    {
      assert names[k] in names;
      out := out + [Area(names[k], grouped[names[k]])];
    }
    forall f <- files ensures exists i :: 0 <= i < |out| && group(f) == Some(out[i].name) {
      var i :| 0 <= i < |names| && names[i] == group(f).value;
      assert out[i].name == names[i];
    }
  }

  /** Areas strictly sorted by name, one for each group that occurs, each with exactly its files in input order. */
  ghost predicate AreasOf(group: Grouping, files: seq<File>, areas: seq<Area>) {
    && (forall i, j :: 0 <= i < j < |areas| ==> Less(areas[i].name, areas[j].name))
    && (forall i :: 0 <= i < |areas| ==> areas[i].files == Of(group, areas[i].name, files) && areas[i].files != [])
    && (forall f <- files :: exists i :: 0 <= i < |areas| && group(f) == Some(areas[i].name))
  }

  /** Two files at least two directories deep, outside `.github`, are in the same area exactly if they are in the same
      directory. */
  lemma SameAreaIffSameDirectory(files: seq<File>, areas: seq<Area>, f: File, g: File, ps: seq<string>, qs: seq<string>)
    requires AreasOf(ByPath(), files, areas) && f in files && g in files
    requires f.path == Text.Join("/", ps) && g.path == Text.Join("/", qs)
    requires |ps| > 2 && |qs| > 2 && ps[0] != ".github" && qs[0] != ".github"
    requires (forall p <- ps :: PathGroups.Component(p)) && (forall q <- qs :: PathGroups.Component(q))
    ensures (exists i :: 0 <= i < |areas| && f in areas[i].files && g in areas[i].files)
            <==> ps[..|ps| - 1] == qs[..|qs| - 1]
  {
    hide AreasOf, Text.Join, PathGroups.Component, PathGroups.PathGroup;
    PathGroups.SameGroupIffSameDirectory(ps, qs);
    TogetherIff(ByPath(), files, areas, f, g);
  }

  lemma TogetherIff(group: Grouping, files: seq<File>, areas: seq<Area>, f: File, g: File)
    requires AreasOf(group, files, areas) && f in files && g in files
    ensures (exists i :: 0 <= i < |areas| && f in areas[i].files && g in areas[i].files) <==> group(f) == group(g)
  {
    hide Less;
    var i :| 0 <= i < |areas| && group(f) == Some(areas[i].name);
    var of := (x: File) => group(x) == Some(areas[i].name);
    assert areas[i].files == Filter(of, files);
    assert f in areas[i].files;
    assert group(f) == group(g) ==> of(g);
    if j :| 0 <= j < |areas| && f in areas[j].files && g in areas[j].files {
      assert areas[j].files == Of(group, areas[j].name, files);
    }
  }

  /** There is only one such list of areas. */
  lemma {:induction false} AreasAreUnique(group: Grouping, files: seq<File>, xs: seq<Area>, ys: seq<Area>)
    requires AreasOf(group, files, xs) && AreasOf(group, files, ys)
    ensures xs == ys
  {
    forall i | 0 <= i < |xs| ensures xs[i] in ys {
      AreaOccurs(group, files, xs, ys, i);
    }
    forall i | 0 <= i < |ys| ensures ys[i] in xs {
      AreaOccurs(group, files, ys, xs, i);
    }
    SameAscending(xs, ys);
  }

  lemma AreaOccurs(group: Grouping, files: seq<File>, xs: seq<Area>, ys: seq<Area>, i: nat)
    requires AreasOf(group, files, xs) && AreasOf(group, files, ys) && i < |xs|
    ensures xs[i] in ys
  {
    var f := xs[i].files[0];
    assert f in Of(group, xs[i].name, files);
    var k :| 0 <= k < |ys| && group(f) == Some(ys[k].name);
    assert ys[k] == xs[i];
  }

  predicate AscendingAreas(xs: seq<Area>) {
    forall i, j :: 0 <= i < j < |xs| ==> Less(xs[i].name, xs[j].name)
  }

  /** Two ascending lists with the same elements are the same list. */
  lemma {:induction false} SameAscending(xs: seq<Area>, ys: seq<Area>)
    requires AscendingAreas(xs) && AscendingAreas(ys)
    requires (forall i :: 0 <= i < |xs| ==> xs[i] in ys) && (forall i :: 0 <= i < |ys| ==> ys[i] in xs)
    ensures xs == ys
  {
    hide AscendingAreas;
    if ys != [] {
      assert ys[0] in xs;
    }
    if xs != [] {
      assert xs[0] in ys;
      FirstsAgree(xs, ys);
      RestOccurs(xs, ys);
      RestOccurs(ys, xs);
      RestAscends(xs);
      RestAscends(ys);
      SameAscending(xs[1..], ys[1..]);
      assert xs == [xs[0]] + xs[1..] && ys == [ys[0]] + ys[1..];
    }
  }

  lemma RestAscends(xs: seq<Area>)
    requires AscendingAreas(xs) && xs != []
    ensures AscendingAreas(xs[1..])
  {
    hide Less;
    assert forall i :: 0 <= i < |xs[1..]| ==> xs[1..][i] == xs[i + 1];
  }

  lemma FirstsAgree(xs: seq<Area>, ys: seq<Area>)
    requires AscendingAreas(xs) && AscendingAreas(ys) && xs != [] && ys != []
    requires xs[0] in ys && ys[0] in xs
    ensures xs[0] == ys[0]
  {
    var i :| 0 <= i < |ys| && ys[i] == xs[0];
    var j :| 0 <= j < |xs| && xs[j] == ys[0];
    if i > 0 && j > 0 {
      LessIsTransitive(xs[0].name, ys[0].name, xs[0].name);
      LessIsIrreflexive(xs[0].name);
    }
  }

  lemma RestOccurs(xs: seq<Area>, ys: seq<Area>)
    requires AscendingAreas(xs) && xs != [] && ys != [] && xs[0] == ys[0]
    requires forall i :: 0 <= i < |xs| ==> xs[i] in ys
    ensures forall i :: 0 <= i < |xs[1..]| ==> xs[1..][i] in ys[1..]
  {
    forall i | 0 <= i < |xs[1..]| ensures xs[1..][i] in ys[1..] {
      assert xs[1..][i] == xs[i + 1];
      LessIsIrreflexive(xs[0].name);
      var j :| 0 <= j < |ys| && ys[j] == xs[i + 1];
      assert j > 0;
      assert ys[1..][j - 1] == ys[j];
    }
  }

  // Conservation

  function TotalFiles(areas: seq<Area>): nat {
    if areas == [] then 0 else |areas[0].files| + TotalFiles(areas[1..])
  }

  /** One area more exactly where the file belongs. */
  lemma {:induction false} TotalGrows(group: Grouping, names: seq<string>, files: seq<File>, f: File)
    requires NoDuplicates(names)
    ensures TotalOf(group, names, files + [f])
         == TotalOf(group, names, files) + (if group(f).Some? && group(f).value in names then 1 else 0)
  {
    if names != [] {
      assert forall i :: 0 <= i < |names[1..]| ==> names[1..][i] == names[i + 1];
      OneMoreFile(group, names[0], files, f);
      TotalGrows(group, names[1..], files, f);
      assert names == [names[0]] + names[1..];
    }
  }

  function TotalOf(group: Grouping, names: seq<string>, files: seq<File>): nat {
    if names == [] then 0 else |Of(group, names[0], files)| + TotalOf(group, names[1..], files)
  }

  lemma {:induction false} TotalIsCount(group: Grouping, names: seq<string>, files: seq<File>)
    requires NoDuplicates(names)
    requires forall f <- files :: group(f).Some? && group(f).value in names
    ensures TotalOf(group, names, files) == |files|
  {
    if files == [] {
      TotalOfNothing(group, names);
    } else {
      var rest, last := files[..|files| - 1], files[|files| - 1];
      assert files == rest + [last];
      TotalIsCount(group, names, rest);
      TotalGrows(group, names, rest, last);
    }
  }

  lemma {:induction false} TotalOfNothing(group: Grouping, names: seq<string>)
    ensures TotalOf(group, names, []) == 0
  {
    if names != [] {
      TotalOfNothing(group, names[1..]);
    }
  }

  function Names(areas: seq<Area>): (r: seq<string>)
    ensures |r| == |areas| && forall i :: 0 <= i < |areas| ==> r[i] == areas[i].name
  {
    Map((a: Area) => a.name, areas)
  }

  lemma {:induction false} TotalsAgree(group: Grouping, files: seq<File>, areas: seq<Area>)
    requires forall i :: 0 <= i < |areas| ==> areas[i].files == Of(group, areas[i].name, files)
    ensures TotalFiles(areas) == TotalOf(group, Names(areas), files)
  {
    if areas != [] {
      TotalsAgree(group, files, areas[1..]);
      assert Names(areas)[1..] == Names(areas[1..]);
    }
  }

  /** Every file is in exactly one area: the areas of a file are those of its group, of which there is one, and
      together the areas hold as many files as were changed. */
  lemma AreasPartition(group: Grouping, files: seq<File>, areas: seq<Area>)
    requires AreasOf(group, files, areas)
    ensures TotalFiles(areas) == |files|
    ensures forall i, f :: 0 <= i < |areas| && f in files ==> (f in areas[i].files <==> group(f) == Some(areas[i].name))
    ensures forall i, j :: 0 <= i < j < |areas| ==> areas[i].name != areas[j].name
  {
    forall i, j | 0 <= i < j < |areas| ensures areas[i].name != areas[j].name {
      LessIsIrreflexive(areas[i].name);
    }
    assert NoDuplicates(Names(areas));
    forall f <- files ensures group(f).Some? && group(f).value in Names(areas) {
      var i :| 0 <= i < |areas| && group(f) == Some(areas[i].name);
      assert Names(areas)[i] == areas[i].name;
    }
    TotalIsCount(group, Names(areas), files);
    TotalsAgree(group, files, areas);
    forall i, f | 0 <= i < |areas| && f in files ensures f in areas[i].files <==> group(f) == Some(areas[i].name) {
      var of := (x: File) => group(x) == Some(areas[i].name);
      assert of(f) ==> f in Filter(of, files);
    }
  }

  // Statistics

  datatype Stats = Stats(
    filesChanged: nat, additions: int, deletions: int,
    added: nat, modified: nat, removed: nat, renamed: nat, copied: nat, untouched: nat, unknown: nat)

  function Sum(of: File -> int, files: seq<File>): int {
    if files == [] then 0 else of(files[0]) + Sum(of, files[1..])
  }

  function Count(p: File -> bool, files: seq<File>): nat {
    |Filter(p, files)|
  }

  /** The counting part of `_diff_stats`; changed files count as modified. */
  function DiffStats(files: seq<File>): Stats {
    Stats(|files|, Sum((f: File) => f.additions, files), Sum((f: File) => f.deletions, files),
          Count((f: File) => f.status.Added?, files),
          Count((f: File) => f.status.Modified? || f.status.Changed?, files),
          Count((f: File) => f.status.Removed?, files),
          Count((f: File) => f.status.Renamed?, files),
          Count((f: File) => f.status.Copied?, files),
          Count((f: File) => f.status.Unchanged?, files),
          Count((f: File) => f.status.Unknown?, files))
  }

  /** Every file is counted by its own status, once, with its own lines; `Changed` counts as modified. */
  lemma EveryFileIsCounted(files: seq<File>, f: File)
    ensures var s, t := DiffStats(files), DiffStats(files + [f]);
            && (t.filesChanged, t.additions, t.deletions)
               == (s.filesChanged + 1, s.additions + f.additions, s.deletions + f.deletions)
            && t.added == s.added + (if f.status == Added then 1 else 0)
            && t.modified == s.modified + (if f.status == Modified || f.status == Changed then 1 else 0)
            && t.removed == s.removed + (if f.status == Removed then 1 else 0)
            && t.renamed == s.renamed + (if f.status == Renamed then 1 else 0)
            && t.copied == s.copied + (if f.status == Copied then 1 else 0)
            && t.untouched == s.untouched + (if f.status == Unchanged then 1 else 0)
            && t.unknown == s.unknown + (if f.status == Unknown then 1 else 0)
  {
    hide Count, Sum;
    SumAppended((x: File) => x.additions, files, f);
    SumAppended((x: File) => x.deletions, files, f);
    CountAppended((x: File) => x.status.Added?, files, f);
    CountAppended((x: File) => x.status.Modified? || x.status.Changed?, files, f);
    CountAppended((x: File) => x.status.Removed?, files, f);
    CountAppended((x: File) => x.status.Renamed?, files, f);
    CountAppended((x: File) => x.status.Copied?, files, f);
    CountAppended((x: File) => x.status.Unchanged?, files, f);
    CountAppended((x: File) => x.status.Unknown?, files, f);
  }

  lemma NothingIsCounted()
    ensures DiffStats([]) == Stats(0, 0, 0, 0, 0, 0, 0, 0, 0, 0)
  {
  }

  lemma {:induction false} SumAppended(of: File -> int, files: seq<File>, f: File)
    ensures Sum(of, files + [f]) == Sum(of, files) + of(f)
  {
    if files == [] {
      assert files + [f] == [f] && [f][1..] == [];
    } else {
      assert (files + [f])[1..] == files[1..] + [f];
      SumAppended(of, files[1..], f);
    }
  }

  lemma CountAppended(p: File -> bool, files: seq<File>, f: File)
    ensures Count(p, files + [f]) == Count(p, files) + (if p(f) then 1 else 0)
  {
    FilterAppend(p, files, [f]);
    assert [f][1..] == [];
  }

  /** The seven status counters add up to the number of changed files. */
  lemma {:induction false} CountersAddUp(files: seq<File>)
    ensures var s := DiffStats(files);
            s.added + s.modified + s.removed + s.renamed + s.copied + s.untouched + s.unknown == s.filesChanged
  {
    if files != [] {
      CountersAddUp(files[1..]);
    }
  }
}
