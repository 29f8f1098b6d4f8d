/**
 * `GroupingService.suggest_pr_boundaries`: a strategy name selects semantic, directory,
 * dependency or hybrid grouping. Semantic and dependency grouping return fixed placeholder
 * lists in the original; here those lists are inputs. Directory grouping reads the
 * analysis' `patterns.directory_groups` dictionary; hybrid grouping keeps the semantic
 * groups and adds the directory groups that share no file with them.
 */
module GroupingService {
  import opened Wrappers

  /** A suggested group: the `{"name": ..., "files": [...]}` dictionary. */
  datatype NamedGroup = NamedGroup(name: string, files: seq<string>)

  /** The `directory_groups` dictionary as its items in insertion order. */
  type DirectoryItems = seq<(string, seq<string>)>

  /** The parts of the repository analysis the service reads; `None` is a missing key. */
  datatype Patterns = Patterns(directoryGroups: Option<DirectoryItems>)
  datatype Analysis = Analysis(patterns: Option<Patterns>)

  /** `analysis.get("patterns", {}).get("directory_groups", {})`. */
  function DirectoryGroupsOf(analysis: Analysis): (items: DirectoryItems)
    ensures analysis.patterns.None? ==> items == []
    ensures analysis.patterns.Some? && analysis.patterns.value.directoryGroups.None? ==> items == []
    ensures analysis.patterns.Some? && analysis.patterns.value.directoryGroups.Some? ==>
      items == analysis.patterns.value.directoryGroups.value
  {
    match analysis.patterns
    case None => []
    case Some(p) => p.directoryGroups.GetOr([])
  }

  /** The group name for a directory. */
  function DirectoryTitle(directory: string): string {
    "Changes in " + directory
  }

  /** One group per directory with a non-empty file list, in dictionary order. */
  function GroupsOfDirectories(items: DirectoryItems): seq<NamedGroup> {
    if items == [] then []
    else
      var item := items[|items| - 1];
      GroupsOfDirectories(items[..|items| - 1])
        + (if item.1 != [] then [NamedGroup(DirectoryTitle(item.0), item.1)] else [])
  }

  /** `_directory_grouping`. */
  method DirectoryGrouping(analysis: Analysis, maxFilesPerPr: int) returns (groups: seq<NamedGroup>)
    ensures groups == GroupsOfDirectories(DirectoryGroupsOf(analysis))
  {
    var directoryGroups := DirectoryGroupsOf(analysis);
    groups := [];
    for i := 0 to |directoryGroups|
      invariant groups == GroupsOfDirectories(directoryGroups[..i])
    {
      assert directoryGroups[..i + 1][..i] == directoryGroups[..i];
      var (directory, files) := directoryGroups[i];
      if files != [] {
        groups := groups + [NamedGroup(DirectoryTitle(directory), files)];
      }
    }
    assert directoryGroups[..|directoryGroups|] == directoryGroups;
  }

  /** Some file of `g` is listed by some semantic group. */
  predicate Overlaps(g: NamedGroup, semantic: seq<NamedGroup>) {
    exists f, j :: f in g.files && 0 <= j < |semantic| && f in semantic[j].files
  }

  /** The directory groups that share no file with any semantic group, in order. */
  function DisjointGroups(directory: seq<NamedGroup>, semantic: seq<NamedGroup>): seq<NamedGroup> {
    if directory == [] then []
    else
      var g := directory[|directory| - 1];
      DisjointGroups(directory[..|directory| - 1], semantic) + (if Overlaps(g, semantic) then [] else [g])
  }

  /** `_hybrid_grouping`: semantic groups first, then the disjoint directory groups. */
  function Hybrid(semantic: seq<NamedGroup>, directory: seq<NamedGroup>): seq<NamedGroup> {
    semantic + DisjointGroups(directory, semantic)
  }

  /** The strategy names with a handler of their own. */
  const KnownStrategies: set<string> := {"semantic", "directory", "dependency", "hybrid"}

  /** `suggest_pr_boundaries`; `semantic` and `dependency` are what the two placeholder handlers return. */
  function Boundaries(analysis: Analysis, strategy: string, maxFilesPerPr: int,
                      semantic: seq<NamedGroup>, dependency: seq<NamedGroup>): seq<NamedGroup> {
    if strategy == "semantic" then semantic
    else if strategy == "directory" then GroupsOfDirectories(DirectoryGroupsOf(analysis))
    else if strategy == "dependency" then dependency
    else Hybrid(semantic, GroupsOfDirectories(DirectoryGroupsOf(analysis)))
  }

  /** `suggest_pr_boundaries`, running the directory loop. */
  method SuggestPRBoundaries(analysis: Analysis, strategy: string, maxFilesPerPr: int,
                             semantic: seq<NamedGroup>, dependency: seq<NamedGroup>)
    returns (groups: seq<NamedGroup>)
    ensures groups == Boundaries(analysis, strategy, maxFilesPerPr, semantic, dependency)
  {
    if strategy == "semantic" {
      groups := semantic;
    } else if strategy == "directory" {
      groups := DirectoryGrouping(analysis, maxFilesPerPr);
    } else if strategy == "dependency" {
      groups := dependency;
    } else {
      var directory := DirectoryGrouping(analysis, maxFilesPerPr);
      groups := Hybrid(semantic, directory);
    }
  }

  // =======================================================================================
  // Properties
  // =======================================================================================

  /** `g` is the group emitted for the dictionary item `item`. */
  predicate EmittedFor(item: (string, seq<string>), g: NamedGroup) {
    item.1 != [] && g == NamedGroup(DirectoryTitle(item.0), item.1)
  }

  /**
   * A group is emitted iff its directory's list is non-empty; it is named after the
   * directory and carries that list unchanged.
   */
  lemma {:induction false} GroupsOfDirectoriesSpec(items: DirectoryItems)
    ensures forall g :: g in GroupsOfDirectories(items) <==> exists i :: 0 <= i < |items| && EmittedFor(items[i], g)
  {
    if items != [] {
      var n := |items| - 1;
      var init := items[..n];
      var last := if items[n].1 != [] then [NamedGroup(DirectoryTitle(items[n].0), items[n].1)] else [];
      assert GroupsOfDirectories(items) == GroupsOfDirectories(init) + last;
      GroupsOfDirectoriesSpec(init);
      forall g
        ensures g in GroupsOfDirectories(items) <==> exists i :: 0 <= i < |items| && EmittedFor(items[i], g)
      {
        if g in GroupsOfDirectories(init) {
          var i :| 0 <= i < |init| && EmittedFor(init[i], g);
          assert items[i] == init[i];
        } else if g in last {
          assert EmittedFor(items[n], g);
        }
        if exists i :: 0 <= i < |items| && EmittedFor(items[i], g) {
          var i :| 0 <= i < |items| && EmittedFor(items[i], g);
          if i < n {
            assert init[i] == items[i];
          }
        }
      }
    }
  }

  /** No emitted group is empty, and there are at most as many groups as directories. */
  lemma GroupsOfDirectoriesBounds(items: DirectoryItems)
    ensures forall g :: g in GroupsOfDirectories(items) ==> g.files != []
    ensures |GroupsOfDirectories(items)| <= |items|
  {
    GroupsOfDirectoriesSpec(items);
    GroupsOfDirectoriesLength(items);
  }

  lemma {:induction false} GroupsOfDirectoriesLength(items: DirectoryItems)
    ensures |GroupsOfDirectories(items)| <= |items|
  {
    if items != [] {
      GroupsOfDirectoriesLength(items[..|items| - 1]);
    }
  }

  /** When every directory list is non-empty, each directory becomes one group, in order. */
  lemma {:induction false} AllDirectoriesKept(items: DirectoryItems)
    requires forall i :: 0 <= i < |items| ==> items[i].1 != []
    ensures |GroupsOfDirectories(items)| == |items|
    ensures forall i :: 0 <= i < |items| ==>
      GroupsOfDirectories(items)[i] == NamedGroup(DirectoryTitle(items[i].0), items[i].1)
  {
    if items != [] {
      var n := |items| - 1;
      AllDirectoriesKept(items[..n]);
    }
  }

  /** Without `patterns` or without `directory_groups`, directory grouping yields no group. */
  lemma MissingPatternsNoGroups(analysis: Analysis)
    requires analysis.patterns.None? || analysis.patterns.value.directoryGroups.None?
    ensures GroupsOfDirectories(DirectoryGroupsOf(analysis)) == []
  {
  }

  /**
   * The kept directory groups are exactly those, in order, that share no file with any
   * semantic group; an overlapping group is dropped whole.
   */
  lemma {:induction false} DisjointGroupsSpec(directory: seq<NamedGroup>, semantic: seq<NamedGroup>)
    ensures forall g :: g in DisjointGroups(directory, semantic) <==> g in directory && !Overlaps(g, semantic)
    ensures |DisjointGroups(directory, semantic)| <= |directory|
  {
    if directory != [] {
      var n := |directory| - 1;
      var init := directory[..n];
      DisjointGroupsSpec(init, semantic);
      assert directory == init + [directory[n]];
    }
  }

  /** When no directory group overlaps, all of them are kept. */
  lemma {:induction false} NoOverlapKeepsAll(directory: seq<NamedGroup>, semantic: seq<NamedGroup>)
    requires forall i :: 0 <= i < |directory| ==> !Overlaps(directory[i], semantic)
    ensures DisjointGroups(directory, semantic) == directory
  {
    if directory != [] {
      var n := |directory| - 1;
      var init := directory[..n];
      assert forall i :: 0 <= i < |init| ==> init[i] == directory[i];
      NoOverlapKeepsAll(init, semantic);
      assert directory == init + [directory[n]];
    }
  }

  /**
   * Hybrid grouping outputs the semantic groups first, unchanged and in order, then exactly
   * the directory groups that share no file with any of them.
   */
  lemma HybridSpec(semantic: seq<NamedGroup>, directory: seq<NamedGroup>)
    ensures |Hybrid(semantic, directory)| >= |semantic|
    ensures Hybrid(semantic, directory)[..|semantic|] == semantic
    ensures forall g :: g in Hybrid(semantic, directory)[|semantic|..] <==> g in directory && !Overlaps(g, semantic)
    ensures forall k, f, j ::
      |semantic| <= k < |Hybrid(semantic, directory)| && f in Hybrid(semantic, directory)[k].files && 0 <= j < |semantic|
      ==> f !in semantic[j].files
    ensures semantic == [] ==> Hybrid(semantic, directory) == directory
  {
    var kept := DisjointGroups(directory, semantic);
    var r := Hybrid(semantic, directory);
    DisjointGroupsSpec(directory, semantic);
    assert r[..|semantic|] == semantic;
    assert r[|semantic|..] == kept;
    forall k, f, j | |semantic| <= k < |r| && f in r[k].files && 0 <= j < |semantic|
      ensures f !in semantic[j].files
    {
      assert r[k] == kept[k - |semantic|];
      assert r[k] in kept;
    }
    if semantic == [] {
      forall i | 0 <= i < |directory|
        ensures !Overlaps(directory[i], semantic)
      {
      }
      NoOverlapKeepsAll(directory, semantic);
    }
  }

  /** Each known strategy name runs its own handler; any other name falls back to hybrid. */
  lemma DispatchSpec(analysis: Analysis, strategy: string, maxFilesPerPr: int,
                     semantic: seq<NamedGroup>, dependency: seq<NamedGroup>)
    ensures strategy == "semantic" ==> Boundaries(analysis, strategy, maxFilesPerPr, semantic, dependency) == semantic
    ensures strategy == "directory" ==>
      Boundaries(analysis, strategy, maxFilesPerPr, semantic, dependency) == GroupsOfDirectories(DirectoryGroupsOf(analysis))
    ensures strategy == "dependency" ==> Boundaries(analysis, strategy, maxFilesPerPr, semantic, dependency) == dependency
    ensures strategy !in KnownStrategies ==>
      Boundaries(analysis, strategy, maxFilesPerPr, semantic, dependency) ==
      Boundaries(analysis, "hybrid", maxFilesPerPr, semantic, dependency)
  {
  }

  /** No handler reads `max_files_per_pr`. */
  lemma MaxFilesIgnored(analysis: Analysis, strategy: string, m1: int, m2: int,
                        semantic: seq<NamedGroup>, dependency: seq<NamedGroup>)
    ensures Boundaries(analysis, strategy, m1, semantic, dependency) == Boundaries(analysis, strategy, m2, semantic, dependency)
  {
  }
}
