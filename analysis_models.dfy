/**
 * Value types shared by the grouping tools: the per-file change record of the repository
 * analysis, the pattern-analysis input, and the proposed PR group and grouping strategy.
 * Their Python definitions live in modules that are not part of this model; the fields
 * here are the ones the core reads or writes. An empty string stands for a missing string
 * field (Python treats `None` and `""` alike in every test the core makes).
 */
module AnalysisModels {
  import opened Wrappers
  import opened Seqs

  /** One changed file as the repository analysis reports it. */
  datatype FileChange = FileChange(path: string, directory: string, extension: string)

  /** A naming pattern: files whose names match the pattern `patternType`. */
  datatype NamingPattern = NamingPattern(patternType: string, matches: seq<string>)

  /** Files sharing a common base name. */
  datatype SimilarNameGroup = SimilarNameGroup(basePattern: string, files: seq<string>)

  /** Files sharing a common prefix or suffix `patternValue`. */
  datatype CommonPatternGroup = CommonPatternGroup(patternValue: string, files: seq<string>)

  datatype CommonPatterns = CommonPatterns(
    commonPrefixes: seq<CommonPatternGroup>,
    commonSuffixes: seq<CommonPatternGroup>)

  /** The optional pattern-analysis result; empty lists stand for missing ones. */
  datatype PatternAnalysis = PatternAnalysis(
    namingPatterns: seq<NamingPattern>,
    similarNames: seq<SimilarNameGroup>,
    commonPatterns: Option<CommonPatterns>)

  /** A proposed PR group. */
  datatype PRGroup = PRGroup(
    title: string,
    files: seq<string>,
    rationale: string,
    featureFocus: Option<string>,
    directoryFocus: Option<string>,
    estimatedSize: nat)

  /** The grouping strategies of the file grouper, with their wire values. */
  datatype StrategyType = DirectoryBased | FeatureBased | ModuleBased | SizeBalanced | Mixed {
    function Value(): string {
      match this
      case DirectoryBased => "directory_based"
      case FeatureBased => "feature_based"
      case ModuleBased => "module_based"
      case SizeBalanced => "size_balanced"
      case Mixed => "mixed"
    }
  }

  /** `GroupingStrategyType(value)`: the member with that value, if any. */
  function ParseStrategyType(value: string): (r: Option<StrategyType>)
    ensures r.Some? ==> r.value.Value() == value
    ensures r.None? ==> forall s: StrategyType :: s.Value() != value
  {
    if value == "directory_based" then Some(DirectoryBased)
    else if value == "feature_based" then Some(FeatureBased)
    else if value == "module_based" then Some(ModuleBased)
    else if value == "size_balanced" then Some(SizeBalanced)
    else if value == "mixed" then Some(Mixed)
    else None
  }

  /** The grouping of one batch (`PRGroupingStrategy`). */
  datatype GroupingResult = GroupingResult(
    strategyType: StrategyType,
    groups: seq<PRGroup>,
    ungroupedFiles: seq<string>)

  /** Every path that occurs in some group. */
  function Grouped(gs: seq<PRGroup>): set<string> {
    if gs == [] then {} else Grouped(gs[..|gs| - 1]) + Elems(gs[|gs| - 1].files)
  }

  lemma GroupedAppend(gs: seq<PRGroup>, g: PRGroup)
    ensures Grouped(gs + [g]) == Grouped(gs) + Elems(g.files)
  {
    assert (gs + [g])[..|gs|] == gs;
  }

  lemma {:induction false} GroupedMember(gs: seq<PRGroup>, p: string)
    ensures p in Grouped(gs) <==> exists i :: 0 <= i < |gs| && p in gs[i].files
  {
    if gs != [] {
      var init := gs[..|gs| - 1];
      GroupedMember(init, p);
      if p in Grouped(init) {
        var i :| 0 <= i < |init| && p in init[i].files;
        assert gs[i] == init[i];
      }
      if exists i :: 0 <= i < |gs| && p in gs[i].files {
        var i :| 0 <= i < |gs| && p in gs[i].files;
        if i < |gs| - 1 {
          assert init[i] == gs[i];
        }
      }
    }
  }

  /** The groups' file lists concatenated in group order. */
  function AllGroupFiles(gs: seq<PRGroup>): seq<string> {
    if gs == [] then [] else AllGroupFiles(gs[..|gs| - 1]) + gs[|gs| - 1].files
  }

  lemma AllGroupFilesAppend(gs: seq<PRGroup>, g: PRGroup)
    ensures AllGroupFiles(gs + [g]) == AllGroupFiles(gs) + g.files
  {
    assert (gs + [g])[..|gs|] == gs;
  }

  lemma {:induction false} GroupedIsAllFiles(gs: seq<PRGroup>)
    ensures Grouped(gs) == Elems(AllGroupFiles(gs))
  {
    if gs != [] {
      GroupedIsAllFiles(gs[..|gs| - 1]);
    }
  }

  /** No path occurs in two different groups. */
  ghost predicate PairwiseDisjoint(gs: seq<PRGroup>) {
    forall i, j, p :: 0 <= i < |gs| && 0 <= j < |gs| && i != j && p in gs[i].files ==> p !in gs[j].files
  }

  /** A group none of whose files is grouped yet keeps the groups disjoint. */
  lemma DisjointSnoc(gs: seq<PRGroup>, g: PRGroup)
    requires PairwiseDisjoint(gs)
    requires forall p :: p in g.files ==> p !in Grouped(gs)
    ensures PairwiseDisjoint(gs + [g])
  {
    var all := gs + [g];
    forall i, j, p | 0 <= i < |all| && 0 <= j < |all| && i != j && p in all[i].files
      ensures p !in all[j].files
    {
      GroupedMember(gs, p);
      if i < |gs| {
        assert all[i] == gs[i];
      }
      if j < |gs| {
        assert all[j] == gs[j];
      }
    }
  }

  lemma DisjointPrefix(gs: seq<PRGroup>, g: PRGroup)
    requires PairwiseDisjoint(gs + [g])
    ensures PairwiseDisjoint(gs)
    ensures forall p :: p in g.files ==> p !in Grouped(gs)
  {
    var all := gs + [g];
    forall i, j, p | 0 <= i < |gs| && 0 <= j < |gs| && i != j && p in gs[i].files
      ensures p !in gs[j].files
    {
      assert all[i] == gs[i] && all[j] == gs[j];
    }
    forall p | p in g.files
      ensures p !in Grouped(gs)
    {
      GroupedMember(gs, p);
      forall i | 0 <= i < |gs|
        ensures p !in gs[i].files
      {
        assert all[i] == gs[i] && all[|gs|] == g;
      }
    }
  }

  /** No group is empty. */
  ghost predicate AllNonEmpty(gs: seq<PRGroup>) {
    forall i :: 0 <= i < |gs| ==> |gs[i].files| > 0
  }
}
