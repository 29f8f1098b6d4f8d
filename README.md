# PR recommender core, modelled in Dafny

The PR recommender takes the outstanding changes of a git working tree and proposes how
to split them into pull requests. This project models the deterministic core of that
pipeline and proves properties about it:

- **Batch splitter** (`BatchSplitter`): cuts the changed files into batches. It can count
  files, group them by the naming patterns of a pattern analysis, or pack them greedily by
  an estimated review complexity.
- **File grouper** (`FileGrouper`): turns one batch into PR groups. The strategy is one of
  directory, file extension ("module"), two size-balanced halves, pattern features, or
  features followed by directories ("mixed"). It then drops empty groups, fills in default
  titles and rationales, and reports the files it left ungrouped.
- **Group validator** (`GroupValidator`): strips control characters from a proposed
  grouping, decodes it, and reports the following:
  - empty groups;
  - files placed more than once;
  - on the final validation, any ungrouped files.
- **Validation service** (`Validation`): applies the configured rules to each group and
  collects errors and warnings per group. The rules are size, cohesion, dependency
  completeness, test coverage, balance of additions and deletions, and cross-module spread.
- **Grouping service** (`GroupingService`): suggests PR boundaries by semantic, directory,
  dependency or hybrid grouping.
- **Git models** (`GitModels`): the git-status record of a changed file and its
  classification.

`AnalysisModels` holds the value types several tools share: the file change record, the
pattern analysis, the PR group and the grouping strategy. `Wrappers` (Option, Result),
`Seqs` (filters, association lists, dictionaries in insertion order) and `Text` (string
helpers) are generic support.

How the source becomes Dafny:
- **Loops** become methods with loop invariants. Each such method is proved equal to a
  specification function of its inputs, and the properties are lemmas about those functions.
- **Stateful objects:** the closure state of `_group_by_feature` becomes the
  `FeatureClaimer` class, and the validation service becomes the `ValidationService` class.
- **Dictionaries** become a `map` together with the sequence of its keys in insertion
  order, or an association list.
- **Exceptions** become the `Failure` of a `Result`.
- **Floating-point weights** become exact `real`s.

## Behaviour as written

The model follows the code where it departs from what its comments and messages intend:

- `dependency_check` (`src/services/validation_service.py:143-144`): the conditional
  expression binds looser than `+`. So the message is the empty string whenever at most
  three dependencies are missing, and the examples appear only when there are more than
  three. `Validation.DependencyCheckSpec` states this.
- `test_coverage` (`src/services/validation_service.py:164`): the rule calls `re.search`,
  but the module never imports `re`. When `require_tests` is set (it defaults to false),
  the group has a file and there is a test pattern, the rule raises `NameError`. `validate_pr_groups` does not catch it, so it
  escapes the service. `Validation.TestCoverage` and `Validation.ValidateAllSpec` state
  this.
- `_group_mixed` (`src/tools/file_grouper_tool.py:247-264`): the feature groups already
  cover the whole batch and never share a file. So the de-duplication never removes
  anything, and the directory fallback never runs. `FileGrouper.MixedIsFeature` proves the
  mixed strategy equals the feature strategy.
- The wire values of `GroupingStrategyType` are defined in a module that is not part of
  this model. The model takes them to be `directory_based`, `feature_based`,
  `module_based`, `size_balanced` and `mixed`.

## Model

| member | source | states |
|---|---|---|
| GitModels.TotalChanges | src/pr_recommender/models/git_models.py:16-23 | The total is at least each non-negative count; the total minus the added lines is the deleted lines; the total is zero iff both counts are zero. |
| GitModels.StagedWins | src/pr_recommender/models/git_models.py:26-29 | A staged file is classified "staged" whatever its status code. |
| GitModels.UnstagedClassification | src/pr_recommender/models/git_models.py:26-35 | For an unstaged file there are three disjoint cases: "untracked" iff the code is "?", "tracked" iff the code is one of M, A, D, R, C, U, and "unknown" otherwise. |
| GitModels.TrackedChangeIffTrackedType | src/pr_recommender/models/git_models.py:47-50 | `is_tracked_change` holds exactly when `file_type` is "tracked". |
| GitModels.UntrackedIgnoresStaged | src/pr_recommender/models/git_models.py:37-40 | `is_untracked` depends on the status code alone, so a staged "?" file is untracked while its type is "staged". |
| GitModels.AllChangedFiles | src/pr_recommender/models/git_models.py:87-90 | The working-directory files come first, then the staged files, each list in its own order; nothing is lost or added. |
| AnalysisModels.ParseStrategyType | src/tools/file_grouper_tool.py:48-53 | A parsed strategy carries exactly the given wire value; parsing fails only when no strategy has that value. |
| BatchSplitter.ChunksSpec | src/tools/batch_splitter_tool.py:89-93 | The chunks concatenate back to the input. Each chunk is non-empty and at most the target size, and every chunk but the last has exactly the target size. There is no chunk iff the input is empty, and there are ceil(n / size) chunks. |
| BatchSplitter.CreateSimpleBatches | src/tools/batch_splitter_tool.py:89-93 | The `range` loop raises ValueError for a zero size, gives no batches for a negative size, and otherwise gives the chunks described by ChunksSpec. |
| BatchSplitter.Basename | src/tools/batch_splitter_tool.py:107 | As `Path(file).name`, the name is the last segment that is neither empty nor "."; it contains no '/' and is never ".", and a path without '/' other than "." is its own name. |
| BatchSplitter.BasenameLastSegment | src/tools/batch_splitter_tool.py:107 | A last segment after a '/' is the name, whatever precedes it. |
| BatchSplitter.BasenameTrailing | src/tools/batch_splitter_tool.py:107 | A trailing '/' or "/." leaves the name unchanged, as pathlib drops empty and "." segments. |
| BatchSplitter.BasenameOfDirectory | src/tools/batch_splitter_tool.py:107 | An untracked directory as git lists it ("src/newdir/"), or with a final "/.", is named by its last segment. |
| BatchSplitter.BasenameOfDot | src/tools/batch_splitter_tool.py:107 | "." has the empty name. |
| BatchSplitter.CollectPatternGroups | src/tools/batch_splitter_tool.py:99-110 | After the double loop, `pattern_groups` and its key order record every (pattern type, file) append, and `matched_files` is the set of appended files. |
| BatchSplitter.CollectMatches | src/tools/batch_splitter_tool.py:106-110 | One pattern's pass over the files extends the recorded appends by exactly that pattern's matches, and keeps `matched_files` consistent with them. |
| BatchSplitter.MatchFile | src/tools/batch_splitter_tool.py:106-110 | One file's iteration appends it under the pattern type, and records it as matched, exactly when the pattern lists its base name; the dictionary stays tracked. |
| BatchSplitter.BatchPatternGroups | src/tools/batch_splitter_tool.py:112-117 | The pattern groups are batched in key order: a group is kept whole when it is small enough and chunked otherwise, and the first ValueError stops the loop. |
| BatchSplitter.CreatePatternBatches | src/tools/batch_splitter_tool.py:95-127 | The method computes the pattern batches whose properties PatternBatchesSpec and NoMatchIsSimple state. |
| BatchSplitter.MatchPairsSpec | src/tools/batch_splitter_tool.py:102-110 | A (type, file) pair is appended iff the file is in the batch and a pattern of that type lists the file's base name. |
| BatchSplitter.PatternGroupMembers | src/tools/batch_splitter_tool.py:99-110 | A file is in the group of type t iff a pattern of type t lists its base name; the group keys are exactly the types that matched something. |
| BatchSplitter.UnmatchedSpec | src/tools/batch_splitter_tool.py:119 | A batch file is unmatched iff no pattern lists its base name. |
| BatchSplitter.GroupKeptWhole | src/tools/batch_splitter_tool.py:113-117 | A non-empty pattern group stays a single batch iff it has at most 1.5 times the target size. |
| BatchSplitter.GroupBatchesSpec | src/tools/batch_splitter_tool.py:112-117 | For a positive target, batching the groups never raises. The batches concatenate to the groups' files in key order, and each batch is non-empty with at most 1.5 times the target. |
| BatchSplitter.PatternBatchesSpec | src/tools/batch_splitter_tool.py:95-127 | For a positive target, pattern batching never raises. Its batches concatenate to the pattern groups in first-match order followed by the unmatched files in input order, and each batch is non-empty with at most 1.5 times the target. |
| BatchSplitter.NoMatchIsSimple | src/tools/batch_splitter_tool.py:119-125 | When no base name matches any pattern, pattern batching equals count batching. |
| BatchSplitter.FileInSeveralBatches | src/tools/batch_splitter_tool.py:102-117 | A file whose base name two pattern types list lands in two batches ("src/api.py" with types "service" and "endpoint"). |
| BatchSplitter.FileInTwoGroups | src/tools/batch_splitter_tool.py:102-127 | For a positive target, a batch file whose base name is listed by patterns of two different types occurs at least twice among all the pattern batches. |
| BatchSplitter.Complexity | src/tools/batch_splitter_tool.py:129-151 | A file's complexity weight lies between 1.0 and 4.5. |
| BatchSplitter.ComplexityIsProduct | src/tools/batch_splitter_tool.py:129-151 | The weight is 1.0 times the churn-tier factor (3, 2, 1.5 or 1 above 500, 200 or 50 changed lines) times the extension factor (1.5 for code, 1.2 for configuration). The churn falls back to added plus deleted lines when `total_changes` is zero. |
| BatchSplitter.ComplexityMonotone | src/tools/batch_splitter_tool.py:132-143 | For a fixed extension, more churn never lowers the weight. |
| BatchSplitter.SortSpec | src/tools/batch_splitter_tool.py:158-160 | The sort by a key with `reverse=True` orders by non-increasing key, is a permutation of its input, and keeps elements with equal keys in input order, as Python's stable sort does. |
| BatchSplitter.PackSpec | src/tools/batch_splitter_tool.py:162-174 | Greedy packing concatenates back to its input and makes no empty batch. A batch of two or more elements stays within the target, while a single heavier element gets a batch of its own. |
| BatchSplitter.CreateAdaptiveBatches | src/tools/batch_splitter_tool.py:153-176 | The loop over the sorted metadata closes a batch exactly when the next file would overflow it, and returns the adaptive batches of AdaptiveBatchesSpec. |
| BatchSplitter.AdaptiveBatchesSpec | src/tools/batch_splitter_tool.py:153-176 | The adaptive batches hold the file paths in stable descending order of complexity. None is empty, and each batch of two or more files is within the target complexity. |
| BatchSplitter.RunBatchSplitter | src/tools/batch_splitter_tool.py:44-87 | No paths give no batches and the "Empty" strategy. Metadata selects adaptive batching with target 1.5 × size. Otherwise a non-empty pattern analysis selects pattern batching, and failing that count batching. A raised ValueError gives no batches and the "Error" strategy. |
| BatchSplitter.BatchByPatternsOrCount | src/tools/batch_splitter_tool.py:63-68 | Without metadata, non-empty pattern data selects pattern batching and anything else count batching; a raised ValueError gives no batches and the "Error" strategy. |
| FileGrouper.Paths | src/tools/file_grouper_tool.py:232 | A path is listed iff it is non-empty and some record carries it. |
| FileGrouper.Bucket | src/tools/file_grouper_tool.py:160-163 | The bucketing loop's dictionary and key order record one (key, path) append per record with a path, in record order. |
| FileGrouper.EmitKeyed | src/tools/file_grouper_tool.py:164-166 | The emit loop makes one group per key with files, in key order. |
| FileGrouper.GroupByDirectory | src/tools/file_grouper_tool.py:157-167 | The method computes the directory groups that DirectoryGroupsSpec describes. |
| FileGrouper.GroupByModule | src/tools/file_grouper_tool.py:213-228 | The method computes the extension groups that ModuleGroupsSpec describes. |
| FileGrouper.KeyedGroupsPartition | src/tools/file_grouper_tool.py:159-166 | Bucketing partitions the records by key. The keys are distinct, in first-seen order, and each has one non-empty group. A path is in a key's group iff a record with that path has that key. Together the groups hold every record's path exactly as often as the records do. |
| FileGrouper.KeyedGroupsCover | src/tools/file_grouper_tool.py:160-166 | Every record with a path lands in the group of its own key. |
| FileGrouper.DirectoryGroupsSpec | src/tools/file_grouper_tool.py:157-167 | There is one group per directory, "(root)" for records without one, in first-seen order. Its directory focus is the directory, it has no feature focus, and its estimated size is its file count. The groups partition the batch's paths. |
| FileGrouper.ModuleGroupsSpec | src/tools/file_grouper_tool.py:213-228 | There is one group per extension, "(noext)" when missing, in first-seen order. Its feature focus is "module-" plus the display name, it has no directory focus, and its size is its file count. The groups partition the batch's paths. |
| FileGrouper.ModuleDisplay | src/tools/file_grouper_tool.py:224-225 | The display name is never empty and contains no dot. |
| FileGrouper.ModuleDisplaySpec | src/tools/file_grouper_tool.py:224-225 | "(noext)" displays as "NoExtension". Any other extension displays with its dots removed, or as "NoExtension" when nothing remains. |
| FileGrouper.GroupBySize | src/tools/file_grouper_tool.py:230-245 | The method computes the size-balanced groups of the batch's paths that SizeGroupsSpec describes. |
| FileGrouper.SplitBySize | src/tools/file_grouper_tool.py:233-245 | The `range(num_groups)` loop cuts exactly the parts of SizeGroupsSpec. |
| FileGrouper.SizeGroupsAt | src/tools/file_grouper_tool.py:236-244 | Part i is the slice from `i * batch_size` to `min((i + 1) * batch_size, n)`, and those bounds are within the list. |
| FileGrouper.SizeGroupsSpec | src/tools/file_grouper_tool.py:230-245 | The parts keep the paths in order, concatenate back to them and are non-empty. There is no part for no paths, one for at most five, and otherwise two whose sizes differ by at most one. Part k of N is titled and focused by k and N, with size equal to its file count. |
| FileGrouper.ValidFiles | src/tools/file_grouper_tool.py:178 | A candidate file is kept iff it is in the batch and not yet assigned. |
| FileGrouper.Unassigned | src/tools/file_grouper_tool.py:208 | A batch path remains iff no group claimed it. |
| FileGrouper.FeatureClaimer.constructor | src/tools/file_grouper_tool.py:170-172 | The claimer starts with the batch's paths, no groups and nothing assigned. |
| FileGrouper.FeatureClaimer.AddGroupIfValid | src/tools/file_grouper_tool.py:175-181 | When some candidate file is valid, the call appends one group of the valid files and assigns them; otherwise nothing changes. |
| FileGrouper.ClaimAll | src/tools/file_grouper_tool.py:182-207 | Each claiming loop offers its patterns' candidates to the claimer in list order. |
| FileGrouper.Offer | src/tools/file_grouper_tool.py:183-186 | One loop iteration offers the pattern's candidate, if the pattern has a type and files. |
| FileGrouper.GroupByFeature | src/tools/file_grouper_tool.py:169-211 | The method computes the feature groups described by FeatureGroupsPartition, FeatureGroupsPrecedence and FeatureGroupsMisc. |
| FileGrouper.ClaimProps | src/tools/file_grouper_tool.py:175-181 | Claiming keeps its invariants. The assigned set is exactly the union of the groups, namely the batch paths some candidate lists. Groups are non-empty and pairwise disjoint, each with size equal to its file count. |
| FileGrouper.ClaimGroupsGrow | src/tools/file_grouper_tool.py:179-181 | Offering a candidate only appends; the earlier groups are unchanged. |
| FileGrouper.ClaimPrecedence | src/tools/file_grouper_tool.py:175-207 | A batch path ends up in a group carrying the title, rationale and focus of the first candidate that lists it. |
| FileGrouper.AppendMiscPartition | src/tools/file_grouper_tool.py:208-210 | Adding the group of the remaining paths completes a partition of the batch into non-empty, pairwise-disjoint groups. |
| FileGrouper.WithMiscLast | src/tools/file_grouper_tool.py:208-210 | A path no group claimed goes to the final group of remaining files. |
| FileGrouper.FeatureGroupsPartition | src/tools/file_grouper_tool.py:169-211 | Feature grouping gives no groups iff the batch has no paths. Otherwise its groups are non-empty and pairwise disjoint, and their union is exactly the batch's paths. |
| FileGrouper.FeatureGroupsPrecedence | src/tools/file_grouper_tool.py:182-207 | A batch path that some candidate lists is grouped under the first candidate listing it. The order is naming patterns, similar names, prefixes, then suffixes. |
| FileGrouper.FeatureGroupsMisc | src/tools/file_grouper_tool.py:208-210 | A batch path no candidate lists is in the final "misc-feature" group. |
| FileGrouper.FeatureGroupsDecorated | src/tools/file_grouper_tool.py:169-211 | Every feature group has files, a title and a rationale. |
| FileGrouper.DropClaimedFiles | src/tools/file_grouper_tool.py:251-257 | The de-duplication loop keeps, per feature group, only the files not kept before, and drops groups left empty. |
| FileGrouper.RemainingRecords | src/tools/file_grouper_tool.py:258 | A record remains iff it has a path that no kept group holds. |
| FileGrouper.GroupMixed | src/tools/file_grouper_tool.py:247-264 | The method computes the mixed grouping, which MixedIsFeature characterises. |
| FileGrouper.MixedFilterKeepsDisjoint | src/tools/file_grouper_tool.py:251-257 | On non-empty, pairwise-disjoint groups, de-duplication changes nothing. |
| FileGrouper.MixedIsFeature | src/tools/file_grouper_tool.py:247-264 | Mixed grouping returns exactly the feature groups. |
| FileGrouper.StrategyOf | src/tools/file_grouper_tool.py:48-53 | A known wire value selects its strategy; any other value selects MIXED. |
| FileGrouper.BatchRecords | src/tools/file_grouper_tool.py:82-85 | A record is selected iff its path is one of the batch's paths. |
| FileGrouper.PopulateGroups | src/tools/file_grouper_tool.py:110-121 | The post-processing loop drops empty groups and fills in the default title and rationale where they are empty. |
| FileGrouper.PopulateGrouped | src/tools/file_grouper_tool.py:110-121 | Post-processing groups the same paths and never adds a group. |
| FileGrouper.PopulateDecorated | src/tools/file_grouper_tool.py:113-118 | Every group post-processing keeps has files, a title and a rationale. |
| FileGrouper.PopulateKeeps | src/tools/file_grouper_tool.py:113-118 | Groups that already have files, a title and a rationale pass through unchanged. |
| FileGrouper.StrategyGroupsSpec | src/tools/file_grouper_tool.py:96-108 | Every strategy puts each path of the batch records into some group and no other path, and every group it builds has files, a title and a rationale. |
| FileGrouper.NoRecordsNoGroups | src/tools/file_grouper_tool.py:87-94 | With no batch records every strategy yields no group, so the early return agrees with running the strategy. |
| FileGrouper.RunFileGrouper | src/tools/file_grouper_tool.py:48-155 | The strategy is the parsed one, MIXED when the value is unknown. On an unreadable analysis there are no groups and the whole batch is ungrouped. Otherwise the groups are exactly the strategy's, and the ungrouped files list once each the batch paths that no record carries. |
| GroupValidator.StripControlChars | src/tools/group_validator_tool.py:31 | Stripping never makes the text longer. |
| GroupValidator.StripCounts | src/tools/group_validator_tool.py:31 | Every control character disappears, and every other character is kept as many times as it occurs. |
| GroupValidator.ControlSet | src/tools/group_validator_tool.py:31 | The stripped set is exactly the characters below U+0020 other than tab, line feed and carriage return, plus U+007F. |
| GroupValidator.StripAppend | src/tools/group_validator_tool.py:31 | Stripping distributes over concatenation, so the kept characters stay in order. |
| GroupValidator.StripClean | src/tools/group_validator_tool.py:31 | A text without control characters is unchanged. |
| GroupValidator.StripIdempotent | src/tools/group_validator_tool.py:31 | The result holds no control character, so stripping twice is stripping once. |
| GroupValidator.LineBreakKept | src/tools/group_validator_tool.py:31 | A tab or line break stays between the text before it and the text after it. |
| GroupValidator.CollectPlacements | src/tools/group_validator_tool.py:56-63 | The double loop fills `files_in_groups` with one title per listing, in listing order, and `all_files_set` with all group files in order. |
| GroupValidator.ValidateGrouping | src/tools/group_validator_tool.py:45-95 | The checks on a decoded grouping build the result that ValidationSpec, EmptyGroupReported and DuplicateReported describe. |
| GroupValidator.RunGroupValidator | src/tools/group_validator_tool.py:26-105 | The tool strips the text and decodes it. A decoding failure gives the tool-error result; otherwise it checks the grouping, as OutcomeSpec states. |
| GroupValidator.EmptyTitlesSpec | src/tools/group_validator_tool.py:47 | A title is listed iff some group with that title has no files. |
| GroupValidator.PlacementsSpec | src/tools/group_validator_tool.py:56-62 | A (path, title) pair is recorded iff the group with that title lists the path. |
| GroupValidator.PlacementCounts | src/tools/group_validator_tool.py:56-62 | A path gets as many titles as the times it is listed across all groups. |
| GroupValidator.DuplicatePathsSpec | src/tools/group_validator_tool.py:65 | A key is kept iff it has more than one title, and keys stay distinct. |
| GroupValidator.DuplicatesSpec | src/tools/group_validator_tool.py:65 | A path is a duplicate iff it occurs more than once among all group file lists, within one group or across groups. Each duplicate is reported once. |
| GroupValidator.AffectedSpec | src/tools/group_validator_tool.py:67 | The affected titles are exactly the titles of the groups that list some duplicated path. |
| GroupValidator.ExamplesSpec | src/tools/group_validator_tool.py:70 | At most five duplicated paths are shown, taken from the front of the duplicates list, and all of them when there are at most five. |
| GroupValidator.ExamplesFirstListed | src/tools/group_validator_tool.py:56-70 | The duplicates are listed in the order of their first listing by the groups, and the examples are a prefix of them: every shown path is first listed before every duplicate not shown. |
| GroupValidator.DuplicatesInFirstOrder | src/tools/group_validator_tool.py:56-65 | The `duplicates` keys follow `files_in_groups`' insertion order, which is the order in which the paths are first listed. |
| GroupValidator.CheckIssuesSpec | src/tools/group_validator_tool.py:45-81 | The issues appear in check order, at most one of each kind and at most three, and none is a tool error. |
| GroupValidator.CheckIssuesPresence | src/tools/group_validator_tool.py:47-81 | Each kind of issue is present, at its place in check order and with its findings, iff its check found something. |
| GroupValidator.ValidationSpec | src/tools/group_validator_tool.py:75-95 | The result is valid iff it has no issue and it keeps the strategy type. An ungrouped-files issue appears iff this is the final validation and some file is ungrouped. |
| GroupValidator.EmptyGroupReported | src/tools/group_validator_tool.py:47-54 | An empty-group issue is raised iff some group has no files. |
| GroupValidator.EmptyGroupIssueSpec | src/tools/group_validator_tool.py:47-54 | The empty-group issue has high severity, and its affected groups are exactly the titles of the groups without files. |
| GroupValidator.DuplicateReported | src/tools/group_validator_tool.py:56-73 | A duplicate-files issue is raised iff some path occurs more than once among the group file lists. |
| GroupValidator.DuplicateIssueSpec | src/tools/group_validator_tool.py:65-73 | The duplicate-files issue has high severity. It names one to five duplicated paths and the titles of all groups holding a duplicate. |
| GroupValidator.RepeatInOneGroup | src/tools/group_validator_tool.py:58-65 | A path listed twice within one group counts as a duplicate. |
| GroupValidator.OutcomeSpec | src/tools/group_validator_tool.py:26-105 | On every path, the result is valid iff it has no issue, and it has at most three. A decoding failure gives exactly one critical tool error with that message and the MIXED strategy. |
| GroupingService.DirectoryGroupsOf | src/services/grouping_service.py:61 | A missing `patterns` or a missing `directory_groups` reads as no directories; otherwise the given dictionary is used. |
| GroupingService.DirectoryGrouping | src/services/grouping_service.py:57-68 | The loop emits the directory groups that GroupsOfDirectoriesSpec describes. |
| GroupingService.SuggestPRBoundaries | src/services/grouping_service.py:18-48 | The method dispatches on the strategy name as DispatchSpec states. |
| GroupingService.GroupsOfDirectoriesSpec | src/services/grouping_service.py:63-66 | A group is emitted iff its directory's list is non-empty. It is named after the directory and carries that list unchanged. |
| GroupingService.GroupsOfDirectoriesBounds | src/services/grouping_service.py:63-66 | No emitted group is empty, and there are at most as many groups as directories. |
| GroupingService.AllDirectoriesKept | src/services/grouping_service.py:64-66 | When every list is non-empty, each directory becomes one group, in dictionary order. |
| GroupingService.MissingPatternsNoGroups | src/services/grouping_service.py:61 | Without `patterns` or `directory_groups`, directory grouping yields no group. |
| GroupingService.DisjointGroupsSpec | src/services/grouping_service.py:86-89 | A directory group is kept iff it shares no file with any semantic group; an overlapping group is dropped whole. |
| GroupingService.NoOverlapKeepsAll | src/services/grouping_service.py:86-89 | When no directory group overlaps, all of them are kept, in order. |
| GroupingService.HybridSpec | src/services/grouping_service.py:77-91 | Hybrid grouping lists the semantic groups first, unchanged and in order, then exactly the directory groups that share no file with them. With no semantic groups it is directory grouping. |
| GroupingService.DispatchSpec | src/services/grouping_service.py:38-48 | Each known strategy name runs its handler, and any other name falls back to hybrid. |
| GroupingService.MaxFilesIgnored | src/services/grouping_service.py:50-91 | No handler depends on `max_files_per_pr`. |
| Validation.SizeCheck | src/services/validation_service.py:74-92 | The size rule passes iff the file count is within `max_files` and the estimated size is within `max_total_changes`, each check applying only when its entries are present. It has a message iff it fails, and at most two. |
| Validation.ApplySizeCheck | src/services/validation_service.py:74-92 | The `size_check` branch computes SizeCheck. |
| Validation.Extension | src/services/validation_service.py:115 | The extension is the dot-free tail after the last dot, or empty when the name has no dot. |
| Validation.CollectExtensions | src/services/validation_service.py:113-117 | The loop collects the set of non-empty extensions. |
| Validation.CohesionCheck | src/services/validation_service.py:94-120 | The cohesion rule fails iff the group has more than five files and neither focus. It then says the group lacks cohesion. It warns about many file types iff there are more than five extensions and more than ten files. |
| Validation.ApplyCohesionCheck | src/services/validation_service.py:94-120 | The `cohesion_check` branch computes CohesionCheck. |
| Validation.MissingForSpec | src/services/validation_service.py:133-137 | One file's missing pairs are exactly its dependencies absent from the group. |
| Validation.MissingDepsSpec | src/services/validation_service.py:131-137 | A (file, dependency) pair is reported iff the file is in the group and has graph entries, and the dependency is absent from the group. |
| Validation.CollectMissingDeps | src/services/validation_service.py:131-137 | The nested loop collects the missing pairs of MissingDepsSpec, in file and dependency order. |
| Validation.DependencyCheckSpec | src/services/validation_service.py:122-144 | The dependency rule fails iff checking is on, a graph is configured and some group file depends on a file outside the group. Its message is blank unless more than three pairs are missing. |
| Validation.ApplyDependencyCheck | src/services/validation_service.py:122-144 | The `dependency_check` branch computes DependencyCheck. |
| Validation.TestCoverage | src/services/validation_service.py:146-175 | The test-coverage rule never fails a group. It raises iff tests are required, the group has a file and there is a pattern. It warns iff tests are required, the group has a file and the pattern list is empty. |
| Validation.ApplyTestCoverage | src/services/validation_service.py:146-175 | The `test_coverage` branch computes TestCoverage, raising at the first file when there is a pattern. |
| Validation.Ratio | src/services/validation_service.py:188 | The ratio times the larger of one and the smaller side equals the larger side. |
| Validation.BalancedChanges | src/services/validation_service.py:177-192 | The balance rule never fails a group. It warns, once, iff both counts are present, their sum exceeds 100 and the ratio exceeds the configured maximum (10.0 by default). |
| Validation.ApplyBalancedChanges | src/services/validation_service.py:177-192 | The `balanced_changes` branch computes BalancedChanges. |
| Validation.CollectTopDirs | src/services/validation_service.py:199-203 | The loop collects the first segments of the paths that have more than one. |
| Validation.TopDirsBound | src/services/validation_service.py:199-203 | There are no more top directories than files. |
| Validation.CrossModuleCheck | src/services/validation_service.py:194-207 | The cross-module rule passes iff there are at most `max_modules` (default 3) top directories; it has a message iff it fails. |
| Validation.ApplyCrossModuleCheck | src/services/validation_service.py:194-207 | The `cross_module_check` branch computes CrossModuleCheck. |
| Validation.CrossModuleFewFilesPass | src/services/validation_service.py:194-207 | A group with no more files than the module limit always passes. |
| Validation.ValidationService.ApplyRule | src/services/validation_service.py:67-214 | The method dispatches on the rule name; an unknown name passes with a "not implemented" message. |
| Validation.ApplySpec | src/services/validation_service.py:67-214 | Only the size, cohesion, dependency and cross-module rules can fail a group, and only the test-coverage rule can raise. |
| Validation.ValidationService.constructor | src/services/validation_service.py:12-15 | The service keeps the `validation_rules` configuration, with its key list naming every configured rule exactly once. |
| Validation.ValidationService.ValidatePRGroups | src/services/validation_service.py:18-65 | The method applies the listed rules, or the configuration's key list when none are listed, to every group in order. With the default list, each group's result is valid iff no configured rule fails it. The result is characterised further by ValidateAllSpec and ValidateGroupOutcome. |
| Validation.ValidationService.ValidateEach | src/services/validation_service.py:40-63 | The loop over groups and rules computes ValidateAll, stopping at the first raising rule. |
| Validation.DefaultRulesOnce | src/services/validation_service.py:38 | The default list `list(rules_config.keys())` names every configured rule exactly once and nothing else. |
| Validation.DefaultValidateGroup | src/services/validation_service.py:38-61 | With the default list, a group is valid iff no configured rule fails it. Its errors are exactly the failing configured rules' messages, and its warnings are those of the passing ones, plus "unknown rule" for a configured rule whose configuration is empty. |
| Validation.DefaultValidateAll | src/services/validation_service.py:38-65 | With the default list there is one result per group, valid iff no configured rule fails that group. |
| Validation.ValidateGroupSucceeds | src/services/validation_service.py:48-61 | A group's validation raises iff one of its rules raises. |
| Validation.ValidateGroupOutcome | src/services/validation_service.py:40-61 | The result is named after the group ("Untitled Group" when unnamed). The group is valid iff no rule fails it. The errors are exactly the failing rules' messages. The warnings are exactly the passing rules' messages plus one "unknown rule" warning per unconfigured rule. |
| Validation.UnconfiguredOnlyWarns | src/services/validation_service.py:49-52 | A rule without configuration adds one warning and changes nothing else. |
| Validation.ValidateAllSpec | src/services/validation_service.py:35-65 | The service yields one result per group, in group order, unless some group raises. In that case the first group's exception escapes. |

## Left out

- **Server, commands and configuration:** the MCP server, the command-line entry points,
  configuration loading and the state manager. They are wiring around the core.
- **Decoding JSON text** (`_validate_json_string`, `_clean_json_string`,
  `_extract_file_paths`, `_extract_file_metadata`, `_safe_deserialize`, pydantic
  validation): these helpers live in a base class that is not part of this model. The
  tools take decoded values instead: an `Option` for an unreadable analysis, or the
  `decode` parameter of the group validator.
- **repo_path injection** (`src/tools/file_grouper_tool.py:63-65`): the decoded records
  do not depend on it.
- **Generated text** (branch names, PR descriptions, the strategy explanation, the
  review-complexity estimate, notes and log lines, and the fixed description and
  recommendation texts of issues): these strings are produced for display and influence
  no decision.
- **Message texts:** the model uses a structured `Message` datatype, without the number
  formatting (`{ratio:.1f}`) and list rendering.
- **Floating point:** complexity weights, the target complexity and the imbalance ratio
  are exact reals. Rounding is not modelled.
- **Concurrency:** the service methods are `async` in the source. Each call is modelled
  as a plain computation, since the methods await nothing of their own.
- **Placeholder results:** the semantic and dependency groupings return fixed placeholder
  lists. Those lists are parameters of `GroupingService.SuggestPRBoundaries`.
- **Unused fields:** `GroupingService.__init__` (`src/services/grouping_service.py:12-15`)
  stores a strategies configuration that no method reads. The directory summaries passed
  to `_group_by_directory` are also never read.
- **Dynamic type checks and conversions:** `isinstance` re-checks, `str(f)` path
  conversion and `hasattr`/`getattr` guards are omitted. The model's types already
  guarantee what they test, so missing or `None` fields become empty values and `Option`.
- BatchSplitter.RunBatchSplitter: does not model the "Invalid repository_analysis_json"
  error raised at `src/tools/batch_splitter_tool.py:41-42`, because the method receives
  already decoded inputs.
- FileGrouper.RunFileGrouper: states the ungrouped files as a duplicate-free list with the
  right members, but not their order, because `list(set)` order is unspecified in Python.
- GroupValidator.DuplicateIssueSpec: states the affected titles as a set, because
  `list(set(...))` order is unspecified.
- Validation.ValidateGroupOutcome: states which messages are among a group's errors and
  warnings, not their order or repetitions. ValidatePRGroups' `ensures` fixes those, by
  equating its result with the rule-by-rule fold `ValidateAll`.
