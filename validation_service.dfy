/**
 * The validation service: checks proposed PR groups against named, configured rules and
 * folds each rule's verdict into a per-group record of validity, errors and warnings.
 *
 * A group and a rule configuration are Python dictionaries in the source; here they are
 * records whose optional entries are `Option`s. Messages are structured values rather
 * than formatted text. The module `re` is used by the test-coverage rule without being
 * imported, which raises `NameError`; that is modelled as the `Failure` of a `Result`.
 */
module Validation {
  import opened Wrappers
  import opened Seqs
  import opened Text

  /** A group as the service receives it; `""` stands for a missing or empty focus. */
  datatype GroupRecord = GroupRecord(
    name: Option<string>,
    files: seq<string>,
    estimatedSize: Option<int>,
    featureFocus: string,
    directoryFocus: string,
    additions: Option<int>,
    deletions: Option<int>)

  /**
   * The configuration of one rule. `minCohesionScore` is read by the cohesion rule but
   * never used; `otherKeys` counts entries no rule reads.
   */
  datatype RuleConfig = RuleConfig(
    maxFiles: Option<int>,
    maxTotalChanges: Option<int>,
    minCohesionScore: Option<real>,
    checkCompleteness: Option<bool>,
    dependencyGraph: Option<map<string, seq<string>>>,
    requireTests: Option<bool>,
    testPatterns: Option<seq<string>>,
    maxImbalanceRatio: Option<real>,
    maxModules: Option<int>,
    otherKeys: nat)
  {
    /** A dictionary is truthy iff it has an entry. */
    predicate NonEmpty() {
      || maxFiles.Some? || maxTotalChanges.Some? || minCohesionScore.Some?
      || checkCompleteness.Some? || dependencyGraph.Some? || requireTests.Some?
      || testPatterns.Some? || maxImbalanceRatio.Some? || maxModules.Some? || otherKeys > 0
    }
  }

  /** The messages the rules produce; `Blank` is the empty string. */
  datatype Message =
    | TooManyFiles(count: nat, maxFiles: int)
    | TooLarge(estimatedSize: int, maxTotalChanges: int)
    | LacksCohesion
    | ManyFileTypes(count: nat)
    | MissingDependencies(examples: seq<(string, string)>, more: int)
    | Blank
    | NoTests
    | Imbalanced(ratio: real, additions: int, deletions: int)
    | TooManyModules(count: nat, modules: set<string>)
    | UnknownRule(ruleName: string)
    | NotImplemented(ruleName: string)

  /** An exception escaping the service. */
  datatype Error = NameError(name: string)

  /** What `_apply_rule` returns: the verdict and the messages. */
  datatype Outcome = Outcome(valid: bool, messages: seq<Message>)

  /** One entry of the result list of `validate_pr_groups`. */
  datatype GroupResult = GroupResult(group: string, isValid: bool, errors: seq<Message>, warnings: seq<Message>)

  const DefaultTestPatterns: seq<string> := ["test_*.py", "*_test.py", "*.spec.ts", "*.test.js"]

  // =======================================================================================
  // The rules
  // =======================================================================================

  /** `size_check`. */
  function SizeCheck(cfg: RuleConfig, g: GroupRecord): (o: Outcome)
    ensures o.valid <==>
      && (cfg.maxFiles.None? || |g.files| <= cfg.maxFiles.value)
      && (cfg.maxTotalChanges.None? || g.estimatedSize.None? || g.estimatedSize.value <= cfg.maxTotalChanges.value)
    ensures o.valid <==> o.messages == []
    ensures |o.messages| <= 2
  {
    var count := |g.files|;
    var tooMany := cfg.maxFiles.Some? && count > cfg.maxFiles.value;
    var tooLarge := cfg.maxTotalChanges.Some? && g.estimatedSize.Some? && g.estimatedSize.value > cfg.maxTotalChanges.value;
    Outcome(
      !tooMany && !tooLarge,
      (if tooMany then [TooManyFiles(count, cfg.maxFiles.value)] else [])
        + (if tooLarge then [TooLarge(g.estimatedSize.value, cfg.maxTotalChanges.value)] else []))
  }

  /** `file.split(".")[-1] if "." in file else ""`. */
  function Extension(file: string): (ext: string)
    ensures '.' !in ext
    ensures '.' in file ==> |ext| < |file| && ext == file[|file| - |ext|..] && file[|file| - |ext| - 1] == '.'
    ensures '.' !in file ==> ext == ""
  {
    if '.' in file then AfterLast(file, '.') else ""
  }

  /** The non-empty extensions of the files. */
  function Extensions(files: seq<string>): set<string> {
    set f | f in files && Extension(f) != "" :: Extension(f)
  }

  predicate Focused(g: GroupRecord) {
    g.featureFocus != "" || g.directoryFocus != ""
  }

  /** `cohesion_check`. */
  function CohesionCheck(cfg: RuleConfig, g: GroupRecord): (o: Outcome)
    ensures o.valid <==> Focused(g) || |g.files| <= 5
    ensures LacksCohesion in o.messages <==> !o.valid
    ensures ManyFileTypes(|Extensions(g.files)|) in o.messages <==> |Extensions(g.files)| > 5 && |g.files| > 10
    ensures forall m :: m in o.messages ==> m == LacksCohesion || m == ManyFileTypes(|Extensions(g.files)|)
  {
    var count := |g.files|;
    var unfocusedLarge := !(Focused(g) && count <= 20) && count > 5 && !Focused(g);
    var extensions := Extensions(g.files);
    var diverse := |extensions| > 5 && count > 10;
    var lacks: seq<Message> := if unfocusedLarge then [LacksCohesion] else [];
    var many: seq<Message> := if diverse then [ManyFileTypes(|extensions|)] else [];
    assert forall m :: m in lacks + many <==> m in lacks || m in many;
    Outcome(!unfocusedLarge, lacks + many)
  }

  /** The `(file, dep)` pairs of one file whose dependency is missing from the group. */
  function MissingFor(file: string, deps: seq<string>, files: seq<string>): seq<(string, string)> {
    if deps == [] then []
    else
      var init := MissingFor(file, deps[..|deps| - 1], files);
      var dep := deps[|deps| - 1];
      if dep !in files then init + [(file, dep)] else init
  }

  /** The `missing_deps` list: per file of `fs` in order, its dependencies absent from `files`. */
  function MissingDeps(fs: seq<string>, graph: map<string, seq<string>>, files: seq<string>): seq<(string, string)> {
    if fs == [] then []
    else
      var init := MissingDeps(fs[..|fs| - 1], graph, files);
      var file := fs[|fs| - 1];
      if file in graph then init + MissingFor(file, graph[file], files) else init
  }

  /** The message of a failing dependency check, with Python's operator precedence. */
  function MissingMessage(missing: seq<(string, string)>): Message {
    if |missing| > 3 then MissingDependencies(missing[..3], |missing| - 3) else Blank
  }

  /** `dependency_check`. */
  function DependencyCheck(cfg: RuleConfig, g: GroupRecord): Outcome {
    if cfg.checkCompleteness.GetOr(true) && cfg.dependencyGraph.Some? then
      var missing := MissingDeps(g.files, cfg.dependencyGraph.value, g.files);
      if missing != [] then Outcome(false, [MissingMessage(missing)]) else Outcome(true, [])
    else Outcome(true, [])
  }

  /** `pattern.replace(".", "\\.").replace("*", ".*")`. */
  function GlobToRegex(pattern: string): string {
    ReplaceChar(ReplaceChar(pattern, '.', "\\."), '*', ".*")
  }

  /**
   * `test_coverage`. Classifying a file calls `re.search`, and `re` is not imported, so the
   * rule raises as soon as there is a file and a pattern. With no patterns every file is
   * an implementation file.
   */
  function TestCoverage(cfg: RuleConfig, g: GroupRecord): (r: Result<Outcome, Error>)
    ensures r.Success? ==> r.value.valid
    ensures r.Failure? <==> cfg.requireTests.GetOr(false) && g.files != [] && cfg.testPatterns.GetOr(DefaultTestPatterns) != []
    ensures r.Success? && r.value.messages != [] <==> cfg.requireTests.GetOr(false) && g.files != [] && cfg.testPatterns.GetOr(DefaultTestPatterns) == []
  {
    var patterns := cfg.testPatterns.GetOr(DefaultTestPatterns);
    if !cfg.requireTests.GetOr(false) || g.files == [] then Success(Outcome(true, []))
    else if patterns == [] then Success(Outcome(true, [NoTests]))
    else Failure(NameError("re"))
  }

  /** The imbalance ratio: the larger side over the smaller one, the divisor at least 1. */
  function Ratio(additions: int, deletions: int): (r: real)
    ensures additions > deletions ==> r * Max(1, deletions) as real == additions as real
    ensures additions <= deletions ==> r * Max(1, additions) as real == deletions as real
  {
    if additions > deletions then additions as real / Max(1, deletions) as real
    else deletions as real / Max(1, additions) as real
  }

  /** `balanced_changes`. */
  function BalancedChanges(cfg: RuleConfig, g: GroupRecord): (o: Outcome)
    ensures o.valid
    ensures o.messages != [] <==>
      && g.additions.Some? && g.deletions.Some?
      && g.additions.value + g.deletions.value > 100
      && Ratio(g.additions.value, g.deletions.value) > cfg.maxImbalanceRatio.GetOr(10.0)
    ensures |o.messages| <= 1
  {
    var maxRatio := cfg.maxImbalanceRatio.GetOr(10.0);
    if g.additions.Some? && g.deletions.Some? && g.additions.value + g.deletions.value > 100
      && Ratio(g.additions.value, g.deletions.value) > maxRatio
    then Outcome(true, [Imbalanced(Ratio(g.additions.value, g.deletions.value), g.additions.value, g.deletions.value)])
    else Outcome(true, [])
  }

  /** The first path segments of the files that have more than one segment. */
  function TopDirs(files: seq<string>): set<string> {
    set f | f in files && '/' in f :: BeforeFirst(f, '/')
  }

  /** `cross_module_check`. */
  function CrossModuleCheck(cfg: RuleConfig, g: GroupRecord): (o: Outcome)
    ensures o.valid <==> |TopDirs(g.files)| <= cfg.maxModules.GetOr(3)
    ensures o.valid <==> o.messages == []
  {
    var maxModules := cfg.maxModules.GetOr(3);
    var dirs := TopDirs(g.files);
    if |dirs| > maxModules then Outcome(false, [TooManyModules(|dirs|, dirs)]) else Outcome(true, [])
  }

  /** `_apply_rule`: dispatch on the rule name. */
  function Apply(ruleName: string, cfg: RuleConfig, g: GroupRecord): Result<Outcome, Error> {
    if ruleName == "size_check" then Success(SizeCheck(cfg, g))
    else if ruleName == "cohesion_check" then Success(CohesionCheck(cfg, g))
    else if ruleName == "dependency_check" then Success(DependencyCheck(cfg, g))
    else if ruleName == "test_coverage" then TestCoverage(cfg, g)
    else if ruleName == "balanced_changes" then Success(BalancedChanges(cfg, g))
    else if ruleName == "cross_module_check" then Success(CrossModuleCheck(cfg, g))
    else Success(Outcome(true, [NotImplemented(ruleName)]))
  }

  // =======================================================================================
  // Folding the verdicts
  // =======================================================================================

  /** What one listed rule contributes to a group's result. */
  datatype Verdict = Unconfigured(ruleName: string) | Applied(outcome: Outcome) | Raised(error: Error)

  function Judge(rules: map<string, RuleConfig>, ruleName: string, g: GroupRecord): Verdict {
    if ruleName !in rules || !rules[ruleName].NonEmpty() then Unconfigured(ruleName)
    else
      match Apply(ruleName, rules[ruleName], g)
      case Success(o) => Applied(o)
      case Failure(e) => Raised(e)
  }

  /** Adds one non-raising verdict to a group's result. */
  function Record(res: GroupResult, v: Verdict): GroupResult {
    match v
    case Unconfigured(ruleName) => res.(warnings := res.warnings + [UnknownRule(ruleName)])
    case Applied(o) =>
      if !o.valid then res.(isValid := false, errors := res.errors + o.messages)
      else if o.messages != [] then res.(warnings := res.warnings + o.messages)
      else res
    case Raised(_) => res
  }

  function InitialResult(g: GroupRecord): GroupResult {
    GroupResult(g.name.GetOr("Untitled Group"), true, [], [])
  }

  /** The result for one group after the rules `names`, or the first exception raised. */
  function ValidateGroup(rules: map<string, RuleConfig>, names: seq<string>, g: GroupRecord): Result<GroupResult, Error> {
    if names == [] then Success(InitialResult(g))
    else
      match ValidateGroup(rules, names[..|names| - 1], g)
      case Failure(e) => Failure(e)
      case Success(res) =>
        var v := Judge(rules, names[|names| - 1], g);
        if v.Raised? then Failure(v.error) else Success(Record(res, v))
  }

  /** The result list for the groups, or the first exception raised. */
  function ValidateAll(rules: map<string, RuleConfig>, names: seq<string>, groups: seq<GroupRecord>): Result<seq<GroupResult>, Error> {
    if groups == [] then Success([])
    else
      match ValidateAll(rules, names, groups[..|groups| - 1])
      case Failure(e) => Failure(e)
      case Success(results) =>
        match ValidateGroup(rules, names, groups[|groups| - 1])
        case Failure(e) => Failure(e)
        case Success(res) => Success(results + [res])
  }

  // =======================================================================================
  // The service
  // =======================================================================================

  /** `names` is the key list of the dictionary `rules`: every configured rule exactly once. */
  ghost predicate KeyList(names: seq<string>, rules: map<string, RuleConfig>) {
    NoDup(names) && forall k :: k in names <==> k in rules
  }

  /** The service with its `validation_rules` configuration, in key order. */
  class ValidationService {
    const ruleNames: seq<string>
    const rules: map<string, RuleConfig>

    /** `rule_names` is `list(rules_config.keys())`. */
    ghost predicate Valid() {
      KeyList(ruleNames, rules)
    }

    constructor (ruleNames: seq<string>, rules: map<string, RuleConfig>)
      requires KeyList(ruleNames, rules)
      ensures this.ruleNames == ruleNames && this.rules == rules
      ensures Valid()
    {
      this.ruleNames := ruleNames;
      this.rules := rules;
    }

    /**
     * `validate_pr_groups`: applies the listed rules (all configured ones when no list is
     * given) to every group in order.
     */
    method ValidatePRGroups(groups: seq<GroupRecord>, validationRules: Option<seq<string>>)
      returns (r: Result<seq<GroupResult>, Error>)
      requires Valid()
      ensures r == ValidateAll(rules, validationRules.GetOr(ruleNames), groups)
      ensures validationRules.None? && r.Success? ==>
        && |r.value| == |groups|
        && forall i :: 0 <= i < |groups| ==>
             (r.value[i].isValid <==> forall k :: k in rules ==> !FailsRule(rules, k, groups[i]))
    {
      var rulesToApply := if validationRules.Some? then validationRules.value else ruleNames;
      r := ValidateEach(groups, rulesToApply);
      if validationRules.None? {
        DefaultValidateAll(rules, ruleNames, groups);
      }
    }

    /** The loop of `validate_pr_groups` over the groups and the rules to apply. */
    method ValidateEach(groups: seq<GroupRecord>, rulesToApply: seq<string>) returns (r: Result<seq<GroupResult>, Error>)
      ensures r == ValidateAll(rules, rulesToApply, groups)
    {
      var results: seq<GroupResult> := [];
      for i := 0 to |groups|
        invariant ValidateAll(rules, rulesToApply, groups[..i]) == Success(results)
      {
        assert groups[..i + 1][..i] == groups[..i];
        var group := groups[i];
        var groupResults := InitialResult(group);
        for j := 0 to |rulesToApply|
          invariant ValidateGroup(rules, rulesToApply[..j], group) == Success(groupResults)
        {
          assert rulesToApply[..j + 1][..j] == rulesToApply[..j];
          var ruleName := rulesToApply[j];
          if ruleName !in rules || !rules[ruleName].NonEmpty() {
            groupResults := groupResults.(warnings := groupResults.warnings + [UnknownRule(ruleName)]);
            continue;
          }
          var applied := ApplyRule(ruleName, rules[ruleName], group);
          if applied.Failure? {
            assert ValidateGroup(rules, rulesToApply[..j + 1], group) == Failure(applied.error);
            ValidateGroupFailurePersists(rules, rulesToApply, group, j + 1);
            assert rulesToApply[..|rulesToApply|] == rulesToApply;
            ValidateAllFailure(rules, rulesToApply, groups, i, applied.error);
            return Failure(applied.error);
          }
          var outcome := applied.value;
          if !outcome.valid {
            groupResults := groupResults.(isValid := false, errors := groupResults.errors + outcome.messages);
          } else if outcome.messages != [] {
            groupResults := groupResults.(warnings := groupResults.warnings + outcome.messages);
          }
        }
        assert rulesToApply[..|rulesToApply|] == rulesToApply;
        results := results + [groupResults];
      }
      assert groups[..|groups|] == groups;
      return Success(results);
    }

    /** `_apply_rule`: one branch per known rule name. */
    method ApplyRule(ruleName: string, ruleConfig: RuleConfig, group: GroupRecord) returns (r: Result<Outcome, Error>)
      ensures r == Apply(ruleName, ruleConfig, group)
    {
      if ruleName == "size_check" {
        var o := ApplySizeCheck(ruleConfig, group);
        r := Success(o);
      } else if ruleName == "cohesion_check" {
        var o := ApplyCohesionCheck(ruleConfig, group);
        r := Success(o);
      } else if ruleName == "dependency_check" {
        var o := ApplyDependencyCheck(ruleConfig, group);
        r := Success(o);
      } else if ruleName == "test_coverage" {
        r := ApplyTestCoverage(ruleConfig, group);
      } else if ruleName == "balanced_changes" {
        var o := ApplyBalancedChanges(ruleConfig, group);
        r := Success(o);
      } else if ruleName == "cross_module_check" {
        var o := ApplyCrossModuleCheck(ruleConfig, group);
        r := Success(o);
      } else {
        r := Success(Outcome(true, [NotImplemented(ruleName)]));
      }
    }
  }

  /** The `size_check` branch of `_apply_rule`. */
  method ApplySizeCheck(ruleConfig: RuleConfig, group: GroupRecord) returns (o: Outcome)
    ensures o == SizeCheck(ruleConfig, group)
  {
    var messages: seq<Message> := [];
    var isValid := true;
    var fileCount := |group.files|;
    if ruleConfig.maxFiles.Some? && fileCount > ruleConfig.maxFiles.value {
      isValid := false;
      messages := messages + [TooManyFiles(fileCount, ruleConfig.maxFiles.value)];
    }
    if ruleConfig.maxTotalChanges.Some? && group.estimatedSize.Some? {
      var estimatedSize := group.estimatedSize.value;
      if estimatedSize > ruleConfig.maxTotalChanges.value {
        isValid := false;
        messages := messages + [TooLarge(estimatedSize, ruleConfig.maxTotalChanges.value)];
      }
    }
    o := Outcome(isValid, messages);
  }

  /** The `cohesion_check` branch of `_apply_rule`. */
  method ApplyCohesionCheck(ruleConfig: RuleConfig, group: GroupRecord) returns (o: Outcome)
    ensures o == CohesionCheck(ruleConfig, group)
  {
    var messages: seq<Message> := [];
    var isValid := true;
    var files := group.files;
    var hasFocus := group.featureFocus != "" || group.directoryFocus != "";
    if hasFocus && |files| <= 20 {
    } else if |files| > 5 && !hasFocus {
      isValid := false;
      messages := messages + [LacksCohesion];
    }
    var extensions := CollectExtensions(files);
    if |extensions| > 5 && |files| > 10 {
      messages := messages + [ManyFileTypes(|extensions|)];
    }
    o := Outcome(isValid, messages);
  }

  /** The `dependency_check` branch of `_apply_rule`. */
  method ApplyDependencyCheck(ruleConfig: RuleConfig, group: GroupRecord) returns (o: Outcome)
    ensures o == DependencyCheck(ruleConfig, group)
  {
    var messages: seq<Message> := [];
    var isValid := true;
    if ruleConfig.checkCompleteness.GetOr(true) && ruleConfig.dependencyGraph.Some? {
      var missingDeps := CollectMissingDeps(group.files, ruleConfig.dependencyGraph.value);
      if missingDeps != [] {
        isValid := false;
        messages := messages + [if |missingDeps| > 3 then MissingDependencies(missingDeps[..3], |missingDeps| - 3) else Blank];
      }
    }
    o := Outcome(isValid, messages);
  }

  /** The `test_coverage` branch of `_apply_rule`; classifying the first file raises. */
  method ApplyTestCoverage(ruleConfig: RuleConfig, group: GroupRecord) returns (r: Result<Outcome, Error>)
    ensures r == TestCoverage(ruleConfig, group)
  {
    var messages: seq<Message> := [];
    var files := group.files;
    var requireTests := ruleConfig.requireTests.GetOr(false);
    var testPatterns := ruleConfig.testPatterns.GetOr(DefaultTestPatterns);
    if requireTests {
      // No file is ever classified as a test file: the classification raises first.
      var implFiles: seq<string> := [];
      for i := 0 to |files|
        invariant implFiles == files[..i]
        invariant i > 0 ==> testPatterns == []
      {
        for j := 0 to |testPatterns|
          invariant j == 0
        {
          var patternRegex := GlobToRegex(testPatterns[j]);
          // `re.search(pattern_regex, file)`: the name `re` is unbound
          return Failure(NameError("re"));
        }
        implFiles := implFiles + [files[i]];
      }
      assert files[..|files|] == files;
      if implFiles != [] {
        messages := messages + [NoTests];
        assert testPatterns == [] && messages == [NoTests];
      }
    }
    r := Success(Outcome(true, messages));
  }

  /** The `balanced_changes` branch of `_apply_rule`. */
  method ApplyBalancedChanges(ruleConfig: RuleConfig, group: GroupRecord) returns (o: Outcome)
    ensures o == BalancedChanges(ruleConfig, group)
  {
    var messages: seq<Message> := [];
    var maxImbalanceRatio := ruleConfig.maxImbalanceRatio.GetOr(10.0);
    if group.additions.Some? && group.deletions.Some? {
      var additions, deletions := group.additions.value, group.deletions.value;
      if additions + deletions > 100 {
        var ratio := if additions > deletions then additions as real / Max(1, deletions) as real
          else deletions as real / Max(1, additions) as real;
        if ratio > maxImbalanceRatio {
          messages := messages + [Imbalanced(ratio, additions, deletions)];
        }
      }
    }
    o := Outcome(true, messages);
  }

  /** The `cross_module_check` branch of `_apply_rule`. */
  method ApplyCrossModuleCheck(ruleConfig: RuleConfig, group: GroupRecord) returns (o: Outcome)
    ensures o == CrossModuleCheck(ruleConfig, group)
  {
    var messages: seq<Message> := [];
    var isValid := true;
    var maxModules := ruleConfig.maxModules.GetOr(3);
    var topDirs := CollectTopDirs(group.files);
    if |topDirs| > maxModules {
      isValid := false;
      messages := messages + [TooManyModules(|topDirs|, topDirs)];
    }
    o := Outcome(isValid, messages);
  }

  /** The extension-collecting loop of `cohesion_check`. */
  method CollectExtensions(files: seq<string>) returns (extensions: set<string>)
    ensures extensions == Extensions(files)
  {
    extensions := {};
    for i := 0 to |files|
      invariant extensions == Extensions(files[..i])
    {
      assert files[..i + 1] == files[..i] + [files[i]];
      var ext := Extension(files[i]);
      if ext != "" {
        extensions := extensions + {ext};
      }
    }
    assert files[..|files|] == files;
  }

  /** The nested loop of `dependency_check`. */
  method CollectMissingDeps(files: seq<string>, graph: map<string, seq<string>>) returns (missing: seq<(string, string)>)
    ensures missing == MissingDeps(files, graph, files)
  {
    missing := [];
    for i := 0 to |files|
      invariant missing == MissingDeps(files[..i], graph, files)
    {
      assert files[..i + 1][..i] == files[..i];
      var file := files[i];
      if file in graph {
        var deps := graph[file];
        ghost var before := missing;
        for j := 0 to |deps|
          invariant missing == before + MissingFor(file, deps[..j], files)
        {
          assert deps[..j + 1][..j] == deps[..j];
          if deps[j] !in files {
            missing := missing + [(file, deps[j])];
          }
        }
        assert deps[..|deps|] == deps;
      }
    }
    assert files[..|files|] == files;
  }

  /** The top-directory loop of `cross_module_check`. */
  method CollectTopDirs(files: seq<string>) returns (topDirs: set<string>)
    ensures topDirs == TopDirs(files)
  {
    topDirs := {};
    for i := 0 to |files|
      invariant topDirs == TopDirs(files[..i])
    {
      assert files[..i + 1] == files[..i] + [files[i]];
      if '/' in files[i] {
        topDirs := topDirs + {BeforeFirst(files[i], '/')};
      }
    }
    assert files[..|files|] == files;
  }

  // ---- properties of the rules ---------------------------------------------------------

  lemma {:induction false} MissingForSpec(file: string, deps: seq<string>, files: seq<string>)
    ensures forall f, d :: (f, d) in MissingFor(file, deps, files) <==> f == file && d in deps && d !in files
  {
    if deps != [] {
      var init := deps[..|deps| - 1];
      MissingForSpec(file, init, files);
      assert deps == init + [deps[|deps| - 1]];
    }
  }

  /** A pair is reported iff its file is listed, has graph entries, and the dependency is absent. */
  lemma {:induction false} MissingDepsSpec(fs: seq<string>, graph: map<string, seq<string>>, files: seq<string>)
    ensures forall f, d :: (f, d) in MissingDeps(fs, graph, files) <==> f in fs && f in graph && d in graph[f] && d !in files
  {
    if fs != [] {
      var init := fs[..|fs| - 1];
      var file := fs[|fs| - 1];
      MissingDepsSpec(init, graph, files);
      if file in graph {
        MissingForSpec(file, graph[file], files);
      }
      assert fs == init + [file];
    }
  }

  /**
   * The dependency rule fails iff checking is on, a graph is given and some file of the
   * group depends on a file outside it; the message is blank unless more than three pairs
   * are missing.
   */
  lemma DependencyCheckSpec(cfg: RuleConfig, g: GroupRecord)
    ensures DependencyCheck(cfg, g).valid <==>
      !(cfg.checkCompleteness.GetOr(true) && cfg.dependencyGraph.Some?
        && exists f, d :: f in g.files && f in cfg.dependencyGraph.value && d in cfg.dependencyGraph.value[f] && d !in g.files)
    ensures cfg.checkCompleteness.GetOr(true) && cfg.dependencyGraph.Some? && !DependencyCheck(cfg, g).valid ==>
      (DependencyCheck(cfg, g).messages == [Blank] <==> |MissingDeps(g.files, cfg.dependencyGraph.value, g.files)| <= 3)
    ensures DependencyCheck(cfg, g).valid <==> DependencyCheck(cfg, g).messages == []
  {
    if cfg.checkCompleteness.GetOr(true) && cfg.dependencyGraph.Some? {
      var graph := cfg.dependencyGraph.value;
      var missing := MissingDeps(g.files, graph, g.files);
      MissingDepsSpec(g.files, graph, g.files);
      if missing != [] {
        var f, d := missing[0].0, missing[0].1;
        assert (f, d) in missing;
        assert f in g.files && f in graph && d in graph[f] && d !in g.files;
      }
    }
  }

  lemma {:induction false} TopDirsBound(files: seq<string>)
    ensures |TopDirs(files)| <= |files|
  {
    if files != [] {
      var init := files[..|files| - 1];
      var last := files[|files| - 1];
      TopDirsBound(init);
      assert files == init + [last];
      if '/' in last {
        assert TopDirs(files) == TopDirs(init) + {BeforeFirst(last, '/')};
      } else {
        assert TopDirs(files) == TopDirs(init);
      }
    }
  }

  /** A group with no more files than the module limit always passes the cross-module rule. */
  lemma CrossModuleFewFilesPass(cfg: RuleConfig, g: GroupRecord)
    requires |g.files| <= cfg.maxModules.GetOr(3)
    ensures CrossModuleCheck(cfg, g).valid
  {
    TopDirsBound(g.files);
  }

  /** Only the three failing rules can fail, and only the test-coverage rule can raise. */
  lemma ApplySpec(ruleName: string, cfg: RuleConfig, g: GroupRecord)
    ensures Apply(ruleName, cfg, g).Failure? ==> ruleName == "test_coverage"
    ensures Apply(ruleName, cfg, g).Success? && !Apply(ruleName, cfg, g).value.valid ==>
      ruleName in {"size_check", "cohesion_check", "dependency_check", "cross_module_check"}
  {
  }

  // ---- properties of the fold ----------------------------------------------------------

  predicate Raises(rules: map<string, RuleConfig>, ruleName: string, g: GroupRecord) {
    Judge(rules, ruleName, g).Raised?
  }

  /** The rule is configured and returned "invalid". */
  predicate FailsRule(rules: map<string, RuleConfig>, ruleName: string, g: GroupRecord) {
    Judge(rules, ruleName, g).Applied? && !Judge(rules, ruleName, g).outcome.valid
  }

  /** The rule contributes `m` to the errors. */
  predicate Reports(rules: map<string, RuleConfig>, ruleName: string, g: GroupRecord, m: Message) {
    FailsRule(rules, ruleName, g) && m in Judge(rules, ruleName, g).outcome.messages
  }

  /** The rule contributes `m` to the warnings. */
  predicate Warns(rules: map<string, RuleConfig>, ruleName: string, g: GroupRecord, m: Message) {
    || (Judge(rules, ruleName, g).Unconfigured? && m == UnknownRule(ruleName))
    || (Judge(rules, ruleName, g).Applied? && Judge(rules, ruleName, g).outcome.valid
        && m in Judge(rules, ruleName, g).outcome.messages)
  }

  /** A group's validation raises iff one of its rules raises. */
  lemma {:induction false} ValidateGroupSucceeds(rules: map<string, RuleConfig>, names: seq<string>, g: GroupRecord)
    ensures ValidateGroup(rules, names, g).Success? <==> forall k :: 0 <= k < |names| ==> !Raises(rules, names[k], g)
  {
    if names != [] {
      var init := names[..|names| - 1];
      ValidateGroupSucceeds(rules, init, g);
      assert forall k :: 0 <= k < |init| ==> init[k] == names[k];
    }
  }

  /**
   * A group is valid iff none of the rules fails; the errors are exactly the messages of the
   * failing rules; the warnings are the messages of the passing rules and one "unknown rule"
   * warning per unconfigured rule.
   */
  lemma ValidateGroupOutcome(rules: map<string, RuleConfig>, names: seq<string>, g: GroupRecord)
    requires ValidateGroup(rules, names, g).Success?
    ensures ValidateGroup(rules, names, g).value.group == g.name.GetOr("Untitled Group")
    ensures ValidateGroup(rules, names, g).value.isValid <==> forall k :: 0 <= k < |names| ==> !FailsRule(rules, names[k], g)
    ensures forall m :: m in ValidateGroup(rules, names, g).value.errors <==>
      exists k :: 0 <= k < |names| && Reports(rules, names[k], g, m)
    ensures forall m :: m in ValidateGroup(rules, names, g).value.warnings <==>
      exists k :: 0 <= k < |names| && Warns(rules, names[k], g, m)
  {
    GroupNameKept(rules, names, g);
    ValidIffNoFailure(rules, names, g);
    ErrorsReported(rules, names, g);
    WarningsWarned(rules, names, g);
  }

  /** The last rule's verdict is recorded on the result of the rules before it. */
  lemma ValidateGroupLast(rules: map<string, RuleConfig>, names: seq<string>, g: GroupRecord)
    requires names != [] && ValidateGroup(rules, names, g).Success?
    ensures ValidateGroup(rules, names[..|names| - 1], g).Success?
    ensures ValidateGroup(rules, names, g).value ==
      Record(ValidateGroup(rules, names[..|names| - 1], g).value, Judge(rules, names[|names| - 1], g))
  {
  }

  lemma {:induction false} GroupNameKept(rules: map<string, RuleConfig>, names: seq<string>, g: GroupRecord)
    requires ValidateGroup(rules, names, g).Success?
    ensures ValidateGroup(rules, names, g).value.group == g.name.GetOr("Untitled Group")
  {
    if names != [] {
      ValidateGroupLast(rules, names, g);
      GroupNameKept(rules, names[..|names| - 1], g);
    }
  }

  lemma {:induction false} ValidIffNoFailure(rules: map<string, RuleConfig>, names: seq<string>, g: GroupRecord)
    requires ValidateGroup(rules, names, g).Success?
    ensures ValidateGroup(rules, names, g).value.isValid <==> forall k :: 0 <= k < |names| ==> !FailsRule(rules, names[k], g)
  {
    if names != [] {
      var n := |names| - 1;
      var init := names[..n];
      ValidateGroupLast(rules, names, g);
      ValidIffNoFailure(rules, init, g);
      assert forall k :: 0 <= k < n ==> init[k] == names[k];
    }
  }

  lemma {:induction false} ErrorsReported(rules: map<string, RuleConfig>, names: seq<string>, g: GroupRecord)
    requires ValidateGroup(rules, names, g).Success?
    ensures forall m :: m in ValidateGroup(rules, names, g).value.errors <==>
      exists k :: 0 <= k < |names| && Reports(rules, names[k], g, m)
  {
    if names != [] {
      var n := |names| - 1;
      var init := names[..n];
      ValidateGroupLast(rules, names, g);
      ErrorsReported(rules, init, g);
      assert forall k :: 0 <= k < n ==> init[k] == names[k];
      var res := ValidateGroup(rules, init, g).value;
      var v := Judge(rules, names[n], g);
      forall m
        ensures m in Record(res, v).errors <==> exists k :: 0 <= k < |names| && Reports(rules, names[k], g, m)
      {
        if m in Record(res, v).errors && m !in res.errors {
          assert Reports(rules, names[n], g, m);
        }
      }
    }
  }

  lemma {:induction false} WarningsWarned(rules: map<string, RuleConfig>, names: seq<string>, g: GroupRecord)
    requires ValidateGroup(rules, names, g).Success?
    ensures forall m :: m in ValidateGroup(rules, names, g).value.warnings <==>
      exists k :: 0 <= k < |names| && Warns(rules, names[k], g, m)
  {
    if names != [] {
      var n := |names| - 1;
      var init := names[..n];
      ValidateGroupLast(rules, names, g);
      WarningsWarned(rules, init, g);
      assert forall k :: 0 <= k < n ==> init[k] == names[k];
      var res := ValidateGroup(rules, init, g).value;
      var v := Judge(rules, names[n], g);
      forall m
        ensures m in Record(res, v).warnings <==> exists k :: 0 <= k < |names| && Warns(rules, names[k], g, m)
      {
        if m in Record(res, v).warnings && m !in res.warnings {
          assert Warns(rules, names[n], g, m);
        }
      }
    }
  }

  /** The default rule list names every configured rule exactly once, and nothing else. */
  lemma DefaultRulesOnce(names: seq<string>, rules: map<string, RuleConfig>)
    requires KeyList(names, rules)
    ensures |names| == |rules|
    ensures forall k :: multiset(names)[k] == if k in rules then 1 else 0
  {
    NoDupCard(names);
    assert Elems(names) == rules.Keys;
    forall k
      ensures multiset(names)[k] == if k in rules then 1 else 0
    {
      NoDupCount(names, k);
    }
  }

  /**
   * With the default rule list a group is valid iff no configured rule fails it; its errors
   * are the failing configured rules' messages and its warnings those of the passing ones,
   * or "unknown rule" for a configured rule whose configuration is empty.
   */
  lemma DefaultValidateGroup(rules: map<string, RuleConfig>, names: seq<string>, g: GroupRecord)
    requires KeyList(names, rules) && ValidateGroup(rules, names, g).Success?
    ensures ValidateGroup(rules, names, g).value.isValid <==> forall k :: k in rules ==> !FailsRule(rules, k, g)
    ensures forall m :: m in ValidateGroup(rules, names, g).value.errors <==> exists k :: k in rules && Reports(rules, k, g, m)
    ensures forall m :: m in ValidateGroup(rules, names, g).value.warnings <==> exists k :: k in rules && Warns(rules, k, g, m)
  {
    ValidateGroupOutcome(rules, names, g);
    forall k | k in rules
      ensures exists i :: 0 <= i < |names| && names[i] == k
    {
      assert k in names;
    }
  }

  /** With the default rule list every group's verdict is the conjunction over the configured rules. */
  lemma DefaultValidateAll(rules: map<string, RuleConfig>, names: seq<string>, groups: seq<GroupRecord>)
    requires KeyList(names, rules)
    ensures ValidateAll(rules, names, groups).Success? ==>
      && |ValidateAll(rules, names, groups).value| == |groups|
      && forall i :: 0 <= i < |groups| ==>
           (ValidateAll(rules, names, groups).value[i].isValid <==> forall k :: k in rules ==> !FailsRule(rules, k, groups[i]))
  {
    if ValidateAll(rules, names, groups).Success? {
      ValidateAllSpec(rules, names, groups);
      forall i | 0 <= i < |groups|
        ensures ValidateAll(rules, names, groups).value[i].isValid <==> forall k :: k in rules ==> !FailsRule(rules, k, groups[i])
      {
        DefaultValidateGroup(rules, names, groups[i]);
      }
    }
  }

  /** An unconfigured rule adds one warning and changes nothing else. */
  lemma UnconfiguredOnlyWarns(rules: map<string, RuleConfig>, names: seq<string>, ruleName: string, g: GroupRecord)
    requires ruleName !in rules || !rules[ruleName].NonEmpty()
    ensures ValidateGroup(rules, names, g).Failure? ==> ValidateGroup(rules, names + [ruleName], g) == ValidateGroup(rules, names, g)
    ensures ValidateGroup(rules, names, g).Success? ==>
      ValidateGroup(rules, names + [ruleName], g) ==
        Success(ValidateGroup(rules, names, g).value.(warnings := ValidateGroup(rules, names, g).value.warnings + [UnknownRule(ruleName)]))
  {
    assert (names + [ruleName])[..|names|] == names;
  }

  /**
   * The service yields one result per group, in group order, unless some group's
   * validation raises, in which case the first such exception escapes.
   */
  lemma ValidateAllSpec(rules: map<string, RuleConfig>, names: seq<string>, groups: seq<GroupRecord>)
    ensures ValidateAll(rules, names, groups).Success? <==>
      forall i :: 0 <= i < |groups| ==> ValidateGroup(rules, names, groups[i]).Success?
    ensures ValidateAll(rules, names, groups).Success? ==>
      && |ValidateAll(rules, names, groups).value| == |groups|
      && forall i :: 0 <= i < |groups| ==> ValidateAll(rules, names, groups).value[i] == ValidateGroup(rules, names, groups[i]).value
    ensures ValidateAll(rules, names, groups).Failure? ==>
      exists i :: 0 <= i < |groups| && ValidateGroup(rules, names, groups[i]).Failure?
        && ValidateGroup(rules, names, groups[i]).error == ValidateAll(rules, names, groups).error
        && forall j :: 0 <= j < i ==> ValidateGroup(rules, names, groups[j]).Success?
  {
    ValidateAllSucceeds(rules, names, groups);
    ValidateAllResults(rules, names, groups);
    ValidateAllFirstFailure(rules, names, groups);
  }

  lemma {:induction false} ValidateAllSucceeds(rules: map<string, RuleConfig>, names: seq<string>, groups: seq<GroupRecord>)
    ensures ValidateAll(rules, names, groups).Success? <==>
      forall i :: 0 <= i < |groups| ==> ValidateGroup(rules, names, groups[i]).Success?
  {
    if groups != [] {
      var n := |groups| - 1;
      var init := groups[..n];
      ValidateAllSucceeds(rules, names, init);
      assert forall i :: 0 <= i < n ==> init[i] == groups[i];
    }
  }

  lemma {:induction false} ValidateAllResults(rules: map<string, RuleConfig>, names: seq<string>, groups: seq<GroupRecord>)
    ensures ValidateAll(rules, names, groups).Success? ==>
      && |ValidateAll(rules, names, groups).value| == |groups|
      && forall i :: 0 <= i < |groups| ==>
           ValidateGroup(rules, names, groups[i]).Success?
           && ValidateAll(rules, names, groups).value[i] == ValidateGroup(rules, names, groups[i]).value
  {
    if groups != [] && ValidateAll(rules, names, groups).Success? {
      var n := |groups| - 1;
      var init := groups[..n];
      ValidateAllResults(rules, names, init);
      var rs := ValidateAll(rules, names, init).value;
      assert ValidateGroup(rules, names, groups[n]).Success?;
      assert ValidateAll(rules, names, groups).value == rs + [ValidateGroup(rules, names, groups[n]).value];
      assert forall i :: 0 <= i < n ==> init[i] == groups[i];
    }
  }

  lemma {:induction false} ValidateAllFirstFailure(rules: map<string, RuleConfig>, names: seq<string>, groups: seq<GroupRecord>)
    ensures ValidateAll(rules, names, groups).Failure? ==>
      exists i :: 0 <= i < |groups| && ValidateGroup(rules, names, groups[i]).Failure?
        && ValidateGroup(rules, names, groups[i]).error == ValidateAll(rules, names, groups).error
        && forall j :: 0 <= j < i ==> ValidateGroup(rules, names, groups[j]).Success?
  {
    if groups != [] && ValidateAll(rules, names, groups).Failure? {
      var n := |groups| - 1;
      var init := groups[..n];
      if ValidateAll(rules, names, init).Failure? {
        ValidateAllFirstFailure(rules, names, init);
        var i :| 0 <= i < n && ValidateGroup(rules, names, init[i]).Failure?
          && ValidateGroup(rules, names, init[i]).error == ValidateAll(rules, names, init).error
          && forall j :: 0 <= j < i ==> ValidateGroup(rules, names, init[j]).Success?;
        assert init[i] == groups[i];
        assert forall j :: 0 <= j < i ==> init[j] == groups[j];
      } else {
        ValidateAllSucceeds(rules, names, init);
        assert forall j :: 0 <= j < n ==> init[j] == groups[j];
        assert ValidateGroup(rules, names, groups[n]).Failure?;
      }
    }
  }

  // ---- failure propagation, used by the service's loops ---------------------------------

  lemma {:induction false} ValidateGroupFailurePersists(rules: map<string, RuleConfig>, names: seq<string>, g: GroupRecord, j: nat)
    requires j <= |names| && ValidateGroup(rules, names[..j], g).Failure?
    ensures ValidateGroup(rules, names, g) == ValidateGroup(rules, names[..j], g)
    decreases |names| - j
  {
    if j < |names| {
      assert names[..j + 1][..j] == names[..j];
      ValidateGroupFailurePersists(rules, names, g, j + 1);
    } else {
      assert names[..j] == names;
    }
  }

  lemma {:induction false} ValidateAllFailure(rules: map<string, RuleConfig>, names: seq<string>, groups: seq<GroupRecord>, i: nat, e: Error)
    requires i < |groups| && ValidateAll(rules, names, groups[..i]).Success?
    requires ValidateGroup(rules, names, groups[i]) == Failure(e)
    ensures ValidateAll(rules, names, groups) == Failure(e)
  {
    ValidateAllFailureFrom(rules, names, groups, i + 1, e);
  }

  lemma {:induction false} ValidateAllFailureFrom(rules: map<string, RuleConfig>, names: seq<string>, groups: seq<GroupRecord>, k: nat, e: Error)
    requires 0 < k <= |groups|
    requires ValidateAll(rules, names, groups[..k - 1]).Success?
    requires ValidateGroup(rules, names, groups[k - 1]) == Failure(e)
    ensures ValidateAll(rules, names, groups[..k]) == Failure(e)
    ensures ValidateAll(rules, names, groups) == Failure(e)
    decreases |groups| - k
  {
    assert groups[..k][..k - 1] == groups[..k - 1];
    if k < |groups| {
      ValidateAllFailureFrom2(rules, names, groups, k + 1, e);
    } else {
      assert groups[..k] == groups;
    }
  }

  lemma {:induction false} ValidateAllFailureFrom2(rules: map<string, RuleConfig>, names: seq<string>, groups: seq<GroupRecord>, k: nat, e: Error)
    requires 0 < k <= |groups| && ValidateAll(rules, names, groups[..k - 1]) == Failure(e)
    ensures ValidateAll(rules, names, groups) == Failure(e)
    decreases |groups| - k
  {
    assert groups[..k][..k - 1] == groups[..k - 1];
    if k < |groups| {
      ValidateAllFailureFrom2(rules, names, groups, k + 1, e);
    } else {
      assert groups[..k] == groups;
    }
  }
}
