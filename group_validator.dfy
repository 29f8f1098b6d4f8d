/**
 * The structural check of a proposed grouping (`GroupValidatorTool._run`): control
 * characters are stripped from the incoming text, the text is decoded into a grouping,
 * and the grouping is checked for empty groups, files placed more than once and (on the
 * final validation) ungrouped files. Decoding the JSON text is a parameter of the model.
 */
module GroupValidator {
  import opened Wrappers
  import opened Seqs
  import opened AnalysisModels

  // =======================================================================================
  // Control-character stripping
  // =======================================================================================

  /** The characters the stripping pattern matches: U+0000-U+0008, U+000B, U+000C, U+000E-U+001F, U+007F. */
  predicate IsControl(c: char) {
    var n := c as int;
    n <= 0x08 || n == 0x0B || n == 0x0C || (0x0E <= n <= 0x1F) || n == 0x7F
  }

  /** The text with every control character removed and all other characters kept in order. */
  function StripControlChars(s: string): (r: string)
    ensures |r| <= |s|
  {
    if s == [] then []
    else
      var c := s[|s| - 1];
      StripControlChars(s[..|s| - 1]) + (if IsControl(c) then [] else [c])
  }

  /** Each control character is removed every time it occurs; every other character is kept as often as it occurs. */
  lemma {:induction false} StripCounts(s: string)
    ensures forall c :: multiset(StripControlChars(s))[c] == if IsControl(c) then 0 else multiset(s)[c]
  {
    if s != [] {
      var init := s[..|s| - 1];
      var c := s[|s| - 1];
      assert s == init + [c];
      StripCounts(init);
    }
  }

  /** Tab, line feed and carriage return are not stripped; the stripped set is exactly the listed ranges. */
  lemma ControlSet(c: char)
    ensures c == '\t' || c == '\n' || c == '\r' ==> !IsControl(c)
    ensures IsControl(c) <==> (c as int < 0x20 && c != '\t' && c != '\n' && c != '\r') || c as int == 0x7F
  {
  }

  /** Stripping distributes over concatenation, so the order of the kept characters is preserved. */
  lemma {:induction false} StripAppend(a: string, b: string)
    ensures StripControlChars(a + b) == StripControlChars(a) + StripControlChars(b)
    decreases |b|
  {
    if b != [] {
      var init := b[..|b| - 1];
      assert a + b == (a + init) + [b[|b| - 1]];
      assert (a + b)[..|a + b| - 1] == a + init;
      StripAppend(a, init);
    } else {
      assert a + b == a;
    }
  }

  /** A text without control characters is left unchanged. */
  lemma {:induction false} StripClean(s: string)
    requires forall i :: 0 <= i < |s| ==> !IsControl(s[i])
    ensures StripControlChars(s) == s
  {
    if s != [] {
      var init := s[..|s| - 1];
      assert forall i :: 0 <= i < |init| ==> init[i] == s[i];
      StripClean(init);
      assert !IsControl(s[|s| - 1]);
      assert s == init + [s[|s| - 1]];
    }
  }

  /** The result holds no control character, so stripping twice is stripping once. */
  lemma StripIdempotent(s: string)
    ensures forall i :: 0 <= i < |StripControlChars(s)| ==> !IsControl(StripControlChars(s)[i])
    ensures StripControlChars(StripControlChars(s)) == StripControlChars(s)
  {
    var r := StripControlChars(s);
    StripCounts(s);
    forall i | 0 <= i < |r|
      ensures !IsControl(r[i])
    {
      assert r[i] in multiset(r);
    }
    StripClean(r);
  }

  /** A kept line-break character stays between what was before it and what was after it. */
  lemma LineBreakKept(a: string, c: char, b: string)
    requires c == '\t' || c == '\n' || c == '\r'
    ensures StripControlChars(a + [c] + b) == StripControlChars(a) + [c] + StripControlChars(b)
  {
    StripAppend(a + [c], b);
    StripAppend(a, [c]);
    assert [c][..0] == [];
  }

  // =======================================================================================
  // Issues and the validation result
  // =======================================================================================

  datatype Severity = Medium | High | Critical {
    function Name(): string {
      match this
      case Medium => "medium"
      case High => "high"
      case Critical => "critical"
    }
  }

  /**
   * One `GroupValidationIssue`. Its fixed description and recommendation texts are not
   * modelled; what varies between issues of one type is kept.
   */
  datatype Issue =
    | EmptyGroup(affectedGroups: seq<string>)
    | DuplicateFiles(examples: seq<string>, affectedTitles: set<string>)
    | UngroupedFiles(count: nat)
    | ToolError(message: string)
  {
    function Severity(): Severity {
      match this
      case EmptyGroup(_) => High
      case DuplicateFiles(_, _) => High
      case UngroupedFiles(_) => Medium
      case ToolError(_) => Critical
    }

    function IssueType(): string {
      match this
      case EmptyGroup(_) => "Empty Group"
      case DuplicateFiles(_, _) => "Duplicate Files"
      case UngroupedFiles(_) => "Ungrouped Files"
      case ToolError(_) => "Tool Error"
    }

    /** The position of the issue's kind in the order the checks run. */
    function Rank(): nat {
      match this
      case EmptyGroup(_) => 0
      case DuplicateFiles(_, _) => 1
      case UngroupedFiles(_) => 2
      case ToolError(_) => 3
    }
  }

  /** `PRValidationResult` without its notes text. */
  datatype ValidationResult = ValidationResult(isValid: bool, issues: seq<Issue>, strategyType: StrategyType)

  // =======================================================================================
  // Specification of the checks
  // =======================================================================================

  /** The titles of the groups without files, in group order. */
  function EmptyTitles(gs: seq<PRGroup>): seq<string> {
    if gs == [] then []
    else EmptyTitles(gs[..|gs| - 1]) + (if gs[|gs| - 1].files == [] then [gs[|gs| - 1].title] else [])
  }

  /** One `(file_path, title)` pair per file of a group, in file order. */
  function Tagged(files: seq<string>, title: string): seq<(string, string)> {
    if files == [] then [] else Tagged(files[..|files| - 1], title) + [(files[|files| - 1], title)]
  }

  /** Every append to `files_in_groups`, group by group. */
  function Placements(gs: seq<PRGroup>): seq<(string, string)> {
    if gs == [] then [] else Placements(gs[..|gs| - 1]) + Tagged(gs[|gs| - 1].files, gs[|gs| - 1].title)
  }

  /** The `files_in_groups` dictionary: each path to the titles of the groups listing it, once per listing. */
  function FilesInGroups(ps: seq<(string, string)>): map<string, seq<string>> {
    map p | p in KeysOf(ps) :: ValuesFor(ps, p)
  }

  /** The keys of `duplicates`, in the dictionary's insertion order. */
  function DuplicatePaths(paths: seq<string>, filesInGroups: map<string, seq<string>>): seq<string> {
    if paths == [] then []
    else
      var p := paths[|paths| - 1];
      DuplicatePaths(paths[..|paths| - 1], filesInGroups) + (if p in filesInGroups && |filesInGroups[p]| > 1 then [p] else [])
  }

  lemma {:induction false} DuplicatePathsSpec(paths: seq<string>, filesInGroups: map<string, seq<string>>)
    ensures forall p :: p in DuplicatePaths(paths, filesInGroups) <==> p in paths && p in filesInGroups && |filesInGroups[p]| > 1
    ensures NoDup(paths) ==> NoDup(DuplicatePaths(paths, filesInGroups))
  {
    if paths != [] {
      var init := paths[..|paths| - 1];
      DuplicatePathsSpec(init, filesInGroups);
      assert paths == init + [paths[|paths| - 1]];
      if NoDup(paths) {
        assert NoDup(init) by {
          forall i, j | 0 <= i < j < |init|
            ensures init[i] != init[j]
          {
            assert init[i] == paths[i] && init[j] == paths[j];
          }
        }
      }
    }
  }

  /** The titles of every group that lists a duplicated path. */
  function AffectedTitles(dups: seq<string>, filesInGroups: map<string, seq<string>>): set<string> {
    set p, t | p in dups && p in filesInGroups && t in filesInGroups[p] :: t
  }

  /** The first five duplicated paths, as the description shows them. */
  function Examples(dups: seq<string>): seq<string> {
    dups[..Min(5, |dups|)]
  }

  /** The duplicated paths of a grouping. */
  function DuplicatesOf(gs: seq<PRGroup>): seq<string> {
    DuplicatePaths(KeysOf(Placements(gs)), FilesInGroups(Placements(gs)))
  }

  /** The titles the duplicate-files issue names for a grouping. */
  function AffectedOf(gs: seq<PRGroup>): set<string> {
    AffectedTitles(DuplicatesOf(gs), FilesInGroups(Placements(gs)))
  }

  /** The issue list built from the three checks' findings, in the order the checks run. */
  function CheckIssues(empty: seq<string>, dups: seq<string>, affected: set<string>, ungrouped: seq<string>, isFinalValidation: bool): seq<Issue> {
    (if empty != [] then [EmptyGroup(empty)] else [])
    + (if dups != [] then [DuplicateFiles(Examples(dups), affected)] else [])
    + (if isFinalValidation && ungrouped != [] then [UngroupedFiles(|ungrouped|)] else [])
  }

  /** The path occurs more than once among all group file lists, within one group or across groups. */
  ghost predicate Repeated(gs: seq<PRGroup>, p: string) {
    multiset(AllGroupFiles(gs))[p] > 1
  }

  /** The issues of a decoded grouping. */
  function Issues(s: GroupingResult, isFinalValidation: bool): seq<Issue> {
    CheckIssues(EmptyTitles(s.groups), DuplicatesOf(s.groups), AffectedOf(s.groups), s.ungroupedFiles, isFinalValidation)
  }

  function Validation(s: GroupingResult, isFinalValidation: bool): ValidationResult {
    var issues := Issues(s, isFinalValidation);
    ValidationResult(issues == [], issues, s.strategyType)
  }

  /** The result built in the exception handler. */
  function ToolErrorResult(message: string): ValidationResult {
    ValidationResult(false, [ToolError(message)], Mixed)
  }

  /**
   * `_run`: `decode` stands for `_validate_json_string`, `json.loads` and
   * `PRGroupingStrategy.model_validate_json` together; its failure carries the exception text.
   */
  function Outcome(json: string, isFinalValidation: bool, decode: string -> Result<GroupingResult, string>): ValidationResult {
    match decode(StripControlChars(json))
    case Failure(e) => ToolErrorResult(e)
    case Success(s) => Validation(s, isFinalValidation)
  }

  // =======================================================================================
  // The tool
  // =======================================================================================

  /** The double loop that fills `files_in_groups` and extends `all_files_set`. */
  method CollectPlacements(groups: seq<PRGroup>)
    returns (paths: seq<string>, filesInGroups: map<string, seq<string>>, allFiles: seq<string>)
    ensures Tracks(paths, filesInGroups, Placements(groups))
    ensures allFiles == AllGroupFiles(groups)
  {
    paths, filesInGroups, allFiles := [], map[], [];
    TracksEmpty(Placements(groups[..0]));
    for i := 0 to |groups|
      invariant Tracks(paths, filesInGroups, Placements(groups[..i]))
      invariant allFiles == AllGroupFiles(groups[..i])
    {
      assert groups[..i + 1][..i] == groups[..i];
      var group := groups[i];
      ghost var before := Placements(groups[..i]);
      assert group.files[..0] == [];
      assert before + Tagged(group.files, group.title)[..0] == before;
      for j := 0 to |group.files|
        invariant Tracks(paths, filesInGroups, before + Tagged(group.files[..j], group.title))
      {
        assert group.files[..j + 1][..j] == group.files[..j];
        var filePath := group.files[j];
        ghost var ps := before + Tagged(group.files[..j], group.title);
        assert before + Tagged(group.files[..j + 1], group.title) == ps + [(filePath, group.title)];
        TracksAppend(paths, filesInGroups, ps, filePath, group.title);
        if filePath !in filesInGroups {
          paths := paths + [filePath];
          filesInGroups := filesInGroups[filePath := []];
        }
        filesInGroups := filesInGroups[filePath := filesInGroups[filePath] + [group.title]];
      }
      assert group.files[..|group.files|] == group.files;
      allFiles := allFiles + group.files;
    }
    assert groups[..|groups|] == groups;
  }

  /** The checks of `_run` on a decoded grouping. */
  method ValidateGrouping(s: GroupingResult, isFinalValidation: bool) returns (r: ValidationResult)
    ensures r == Validation(s, isFinalValidation)
  {
    var issues: seq<Issue> := [];
    var emptyGroups := EmptyTitles(s.groups);
    if emptyGroups != [] {
      issues := issues + [EmptyGroup(emptyGroups)];
    }
    var paths, filesInGroups, allFiles := CollectPlacements(s.groups);
    assert filesInGroups == FilesInGroups(Placements(s.groups));
    var duplicates := DuplicatePaths(paths, filesInGroups);
    var affected := AffectedTitles(duplicates, filesInGroups);
    assert duplicates == DuplicatesOf(s.groups) && affected == AffectedOf(s.groups);
    if duplicates != [] {
      issues := issues + [DuplicateFiles(Examples(duplicates), affected)];
    }
    if isFinalValidation && s.ungroupedFiles != [] {
      issues := issues + [UngroupedFiles(|s.ungroupedFiles|)];
    }
    assert issues == CheckIssues(emptyGroups, duplicates, affected, s.ungroupedFiles, isFinalValidation);
    r := ValidationResult(issues == [], issues, s.strategyType);
  }

  /** `GroupValidatorTool._run`. */
  method RunGroupValidator(json: string, isFinalValidation: bool, decode: string -> Result<GroupingResult, string>)
    returns (r: ValidationResult)
    ensures r == Outcome(json, isFinalValidation, decode)
  {
    var text := StripControlChars(json);
    var grouping := decode(text);
    if grouping.Failure? {
      return ToolErrorResult(grouping.error);
    }
    r := ValidateGrouping(grouping.value, isFinalValidation);
  }

  // =======================================================================================
  // Properties
  // =======================================================================================

  lemma {:induction false} EmptyTitlesSpec(gs: seq<PRGroup>)
    ensures forall t :: t in EmptyTitles(gs) <==> exists i :: 0 <= i < |gs| && gs[i].files == [] && gs[i].title == t
  {
    if gs != [] {
      var n := |gs| - 1;
      var init := gs[..n];
      EmptyTitlesSpec(init);
      forall t
        ensures t in EmptyTitles(gs) <==> exists i :: 0 <= i < |gs| && gs[i].files == [] && gs[i].title == t
      {
        if t in EmptyTitles(init) {
          var i :| 0 <= i < |init| && init[i].files == [] && init[i].title == t;
          assert gs[i] == init[i];
        }
        if exists i :: 0 <= i < |gs| && gs[i].files == [] && gs[i].title == t {
          var i :| 0 <= i < |gs| && gs[i].files == [] && gs[i].title == t;
          if i < n {
            assert init[i] == gs[i];
          }
        }
      }
    }
  }

  lemma {:induction false} TaggedSpec(files: seq<string>, title: string)
    ensures forall p, t :: (p, t) in Tagged(files, title) <==> p in files && t == title
  {
    if files != [] {
      TaggedSpec(files[..|files| - 1], title);
      assert files == files[..|files| - 1] + [files[|files| - 1]];
    }
  }

  lemma {:induction false} TaggedCounts(files: seq<string>, title: string)
    ensures forall p :: |ValuesFor(Tagged(files, title), p)| == multiset(files)[p]
  {
    if files != [] {
      var init := files[..|files| - 1];
      var last := files[|files| - 1];
      TaggedCounts(init, title);
      assert files == init + [last];
      forall p
        ensures |ValuesFor(Tagged(files, title), p)| == multiset(files)[p]
      {
        ValuesForAppend(Tagged(init, title), last, title, p);
      }
    }
  }

  lemma {:induction false} ValuesForConcat(a: seq<(string, string)>, b: seq<(string, string)>, k: string)
    ensures ValuesFor(a + b, k) == ValuesFor(a, k) + ValuesFor(b, k)
    decreases |b|
  {
    if b == [] {
      assert a + b == a;
    } else {
      var init := b[..|b| - 1];
      var last := b[|b| - 1];
      assert a + b == (a + init) + [last];
      ValuesForConcat(a, init, k);
      ValuesForAppend(a + init, last.0, last.1, k);
      ValuesForAppend(init, last.0, last.1, k);
      assert init + [last] == b;
    }
  }

  /** The group `g` is titled `t` and lists `p`. */
  predicate Lists(g: PRGroup, t: string, p: string) {
    p in g.files && g.title == t
  }

  /** A pair is appended iff the group titled `t` lists the path. */
  lemma {:induction false} PlacementsSpec(gs: seq<PRGroup>)
    ensures forall p, t :: (p, t) in Placements(gs) <==> exists i :: 0 <= i < |gs| && Lists(gs[i], t, p)
  {
    if gs != [] {
      var n := |gs| - 1;
      var init := gs[..n];
      var g := gs[n];
      PlacementsSpec(init);
      TaggedSpec(g.files, g.title);
      var ps := Placements(init);
      var more := Tagged(g.files, g.title);
      assert Placements(gs) == ps + more;
      forall p, t
        ensures (p, t) in Placements(gs) <==> exists i :: 0 <= i < |gs| && Lists(gs[i], t, p)
      {
        if (p, t) in ps {
          var i :| 0 <= i < |init| && Lists(init[i], t, p);
          assert gs[i] == init[i];
        } else if (p, t) in more {
          assert Lists(gs[n], t, p);
        }
        if exists i :: 0 <= i < |gs| && Lists(gs[i], t, p) {
          var i :| 0 <= i < |gs| && Lists(gs[i], t, p);
          if i < n {
            assert init[i] == gs[i];
          }
        }
      }
    }
  }

  /** A path is appended once per listing. */
  lemma {:induction false} PlacementCounts(gs: seq<PRGroup>)
    ensures forall p :: |ValuesFor(Placements(gs), p)| == multiset(AllGroupFiles(gs))[p]
  {
    if gs != [] {
      var n := |gs| - 1;
      var g := gs[n];
      PlacementCounts(gs[..n]);
      TaggedCounts(g.files, g.title);
      forall p
        ensures |ValuesFor(Placements(gs), p)| == multiset(AllGroupFiles(gs))[p]
      {
        ValuesForConcat(Placements(gs[..n]), Tagged(g.files, g.title), p);
      }
    }
  }

  /** A path is reported as a duplicate iff it occurs more than once among all group file lists. */
  lemma DuplicatesSpec(gs: seq<PRGroup>)
    ensures forall p :: p in DuplicatesOf(gs) <==> Repeated(gs, p)
    ensures NoDup(DuplicatesOf(gs))
  {
    var ps := Placements(gs);
    PlacementCounts(gs);
    KeysOfSpec(ps);
    forall p
      ensures p in KeysOf(ps) <==> |ValuesFor(ps, p)| > 0
    {
      ValuesForSpec(ps, p);
    }
    DuplicatePathsSpec(KeysOf(ps), FilesInGroups(ps));
  }

  /** The affected titles are those of the groups that list some duplicated path. */
  lemma AffectedSpec(gs: seq<PRGroup>)
    ensures forall t :: t in AffectedOf(gs) <==>
      exists i :: 0 <= i < |gs| && gs[i].title == t && exists p :: p in gs[i].files && Repeated(gs, p)
  {
    var ps := Placements(gs);
    var m := FilesInGroups(ps);
    var dups := DuplicatesOf(gs);
    PlacementsSpec(gs);
    DuplicatesSpec(gs);
    forall t
      ensures t in AffectedOf(gs) <==>
        exists i :: 0 <= i < |gs| && gs[i].title == t && exists p :: p in gs[i].files && Repeated(gs, p)
    {
      if t in AffectedOf(gs) {
        var p :| p in dups && p in m && t in m[p];
        ValuesForSpec(ps, p);
        assert (p, t) in ps;
        var i :| 0 <= i < |gs| && Lists(gs[i], t, p);
      }
      if exists i :: 0 <= i < |gs| && gs[i].title == t && exists p :: p in gs[i].files && Repeated(gs, p) {
        var i :| 0 <= i < |gs| && gs[i].title == t && exists p :: p in gs[i].files && Repeated(gs, p);
        var p :| p in gs[i].files && Repeated(gs, p);
        assert Lists(gs[i], t, p);
        assert (p, t) in ps;
        ValuesForSpec(ps, p);
        assert p in dups && p in m && t in m[p];
      }
    }
  }

  /** At most five examples are shown, taken from the front of the duplicates list. */
  lemma ExamplesSpec(dups: seq<string>)
    ensures |Examples(dups)| == Min(5, |dups|)
    ensures |dups| <= 5 ==> Examples(dups) == dups
    ensures forall p :: p in Examples(dups) ==> p in dups
  {
    assert dups[..|dups|] == dups;
  }

  /**
   * The duplicated paths are listed in the order in which they are first listed by the
   * groups, so the examples shown are the duplicates listed first.
   */
  lemma ExamplesFirstListed(gs: seq<PRGroup>)
    ensures forall p :: p in DuplicatesOf(gs) ==> p in AllGroupFiles(gs)
    ensures InFirstOrder(DuplicatesOf(gs), AllGroupFiles(gs))
    ensures forall k :: 0 <= k < |Examples(DuplicatesOf(gs))| ==> Examples(DuplicatesOf(gs))[k] == DuplicatesOf(gs)[k]
    ensures forall p, q :: p in Examples(DuplicatesOf(gs)) && q in DuplicatesOf(gs) && q !in Examples(DuplicatesOf(gs)) ==>
      FirstIndex(AllGroupFiles(gs), p) < FirstIndex(AllGroupFiles(gs), q)
  {
    var d := DuplicatesOf(gs);
    var e := Examples(d);
    var files := AllGroupFiles(gs);
    DuplicatesSpec(gs);
    forall p | p in d
      ensures p in files
    {
      assert multiset(files)[p] > 1;
    }
    DuplicatesInFirstOrder(gs);
    forall p, q | p in e && q in d && q !in e
      ensures FirstIndex(files, p) < FirstIndex(files, q)
    {
      var a :| 0 <= a < |e| && e[a] == p;
      var b :| 0 <= b < |d| && d[b] == q;
      assert d[a] == p;
    }
  }

  /** The duplicated paths of a grouping, in order of their first listing. */
  lemma DuplicatesInFirstOrder(gs: seq<PRGroup>)
    ensures InFirstOrder(DuplicatesOf(gs), AllGroupFiles(gs))
  {
    var ps := Placements(gs);
    KeysOfInFirstOrder(ps);
    FirstsPlacements(gs);
    DuplicatePathsOrder(KeysOf(ps), FilesInGroups(ps), AllGroupFiles(gs));
  }

  lemma {:induction false} FirstsTagged(files: seq<string>, title: string)
    ensures Firsts(Tagged(files, title)) == files
  {
    if files != [] {
      var init := files[..|files| - 1];
      FirstsTagged(init, title);
      FirstsAppend(Tagged(init, title), [(files[|files| - 1], title)]);
    }
  }

  /** The paths of the appends to `files_in_groups` are all group files, in order. */
  lemma {:induction false} FirstsPlacements(gs: seq<PRGroup>)
    ensures Firsts(Placements(gs)) == AllGroupFiles(gs)
  {
    if gs != [] {
      var n := |gs| - 1;
      FirstsPlacements(gs[..n]);
      FirstsTagged(gs[n].files, gs[n].title);
      FirstsAppend(Placements(gs[..n]), Tagged(gs[n].files, gs[n].title));
    }
  }

  /** Keeping only the duplicated keys keeps their order. */
  lemma {:induction false} DuplicatePathsOrder(paths: seq<string>, m: map<string, seq<string>>, ref: seq<string>)
    requires InFirstOrder(paths, ref)
    ensures InFirstOrder(DuplicatePaths(paths, m), ref)
  {
    if paths != [] {
      var n := |paths| - 1;
      var init := paths[..n];
      var p := paths[n];
      assert InFirstOrder(init, ref) by {
        assert forall i :: 0 <= i < |init| ==> init[i] == paths[i];
      }
      DuplicatePathsOrder(init, m, ref);
      if p in m && |m[p]| > 1 {
        var d := DuplicatePaths(init, m);
        DuplicatePathsSpec(init, m);
        forall x | x in d
          ensures x in ref && p in ref && FirstIndex(ref, x) < FirstIndex(ref, p)
        {
          var a :| 0 <= a < n && init[a] == x;
          assert paths[a] == x;
        }
        assert p in ref;
        InFirstOrderSnoc(d, p, ref);
      }
    }
  }

  /** The issues appear in check order, at most one of each kind, and never a tool error. */
  lemma CheckIssuesSpec(e: seq<string>, d: seq<string>, a: set<string>, u: seq<string>, f: bool)
    ensures forall k, l :: 0 <= k < l < |CheckIssues(e, d, a, u, f)| ==> CheckIssues(e, d, a, u, f)[k].Rank() < CheckIssues(e, d, a, u, f)[l].Rank()
    ensures forall k :: 0 <= k < |CheckIssues(e, d, a, u, f)| ==> !CheckIssues(e, d, a, u, f)[k].ToolError?
    ensures |CheckIssues(e, d, a, u, f)| <= 3
  {
    var es := if e != [] then [EmptyGroup(e)] else [];
    var ds := if d != [] then [DuplicateFiles(Examples(d), a)] else [];
    var us := if f && u != [] then [UngroupedFiles(|u|)] else [];
    assert CheckIssues(e, d, a, u, f) == es + ds + us;
  }

  /** Each kind of issue is present, at its place in check order, iff its check found something. */
  lemma CheckIssuesPresence(e: seq<string>, d: seq<string>, a: set<string>, u: seq<string>, f: bool)
    ensures e != [] ==> |CheckIssues(e, d, a, u, f)| > 0 && CheckIssues(e, d, a, u, f)[0] == EmptyGroup(e)
    ensures d != [] ==> |CheckIssues(e, d, a, u, f)| > DupSlot(e) && CheckIssues(e, d, a, u, f)[DupSlot(e)] == DuplicateFiles(Examples(d), a)
    ensures f && u != [] ==> |CheckIssues(e, d, a, u, f)| > 0 && CheckIssues(e, d, a, u, f)[|CheckIssues(e, d, a, u, f)| - 1] == UngroupedFiles(|u|)
    ensures forall k :: 0 <= k < |CheckIssues(e, d, a, u, f)| && CheckIssues(e, d, a, u, f)[k].EmptyGroup? ==>
      e != [] && CheckIssues(e, d, a, u, f)[k] == EmptyGroup(e)
    ensures forall k :: 0 <= k < |CheckIssues(e, d, a, u, f)| && CheckIssues(e, d, a, u, f)[k].DuplicateFiles? ==>
      d != [] && CheckIssues(e, d, a, u, f)[k] == DuplicateFiles(Examples(d), a)
    ensures forall k :: 0 <= k < |CheckIssues(e, d, a, u, f)| && CheckIssues(e, d, a, u, f)[k].UngroupedFiles? ==>
      f && u != [] && CheckIssues(e, d, a, u, f)[k] == UngroupedFiles(|u|)
  {
    var es := if e != [] then [EmptyGroup(e)] else [];
    var ds := if d != [] then [DuplicateFiles(Examples(d), a)] else [];
    var us := if f && u != [] then [UngroupedFiles(|u|)] else [];
    assert CheckIssues(e, d, a, u, f) == es + ds + us;
  }

  /** Where the duplicate-files issue sits: after the empty-group issue when there is one. */
  function DupSlot(e: seq<string>): nat {
    if e != [] then 1 else 0
  }

  /** The result is valid iff it has no issue; it has at most three and keeps the strategy type. */
  lemma ValidationSpec(s: GroupingResult, isFinalValidation: bool)
    ensures Validation(s, isFinalValidation).isValid <==> Validation(s, isFinalValidation).issues == []
    ensures Validation(s, isFinalValidation).strategyType == s.strategyType
    ensures |Validation(s, isFinalValidation).issues| <= 3
    ensures (exists k :: 0 <= k < |Validation(s, isFinalValidation).issues| && Validation(s, isFinalValidation).issues[k].UngroupedFiles?)
      <==> isFinalValidation && s.ungroupedFiles != []
  {
    var issues := Validation(s, isFinalValidation).issues;
    CheckIssuesSpec(EmptyTitles(s.groups), DuplicatesOf(s.groups), AffectedOf(s.groups), s.ungroupedFiles, isFinalValidation);
    CheckIssuesPresence(EmptyTitles(s.groups), DuplicatesOf(s.groups), AffectedOf(s.groups), s.ungroupedFiles, isFinalValidation);
    if isFinalValidation && s.ungroupedFiles != [] {
      assert issues[|issues| - 1].UngroupedFiles?;
    }
  }

  /** An empty-group issue is raised iff some group has no files. */
  lemma EmptyGroupReported(s: GroupingResult, isFinalValidation: bool)
    ensures (exists k :: 0 <= k < |Issues(s, isFinalValidation)| && Issues(s, isFinalValidation)[k].EmptyGroup?)
      <==> exists i :: 0 <= i < |s.groups| && s.groups[i].files == []
  {
    var issues := Issues(s, isFinalValidation);
    EmptyTitlesSpec(s.groups);
    CheckIssuesPresence(EmptyTitles(s.groups), DuplicatesOf(s.groups), AffectedOf(s.groups), s.ungroupedFiles, isFinalValidation);
    if exists i :: 0 <= i < |s.groups| && s.groups[i].files == [] {
      var i :| 0 <= i < |s.groups| && s.groups[i].files == [];
      assert s.groups[i].title in EmptyTitles(s.groups);
      assert issues[0].EmptyGroup?;
    }
    if EmptyTitles(s.groups) != [] {
      assert EmptyTitles(s.groups)[0] in EmptyTitles(s.groups);
    }
  }

  /** A duplicate-files issue is raised iff some path occurs twice among all group file lists. */
  lemma DuplicateReported(s: GroupingResult, isFinalValidation: bool)
    ensures (exists k :: 0 <= k < |Issues(s, isFinalValidation)| && Issues(s, isFinalValidation)[k].DuplicateFiles?)
      <==> exists p :: Repeated(s.groups, p)
  {
    var issues := Issues(s, isFinalValidation);
    var dups := DuplicatesOf(s.groups);
    DuplicatesSpec(s.groups);
    CheckIssuesPresence(EmptyTitles(s.groups), dups, AffectedOf(s.groups), s.ungroupedFiles, isFinalValidation);
    if exists p :: Repeated(s.groups, p) {
      var p :| Repeated(s.groups, p);
      assert p in dups;
      assert issues[DupSlot(EmptyTitles(s.groups))].DuplicateFiles?;
    }
    if exists k :: 0 <= k < |issues| && issues[k].DuplicateFiles? {
      assert dups != [];
      assert Repeated(s.groups, dups[0]);
    }
  }

  /** The affected groups of an empty-group issue are exactly the titles of the groups without files. */
  lemma EmptyGroupIssueSpec(s: GroupingResult, isFinalValidation: bool, k: nat)
    requires k < |Issues(s, isFinalValidation)| && Issues(s, isFinalValidation)[k].EmptyGroup?
    ensures Issues(s, isFinalValidation)[k].Severity() == High
    ensures forall t :: t in Issues(s, isFinalValidation)[k].affectedGroups <==>
      exists i :: 0 <= i < |s.groups| && s.groups[i].files == [] && s.groups[i].title == t
  {
    EmptyTitlesSpec(s.groups);
    CheckIssuesPresence(EmptyTitles(s.groups), DuplicatesOf(s.groups), AffectedOf(s.groups), s.ungroupedFiles, isFinalValidation);
  }

  /** A duplicate-files issue names up to five duplicated paths and the titles of all groups holding one. */
  lemma DuplicateIssueSpec(s: GroupingResult, isFinalValidation: bool, k: nat)
    requires k < |Issues(s, isFinalValidation)| && Issues(s, isFinalValidation)[k].DuplicateFiles?
    ensures Issues(s, isFinalValidation)[k].Severity() == High
    ensures 0 < |Issues(s, isFinalValidation)[k].examples| <= 5
    ensures forall p :: p in Issues(s, isFinalValidation)[k].examples ==> Repeated(s.groups, p)
    ensures forall t :: t in Issues(s, isFinalValidation)[k].affectedTitles <==>
      exists i :: 0 <= i < |s.groups| && s.groups[i].title == t && exists p :: p in s.groups[i].files && Repeated(s.groups, p)
  {
    var dups := DuplicatesOf(s.groups);
    CheckIssuesPresence(EmptyTitles(s.groups), dups, AffectedOf(s.groups), s.ungroupedFiles, isFinalValidation);
    DuplicatesSpec(s.groups);
    AffectedSpec(s.groups);
    ExamplesSpec(dups);
  }

  /** A path listed twice by the same group counts as repeated, so it is reported as a duplicate. */
  lemma RepeatInOneGroup(gs: seq<PRGroup>, i: nat, a: nat, b: nat)
    requires i < |gs| && a < b < |gs[i].files| && gs[i].files[a] == gs[i].files[b]
    ensures Repeated(gs, gs[i].files[a])
  {
    var p := gs[i].files[a];
    var files := gs[i].files;
    var front := files[..b];
    assert files == front + [p] + files[b + 1..];
    assert front[a] == p;
    assert multiset(front)[p] >= 1;
    assert multiset(files)[p] >= 2;
    GroupFilesCounted(gs, i, p);
  }

  lemma {:induction false} GroupFilesCounted(gs: seq<PRGroup>, i: nat, p: string)
    requires i < |gs|
    ensures multiset(AllGroupFiles(gs))[p] >= multiset(gs[i].files)[p]
  {
    var n := |gs| - 1;
    if i < n {
      GroupFilesCounted(gs[..n], i, p);
      assert gs[..n][i] == gs[i];
    }
  }

  /** On every path the result is valid iff it has no issue, and it has at most three. */
  lemma OutcomeSpec(json: string, isFinalValidation: bool, decode: string -> Result<GroupingResult, string>)
    ensures Outcome(json, isFinalValidation, decode).isValid <==> Outcome(json, isFinalValidation, decode).issues == []
    ensures |Outcome(json, isFinalValidation, decode).issues| <= 3
    ensures decode(StripControlChars(json)).Failure? ==>
      var r := Outcome(json, isFinalValidation, decode);
      && !r.isValid && |r.issues| == 1
      && r.issues[0] == ToolError(decode(StripControlChars(json)).error)
      && r.issues[0].Severity() == Critical
      && r.strategyType == Mixed
    ensures decode(StripControlChars(json)).Success? ==>
      Outcome(json, isFinalValidation, decode) == Validation(decode(StripControlChars(json)).value, isFinalValidation)
  {
    if decode(StripControlChars(json)).Success? {
      ValidationSpec(decode(StripControlChars(json)).value, isFinalValidation);
    }
  }
}
