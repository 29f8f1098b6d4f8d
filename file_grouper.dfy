/**
 * The file grouper tool: groups one batch of changed files into PR groups by directory,
 * by file extension ("module"), by contiguous size halves, by pattern-analysis features,
 * or by features followed by directories ("mixed"), and post-processes the result.
 */
module FileGrouper {
  import opened Wrappers
  import opened Seqs
  import opened Text
  import opened AnalysisModels

  // =======================================================================================
  // Paths and keyed buckets (shared by the directory and the module strategies)
  // =======================================================================================

  /** `[fc.path for fc in files if fc.path]`. */
  function Paths(files: seq<FileChange>): (r: seq<string>)
    ensures forall p :: p in r <==> p != "" && exists fc :: fc in files && fc.path == p
  {
    if files == [] then []
    else
      var init, fc := files[..|files| - 1], files[|files| - 1];
      assert files == init + [fc];
      if fc.path != "" then Paths(init) + [fc.path] else Paths(init)
  }

  /** Which field a keyed strategy buckets on. */
  datatype Bucketing = ByDirectory | ByExtension

  /** `file_ctx.directory or "(root)"` and `file_ctx.extension or "(noext)"`. */
  function BucketKey(mode: Bucketing, fc: FileChange): string {
    match mode
    case ByDirectory => if fc.directory == "" then "(root)" else fc.directory
    case ByExtension => if fc.extension == "" then "(noext)" else fc.extension
  }

  /** The `d[key].append(path)` calls of the bucketing loop, one per record with a path. */
  function BucketPairs(files: seq<FileChange>, mode: Bucketing): seq<(string, string)> {
    if files == [] then []
    else
      var init, fc := files[..|files| - 1], files[|files| - 1];
      if fc.path != "" then BucketPairs(init, mode) + [(BucketKey(mode, fc), fc.path)] else BucketPairs(init, mode)
  }

  lemma {:induction false} BucketPairsValues(files: seq<FileChange>, mode: Bucketing)
    ensures ValuesOf(BucketPairs(files, mode)) == Paths(files)
  {
    if files != [] {
      var init, fc := files[..|files| - 1], files[|files| - 1];
      var ps := BucketPairs(init, mode);
      BucketPairsValues(init, mode);
      if fc.path != "" {
        var ps' := ps + [(BucketKey(mode, fc), fc.path)];
        assert ps'[..|ps'| - 1] == ps;
      }
    }
  }

  lemma {:induction false} BucketPairsMember(files: seq<FileChange>, mode: Bucketing, k: string, p: string)
    ensures (k, p) in BucketPairs(files, mode) <==>
      p != "" && exists fc :: fc in files && fc.path == p && BucketKey(mode, fc) == k
  {
    if files != [] {
      var init, fc := files[..|files| - 1], files[|files| - 1];
      assert files == init + [fc];
      BucketPairsMember(init, mode, k, p);
    }
  }

  /** The bucketing loop: `for fc in files: if fc.path: d[key(fc)].append(fc.path)`. */
  method Bucket(files: seq<FileChange>, mode: Bucketing) returns (keys: seq<string>, buckets: map<string, seq<string>>)
    ensures Tracks(keys, buckets, BucketPairs(files, mode))
  {
    keys, buckets := [], map[];
    TracksEmpty(BucketPairs(files[..0], mode));
    for i := 0 to |files|
      invariant Tracks(keys, buckets, BucketPairs(files[..i], mode))
    {
      var fc := files[i];
      assert files[..i + 1][..i] == files[..i];
      var key := BucketKey(mode, fc);
      if fc.path != "" {
        TracksAppend(keys, buckets, BucketPairs(files[..i], mode), key, fc.path);
        if key in buckets {
          buckets := buckets[key := buckets[key] + [fc.path]];
        } else {
          keys := keys + [key];
          buckets := buckets[key := [fc.path]];
        }
      }
    }
    assert files[..|files|] == files;
  }

  /** The group `_group_by_directory` emits for one directory. */
  function DirectoryGroup(directory: string, files: seq<string>): PRGroup {
    PRGroup(
      "Refactor: Changes in directory '" + directory + "'",
      files,
      "Batch changes focused within the '" + directory + "' directory.",
      None,
      Some(directory),
      |files|)
  }

  /** `module.replace(".", "")`, or "NoExtension" for the "(noext)" key or an empty result. */
  function ModuleDisplay(module_: string): (r: string)
    ensures r != "" && '.' !in r
  {
    var d := if module_ != "(noext)" then ReplaceChar(module_, '.', "") else "NoExtension";
    if d == "" then "NoExtension" else d
  }

  /** The group `_group_by_module` emits for one extension. */
  function ModuleGroup(module_: string, files: seq<string>): PRGroup {
    var display := ModuleDisplay(module_);
    PRGroup(
      "Chore: " + display + " module changes",
      files,
      "Batch changes grouped by file type '" + module_ + "'.",
      Some("module-" + display),
      None,
      |files|)
  }

  function KeyedGroup(mode: Bucketing, key: string, files: seq<string>): PRGroup {
    match mode
    case ByDirectory => DirectoryGroup(key, files)
    case ByExtension => ModuleGroup(key, files)
  }

  /** The emit loop: one group per key, in key order, for each non-empty bucket. */
  function EmitGroups(ps: seq<(string, string)>, ks: seq<string>, mode: Bucketing): seq<PRGroup> {
    if ks == [] then []
    else
      var key := ks[|ks| - 1];
      var fs := ValuesFor(ps, key);
      var init := EmitGroups(ps, ks[..|ks| - 1], mode);
      if |fs| > 0 then init + [KeyedGroup(mode, key, fs)] else init
  }

  function KeyedGroups(files: seq<FileChange>, mode: Bucketing): seq<PRGroup> {
    var ps := BucketPairs(files, mode);
    EmitGroups(ps, KeysOf(ps), mode)
  }

  /** The result of `_group_by_directory`. */
  function DirectoryGroups(files: seq<FileChange>): seq<PRGroup> {
    KeyedGroups(files, ByDirectory)
  }

  /** The result of `_group_by_module`. */
  function ModuleGroups(files: seq<FileChange>): seq<PRGroup> {
    KeyedGroups(files, ByExtension)
  }

  /** The emit loop shared by both keyed strategies. */
  method EmitKeyed(keys: seq<string>, buckets: map<string, seq<string>>, mode: Bucketing, ghost ps: seq<(string, string)>)
    returns (groups: seq<PRGroup>)
    requires Tracks(keys, buckets, ps)
    ensures groups == EmitGroups(ps, keys, mode)
  {
    groups := [];
    for j := 0 to |keys|
      invariant groups == EmitGroups(ps, keys[..j], mode)
    {
      assert keys[..j + 1][..j] == keys[..j];
      var key := keys[j];
      var files := buckets[key];
      if |files| > 0 {
        groups := groups + [KeyedGroup(mode, key, files)];
      }
    }
    assert keys[..|keys|] == keys;
  }

  method GroupByDirectory(batchFiles: seq<FileChange>) returns (groups: seq<PRGroup>)
    ensures groups == DirectoryGroups(batchFiles)
  {
    var keys, dirToFiles := Bucket(batchFiles, ByDirectory);
    groups := EmitKeyed(keys, dirToFiles, ByDirectory, BucketPairs(batchFiles, ByDirectory));
  }

  method GroupByModule(batchFiles: seq<FileChange>) returns (groups: seq<PRGroup>)
    ensures groups == ModuleGroups(batchFiles)
  {
    var keys, moduleGroups := Bucket(batchFiles, ByExtension);
    groups := EmitKeyed(keys, moduleGroups, ByExtension, BucketPairs(batchFiles, ByExtension));
  }

  // ---- properties of the keyed strategies --------------------------------------------

  lemma EmitGroupsShape(ps: seq<(string, string)>, ks: seq<string>, mode: Bucketing)
    requires forall k :: k in ks ==> k in KeysOf(ps)
    ensures |EmitGroups(ps, ks, mode)| == |ks|
    ensures forall i :: 0 <= i < |ks| ==> EmitGroups(ps, ks, mode)[i] == KeyedGroup(mode, ks[i], ValuesFor(ps, ks[i]))
    ensures forall i :: 0 <= i < |ks| ==> |ValuesFor(ps, ks[i])| > 0
  {
    EmitGroupsAt(ps, ks, mode);
    forall i | 0 <= i < |ks|
      ensures |ValuesFor(ps, ks[i])| > 0
    {
      ValuesForNonEmpty(ps, ks[i]);
    }
  }

  /** When every key has values, the emit loop makes exactly one group per key. */
  lemma {:induction false} EmitGroupsAt(ps: seq<(string, string)>, ks: seq<string>, mode: Bucketing)
    requires forall k :: k in ks ==> k in KeysOf(ps)
    ensures |EmitGroups(ps, ks, mode)| == |ks|
    ensures forall i :: 0 <= i < |ks| ==> EmitGroups(ps, ks, mode)[i] == KeyedGroup(mode, ks[i], ValuesFor(ps, ks[i]))
    decreases |ks|
  {
    if ks != [] {
      var init := ks[..|ks| - 1];
      assert forall k :: k in init ==> k in KeysOf(ps) by {
        forall k | k in init
          ensures k in ks
        {
        }
      }
      EmitGroupsAt(ps, init, mode);
      EmitGroupsAtSnoc(ps, ks, mode);
    }
  }

  lemma EmitGroupsAtSnoc(ps: seq<(string, string)>, ks: seq<string>, mode: Bucketing)
    requires ks != [] && ks[|ks| - 1] in KeysOf(ps)
    requires var gs0, init := EmitGroups(ps, ks[..|ks| - 1], mode), ks[..|ks| - 1];
      |gs0| == |init| && forall i :: 0 <= i < |init| ==> gs0[i] == KeyedGroup(mode, init[i], ValuesFor(ps, init[i]))
    ensures |EmitGroups(ps, ks, mode)| == |ks|
    ensures forall i :: 0 <= i < |ks| ==> EmitGroups(ps, ks, mode)[i] == KeyedGroup(mode, ks[i], ValuesFor(ps, ks[i]))
  {
    var init, key := ks[..|ks| - 1], ks[|ks| - 1];
    ValuesForNonEmpty(ps, key);
    var gs0 := EmitGroups(ps, init, mode);
    var g := KeyedGroup(mode, key, ValuesFor(ps, key));
    assert EmitGroups(ps, ks, mode) == gs0 + [g];
    forall i | 0 <= i < |ks|
      ensures (gs0 + [g])[i] == KeyedGroup(mode, ks[i], ValuesFor(ps, ks[i]))
    {
      if i < |init| {
        assert ks[i] == init[i];
      }
    }
  }

  lemma KeyedGroupFiles(mode: Bucketing, key: string, fs: seq<string>)
    ensures KeyedGroup(mode, key, fs).files == fs
  {
    match mode
    case ByDirectory =>
    case ByExtension =>
  }

  lemma {:induction false} EmitGroupsFiles(ps: seq<(string, string)>, ks: seq<string>, mode: Bucketing)
    ensures AllGroupFiles(EmitGroups(ps, ks, mode)) == BucketContents(ps, ks)
    decreases |ks|
  {
    if ks != [] {
      EmitGroupsFiles(ps, ks[..|ks| - 1], mode);
      EmitGroupsFilesSnoc(ps, ks, mode);
    }
  }

  lemma EmitGroupsFilesSnoc(ps: seq<(string, string)>, ks: seq<string>, mode: Bucketing)
    requires ks != []
    requires AllGroupFiles(EmitGroups(ps, ks[..|ks| - 1], mode)) == BucketContents(ps, ks[..|ks| - 1])
    ensures AllGroupFiles(EmitGroups(ps, ks, mode)) == BucketContents(ps, ks)
  {
    var key := ks[|ks| - 1];
    var gs0 := EmitGroups(ps, ks[..|ks| - 1], mode);
    var fs := ValuesFor(ps, key);
    BucketContentsLast(ps, ks);
    if |fs| > 0 {
      var g := KeyedGroup(mode, key, fs);
      assert EmitGroups(ps, ks, mode) == gs0 + [g];
      AllGroupFilesAppend(gs0, g);
      KeyedGroupFiles(mode, key, fs);
    } else {
      assert EmitGroups(ps, ks, mode) == gs0;
    }
  }

  /**
   * Partition by key: there is one non-empty group per distinct key, in first-seen key
   * order; a path is in the group of key k iff some record with that path has key k; and
   * the groups together hold every record's path exactly as often as the records do.
   */
  lemma KeyedGroupsPartition(files: seq<FileChange>, mode: Bucketing)
    ensures var ps := BucketPairs(files, mode);
      var ks := KeysOf(ps);
      var gs := KeyedGroups(files, mode);
      && NoDup(ks)
      && |gs| == |ks|
      && (forall i :: 0 <= i < |gs| ==> gs[i] == KeyedGroup(mode, ks[i], ValuesFor(ps, ks[i])) && |gs[i].files| > 0)
      && (forall i, p :: 0 <= i < |gs| ==>
            (p in gs[i].files <==> p != "" && exists fc :: fc in files && fc.path == p && BucketKey(mode, fc) == ks[i]))
      && multiset(AllGroupFiles(gs)) == multiset(Paths(files))
  {
    var ps := BucketPairs(files, mode);
    var ks := KeysOf(ps);
    KeysOfSpec(ps);
    EmitGroupsShape(ps, ks, mode);
    EmitGroupsFiles(ps, ks, mode);
    BucketsConserve(ps);
    BucketPairsValues(files, mode);
    forall i, p | 0 <= i < |ks|
      ensures p in ValuesFor(ps, ks[i]) <==> p != "" && exists fc :: fc in files && fc.path == p && BucketKey(mode, fc) == ks[i]
    {
      ValuesForSpec(ps, ks[i]);
      BucketPairsMember(files, mode, ks[i], p);
    }
  }

  /** Every record with a path lands in the group of its own key. */
  lemma KeyedGroupsCover(files: seq<FileChange>, mode: Bucketing, fc: FileChange)
    requires fc in files && fc.path != ""
    ensures exists i ::
      && 0 <= i < |KeyedGroups(files, mode)|
      && i < |KeysOf(BucketPairs(files, mode))|
      && KeysOf(BucketPairs(files, mode))[i] == BucketKey(mode, fc)
      && fc.path in KeyedGroups(files, mode)[i].files
  {
    var ps := BucketPairs(files, mode);
    var ks := KeysOf(ps);
    KeyedGroupsPartition(files, mode);
    BucketPairsMember(files, mode, BucketKey(mode, fc), fc.path);
    var a :| 0 <= a < |ps| && ps[a] == (BucketKey(mode, fc), fc.path);
    KeysOfSpec(ps);
    assert BucketKey(mode, fc) in ks;
    var i :| 0 <= i < |ks| && ks[i] == BucketKey(mode, fc);
  }

  /**
   * `_group_by_directory`: one group per directory ("(root)" for records without one), in
   * first-seen order, with `directory_focus` the directory and `estimated_size` the number
   * of its files; every record with a path is in the group of its directory.
   */
  lemma DirectoryGroupsSpec(files: seq<FileChange>)
    ensures var ks := KeysOf(BucketPairs(files, ByDirectory));
      var gs := DirectoryGroups(files);
      && NoDup(ks)
      && |gs| == |ks|
      && (forall i :: 0 <= i < |gs| ==>
            && gs[i].directoryFocus == Some(ks[i])
            && gs[i].featureFocus == None
            && gs[i].estimatedSize == |gs[i].files| > 0)
      && (forall i, p :: 0 <= i < |gs| ==>
            (p in gs[i].files <==> p != "" && exists fc :: fc in files && fc.path == p && BucketKey(ByDirectory, fc) == ks[i]))
      && multiset(AllGroupFiles(gs)) == multiset(Paths(files))
  {
    KeyedGroupsPartition(files, ByDirectory);
  }

  /**
   * `_group_by_module`: the same partition keyed by extension ("(noext)" when missing),
   * with `feature_focus` "module-" followed by the extension without dots, or
   * "module-NoExtension".
   */
  lemma ModuleGroupsSpec(files: seq<FileChange>)
    ensures var ks := KeysOf(BucketPairs(files, ByExtension));
      var gs := ModuleGroups(files);
      && NoDup(ks)
      && |gs| == |ks|
      && (forall i :: 0 <= i < |gs| ==>
            && gs[i].featureFocus == Some("module-" + ModuleDisplay(ks[i]))
            && gs[i].directoryFocus == None
            && gs[i].estimatedSize == |gs[i].files| > 0)
      && (forall i, p :: 0 <= i < |gs| ==>
            (p in gs[i].files <==> p != "" && exists fc :: fc in files && fc.path == p && BucketKey(ByExtension, fc) == ks[i]))
      && multiset(AllGroupFiles(gs)) == multiset(Paths(files))
  {
    KeyedGroupsPartition(files, ByExtension);
  }

  /** The module display name is the extension with its dots removed when that is non-empty. */
  lemma ModuleDisplaySpec(ext: string)
    ensures ext == "(noext)" ==> ModuleDisplay(ext) == "NoExtension"
    ensures ext != "(noext)" && ReplaceChar(ext, '.', "") != "" ==> ModuleDisplay(ext) == ReplaceChar(ext, '.', "")
    ensures ReplaceChar(ext, '.', "") == "" ==> ModuleDisplay(ext) == "NoExtension"
  {
  }

  // =======================================================================================
  // Size-balanced grouping
  // =======================================================================================

  /** Part `part` of `total` of the size-balanced grouping. */
  function SizeGroup(part: nat, total: nat, files: seq<string>): PRGroup {
    PRGroup(
      "Chore: Batch Changes (Part " + NatToString(part) + "/" + NatToString(total) + ")",
      files,
      "Part " + NatToString(part) + " of the batch, grouped for balanced size.",
      Some("size-balanced-" + NatToString(part)),
      None,
      |files|)
  }

  /**
   * The result of `_group_by_size` in closed form: nothing for no paths, one part for at
   * most five paths, and otherwise two contiguous halves, the first one rounded up.
   */
  function SizeGroups(paths: seq<string>): seq<PRGroup> {
    var n := |paths|;
    if n == 0 then []
    else if n <= 5 then [SizeGroup(1, 1, paths)]
    else
      var half := (n + 1) / 2;
      [SizeGroup(1, 2, paths[..half]), SizeGroup(2, 2, paths[half..])]
  }

  method GroupBySize(batchFiles: seq<FileChange>) returns (groups: seq<PRGroup>)
    ensures groups == SizeGroups(Paths(batchFiles))
  {
    groups := SplitBySize(Paths(batchFiles));
  }

  /** The loop of `_group_by_size` over the list of paths. */
  method SplitBySize(filePaths: seq<string>) returns (groups: seq<PRGroup>)
    ensures groups == SizeGroups(filePaths)
  {
    groups := [];
    var numFiles := |filePaths|;
    if numFiles == 0 {
      return;
    }
    var numGroups := if numFiles <= 5 then 1 else 2;
    var batchSize := (numFiles + numGroups - 1) / numGroups;
    ghost var spec := SizeGroups(filePaths);
    assert |spec| == numGroups;
    for i := 0 to numGroups
      invariant groups == spec[..i]
    {
      var startIndex := i * batchSize;
      var endIndex := Min((i + 1) * batchSize, numFiles);
      SizeGroupsAt(filePaths, i);
      var groupFiles := filePaths[startIndex..endIndex];
      var partNum := i + 1;
      groups := groups + [SizeGroup(partNum, numGroups, groupFiles)];
      assert spec[..i + 1] == spec[..i] + [spec[i]];
    }
    assert spec[..numGroups] == spec;
  }

  /** Part `i` of the closed form is the slice the loop of `_group_by_size` cuts. */
  lemma SizeGroupsAt(paths: seq<string>, i: nat)
    requires |paths| > 0 && i < (if |paths| <= 5 then 1 else 2)
    ensures var n := |paths|;
      var parts := if n <= 5 then 1 else 2;
      var size := (n + parts - 1) / parts;
      var lo, hi := i * size, Min((i + 1) * size, n);
      && 0 <= lo <= hi <= n
      && |SizeGroups(paths)| == parts
      && SizeGroups(paths)[i] == SizeGroup(i + 1, parts, paths[lo..hi])
  {
    SizePartBounds(|paths|, i);
  }

  /** The slice bounds of part `i` in `_group_by_size`: the whole list, or one of its halves. */
  lemma SizePartBounds(n: nat, i: nat)
    requires n > 0 && i < (if n <= 5 then 1 else 2)
    ensures var parts := if n <= 5 then 1 else 2;
      var size := (n + parts - 1) / parts;
      var lo, hi := i * size, Min((i + 1) * size, n);
      && (parts == 1 ==> lo == 0 && hi == n)
      && (parts == 2 && i == 0 ==> lo == 0 && hi == (n + 1) / 2)
      && (parts == 2 && i == 1 ==> lo == (n + 1) / 2 && hi == n)
  {
  }

  /**
   * `_group_by_size` keeps the paths in order and splits them into at most two non-empty
   * contiguous parts whose sizes differ by at most one, with a single part for five paths
   * or fewer; part k of N is titled and focused by k and N.
   */
  lemma SizeGroupsSpec(paths: seq<string>)
    ensures var gs := SizeGroups(paths);
      && AllGroupFiles(gs) == paths
      && AllNonEmpty(gs)
      && (|paths| == 0 <==> |gs| == 0)
      && (0 < |paths| <= 5 <==> |gs| == 1)
      && (|paths| > 5 <==> |gs| == 2)
      && (|gs| == 2 ==> |gs[0].files| - |gs[1].files| in {0, 1})
      && (forall k :: 0 <= k < |gs| ==>
            gs[k] == SizeGroup(k + 1, |gs|, gs[k].files) && gs[k].estimatedSize == |gs[k].files|)
  {
    var gs := SizeGroups(paths);
    if |paths| == 0 {
    } else if |paths| <= 5 {
      AllGroupFilesAppend([], gs[0]);
      assert gs == [] + [gs[0]];
    } else {
      var half := (|paths| + 1) / 2;
      AllGroupFilesAppend([], gs[0]);
      AllGroupFilesAppend([gs[0]], gs[1]);
      assert [gs[0]] == [] + [gs[0]];
      assert gs == [gs[0]] + [gs[1]];
      assert paths == paths[..half] + paths[half..];
    }
  }

  // =======================================================================================
  // Feature grouping
  // =======================================================================================

  /** One call of `add_group_if_valid`: a title, the pattern's files, a rationale and a focus. */
  datatype Candidate = Candidate(title: string, files: seq<string>, rationale: string, focus: string)

  /** A naming pattern proposes a group when it has a type and some matches. */
  function NamingCandidate(p: NamingPattern): Option<Candidate> {
    if p.patternType != "" && p.matches != [] then
      Some(Candidate(
        "Feature: Relates to " + p.patternType,
        p.matches,
        "Batch changes related to " + p.patternType + " based on file naming patterns.",
        p.patternType))
    else None
  }

  /** A similar-names group proposes a group when it has a base pattern and some files. */
  function SimilarCandidate(g: SimilarNameGroup): Option<Candidate> {
    if g.basePattern != "" && g.files != [] then
      Some(Candidate(
        "Feature: Files related to '" + g.basePattern + "'",
        g.files,
        "Batch files sharing the common base pattern '" + g.basePattern + "'.",
        g.basePattern))
    else None
  }

  function PrefixCandidate(g: CommonPatternGroup): Option<Candidate> {
    if g.patternValue != "" && g.files != [] then
      Some(Candidate(
        "Feature: Files with prefix '" + g.patternValue + "'",
        g.files,
        "Batch files sharing the common prefix '" + g.patternValue + "'.",
        "prefix-" + g.patternValue))
    else None
  }

  function SuffixCandidate(g: CommonPatternGroup): Option<Candidate> {
    if g.patternValue != "" && g.files != [] then
      Some(Candidate(
        "Feature: Files with suffix '" + g.patternValue + "'",
        g.files,
        "Batch files sharing the common suffix '" + g.patternValue + "'.",
        "suffix-" + g.patternValue))
    else None
  }

  /** The candidates a list of patterns proposes, in list order. */
  function Collect<X>(xs: seq<X>, f: X -> Option<Candidate>): seq<Candidate> {
    if xs == [] then []
    else
      var init := Collect(xs[..|xs| - 1], f);
      match f(xs[|xs| - 1])
      case Some(c) => init + [c]
      case None => init
  }

  function PrefixCandidates(pa: PatternAnalysis): seq<Candidate> {
    match pa.commonPatterns
    case None => []
    case Some(cp) => Collect(cp.commonPrefixes, PrefixCandidate)
  }

  function SuffixCandidates(pa: PatternAnalysis): seq<Candidate> {
    match pa.commonPatterns
    case None => []
    case Some(cp) => Collect(cp.commonSuffixes, SuffixCandidate)
  }

  /** Every candidate of the pattern analysis, in the order `_group_by_feature` tries them. */
  function FeatureCandidates(pa: PatternAnalysis): seq<Candidate> {
    Collect(pa.namingPatterns, NamingCandidate) + Collect(pa.similarNames, SimilarCandidate)
      + PrefixCandidates(pa) + SuffixCandidates(pa)
  }

  /** The state `add_group_if_valid` updates: the groups so far and the claimed paths. */
  datatype Claims = Claims(groups: seq<PRGroup>, claimed: set<string>)

  /** The candidate's files that are in the batch and not yet claimed, duplicates kept. */
  function ValidFiles(batch: set<string>, claimed: set<string>, files: seq<string>): (r: seq<string>)
    ensures forall f :: f in r <==> f in files && f in batch && f !in claimed
  {
    Filter(files, f => f in batch && f !in claimed)
  }

  function FeatureGroup(c: Candidate, files: seq<string>): PRGroup {
    PRGroup(c.title, files, c.rationale, Some(c.focus), None, |files|)
  }

  /** One `add_group_if_valid` call. */
  function Step(batch: set<string>, st: Claims, c: Candidate): Claims {
    var valid := ValidFiles(batch, st.claimed, c.files);
    if valid != [] then Claims(st.groups + [FeatureGroup(c, valid)], st.claimed + Elems(valid))
    else st
  }

  /** The state after trying the candidates `cs` in order. */
  function Claim(batch: set<string>, cs: seq<Candidate>): Claims {
    if cs == [] then Claims([], {})
    else Step(batch, Claim(batch, cs[..|cs| - 1]), cs[|cs| - 1])
  }

  /** Some candidate of `cs` lists `p`. */
  ghost predicate Proposed(cs: seq<Candidate>, p: string) {
    exists k :: 0 <= k < |cs| && p in cs[k].files
  }

  /** The paths of the batch no group claimed, in batch order. */
  function Unassigned(paths: seq<string>, claimed: set<string>): (r: seq<string>)
    ensures forall p :: p in r <==> p in paths && p !in claimed
  {
    Filter(paths, p => p !in claimed)
  }

  function MiscGroup(files: seq<string>): PRGroup {
    PRGroup(
      "Feature: Other Related Changes",
      files,
      "Remaining files in the batch, potentially related by feature context.",
      Some("misc-feature"),
      None,
      |files|)
  }

  /** The result of `_group_by_feature`. */
  function FeatureGroups(files: seq<FileChange>, pa: PatternAnalysis): seq<PRGroup> {
    var paths := Paths(files);
    var batch := Elems(paths);
    if batch == {} then []
    else
      var st := Claim(batch, FeatureCandidates(pa));
      WithMisc(st.groups, st.claimed, paths)
  }

  /** The claimed groups followed by the group of the remaining paths, if there are any. */
  function WithMisc(gs: seq<PRGroup>, claimed: set<string>, paths: seq<string>): seq<PRGroup> {
    var remaining := Unassigned(paths, claimed);
    if remaining != [] then gs + [MiscGroup(remaining)] else gs
  }

  /** The closure state of `_group_by_feature`: its `groups` and `assigned_files` lists. */
  class FeatureClaimer {
    const batch: set<string>
    var groups: seq<PRGroup>
    var claimed: set<string>

    constructor (batch: set<string>)
      ensures this.batch == batch && groups == [] && claimed == {}
    {
      this.batch := batch;
      groups := [];
      claimed := {};
    }

    function State(): Claims
      reads this
    {
      Claims(groups, claimed)
    }

    /** `add_group_if_valid`: appends a group of the valid files, if any, and assigns them. */
    method AddGroupIfValid(c: Candidate)
      modifies this
      ensures State() == Step(batch, old(State()), c)
    {
      var validFiles := ValidFiles(batch, claimed, c.files);
      if validFiles != [] {
        groups := groups + [FeatureGroup(c, validFiles)];
        claimed := claimed + Elems(validFiles);
      }
    }
  }

  lemma CollectSnoc<X>(xs: seq<X>, f: X -> Option<Candidate>, i: nat)
    requires i < |xs|
    ensures f(xs[i]).Some? ==> Collect(xs[..i + 1], f) == Collect(xs[..i], f) + [f(xs[i]).value]
    ensures f(xs[i]).None? ==> Collect(xs[..i + 1], f) == Collect(xs[..i], f)
  {
    assert xs[..i + 1][..i] == xs[..i];
  }

  lemma ClaimSnoc(batch: set<string>, cs: seq<Candidate>, c: Candidate)
    ensures Claim(batch, cs + [c]) == Step(batch, Claim(batch, cs), c)
  {
    assert (cs + [c])[..|cs|] == cs;
  }

  lemma ClaimCollectStep<X>(batch: set<string>, before: seq<Candidate>, xs: seq<X>, f: X -> Option<Candidate>, i: nat)
    requires i < |xs|
    ensures var done := Claim(batch, before + Collect(xs[..i], f));
      Claim(batch, before + Collect(xs[..i + 1], f)) == if f(xs[i]).Some? then Step(batch, done, f(xs[i]).value) else done
  {
    CollectSnoc(xs, f, i);
    if f(xs[i]).Some? {
      assert before + Collect(xs[..i + 1], f) == (before + Collect(xs[..i], f)) + [f(xs[i]).value];
      ClaimSnoc(batch, before + Collect(xs[..i], f), f(xs[i]).value);
    }
  }

  /** One loop of `_group_by_feature`: offers each pattern's candidate to the claimer. */
  method ClaimAll<X>(claimer: FeatureClaimer, xs: seq<X>, f: X -> Option<Candidate>, ghost before: seq<Candidate>)
    requires claimer.State() == Claim(claimer.batch, before)
    modifies claimer
    ensures claimer.State() == Claim(claimer.batch, before + Collect(xs, f))
  {
    assert before + Collect(xs[..0], f) == before;
    for i := 0 to |xs|
      invariant claimer.State() == Claim(claimer.batch, before + Collect(xs[..i], f))
    {
      Offer(claimer, xs, f, before, i);
    }
    assert xs[..|xs|] == xs;
  }

  /** One iteration of a claiming loop: the `i`-th pattern's candidate, if it has one. */
  method Offer<X>(claimer: FeatureClaimer, xs: seq<X>, f: X -> Option<Candidate>, ghost before: seq<Candidate>, i: nat)
    requires i < |xs|
    requires claimer.State() == Claim(claimer.batch, before + Collect(xs[..i], f))
    modifies claimer
    ensures claimer.State() == Claim(claimer.batch, before + Collect(xs[..i + 1], f))
  {
    ClaimCollectStep(claimer.batch, before, xs, f, i);
    var candidate := f(xs[i]);
    if candidate.Some? {
      claimer.AddGroupIfValid(candidate.value);
    }
  }

  method GroupByFeature(batchFiles: seq<FileChange>, pa: PatternAnalysis) returns (groups: seq<PRGroup>)
    ensures groups == FeatureGroups(batchFiles, pa)
  {
    var paths := Paths(batchFiles);
    var currentBatchPaths := Elems(paths);
    if currentBatchPaths == {} {
      return [];
    }
    var claimer := new FeatureClaimer(currentBatchPaths);
    ghost var naming := Collect(pa.namingPatterns, NamingCandidate);
    ghost var similar := Collect(pa.similarNames, SimilarCandidate);
    assert claimer.State() == Claim(currentBatchPaths, []);
    ClaimAll(claimer, pa.namingPatterns, NamingCandidate, []);
    assert [] + naming == naming;
    ClaimAll(claimer, pa.similarNames, SimilarCandidate, naming);
    if pa.commonPatterns.Some? {
      var commonPatterns := pa.commonPatterns.value;
      ClaimAll(claimer, commonPatterns.commonPrefixes, PrefixCandidate, naming + similar);
      ClaimAll(claimer, commonPatterns.commonSuffixes, SuffixCandidate, naming + similar + PrefixCandidates(pa));
    } else {
      assert FeatureCandidates(pa) == naming + similar;
    }
    assert claimer.State() == Claim(currentBatchPaths, FeatureCandidates(pa));
    groups := claimer.groups;
    var remainingFilesPaths := Unassigned(paths, claimer.claimed);
    if remainingFilesPaths != [] {
      groups := groups + [MiscGroup(remainingFilesPaths)];
    }
  }

  // ---- properties of the feature strategy ----------------------------------------------

  lemma ProposedSnoc(cs: seq<Candidate>, p: string)
    requires cs != []
    ensures Proposed(cs, p) <==> Proposed(cs[..|cs| - 1], p) || p in cs[|cs| - 1].files
  {
    var init := cs[..|cs| - 1];
    if Proposed(cs, p) {
      var k :| 0 <= k < |cs| && p in cs[k].files;
      if k < |cs| - 1 {
        assert p in init[k].files;
      }
    }
    if Proposed(init, p) {
      var k :| 0 <= k < |init| && p in init[k].files;
      assert p in cs[k].files;
    }
  }

  /**
   * The claiming loop keeps its invariants: the claimed set is exactly the set of grouped
   * paths, namely the batch paths some candidate lists; groups are non-empty and
   * pairwise disjoint, and each one's size is its file count.
   */
  lemma ClaimProps(batch: set<string>, cs: seq<Candidate>)
    ensures var st := Claim(batch, cs);
      && st.claimed == Grouped(st.groups)
      && (forall p :: p in st.claimed <==> p in batch && Proposed(cs, p))
      && PairwiseDisjoint(st.groups)
      && AllNonEmpty(st.groups)
      && (forall g :: 0 <= g < |st.groups| ==>
            st.groups[g].estimatedSize == |st.groups[g].files| && st.groups[g].directoryFocus == None)
  {
    ClaimCover(batch, cs);
    ClaimDisjoint(batch, cs);
    ClaimShape(batch, cs);
  }

  lemma {:induction false} ClaimCover(batch: set<string>, cs: seq<Candidate>)
    ensures Claim(batch, cs).claimed == Grouped(Claim(batch, cs).groups)
    ensures forall p :: p in Claim(batch, cs).claimed <==> p in batch && Proposed(cs, p)
  {
    if cs != [] {
      var init, c := cs[..|cs| - 1], cs[|cs| - 1];
      ClaimCover(batch, init);
      var st0 := Claim(batch, init);
      var valid := ValidFiles(batch, st0.claimed, c.files);
      forall p
        ensures Proposed(cs, p) <==> Proposed(init, p) || p in c.files
      {
        ProposedSnoc(cs, p);
      }
      if valid != [] {
        GroupedAppend(st0.groups, FeatureGroup(c, valid));
      }
    }
  }

  lemma {:induction false} ClaimDisjoint(batch: set<string>, cs: seq<Candidate>)
    ensures PairwiseDisjoint(Claim(batch, cs).groups) && AllNonEmpty(Claim(batch, cs).groups)
  {
    if cs != [] {
      var init, c := cs[..|cs| - 1], cs[|cs| - 1];
      ClaimDisjoint(batch, init);
      ClaimCover(batch, init);
      var st0 := Claim(batch, init);
      var valid := ValidFiles(batch, st0.claimed, c.files);
      if valid != [] {
        var g := FeatureGroup(c, valid);
        var all := st0.groups + [g];
        assert Claim(batch, cs).groups == all;
        DisjointSnoc(st0.groups, g);
        forall i | 0 <= i < |all|
          ensures |all[i].files| > 0
        {
          if i < |st0.groups| {
            assert all[i] == st0.groups[i];
          }
        }
      }
    }
  }

  /** Every group's size is its file count and it has no directory focus. */
  ghost predicate Sized(gs: seq<PRGroup>) {
    forall g :: 0 <= g < |gs| ==> gs[g].estimatedSize == |gs[g].files| && gs[g].directoryFocus == None
  }

  lemma SizedSnoc(gs: seq<PRGroup>, g: PRGroup)
    requires Sized(gs) && g.estimatedSize == |g.files| && g.directoryFocus == None
    ensures Sized(gs + [g])
  {
    var all := gs + [g];
    forall i | 0 <= i < |all|
      ensures all[i].estimatedSize == |all[i].files| && all[i].directoryFocus == None
    {
      if i < |gs| {
        assert all[i] == gs[i];
      }
    }
  }

  lemma {:induction false} ClaimShape(batch: set<string>, cs: seq<Candidate>)
    ensures Sized(Claim(batch, cs).groups)
  {
    if cs != [] {
      var init, c := cs[..|cs| - 1], cs[|cs| - 1];
      ClaimShape(batch, init);
      var st0 := Claim(batch, init);
      var valid := ValidFiles(batch, st0.claimed, c.files);
      if valid != [] {
        SizedSnoc(st0.groups, FeatureGroup(c, valid));
      }
    }
  }

  lemma ClaimGroupsGrow(batch: set<string>, cs: seq<Candidate>)
    requires cs != []
    ensures var before := Claim(batch, cs[..|cs| - 1]).groups;
      var after := Claim(batch, cs).groups;
      |before| <= |after| && after[..|before|] == before
  {
  }

  /**
   * Precedence: a batch path listed by some candidate ends up in a group carrying the title,
   * rationale and focus of the first candidate that lists it.
   */
  lemma {:induction false} ClaimPrecedence(batch: set<string>, cs: seq<Candidate>, p: string, k: nat)
    requires k < |cs| && p in batch && p in cs[k].files
    requires forall j :: 0 <= j < k ==> p !in cs[j].files
    ensures var gs := Claim(batch, cs).groups;
      exists g :: 0 <= g < |gs| && p in gs[g].files && gs[g] == FeatureGroup(cs[k], gs[g].files)
  {
    var init, c := cs[..|cs| - 1], cs[|cs| - 1];
    var st0 := Claim(batch, init);
    var gs := Claim(batch, cs).groups;
    ClaimGroupsGrow(batch, cs);
    if k < |cs| - 1 {
      ClaimPrecedence(batch, init, p, k);
      var g :| 0 <= g < |st0.groups| && p in st0.groups[g].files && st0.groups[g] == FeatureGroup(init[k], st0.groups[g].files);
      assert gs[g] == st0.groups[g];
    } else {
      ClaimProps(batch, init);
      assert !Proposed(init, p);
      assert p in ValidFiles(batch, st0.claimed, c.files);
      assert gs[|gs| - 1].files == ValidFiles(batch, st0.claimed, c.files);
    }
  }

  /** Appending the group of the still-unclaimed paths completes a partition of the paths. */
  lemma AppendMiscPartition(gs: seq<PRGroup>, claimed: set<string>, paths: seq<string>)
    requires claimed == Grouped(gs) && claimed <= Elems(paths)
    requires PairwiseDisjoint(gs) && AllNonEmpty(gs)
    requires forall g :: 0 <= g < |gs| ==> gs[g].estimatedSize == |gs[g].files| && gs[g].directoryFocus == None
    ensures var all := WithMisc(gs, claimed, paths);
      && PairwiseDisjoint(all) && AllNonEmpty(all) && Grouped(all) == Elems(paths)
      && (paths != [] ==> all != [])
      && (forall g :: 0 <= g < |all| ==> all[g].estimatedSize == |all[g].files| && all[g].directoryFocus == None)
  {
    MiscCover(gs, claimed, paths);
    MiscDisjoint(gs, claimed, paths);
    MiscShape(gs, claimed, paths);
  }

  lemma MiscCover(gs: seq<PRGroup>, claimed: set<string>, paths: seq<string>)
    requires claimed == Grouped(gs) && claimed <= Elems(paths)
    ensures Grouped(WithMisc(gs, claimed, paths)) == Elems(paths)
    ensures paths != [] ==> WithMisc(gs, claimed, paths) != []
  {
    var remaining := Unassigned(paths, claimed);
    if remaining != [] {
      var m := MiscGroup(remaining);
      assert WithMisc(gs, claimed, paths) == gs + [m];
      GroupedAppend(gs, m);
      forall p
        ensures p in Grouped(gs + [m]) <==> p in Elems(paths)
      {
      }
    } else if paths != [] {
      assert paths[0] in claimed;
      GroupedMember(gs, paths[0]);
    }
  }

  lemma MiscDisjoint(gs: seq<PRGroup>, claimed: set<string>, paths: seq<string>)
    requires claimed == Grouped(gs)
    requires PairwiseDisjoint(gs) && AllNonEmpty(gs)
    ensures PairwiseDisjoint(WithMisc(gs, claimed, paths)) && AllNonEmpty(WithMisc(gs, claimed, paths))
  {
    var remaining := Unassigned(paths, claimed);
    if remaining != [] {
      var m := MiscGroup(remaining);
      var all := gs + [m];
      assert WithMisc(gs, claimed, paths) == all;
      DisjointSnoc(gs, m);
      forall g | 0 <= g < |all|
        ensures |all[g].files| > 0
      {
        if g < |gs| {
          assert all[g] == gs[g];
        }
      }
    }
  }

  lemma MiscShape(gs: seq<PRGroup>, claimed: set<string>, paths: seq<string>)
    requires forall g :: 0 <= g < |gs| ==> gs[g].estimatedSize == |gs[g].files| && gs[g].directoryFocus == None
    ensures var all := WithMisc(gs, claimed, paths);
      forall g :: 0 <= g < |all| ==> all[g].estimatedSize == |all[g].files| && all[g].directoryFocus == None
  {
    var remaining := Unassigned(paths, claimed);
    if remaining != [] {
      var m := MiscGroup(remaining);
      var all := gs + [m];
      assert WithMisc(gs, claimed, paths) == all;
      forall g | 0 <= g < |all|
        ensures all[g].estimatedSize == |all[g].files| && all[g].directoryFocus == None
      {
        if g < |gs| {
          assert all[g] == gs[g];
        }
      }
    }
  }

  /** An unclaimed path goes to the final group of the remaining paths. */
  lemma WithMiscLast(gs: seq<PRGroup>, claimed: set<string>, paths: seq<string>, p: string)
    requires p in paths && p !in claimed
    ensures var all := WithMisc(gs, claimed, paths);
      all != [] && p in all[|all| - 1].files && all[|all| - 1] == MiscGroup(all[|all| - 1].files)
  {
    var remaining := Unassigned(paths, claimed);
    assert p in remaining;
  }

  /** The claimed groups come first, unchanged. */
  lemma WithMiscKeeps(gs: seq<PRGroup>, claimed: set<string>, paths: seq<string>, i: nat)
    requires i < |gs|
    ensures i < |WithMisc(gs, claimed, paths)| && WithMisc(gs, claimed, paths)[i] == gs[i]
  {
  }

  /**
   * `_group_by_feature` partitions the batch: no groups for an empty batch; otherwise
   * non-empty, pairwise-disjoint groups whose union is exactly the batch's paths.
   */
  lemma FeatureGroupsPartition(files: seq<FileChange>, pa: PatternAnalysis)
    ensures var gs := FeatureGroups(files, pa);
      && (gs == [] <==> Paths(files) == [])
      && AllNonEmpty(gs)
      && PairwiseDisjoint(gs)
      && Grouped(gs) == Elems(Paths(files))
      && (forall g :: 0 <= g < |gs| ==> gs[g].estimatedSize == |gs[g].files| && gs[g].directoryFocus == None)
  {
    var paths := Paths(files);
    var batch := Elems(paths);
    ElemsEmpty(paths);
    if batch != {} {
      var cs := FeatureCandidates(pa);
      var st := Claim(batch, cs);
      ClaimProps(batch, cs);
      AppendMiscPartition(st.groups, st.claimed, paths);
    }
  }

  /** A batch path some candidate lists is grouped under the first candidate listing it. */
  lemma FeatureGroupsPrecedence(files: seq<FileChange>, pa: PatternAnalysis, p: string, k: nat)
    requires p in Paths(files)
    requires k < |FeatureCandidates(pa)| && p in FeatureCandidates(pa)[k].files
    requires forall j :: 0 <= j < k ==> p !in FeatureCandidates(pa)[j].files
    ensures var gs := FeatureGroups(files, pa);
      exists g :: 0 <= g < |gs| && p in gs[g].files && gs[g] == FeatureGroup(FeatureCandidates(pa)[k], gs[g].files)
  {
    var cs := FeatureCandidates(pa);
    var batch := Elems(Paths(files));
    ClaimPrecedence(batch, cs, p, k);
    var st := Claim(batch, cs);
    var g :| 0 <= g < |st.groups| && p in st.groups[g].files && st.groups[g] == FeatureGroup(cs[k], st.groups[g].files);
    assert p in Elems(Paths(files));
    assert FeatureGroups(files, pa) == WithMisc(st.groups, st.claimed, Paths(files));
    WithMiscKeeps(st.groups, st.claimed, Paths(files), g);
  }

  /** A batch path that no candidate lists goes to the final "misc-feature" group. */
  lemma FeatureGroupsMisc(files: seq<FileChange>, pa: PatternAnalysis, p: string)
    requires p in Paths(files) && !Proposed(FeatureCandidates(pa), p)
    ensures var gs := FeatureGroups(files, pa);
      gs != [] && p in gs[|gs| - 1].files && gs[|gs| - 1] == MiscGroup(gs[|gs| - 1].files)
  {
    var paths := Paths(files);
    var batch := Elems(paths);
    var cs := FeatureCandidates(pa);
    var st := Claim(batch, cs);
    ClaimProps(batch, cs);
    assert p !in st.claimed;
    assert p in Elems(paths);
    assert FeatureGroups(files, pa) == WithMisc(st.groups, st.claimed, paths);
    WithMiscLast(st.groups, st.claimed, paths, p);
  }

  // =======================================================================================
  // Mixed grouping
  // =======================================================================================

  /** The loop of `_group_mixed` that keeps, per feature group, only files not kept before. */
  function MixedFilter(gs: seq<PRGroup>): Claims {
    if gs == [] then Claims([], {})
    else
      var st := MixedFilter(gs[..|gs| - 1]);
      var g := gs[|gs| - 1];
      var unique := Unassigned(g.files, st.claimed);
      if unique != [] then Claims(st.groups + [g.(files := unique)], st.claimed + Elems(unique)) else st
  }

  /** The batch records whose path is set and not yet kept. */
  function RemainingRecords(files: seq<FileChange>, claimed: set<string>): (r: seq<FileChange>)
    ensures forall fc :: fc in r <==> fc in files && fc.path != "" && fc.path !in claimed
  {
    Filter(files, (fc: FileChange) => fc.path != "" && fc.path !in claimed)
  }

  function NonEmptyGroups(gs: seq<PRGroup>): seq<PRGroup> {
    Filter(gs, (g: PRGroup) => g.files != [])
  }

  /** The result of `_group_mixed`. */
  function MixedGroups(files: seq<FileChange>, pa: PatternAnalysis): seq<PRGroup> {
    var st := MixedFilter(FeatureGroups(files, pa));
    var remaining := RemainingRecords(files, st.claimed);
    if remaining != [] then st.groups + NonEmptyGroups(DirectoryGroups(remaining)) else st.groups
  }

  /** The de-duplication loop of `_group_mixed`. */
  method DropClaimedFiles(featureGroups: seq<PRGroup>) returns (filtered: seq<PRGroup>, claimed: set<string>)
    ensures Claims(filtered, claimed) == MixedFilter(featureGroups)
  {
    filtered, claimed := [], {};
    for i := 0 to |featureGroups|
      invariant Claims(filtered, claimed) == MixedFilter(featureGroups[..i])
    {
      assert featureGroups[..i + 1][..i] == featureGroups[..i];
      var group := featureGroups[i];
      if group.files != [] {
        var uniqueFiles := Unassigned(group.files, claimed);
        if uniqueFiles != [] {
          filtered := filtered + [group.(files := uniqueFiles)];
          claimed := claimed + Elems(uniqueFiles);
        }
      } else {
        assert Unassigned(group.files, claimed) == [];
      }
    }
    assert featureGroups[..|featureGroups|] == featureGroups;
  }

  method GroupMixed(batchFiles: seq<FileChange>, pa: PatternAnalysis) returns (groups: seq<PRGroup>)
    ensures groups == MixedGroups(batchFiles, pa)
  {
    var featureGroups := GroupByFeature(batchFiles, pa);
    var filteredFeatureGroups, claimed := DropClaimedFiles(featureGroups);
    var remainingFilesObjs := RemainingRecords(batchFiles, claimed);
    if remainingFilesObjs != [] {
      var directoryGroupsForRemaining := GroupByDirectory(remainingFilesObjs);
      groups := filteredFeatureGroups + NonEmptyGroups(directoryGroupsForRemaining);
    } else {
      groups := filteredFeatureGroups;
    }
  }

  lemma {:induction false} MixedFilterKeepsDisjoint(gs: seq<PRGroup>)
    requires PairwiseDisjoint(gs) && AllNonEmpty(gs)
    ensures MixedFilter(gs) == Claims(gs, Grouped(gs))
  {
    if gs != [] {
      var init, g := gs[..|gs| - 1], gs[|gs| - 1];
      assert gs == init + [g];
      DisjointPrefix(init, g);
      assert AllNonEmpty(init) by {
        forall i | 0 <= i < |init|
          ensures |init[i].files| > 0
        {
          assert init[i] == gs[i];
        }
      }
      MixedFilterKeepsDisjoint(init);
      assert Unassigned(g.files, Grouped(init)) == g.files;
      assert g.(files := g.files) == g;
      assert gs == init + [g];
      GroupedAppend(init, g);
    }
  }

  /**
   * The feature groups already cover every batch path and never share one, so the
   * de-duplication keeps them as they are and no record is left for directory grouping:
   * `_group_mixed` returns exactly the feature groups.
   */
  lemma MixedIsFeature(files: seq<FileChange>, pa: PatternAnalysis)
    ensures MixedGroups(files, pa) == FeatureGroups(files, pa)
  {
    var fg := FeatureGroups(files, pa);
    FeatureGroupsPartition(files, pa);
    MixedFilterKeepsDisjoint(fg);
    var remaining := RemainingRecords(files, Grouped(fg));
    assert remaining == [] by {
      forall i | 0 <= i < |files|
        ensures !(files[i].path != "" && files[i].path !in Grouped(fg))
      {
        if files[i].path != "" {
          assert files[i].path in Paths(files);
        }
      }
    }
  }

  // =======================================================================================
  // Dispatch and post-processing (`_run`)
  // =======================================================================================

  /** `GroupingStrategyType(value)`, falling back to MIXED for an unknown value. */
  function StrategyOf(value: string): (st: StrategyType)
    ensures ParseStrategyType(value).Some? ==> st.Value() == value
    ensures ParseStrategyType(value).None? ==> st == Mixed
  {
    ParseStrategyType(value).GetOr(Mixed)
  }

  /** The records of the analysis whose path is one of the batch's paths. */
  function BatchRecords(allFiles: seq<FileChange>, batchPaths: seq<string>): (r: seq<FileChange>)
    ensures forall fc :: fc in r <==> fc in allFiles && fc.path in batchPaths
  {
    var batch := Elems(batchPaths);
    Filter(allFiles, (fc: FileChange) => fc.path in batch)
  }

  /** The groups the chosen strategy builds from the batch records. */
  function StrategyGroups(st: StrategyType, records: seq<FileChange>, pa: PatternAnalysis): seq<PRGroup> {
    match st
    case DirectoryBased => DirectoryGroups(records)
    case FeatureBased => FeatureGroups(records, pa)
    case ModuleBased => ModuleGroups(records)
    case SizeBalanced => SizeGroups(Paths(records))
    case Mixed => MixedGroups(records, pa)
  }

  /** A group with the default title and rationale filled in where they are empty. */
  function Populated(g: PRGroup, strategyValue: string): PRGroup {
    g.(title := if g.title == "" then "Chore: Grouped changes" else g.title,
       rationale := if g.rationale == "" then "Group created by " + strategyValue + " strategy for this batch." else g.rationale)
  }

  /** The post-processing loop of `_run`: drops empty groups and fills in defaults. */
  function Populate(gs: seq<PRGroup>, strategyValue: string): seq<PRGroup> {
    if gs == [] then []
    else
      var init := Populate(gs[..|gs| - 1], strategyValue);
      var g := gs[|gs| - 1];
      if g.files != [] then init + [Populated(g, strategyValue)] else init
  }

  /** Every group has files, a title and a rationale. */
  ghost predicate Decorated(gs: seq<PRGroup>) {
    forall i :: 0 <= i < |gs| ==> gs[i].files != [] && gs[i].title != "" && gs[i].rationale != ""
  }

  method PopulateGroups(groups: seq<PRGroup>, strategyValue: string) returns (populated: seq<PRGroup>)
    ensures populated == Populate(groups, strategyValue)
  {
    populated := [];
    for i := 0 to |groups|
      invariant populated == Populate(groups[..i], strategyValue)
    {
      assert groups[..i + 1][..i] == groups[..i];
      var group := groups[i];
      if group.files != [] {
        if group.title == "" {
          group := group.(title := "Chore: Grouped changes");
        }
        if group.rationale == "" {
          group := group.(rationale := "Group created by " + strategyValue + " strategy for this batch.");
        }
        populated := populated + [group];
      }
    }
    assert groups[..|groups|] == groups;
  }

  /** Post-processing drops exactly the empty groups, so it groups the same paths. */
  lemma {:induction false} PopulateGrouped(gs: seq<PRGroup>, strategyValue: string)
    ensures Grouped(Populate(gs, strategyValue)) == Grouped(gs)
    ensures |Populate(gs, strategyValue)| <= |gs|
  {
    if gs != [] {
      var init, g := gs[..|gs| - 1], gs[|gs| - 1];
      PopulateGrouped(init, strategyValue);
      var pinit := Populate(init, strategyValue);
      assert gs == init + [g];
      GroupedAppend(init, g);
      if g.files != [] {
        GroupedAppend(pinit, Populated(g, strategyValue));
      } else {
        assert Elems(g.files) == {};
      }
    }
  }

  /** Every group post-processing keeps has files, a title and a rationale. */
  lemma {:induction false} PopulateDecorated(gs: seq<PRGroup>, strategyValue: string)
    ensures Decorated(Populate(gs, strategyValue))
  {
    if gs != [] {
      var init, g := gs[..|gs| - 1], gs[|gs| - 1];
      PopulateDecorated(init, strategyValue);
      var pinit := Populate(init, strategyValue);
      if g.files != [] {
        var all := pinit + [Populated(g, strategyValue)];
        forall i | 0 <= i < |all|
          ensures all[i].files != [] && all[i].title != "" && all[i].rationale != ""
        {
          if i < |pinit| {
            assert all[i] == pinit[i];
          }
        }
      }
    }
  }

  /** Groups that already have files, a title and a rationale pass through unchanged. */
  lemma {:induction false} PopulateKeeps(gs: seq<PRGroup>, strategyValue: string)
    requires Decorated(gs)
    ensures Populate(gs, strategyValue) == gs
  {
    if gs != [] {
      var init, g := gs[..|gs| - 1], gs[|gs| - 1];
      assert Decorated(init) by {
        forall i | 0 <= i < |init|
          ensures init[i].files != [] && init[i].title != "" && init[i].rationale != ""
        {
          assert init[i] == gs[i];
        }
      }
      PopulateKeeps(init, strategyValue);
      assert Populated(g, strategyValue) == g;
      assert gs == init + [g];
    }
  }

  /** No candidate proposes an untitled group or one without a rationale. */
  ghost predicate CandidatesTitled(cs: seq<Candidate>) {
    forall k :: 0 <= k < |cs| ==> cs[k].title != "" && cs[k].rationale != ""
  }

  lemma TitledAppend(a: seq<Candidate>, b: seq<Candidate>)
    requires CandidatesTitled(a) && CandidatesTitled(b)
    ensures CandidatesTitled(a + b)
  {
    forall k | 0 <= k < |a + b|
      ensures (a + b)[k].title != "" && (a + b)[k].rationale != ""
    {
      if k >= |a| {
        assert (a + b)[k] == b[k - |a|];
      }
    }
  }

  lemma {:induction false} CollectTitled<X>(xs: seq<X>, f: X -> Option<Candidate>)
    requires forall x :: f(x).Some? ==> f(x).value.title != "" && f(x).value.rationale != ""
    ensures CandidatesTitled(Collect(xs, f))
  {
    if xs != [] {
      CollectTitled(xs[..|xs| - 1], f);
      var x := xs[|xs| - 1];
      if f(x).Some? {
        TitledAppend(Collect(xs[..|xs| - 1], f), [f(x).value]);
      }
    }
  }

  lemma FeatureCandidatesTitled(pa: PatternAnalysis)
    ensures CandidatesTitled(FeatureCandidates(pa))
  {
    var naming := Collect(pa.namingPatterns, NamingCandidate);
    var similar := Collect(pa.similarNames, SimilarCandidate);
    CollectTitled(pa.namingPatterns, NamingCandidate);
    CollectTitled(pa.similarNames, SimilarCandidate);
    TitledAppend(naming, similar);
    match pa.commonPatterns
    case None =>
      assert FeatureCandidates(pa) == naming + similar + [] + [];
    case Some(cp) =>
      CollectTitled(cp.commonPrefixes, PrefixCandidate);
      CollectTitled(cp.commonSuffixes, SuffixCandidate);
      TitledAppend(naming + similar, PrefixCandidates(pa));
      TitledAppend(naming + similar + PrefixCandidates(pa), SuffixCandidates(pa));
  }

  lemma {:induction false} ClaimTitled(batch: set<string>, cs: seq<Candidate>)
    requires CandidatesTitled(cs)
    ensures forall g :: 0 <= g < |Claim(batch, cs).groups| ==>
      Claim(batch, cs).groups[g].title != "" && Claim(batch, cs).groups[g].rationale != ""
  {
    if cs != [] {
      var init, c := cs[..|cs| - 1], cs[|cs| - 1];
      assert CandidatesTitled(init) by {
        forall k | 0 <= k < |init|
          ensures init[k].title != "" && init[k].rationale != ""
        {
          assert init[k] == cs[k];
        }
      }
      assert c.title != "" && c.rationale != "";
      ClaimTitled(batch, init);
      var st0 := Claim(batch, init);
      var valid := ValidFiles(batch, st0.claimed, c.files);
      if valid != [] {
        var all := st0.groups + [FeatureGroup(c, valid)];
        assert Claim(batch, cs).groups == all;
        forall g | 0 <= g < |all|
          ensures all[g].title != "" && all[g].rationale != ""
        {
          if g < |st0.groups| {
            assert all[g] == st0.groups[g];
          } else {
            assert all[g] == FeatureGroup(c, valid);
          }
        }
      }
    }
  }

  lemma FeatureGroupsDecorated(files: seq<FileChange>, pa: PatternAnalysis)
    ensures Decorated(FeatureGroups(files, pa))
  {
    var paths := Paths(files);
    var batch := Elems(paths);
    FeatureGroupsPartition(files, pa);
    if batch != {} {
      var cs := FeatureCandidates(pa);
      FeatureCandidatesTitled(pa);
      ClaimTitled(batch, cs);
      var st := Claim(batch, cs);
      var gs := FeatureGroups(files, pa);
      assert gs == WithMisc(st.groups, st.claimed, paths);
      forall i | 0 <= i < |gs|
        ensures gs[i].title != "" && gs[i].rationale != ""
      {
        if i < |st.groups| {
          assert gs[i] == st.groups[i];
        }
      }
    }
  }

  lemma MultisetElems(a: seq<string>, b: seq<string>)
    requires multiset(a) == multiset(b)
    ensures Elems(a) == Elems(b)
  {
    forall x
      ensures x in a <==> x in b
    {
      assert x in a <==> x in multiset(a);
      assert x in b <==> x in multiset(b);
    }
  }

  /**
   * Every strategy puts each path of the batch records into some group and no other path,
   * and every group it builds has files, a title and a rationale.
   */
  lemma StrategyGroupsSpec(st: StrategyType, records: seq<FileChange>, pa: PatternAnalysis)
    ensures Grouped(StrategyGroups(st, records, pa)) == Elems(Paths(records))
    ensures Decorated(StrategyGroups(st, records, pa))
  {
    match st
    case DirectoryBased => KeyedGroupsCovered(records, ByDirectory);
    case ModuleBased => KeyedGroupsCovered(records, ByExtension);
    case SizeBalanced => SizeGroupsCovered(Paths(records));
    case FeatureBased =>
      FeatureGroupsPartition(records, pa);
      FeatureGroupsDecorated(records, pa);
    case Mixed =>
      MixedIsFeature(records, pa);
      FeatureGroupsPartition(records, pa);
      FeatureGroupsDecorated(records, pa);
  }

  lemma KeyedGroupsCovered(files: seq<FileChange>, mode: Bucketing)
    ensures Grouped(KeyedGroups(files, mode)) == Elems(Paths(files))
    ensures Decorated(KeyedGroups(files, mode))
  {
    var ps := BucketPairs(files, mode);
    var ks := KeysOf(ps);
    var gs := KeyedGroups(files, mode);
    EmitGroupsShape(ps, ks, mode);
    EmitGroupsFiles(ps, ks, mode);
    BucketsConserve(ps);
    BucketPairsValues(files, mode);
    GroupedIsAllFiles(gs);
    MultisetElems(AllGroupFiles(gs), Paths(files));
    forall i | 0 <= i < |gs|
      ensures gs[i].files != [] && gs[i].title != "" && gs[i].rationale != ""
    {
      assert gs[i] == KeyedGroup(mode, ks[i], ValuesFor(ps, ks[i]));
    }
  }

  lemma SizeGroupsCovered(paths: seq<string>)
    ensures Grouped(SizeGroups(paths)) == Elems(paths)
    ensures Decorated(SizeGroups(paths))
  {
    SizeGroupsSpec(paths);
    GroupedIsAllFiles(SizeGroups(paths));
  }

  lemma NoRecordsNoGroups(st: StrategyType, records: seq<FileChange>, pa: PatternAnalysis)
    requires records == []
    ensures StrategyGroups(st, records, pa) == []
  {
    var gs := StrategyGroups(st, records, pa);
    StrategyGroupsSpec(st, records, pa);
    if gs != [] {
      assert gs[0].files[0] in Grouped(gs) by {
        GroupedMember(gs, gs[0].files[0]);
      }
    }
  }

  /**
   * `_run` on an already parsed batch: `repository` is the analysis' file list, or `None`
   * when the analysis text cannot be parsed. An unknown strategy value selects MIXED.
   * On a parse failure there are no groups and the whole batch is ungrouped. Otherwise
   * the groups are exactly the chosen strategy's (post-processing changes none of them)
   * and the ungrouped files are, each once, the batch paths that no record carries.
   */
  method RunFileGrouper(batchPaths: seq<string>, strategyValue: string, repository: Option<seq<FileChange>>, pa: PatternAnalysis)
    returns (r: GroupingResult)
    ensures r.strategyType == StrategyOf(strategyValue)
    ensures repository.None? ==> r.groups == [] && r.ungroupedFiles == batchPaths
    ensures repository.Some? ==>
      && r.groups == StrategyGroups(r.strategyType, BatchRecords(repository.value, batchPaths), pa)
      && NoDup(r.ungroupedFiles)
      && (forall p :: p in r.ungroupedFiles <==>
            p in batchPaths && (p == "" || forall fc :: fc in repository.value ==> fc.path != p))
  {
    var strategyType := StrategyOf(strategyValue);
    if repository.None? {
      return GroupingResult(strategyType, [], batchPaths);
    }
    var allFileChanges := repository.value;
    var batchFilePathsSet := Elems(batchPaths);
    var batchFilesObjects := BatchRecords(allFileChanges, batchPaths);
    ghost var recordPaths := Paths(batchFilesObjects);
    assert forall p :: p in recordPaths <==> p != "" && p in batchPaths && exists fc :: fc in allFileChanges && fc.path == p;
    if batchFilesObjects == [] {
      NoRecordsNoGroups(strategyType, batchFilesObjects, pa);
      var ungrouped := ListOfSet(batchFilePathsSet);
      return GroupingResult(strategyType, [], ungrouped);
    }
    var groups: seq<PRGroup>;
    match strategyType {
      case DirectoryBased =>
        groups := GroupByDirectory(batchFilesObjects);
      case FeatureBased =>
        groups := GroupByFeature(batchFilesObjects, pa);
      case ModuleBased =>
        groups := GroupByModule(batchFilesObjects);
      case SizeBalanced =>
        groups := GroupBySize(batchFilesObjects);
      case Mixed =>
        groups := GroupMixed(batchFilesObjects, pa);
    }
    var populatedGroups := PopulateGroups(groups, strategyType.Value());
    StrategyGroupsSpec(strategyType, batchFilesObjects, pa);
    PopulateKeeps(groups, strategyType.Value());
    var ungroupedInBatch := ListOfSet(batchFilePathsSet - Grouped(populatedGroups));
    r := GroupingResult(strategyType, populatedGroups, ungroupedInBatch);
  }
}
