/**
 * The batch splitter: divides a list of changed files into batches, by count, by
 * naming pattern, or by an estimated review complexity.
 *
 * `range(0, n, step)` raises `ValueError` for a zero step and is empty for a negative one;
 * both are modelled. The complexity weights are exact rationals.
 */
module BatchSplitter {
  import opened Wrappers
  import opened Seqs
  import opened Text
  import opened AnalysisModels

  /** The exception that escapes the splitting helpers. */
  datatype SplitError = ValueError

  type Batches = seq<seq<string>>

  // =======================================================================================
  // Count-based batches
  // =======================================================================================

  /** `[s[i:i + k] for i in range(0, len(s), k)]` for a positive `k`. */
  function Chunks<T>(s: seq<T>, k: nat): seq<seq<T>>
    requires k > 0
    decreases |s|
  {
    if |s| <= k then (if s == [] then [] else [s])
    else [s[..k]] + Chunks(s[k..], k)
  }

  /** `_create_simple_batches`. */
  function SimpleBatches(files: seq<string>, targetSize: int): Result<Batches, SplitError> {
    if targetSize == 0 then Failure(ValueError)
    else if targetSize < 0 then Success([])
    else Success(Chunks(files, targetSize))
  }

  /**
   * The chunks concatenate back to the input, are non-empty and at most `k` long, all but
   * the last are exactly `k` long, and there are `ceil(|s| / k)` of them, stated without division.
   */
  lemma ChunksSpec<T>(s: seq<T>, k: nat)
    requires k > 0
    ensures Flatten(Chunks(s, k)) == s
    ensures forall i :: 0 <= i < |Chunks(s, k)| ==> 0 < |Chunks(s, k)[i]| <= k
    ensures forall i :: 0 <= i < |Chunks(s, k)| - 1 ==> |Chunks(s, k)[i]| == k
    ensures Chunks(s, k) == [] <==> s == []
    ensures s != [] ==> (|Chunks(s, k)| - 1) * k < |s| <= |Chunks(s, k)| * k
  {
    ChunksShape(s, k);
    ChunksCount(s, k);
  }

  lemma {:induction false} ChunksShape<T>(s: seq<T>, k: nat)
    requires k > 0
    ensures Flatten(Chunks(s, k)) == s
    ensures forall i :: 0 <= i < |Chunks(s, k)| ==> 0 < |Chunks(s, k)[i]| <= k
    ensures forall i :: 0 <= i < |Chunks(s, k)| - 1 ==> |Chunks(s, k)[i]| == k
    ensures Chunks(s, k) == [] <==> s == []
    decreases |s|
  {
    if |s| > k {
      var rest := s[k..];
      ChunksShape(rest, k);
      var cs := Chunks(s, k);
      assert cs == [s[..k]] + Chunks(rest, k);
      assert cs[1..] == Chunks(rest, k);
      assert s == s[..k] + rest;
      forall i | 0 <= i < |cs|
        ensures 0 < |cs[i]| <= k
      {
        if i > 0 {
          assert cs[i] == Chunks(rest, k)[i - 1];
        }
      }
      forall i | 0 <= i < |cs| - 1
        ensures |cs[i]| == k
      {
        if i > 0 {
          assert cs[i] == Chunks(rest, k)[i - 1];
        }
      }
    }
  }

  /** The number of batches is the ceiling of `|s| / k`, stated without division. */
  lemma {:induction false} ChunksCount<T>(s: seq<T>, k: nat)
    requires k > 0
    ensures s != [] ==> (|Chunks(s, k)| - 1) * k < |s| <= |Chunks(s, k)| * k
    decreases |s|
  {
    if |s| > k {
      var rest := s[k..];
      ChunksCount(rest, k);
      var n := |Chunks(rest, k)|;
      assert |Chunks(s, k)| == n + 1;
      assert (n + 1 - 1) * k == n * k;
      assert (n + 1) * k == n * k + k;
    }
  }

  /** `_create_simple_batches`, with its `range` loop. */
  method CreateSimpleBatches(files: seq<string>, targetSize: int) returns (r: Result<Batches, SplitError>)
    ensures r == SimpleBatches(files, targetSize)
  {
    if targetSize == 0 {
      return Failure(ValueError);
    }
    var batches: Batches := [];
    if targetSize > 0 {
      var i := 0;
      while i < |files|
        invariant 0 <= i
        invariant i < |files| ==> batches + Chunks(files[i..], targetSize) == Chunks(files, targetSize)
        invariant i >= |files| ==> batches == Chunks(files, targetSize)
        decreases |files| - i
      {
        var end := Min(i + targetSize, |files|);
        if i + targetSize < |files| {
          assert files[i..][targetSize..] == files[i + targetSize..];
          assert files[i..][..targetSize] == files[i..end];
        } else {
          assert files[i..] == files[i..end];
        }
        batches := batches + [files[i..end]];
        i := i + targetSize;
      }
      if |files| == 0 {
        assert batches == Chunks(files, targetSize);
      }
    }
    return Success(batches);
  }

  // =======================================================================================
  // Pattern-based batches
  // =======================================================================================

  /**
   * `Path(file).name`. Parsing a path drops empty and "." segments, so the name is the last
   * segment that is neither, or "" when there is none ("src/newdir/" names "newdir").
   */
  function Basename(file: string): (name: string)
    ensures '/' !in name && name != "."
    ensures '/' !in file && file != "." ==> name == file
  {
    LastSegment(file)
  }

  /** A last segment after a '/' is the name, whatever precedes it. */
  lemma BasenameLastSegment(dir: string, seg: string)
    requires '/' !in seg && seg != "" && seg != "."
    ensures Basename(dir + "/" + seg) == seg
  {
    LastSegmentAfter(dir, seg);
  }

  /** A trailing '/' or "/." does not change the name. */
  lemma BasenameTrailing(file: string)
    ensures Basename(file + "/") == Basename(file)
    ensures Basename(file + "/.") == Basename(file)
  {
    LastSegmentTrailing(file);
  }

  /**
   * Git lists an untracked directory with a trailing '/' ("src/newdir/"); its name is the
   * directory's last segment, and so is the name of "src/newdir/.".
   */
  lemma BasenameOfDirectory(parent: string, dir: string)
    requires '/' !in dir && dir != "" && dir != "."
    ensures Basename(parent + "/" + dir + "/") == dir
    ensures Basename(parent + "/" + dir + "/.") == dir
  {
    BasenameTrailing(parent + "/" + dir);
    BasenameLastSegment(parent, dir);
  }

  /** "." alone has no name. */
  lemma BasenameOfDot()
    ensures Basename(".") == ""
  {
  }

  /** The pattern-analysis dictionary; `otherKeys` counts entries the splitter does not read. */
  datatype PatternData = PatternData(namingPatterns: Option<seq<NamingPattern>>, otherKeys: nat) {
    predicate NonEmpty() {
      namingPatterns.Some? || otherKeys > 0
    }
  }

  /** The `(pattern type, file)` appends one pattern makes, in file order. */
  function PatternPairs(p: NamingPattern, files: seq<string>): seq<(string, string)> {
    if files == [] then []
    else
      var init := PatternPairs(p, files[..|files| - 1]);
      var file := files[|files| - 1];
      if Basename(file) in p.matches then init + [(p.patternType, file)] else init
  }

  /** Every append to `pattern_groups`, pattern by pattern. */
  function MatchPairs(patterns: seq<NamingPattern>, files: seq<string>): seq<(string, string)> {
    if patterns == [] then []
    else MatchPairs(patterns[..|patterns| - 1], files) + PatternPairs(patterns[|patterns| - 1], files)
  }

  /** The `matched_files` set. */
  function MatchedFiles(ps: seq<(string, string)>): set<string> {
    set q | q in ps :: q.1
  }

  /** A pattern group kept whole when it has at most 1.5 times the target, chunked otherwise. */
  function GroupChunks(files: seq<string>, targetSize: int): Result<Batches, SplitError> {
    if 2 * |files| > 3 * targetSize then SimpleBatches(files, targetSize) else Success([files])
  }

  /** The batches of the pattern groups with the keys `ks`, in key order. */
  function GroupBatches(ps: seq<(string, string)>, ks: seq<string>, targetSize: int): Result<Batches, SplitError> {
    if ks == [] then Success([])
    else
      var init :- GroupBatches(ps, ks[..|ks| - 1], targetSize);
      var more :- GroupChunks(ValuesFor(ps, ks[|ks| - 1]), targetSize);
      Success(init + more)
  }

  /** The files no pattern claimed, in input order. */
  function Unmatched(files: seq<string>, ps: seq<(string, string)>): seq<string> {
    var matched := MatchedFiles(ps);
    Filter(files, f => f !in matched)
  }

  /** `_create_pattern_batches`. */
  function PatternBatches(files: seq<string>, patternData: PatternData, targetSize: int): Result<Batches, SplitError> {
    if patternData.namingPatterns.Some? && patternData.namingPatterns.value != [] then
      var ps := MatchPairs(patternData.namingPatterns.value, files);
      var grouped :- GroupBatches(ps, KeysOf(ps), targetSize);
      var unmatched := Unmatched(files, ps);
      var rest :- if unmatched != [] then SimpleBatches(unmatched, targetSize) else Success([]);
      if grouped + rest == [] then SimpleBatches(files, targetSize) else Success(grouped + rest)
    else SimpleBatches(files, targetSize)
  }

  /** The pattern-matching double loop of `_create_pattern_batches`. */
  method CollectPatternGroups(patterns: seq<NamingPattern>, files: seq<string>)
    returns (patternTypes: seq<string>, patternGroups: map<string, seq<string>>, matchedFiles: set<string>)
    ensures Tracks(patternTypes, patternGroups, MatchPairs(patterns, files))
    ensures matchedFiles == MatchedFiles(MatchPairs(patterns, files))
  {
    patternTypes, patternGroups, matchedFiles := [], map[], {};
    TracksEmpty(MatchPairs(patterns[..0], files));
    for i := 0 to |patterns|
      invariant Tracks(patternTypes, patternGroups, MatchPairs(patterns[..i], files))
      invariant matchedFiles == MatchedFiles(MatchPairs(patterns[..i], files))
    {
      assert patterns[..i + 1][..i] == patterns[..i];
      patternTypes, patternGroups, matchedFiles :=
        CollectMatches(patterns[i], files, MatchPairs(patterns[..i], files), patternTypes, patternGroups, matchedFiles);
    }
    assert patterns[..|patterns|] == patterns;
  }

  /** The inner loop over the files for one pattern. */
  method CollectMatches(pattern: NamingPattern, files: seq<string>, ghost before: seq<(string, string)>,
                        types0: seq<string>, groups0: map<string, seq<string>>, matched0: set<string>)
    returns (patternTypes: seq<string>, patternGroups: map<string, seq<string>>, matchedFiles: set<string>)
    requires Tracks(types0, groups0, before) && matched0 == MatchedFiles(before)
    ensures Tracks(patternTypes, patternGroups, before + PatternPairs(pattern, files))
    ensures matchedFiles == MatchedFiles(before + PatternPairs(pattern, files))
  {
    patternTypes, patternGroups, matchedFiles := types0, groups0, matched0;
    assert files[..0] == [];
    assert before + PatternPairs(pattern, files[..0]) == before;
    for j := 0 to |files|
      invariant Tracks(patternTypes, patternGroups, before + PatternPairs(pattern, files[..j]))
      invariant matchedFiles == MatchedFiles(before + PatternPairs(pattern, files[..j]))
    {
      assert files[..j + 1][..j] == files[..j];
      ghost var ps := before + PatternPairs(pattern, files[..j]);
      assert before + PatternPairs(pattern, files[..j + 1]) == ps + FilePair(pattern, files[j]);
      patternTypes, patternGroups, matchedFiles := MatchFile(pattern, files[j], ps, patternTypes, patternGroups, matchedFiles);
    }
    assert files[..|files|] == files;
  }

  /** The append one file makes for one pattern: none, or `(pattern type, file)`. */
  function FilePair(pattern: NamingPattern, file: string): seq<(string, string)> {
    if Basename(file) in pattern.matches then [(pattern.patternType, file)] else []
  }

  /** One iteration of the inner loop: `pattern_groups[type].append(file)` when the basename matches. */
  method MatchFile(pattern: NamingPattern, file: string, ghost ps: seq<(string, string)>,
                   types0: seq<string>, groups0: map<string, seq<string>>, matched0: set<string>)
    returns (patternTypes: seq<string>, patternGroups: map<string, seq<string>>, matchedFiles: set<string>)
    requires Tracks(types0, groups0, ps) && matched0 == MatchedFiles(ps)
    ensures Tracks(patternTypes, patternGroups, ps + FilePair(pattern, file))
    ensures matchedFiles == MatchedFiles(ps + FilePair(pattern, file))
  {
    patternTypes, patternGroups, matchedFiles := types0, groups0, matched0;
    if Basename(file) in pattern.matches {
      TracksAppend(patternTypes, patternGroups, ps, pattern.patternType, file);
      if pattern.patternType in patternGroups {
        patternGroups := patternGroups[pattern.patternType := patternGroups[pattern.patternType] + [file]];
      } else {
        patternTypes := patternTypes + [pattern.patternType];
        patternGroups := patternGroups[pattern.patternType := [file]];
      }
      matchedFiles := matchedFiles + {file};
      assert MatchedFiles(ps + [(pattern.patternType, file)]) == MatchedFiles(ps) + {file};
    } else {
      assert ps + [] == ps;
    }
  }

  /** The loop of `_create_pattern_batches` over the pattern groups, in key order. */
  method BatchPatternGroups(patternTypes: seq<string>, patternGroups: map<string, seq<string>>,
                            ghost ps: seq<(string, string)>, targetSize: int)
    returns (r: Result<Batches, SplitError>)
    requires Tracks(patternTypes, patternGroups, ps)
    ensures r == GroupBatches(ps, patternTypes, targetSize)
  {
    var batches: Batches := [];
    for k := 0 to |patternTypes|
      invariant GroupBatches(ps, patternTypes[..k], targetSize) == Success(batches)
    {
      assert patternTypes[..k + 1][..k] == patternTypes[..k];
      var patternFiles := patternGroups[patternTypes[k]];
      assert patternFiles == ValuesFor(ps, patternTypes[k]);
      if 2 * |patternFiles| > 3 * targetSize {
        var chunks := CreateSimpleBatches(patternFiles, targetSize);
        if chunks.Failure? {
          GroupBatchesFailure(ps, patternTypes, targetSize, k + 1);
          return Failure(chunks.error);
        }
        batches := batches + chunks.value;
      } else {
        batches := batches + [patternFiles];
      }
    }
    assert patternTypes[..|patternTypes|] == patternTypes;
    return Success(batches);
  }

  /** `_create_pattern_batches`. */
  method CreatePatternBatches(files: seq<string>, patternData: PatternData, targetSize: int)
    returns (r: Result<Batches, SplitError>)
    ensures r == PatternBatches(files, patternData, targetSize)
  {
    var batches: Batches := [];
    if patternData.namingPatterns.Some? && patternData.namingPatterns.value != [] {
      var patterns := patternData.namingPatterns.value;
      var patternTypes, patternGroups, matchedFiles := CollectPatternGroups(patterns, files);
      ghost var ps := MatchPairs(patterns, files);
      var grouped := BatchPatternGroups(patternTypes, patternGroups, ps, targetSize);
      if grouped.Failure? {
        return Failure(grouped.error);
      }
      batches := grouped.value;
      var unmatched := Filter(files, f => f !in matchedFiles);
      assert unmatched == Unmatched(files, ps);
      if unmatched != [] {
        var chunks := CreateSimpleBatches(unmatched, targetSize);
        if chunks.Failure? {
          return Failure(chunks.error);
        }
        batches := batches + chunks.value;
      }
      assert GroupBatches(ps, KeysOf(ps), targetSize) == grouped;
      assert batches == grouped.value + (if unmatched != [] then SimpleBatches(unmatched, targetSize).value else []);
      assert PatternBatches(files, patternData, targetSize) ==
        if batches == [] then SimpleBatches(files, targetSize) else Success(batches);
    }
    if batches == [] {
      r := CreateSimpleBatches(files, targetSize);
    } else {
      r := Success(batches);
    }
  }

  lemma GroupBatchesFailure(ps: seq<(string, string)>, ks: seq<string>, targetSize: int, k: nat)
    requires 0 < k <= |ks| && GroupBatches(ps, ks[..k - 1], targetSize).Success?
    requires GroupChunks(ValuesFor(ps, ks[k - 1]), targetSize).Failure?
    ensures GroupBatches(ps, ks, targetSize) == Failure(GroupChunks(ValuesFor(ps, ks[k - 1]), targetSize).error)
  {
    assert ks[..k][..k - 1] == ks[..k - 1];
    GroupBatchesFailed(ps, ks, targetSize, k);
  }

  lemma {:induction false} GroupBatchesFailed(ps: seq<(string, string)>, ks: seq<string>, targetSize: int, k: nat)
    requires 0 < k <= |ks| && GroupBatches(ps, ks[..k], targetSize).Failure?
    ensures GroupBatches(ps, ks, targetSize) == GroupBatches(ps, ks[..k], targetSize)
    decreases |ks| - k
  {
    if k < |ks| {
      assert ks[..k + 1][..k] == ks[..k];
      GroupBatchesFailed(ps, ks, targetSize, k + 1);
    } else {
      assert ks[..k] == ks;
    }
  }

  // ---- properties of pattern batching --------------------------------------------------

  lemma {:induction false} PatternPairsSpec(p: NamingPattern, files: seq<string>)
    ensures forall t, f :: (t, f) in PatternPairs(p, files) <==> t == p.patternType && f in files && Basename(f) in p.matches
  {
    if files != [] {
      var init := files[..|files| - 1];
      PatternPairsSpec(p, init);
      assert files == init + [files[|files| - 1]];
    }
  }

  /** A pair is appended iff the file is in the batch and its basename is among the pattern's matches. */
  lemma {:induction false} MatchPairsSpec(patterns: seq<NamingPattern>, files: seq<string>)
    ensures forall t, f :: (t, f) in MatchPairs(patterns, files) <==>
      f in files && exists i :: 0 <= i < |patterns| && patterns[i].patternType == t && Basename(f) in patterns[i].matches
  {
    if patterns != [] {
      var n := |patterns| - 1;
      MatchPairsSpec(patterns[..n], files);
      PatternPairsSpec(patterns[n], files);
      var init := patterns[..n];
      var before, last := MatchPairs(init, files), PatternPairs(patterns[n], files);
      assert MatchPairs(patterns, files) == before + last;
      forall t, f
        ensures (t, f) in before + last <==>
          f in files && exists i :: 0 <= i < |patterns| && patterns[i].patternType == t && Basename(f) in patterns[i].matches
      {
        MatchPairsStep(patterns, init, files, t, f, before, last);
      }
    }
  }

  /** One more pattern: the pair is appended by an earlier pattern or by the last one. */
  lemma MatchPairsStep(patterns: seq<NamingPattern>, init: seq<NamingPattern>, files: seq<string>, t: string, f: string,
                       before: seq<(string, string)>, last: seq<(string, string)>)
    requires patterns != [] && init == patterns[..|patterns| - 1]
    requires (t, f) in before <==>
      f in files && exists i :: 0 <= i < |init| && init[i].patternType == t && Basename(f) in init[i].matches
    requires (t, f) in last <==>
      t == patterns[|patterns| - 1].patternType && f in files && Basename(f) in patterns[|patterns| - 1].matches
    ensures (t, f) in before + last <==>
      f in files && exists i :: 0 <= i < |patterns| && patterns[i].patternType == t && Basename(f) in patterns[i].matches
  {
    if f in files && exists i :: 0 <= i < |patterns| && patterns[i].patternType == t && Basename(f) in patterns[i].matches {
      var i :| 0 <= i < |patterns| && patterns[i].patternType == t && Basename(f) in patterns[i].matches;
      if i < |patterns| - 1 {
        assert init[i] == patterns[i];
      }
    }
    if (t, f) in before {
      var i :| 0 <= i < |init| && init[i].patternType == t && Basename(f) in init[i].matches;
      assert init[i] == patterns[i];
    }
  }

  /**
   * A file is in the group of pattern type `t` iff its basename is among the matches of a
   * pattern of that type; the group keys are exactly the types that matched something.
   */
  lemma PatternGroupMembers(patterns: seq<NamingPattern>, files: seq<string>)
    ensures forall t, f :: f in ValuesFor(MatchPairs(patterns, files), t) <==>
      f in files && exists i :: 0 <= i < |patterns| && patterns[i].patternType == t && Basename(f) in patterns[i].matches
    ensures forall t :: t in KeysOf(MatchPairs(patterns, files)) <==> ValuesFor(MatchPairs(patterns, files), t) != []
  {
    var ps := MatchPairs(patterns, files);
    MatchPairsSpec(patterns, files);
    forall t
      ensures forall f :: f in ValuesFor(ps, t) <==> (t, f) in ps
      ensures t in KeysOf(ps) <==> ValuesFor(ps, t) != []
    {
      ValuesForSpec(ps, t);
    }
  }

  /** A file is unmatched iff no pattern's matches contain its basename. */
  lemma UnmatchedSpec(patterns: seq<NamingPattern>, files: seq<string>)
    ensures forall f :: f in Unmatched(files, MatchPairs(patterns, files)) <==>
      f in files && forall i :: 0 <= i < |patterns| ==> Basename(f) !in patterns[i].matches
  {
    var ps := MatchPairs(patterns, files);
    MatchPairsSpec(patterns, files);
    forall f | f in files && f in MatchedFiles(ps)
      ensures exists i :: 0 <= i < |patterns| && Basename(f) in patterns[i].matches
    {
      var q :| q in ps && q.1 == f;
      assert (q.0, q.1) in ps;
    }
    forall f | f in files && exists i :: 0 <= i < |patterns| && Basename(f) in patterns[i].matches
      ensures f in MatchedFiles(ps)
    {
      var i :| 0 <= i < |patterns| && Basename(f) in patterns[i].matches;
      assert (patterns[i].patternType, f) in ps;
    }
  }

  /** A non-empty pattern group stays one batch iff it has at most 1.5 times the target. */
  lemma GroupKeptWhole(files: seq<string>, targetSize: int)
    requires targetSize > 0 && files != []
    ensures GroupChunks(files, targetSize) == Success([files]) <==> 2 * |files| <= 3 * targetSize
  {
    if 2 * |files| > 3 * targetSize {
      ChunksSpec(files, targetSize);
      assert |Chunks(files, targetSize)[0]| <= targetSize < |files|;
    }
  }

  /** The group batches concatenate to the groups' lists in key order, each batch non-empty and below 1.5 times the target. */
  lemma {:induction false} GroupBatchesSpec(ps: seq<(string, string)>, ks: seq<string>, targetSize: int)
    requires targetSize > 0
    requires forall k :: k in ks ==> k in KeysOf(ps)
    ensures GroupBatches(ps, ks, targetSize).Success?
    ensures Flatten(GroupBatches(ps, ks, targetSize).value) == BucketContents(ps, ks)
    ensures forall b :: b in GroupBatches(ps, ks, targetSize).value ==> 0 < |b| && 2 * |b| <= 3 * targetSize
  {
    if ks != [] {
      var n := |ks| - 1;
      var init := ks[..n];
      assert ks == init + [ks[n]];
      GroupBatchesSpec(ps, init, targetSize);
      BucketContentsSnoc(ps, init, ks[n]);
      var vs := ValuesFor(ps, ks[n]);
      ValuesForSpec(ps, ks[n]);
      var more := GroupChunks(vs, targetSize).value;
      if 2 * |vs| > 3 * targetSize {
        ChunksSpec(vs, targetSize);
        forall b | b in more
          ensures 0 < |b| && 2 * |b| <= 3 * targetSize
        {
          var j :| 0 <= j < |more| && more[j] == b;
        }
      } else {
        assert Flatten(more) == vs;
      }
      FlattenAppend(GroupBatches(ps, init, targetSize).value, more);
    }
  }

  /** Every file is in some pattern group or among the unmatched files. */
  lemma GroupsOrUnmatchedNonEmpty(patterns: seq<NamingPattern>, files: seq<string>)
    requires files != []
    ensures BucketContents(MatchPairs(patterns, files), KeysOf(MatchPairs(patterns, files)))
      + Unmatched(files, MatchPairs(patterns, files)) != []
  {
    var ps := MatchPairs(patterns, files);
    var f := files[0];
    if f in MatchedFiles(ps) {
      var q :| q in ps && q.1 == f;
      var m :| 0 <= m < |ps| && ps[m] == q;
      KeysOfSpec(ps);
      BucketNonEmpty(ps, KeysOf(ps), q.0);
    } else {
      assert f in Unmatched(files, ps);
    }
  }

  /**
   * With a positive target, pattern batching never raises. Its batches concatenate to the
   * pattern groups in first-match order followed by the unmatched files. Each batch is
   * non-empty and at most 1.5 times the target.
   */
  lemma PatternBatchesSpec(files: seq<string>, patternData: PatternData, targetSize: int)
    requires targetSize > 0
    requires patternData.namingPatterns.Some? && patternData.namingPatterns.value != []
    ensures PatternBatches(files, patternData, targetSize).Success?
    ensures Flatten(PatternBatches(files, patternData, targetSize).value) ==
      BucketContents(MatchPairs(patternData.namingPatterns.value, files), KeysOf(MatchPairs(patternData.namingPatterns.value, files)))
        + Unmatched(files, MatchPairs(patternData.namingPatterns.value, files))
    ensures forall b :: b in PatternBatches(files, patternData, targetSize).value ==> 0 < |b| && 2 * |b| <= 3 * targetSize
  {
    var patterns := patternData.namingPatterns.value;
    var ps := MatchPairs(patterns, files);
    GroupBatchesSpec(ps, KeysOf(ps), targetSize);
    var grouped := GroupBatches(ps, KeysOf(ps), targetSize).value;
    var unmatched := Unmatched(files, ps);
    ChunksSpec(unmatched, targetSize);
    var rest := if unmatched != [] then Chunks(unmatched, targetSize) else [];
    assert Flatten(rest) == unmatched;
    FlattenAppend(grouped, rest);
    forall b | b in rest
      ensures 0 < |b| && 2 * |b| <= 3 * targetSize
    {
      var j :| 0 <= j < |rest| && rest[j] == b;
    }
    if grouped + rest == [] {
      if files != [] {
        GroupsOrUnmatchedNonEmpty(patterns, files);
        assert false;
      }
      assert PatternBatches(files, patternData, targetSize) == Success([]);
    } else {
      assert PatternBatches(files, patternData, targetSize) == Success(grouped + rest);
    }
  }

  lemma {:induction false} BucketNonEmpty(ps: seq<(string, string)>, ks: seq<string>, k: string)
    requires k in ks && k in KeysOf(ps)
    ensures BucketContents(ps, ks) != []
  {
    ValuesForSpec(ps, k);
    if ks[0] != k {
      BucketNonEmpty(ps, ks[1..], k);
    }
  }

  lemma {:induction false} PatternPairsNone(p: NamingPattern, files: seq<string>)
    requires forall f :: f in files ==> Basename(f) !in p.matches
    ensures PatternPairs(p, files) == []
  {
    if files != [] {
      PatternPairsNone(p, files[..|files| - 1]);
    }
  }

  lemma {:induction false} MatchPairsNone(patterns: seq<NamingPattern>, files: seq<string>)
    requires forall f, i :: f in files && 0 <= i < |patterns| ==> Basename(f) !in patterns[i].matches
    ensures MatchPairs(patterns, files) == []
  {
    if patterns != [] {
      var n := |patterns| - 1;
      forall f, i | f in files && 0 <= i < n
        ensures Basename(f) !in patterns[..n][i].matches
      {
        assert patterns[..n][i] == patterns[i];
      }
      MatchPairsNone(patterns[..n], files);
      PatternPairsNone(patterns[n], files);
    }
  }

  /** When no basename matches, pattern batching is count batching. */
  lemma NoMatchIsSimple(files: seq<string>, patternData: PatternData, targetSize: int)
    requires patternData.namingPatterns.Some?
    requires forall f, i :: f in files && 0 <= i < |patternData.namingPatterns.value| ==>
      Basename(f) !in patternData.namingPatterns.value[i].matches
    ensures PatternBatches(files, patternData, targetSize) == SimpleBatches(files, targetSize)
  {
    if patternData.namingPatterns.value != [] {
      MatchPairsNone(patternData.namingPatterns.value, files);
      NoPairsIsSimple(files, patternData, targetSize);
    }
  }

  /** With no pattern appends, every file is unmatched and one count batching results. */
  lemma NoPairsIsSimple(files: seq<string>, patternData: PatternData, targetSize: int)
    requires patternData.namingPatterns.Some? && patternData.namingPatterns.value != []
    requires MatchPairs(patternData.namingPatterns.value, files) == []
    ensures PatternBatches(files, patternData, targetSize) == SimpleBatches(files, targetSize)
  {
    var ps := MatchPairs(patternData.namingPatterns.value, files);
    assert KeysOf(ps) == [];
    assert GroupBatches(ps, KeysOf(ps), targetSize) == Success([]);
    assert MatchedFiles(ps) == {};
    assert Unmatched(files, ps) == files;
    if files != [] && SimpleBatches(files, targetSize).Success? {
      assert [] + SimpleBatches(files, targetSize).value == SimpleBatches(files, targetSize).value;
    }
  }

  const ApiPatterns: seq<NamingPattern> := [NamingPattern("service", ["api.py"]), NamingPattern("endpoint", ["api.py"])]

  lemma ApiMatchPairs()
    ensures MatchPairs(ApiPatterns, ["src/api.py"]) == [("service", "src/api.py"), ("endpoint", "src/api.py")]
  {
    var files := ["src/api.py"];
    assert Basename("src/api.py") == "api.py";
    assert files[..0] == [];
    assert PatternPairs(ApiPatterns[0], files) == [("service", "src/api.py")];
    assert PatternPairs(ApiPatterns[1], files) == [("endpoint", "src/api.py")];
    assert ApiPatterns[..1] == [ApiPatterns[0]] && [ApiPatterns[0]][..0] == [];
    assert MatchPairs(ApiPatterns[..1], files) == [("service", "src/api.py")];
  }

  lemma ApiGroups(ps: seq<(string, string)>)
    requires ps == [("service", "src/api.py"), ("endpoint", "src/api.py")]
    ensures KeysOf(ps) == ["service", "endpoint"]
    ensures GroupBatches(ps, KeysOf(ps), 50) == Success([["src/api.py"], ["src/api.py"]])
    ensures MatchedFiles(ps) == {"src/api.py"}
  {
    assert ps[..1] == [("service", "src/api.py")] && ps[..1][..0] == [];
    assert KeysOf(ps[..1]) == ["service"];
    assert ValuesFor(ps[..1], "service") == ["src/api.py"];
    assert ValuesFor(ps, "service") == ["src/api.py"];
    assert ValuesFor(ps[..1], "endpoint") == [];
    assert ValuesFor(ps, "endpoint") == ["src/api.py"];
    assert ["service", "endpoint"][..1] == ["service"] && ["service"][..0] == [];
    assert GroupChunks(["src/api.py"], 50) == Success([["src/api.py"]]);
    var none: seq<string> := [];
    var one: Batches := [["src/api.py"]];
    var k1 := none + ["service"];
    var k2 := k1 + ["endpoint"];
    assert k2 == ["service", "endpoint"];
    assert GroupChunks(ValuesFor(ps, "service"), 50) == Success(one);
    assert GroupChunks(ValuesFor(ps, "endpoint"), 50) == Success(one);
    assert GroupBatches(ps, none, 50) == Success([]);
    GroupBatchesStep(ps, none, "service", 50);
    assert [] + one == one;
    assert GroupBatches(ps, k1, 50) == Success(one);
    GroupBatchesStep(ps, k1, "endpoint", 50);
    assert GroupBatches(ps, k2, 50) == Success(one + one);
    assert KeysOf(ps) == k2 && one + one == [["src/api.py"], ["src/api.py"]];
  }

  lemma GroupBatchesStep(ps: seq<(string, string)>, ks: seq<string>, k: string, targetSize: int)
    requires GroupBatches(ps, ks, targetSize).Success? && GroupChunks(ValuesFor(ps, k), targetSize).Success?
    ensures GroupBatches(ps, ks + [k], targetSize) ==
      Success(GroupBatches(ps, ks, targetSize).value + GroupChunks(ValuesFor(ps, k), targetSize).value)
  {
    assert (ks + [k])[..|ks|] == ks;
  }

  /** A file whose basename two pattern types match lands in two batches. */
  lemma FileInSeveralBatches()
    ensures PatternBatches(["src/api.py"], PatternData(Some(ApiPatterns), 0), 50) == Success([["src/api.py"], ["src/api.py"]])
  {
    var ps := MatchPairs(ApiPatterns, ["src/api.py"]);
    ApiMatchPairs();
    ApiGroups(ps);
    var two: Batches := [["src/api.py"], ["src/api.py"]];
    assert GroupBatches(ps, KeysOf(ps), 50) == Success(two);
    assert Unmatched(["src/api.py"], ps) == [];
    assert two + [] == two;
  }

  /** A file whose basename two different pattern types match lands in at least two batches. */
  lemma FileInTwoGroups(files: seq<string>, patternData: PatternData, targetSize: int, f: string, i: nat, j: nat)
    requires targetSize > 0 && patternData.namingPatterns.Some? && f in files
    requires i < |patternData.namingPatterns.value| && j < |patternData.namingPatterns.value|
    requires patternData.namingPatterns.value[i].patternType != patternData.namingPatterns.value[j].patternType
    requires Basename(f) in patternData.namingPatterns.value[i].matches
    requires Basename(f) in patternData.namingPatterns.value[j].matches
    ensures PatternBatches(files, patternData, targetSize).Success?
    ensures multiset(Flatten(PatternBatches(files, patternData, targetSize).value))[f] >= 2
  {
    var patterns := patternData.namingPatterns.value;
    var ps := MatchPairs(patterns, files);
    PatternBatchesSpec(files, patternData, targetSize);
    TwoTypesTwice(patterns, files, f, i, j);
    assert multiset(BucketContents(ps, KeysOf(ps)) + Unmatched(files, ps))[f] >= 2;
  }

  lemma TwoTypesTwice(patterns: seq<NamingPattern>, files: seq<string>, f: string, i: nat, j: nat)
    requires f in files && i < |patterns| && j < |patterns|
    requires patterns[i].patternType != patterns[j].patternType
    requires Basename(f) in patterns[i].matches && Basename(f) in patterns[j].matches
    ensures multiset(BucketContents(MatchPairs(patterns, files), KeysOf(MatchPairs(patterns, files))))[f] >= 2
  {
    var ps := MatchPairs(patterns, files);
    var t1, t2 := patterns[i].patternType, patterns[j].patternType;
    PatternGroupMembers(patterns, files);
    assert f in ValuesFor(ps, t1) && f in ValuesFor(ps, t2);
    BucketContentsTwice(ps, KeysOf(ps), t1, t2, f);
  }

  // =======================================================================================
  // Complexity-based batches
  // =======================================================================================

  /** One entry of the file metadata; missing numbers are 0 and a missing string is "". */
  datatype FileInfo = FileInfo(path: string, totalChanges: int, addedLines: int, deletedLines: int, extension: string)

  /** The churn used by the tiers: `total_changes`, or added plus deleted lines when it is 0. */
  function Churn(fi: FileInfo): int {
    if fi.totalChanges != 0 then fi.totalChanges else fi.addedLines + fi.deletedLines
  }

  function TierFactor(churn: int): real {
    if churn > 500 then 3.0 else if churn > 200 then 2.0 else if churn > 50 then 1.5 else 1.0
  }

  function ExtensionFactor(extension: string): real {
    if extension in [".py", ".java", ".cpp"] then 1.5
    else if extension in [".yml", ".json", ".toml"] then 1.2
    else 1.0
  }

  /** The extension classes the weight distinguishes. */
  datatype ExtensionClass = Code | Config | Other

  function ClassOf(extension: string): ExtensionClass {
    if extension in [".py", ".java", ".cpp"] then Code
    else if extension in [".yml", ".json", ".toml"] then Config
    else Other
  }

  /**
   * `_calculate_file_complexity`, as the table of the products of the churn tier and the
   * extension weight (the product itself is `ComplexityIsProduct`).
   */
  function Complexity(fi: FileInfo): (c: real)
    ensures 1.0 <= c <= 4.5
  {
    var churn := Churn(fi);
    match ClassOf(fi.extension)
    case Code => if churn > 500 then 4.5 else if churn > 200 then 3.0 else if churn > 50 then 2.25 else 1.5
    case Config => if churn > 500 then 3.6 else if churn > 200 then 2.4 else if churn > 50 then 1.8 else 1.2
    case Other => if churn > 500 then 3.0 else if churn > 200 then 2.0 else if churn > 50 then 1.5 else 1.0
  }

  /** The weight is `1.0`, times the churn tier, times the extension factor. */
  lemma ComplexityIsProduct(fi: FileInfo)
    ensures Complexity(fi) == 1.0 * TierFactor(Churn(fi)) * ExtensionFactor(fi.extension)
  {
  }

  /** The complexity weight grows with the churn, for a fixed extension. */
  lemma ComplexityMonotone(a: FileInfo, b: FileInfo)
    requires a.extension == b.extension && Churn(a) <= Churn(b)
    ensures Complexity(a) <= Complexity(b)
  {
  }

  // ---- a stable descending sort, for any key --------------------------------------------

  /** The elements whose key is `c`, in order. */
  function OfKey<T>(s: seq<T>, key: T -> real, c: real): seq<T> {
    if s == [] then [] else (if key(s[0]) == c then [s[0]] else []) + OfKey(s[1..], key, c)
  }

  lemma {:induction false} OfKeyAppend<T>(a: seq<T>, b: seq<T>, key: T -> real, c: real)
    ensures OfKey(a + b, key, c) == OfKey(a, key, c) + OfKey(b, key, c)
  {
    if a == [] {
      assert a + b == b;
    } else {
      var head := if key(a[0]) == c then [a[0]] else [];
      assert (a + b)[0] == a[0] && (a + b)[1..] == a[1..] + b;
      assert OfKey(a + b, key, c) == head + OfKey(a[1..] + b, key, c);
      OfKeyAppend(a[1..], b, key, c);
      assert OfKey(a, key, c) == head + OfKey(a[1..], key, c);
    }
  }

  ghost predicate SortedDesc<T>(s: seq<T>, key: T -> real) {
    forall i, j :: 0 <= i < j < |s| ==> key(s[i]) >= key(s[j])
  }

  /** Inserts `x` after every element whose key is at least as large. */
  function Insert<T>(s: seq<T>, x: T, key: T -> real): seq<T> {
    if s == [] then [x]
    else if key(s[0]) >= key(x) then [s[0]] + Insert(s[1..], x, key)
    else [x] + s
  }

  /** `sorted(xs, key=key, reverse=True)`, stable like Python's sort. */
  function SortBy<T>(xs: seq<T>, key: T -> real): seq<T> {
    if xs == [] then [] else Insert(SortBy(xs[..|xs| - 1], key), xs[|xs| - 1], key)
  }

  lemma {:induction false} InsertPerm<T>(s: seq<T>, x: T, key: T -> real)
    ensures multiset(Insert(s, x, key)) == multiset(s) + multiset{x}
  {
    if s != [] && key(s[0]) >= key(x) {
      assert s == [s[0]] + s[1..];
      InsertPerm(s[1..], x, key);
    }
  }

  lemma {:induction false} InsertBounded<T>(s: seq<T>, x: T, key: T -> real, bound: real)
    requires forall i :: 0 <= i < |s| ==> key(s[i]) <= bound
    requires key(x) <= bound
    ensures forall i :: 0 <= i < |Insert(s, x, key)| ==> key(Insert(s, x, key)[i]) <= bound
  {
    if s != [] && key(s[0]) >= key(x) {
      InsertBounded(s[1..], x, key, bound);
      var r := Insert(s[1..], x, key);
      assert Insert(s, x, key) == [s[0]] + r;
      forall i | 0 <= i < |[s[0]] + r|
        ensures key(([s[0]] + r)[i]) <= bound
      {
        if i > 0 {
          assert ([s[0]] + r)[i] == r[i - 1];
        }
      }
    }
  }

  lemma SortedTail<T>(s: seq<T>, key: T -> real)
    requires SortedDesc(s, key) && s != []
    ensures SortedDesc(s[1..], key)
  {
    var tail := s[1..];
    forall i, j | 0 <= i < j < |tail|
      ensures key(tail[i]) >= key(tail[j])
    {
      assert tail[i] == s[i + 1] && tail[j] == s[j + 1];
    }
  }

  lemma {:induction false} InsertSorted<T>(s: seq<T>, x: T, key: T -> real)
    requires SortedDesc(s, key)
    ensures SortedDesc(Insert(s, x, key), key)
  {
    if s != [] && key(s[0]) >= key(x) {
      var tail := s[1..];
      SortedTail(s, key);
      InsertSorted(tail, x, key);
      forall i | 0 <= i < |tail|
        ensures key(tail[i]) <= key(s[0])
      {
        assert tail[i] == s[i + 1];
      }
      InsertBounded(tail, x, key, key(s[0]));
      var r := Insert(tail, x, key);
      var t := [s[0]] + r;
      forall i, j | 0 <= i < j < |t|
        ensures key(t[i]) >= key(t[j])
      {
        assert t[j] == r[j - 1];
        if i > 0 {
          assert t[i] == r[i - 1];
        }
      }
    }
  }

  /** Inserting keeps, within every key class, the elements in their order, with `x` last. */
  lemma {:induction false} InsertStable<T>(s: seq<T>, x: T, key: T -> real, c: real)
    requires SortedDesc(s, key)
    ensures OfKey(Insert(s, x, key), key, c) == OfKey(s, key, c) + (if key(x) == c then [x] else [])
  {
    if s == [] {
      assert OfKey([x], key, c) == (if key(x) == c then [x] else []) + OfKey([], key, c);
    } else if key(s[0]) >= key(x) {
      SortedTail(s, key);
      InsertStable(s[1..], x, key, c);
      assert ([s[0]] + Insert(s[1..], x, key))[1..] == Insert(s[1..], x, key);
    } else {
      assert ([x] + s)[1..] == s;
      if key(x) == c {
        OfKeyNoneBelow(s, key, c);
      }
    }
  }

  lemma {:induction false} OfKeyNoneBelow<T>(s: seq<T>, key: T -> real, c: real)
    requires SortedDesc(s, key) && s != [] && key(s[0]) < c
    ensures OfKey(s, key, c) == []
  {
    if |s| > 1 {
      SortedTail(s, key);
      assert s[1..][0] == s[1];
      OfKeyNoneBelow(s[1..], key, c);
    }
  }

  /** The sort orders by descending key, is a permutation, and is stable. */
  lemma {:induction false} SortSpec<T(!new)>(xs: seq<T>, key: T -> real)
    ensures SortedDesc(SortBy(xs, key), key)
    ensures multiset(SortBy(xs, key)) == multiset(xs)
    ensures forall c: real :: OfKey(SortBy(xs, key), key, c) == OfKey(xs, key, c)
  {
    if xs != [] {
      var init := xs[..|xs| - 1];
      var x := xs[|xs| - 1];
      assert xs == init + [x];
      SortSpec(init, key);
      InsertSorted(SortBy(init, key), x, key);
      InsertPerm(SortBy(init, key), x, key);
      forall c: real
        ensures OfKey(SortBy(xs, key), key, c) == OfKey(xs, key, c)
      {
        InsertStable(SortBy(init, key), x, key, c);
        OfKeyAppend(init, [x], key, c);
        assert OfKey([x], key, c) == (if key(x) == c then [x] else []) + OfKey([], key, c);
      }
    }
  }

  // ---- greedy packing, for any weight ---------------------------------------------------

  /** Total weight of a batch. */
  function Load<T>(b: seq<T>, weight: T -> real): real {
    if b == [] then 0.0 else Load(b[..|b| - 1], weight) + weight(b[|b| - 1])
  }

  /** The loop state of `_create_adaptive_batches`: closed batches, the open one and its load. */
  datatype Packing<T> = Packing(done: seq<seq<T>>, current: seq<T>, load: real)

  /** One iteration: close the open batch when the element would overflow it, then add it. */
  function PackStep<T>(st: Packing<T>, x: T, weight: T -> real, target: real): Packing<T> {
    if st.load + weight(x) > target && st.current != [] then Packing(st.done + [st.current], [x], 0.0 + weight(x))
    else Packing(st.done, st.current + [x], st.load + weight(x))
  }

  function PackFrom<T>(xs: seq<T>, weight: T -> real, target: real): Packing<T> {
    if xs == [] then Packing([], [], 0.0)
    else PackStep(PackFrom(xs[..|xs| - 1], weight, target), xs[|xs| - 1], weight, target)
  }

  /** The greedy packing, with the last open batch closed. */
  function Pack<T>(xs: seq<T>, weight: T -> real, target: real): seq<seq<T>> {
    var st := PackFrom(xs, weight, target);
    if st.current != [] then st.done + [st.current] else st.done
  }

  /** Every batch is non-empty and, if it holds two elements or more, within the target. */
  ghost predicate WellPacked<T>(bs: seq<seq<T>>, weight: T -> real, target: real) {
    forall i :: 0 <= i < |bs| ==> bs[i] != [] && (|bs[i]| >= 2 ==> Load(bs[i], weight) <= target)
  }

  /** The tracked load is the open batch's weight, and the open batch is non-empty once an element was seen. */
  lemma {:induction false} PackFromLoad<T>(xs: seq<T>, weight: T -> real, target: real)
    ensures PackFrom(xs, weight, target).load == Load(PackFrom(xs, weight, target).current, weight)
    ensures xs != [] ==> PackFrom(xs, weight, target).current != []
  {
    if xs != [] {
      var init := xs[..|xs| - 1];
      var x := xs[|xs| - 1];
      PackFromLoad(init, weight, target);
      var st := PackFrom(init, weight, target);
      if st.load + weight(x) > target && st.current != [] {
        assert [x][..0] == [];
        assert Load([x], weight) == Load([], weight) + weight(x);
      } else {
        assert (st.current + [x])[..|st.current|] == st.current;
      }
    }
  }

  /** The closed batches followed by the open one are the input seen so far. */
  lemma {:induction false} PackFromFlatten<T>(xs: seq<T>, weight: T -> real, target: real)
    ensures Flatten(PackFrom(xs, weight, target).done) + PackFrom(xs, weight, target).current == xs
  {
    if xs != [] {
      var init := xs[..|xs| - 1];
      var x := xs[|xs| - 1];
      assert xs == init + [x];
      PackFromFlatten(init, weight, target);
      var st := PackFrom(init, weight, target);
      if st.load + weight(x) > target && st.current != [] {
        FlattenAppend(st.done, [st.current]);
        assert Flatten([st.current]) == st.current;
      }
    }
  }

  /** Every closed batch, and the open batch, is non-empty and within the target when it holds two elements or more. */
  lemma {:induction false} PackFromWell<T>(xs: seq<T>, weight: T -> real, target: real)
    ensures WellPacked(PackFrom(xs, weight, target).done, weight, target)
    ensures |PackFrom(xs, weight, target).current| >= 2 ==> Load(PackFrom(xs, weight, target).current, weight) <= target
  {
    if xs != [] {
      var init := xs[..|xs| - 1];
      var x := xs[|xs| - 1];
      PackFromWell(init, weight, target);
      PackFromLoad(init, weight, target);
      var st := PackFrom(init, weight, target);
      if st.load + weight(x) > target && st.current != [] {
        var done := st.done + [st.current];
        forall i | 0 <= i < |done|
          ensures done[i] != [] && (|done[i]| >= 2 ==> Load(done[i], weight) <= target)
        {
          if i < |st.done| {
            assert done[i] == st.done[i];
          }
        }
      } else {
        assert (st.current + [x])[..|st.current|] == st.current;
      }
    }
  }

  /**
   * The batches concatenate to the input, none is empty, and any batch of two elements or
   * more has total weight within the target (a single element may exceed it).
   */
  lemma PackSpec<T>(xs: seq<T>, weight: T -> real, target: real)
    ensures Flatten(Pack(xs, weight, target)) == xs
    ensures WellPacked(Pack(xs, weight, target), weight, target)
  {
    PackFromLoad(xs, weight, target);
    PackFromFlatten(xs, weight, target);
    PackFromWell(xs, weight, target);
    var st := PackFrom(xs, weight, target);
    if st.current != [] {
      FlattenAppend(st.done, [st.current]);
      assert Flatten([st.current]) == st.current;
      var bs := st.done + [st.current];
      forall i | 0 <= i < |bs|
        ensures bs[i] != [] && (|bs[i]| >= 2 ==> Load(bs[i], weight) <= target)
      {
        if i < |st.done| {
          assert bs[i] == st.done[i];
        }
      }
    } else {
      assert Flatten(st.done) + [] == Flatten(st.done);
    }
  }

  // ---- adaptive batches -----------------------------------------------------------------

  function PathsOf(b: seq<FileInfo>): (r: seq<string>)
    ensures |r| == |b|
    ensures forall i :: 0 <= i < |b| ==> r[i] == b[i].path
  {
    if b == [] then [] else PathsOf(b[..|b| - 1]) + [b[|b| - 1].path]
  }

  function BatchPaths(bs: seq<seq<FileInfo>>): (r: Batches)
    ensures |r| == |bs|
    ensures forall i :: 0 <= i < |bs| ==> r[i] == PathsOf(bs[i])
  {
    if bs == [] then [] else BatchPaths(bs[..|bs| - 1]) + [PathsOf(bs[|bs| - 1])]
  }

  /** The file metadata sorted by descending complexity. */
  function SortByComplexity(fileMetadata: seq<FileInfo>): seq<FileInfo> {
    SortBy(fileMetadata, Complexity)
  }

  /** `_create_adaptive_batches`. */
  function AdaptiveBatches(fileMetadata: seq<FileInfo>, targetComplexity: real): Batches {
    BatchPaths(Pack(SortByComplexity(fileMetadata), Complexity, targetComplexity))
  }

  /** `_create_adaptive_batches`, with its loop over the sorted files. */
  method CreateAdaptiveBatches(fileMetadata: seq<FileInfo>, targetComplexity: real) returns (batches: Batches)
    ensures batches == AdaptiveBatches(fileMetadata, targetComplexity)
  {
    batches := [];
    var currentBatch: seq<string> := [];
    var currentComplexity := 0.0;
    var sortedFiles := SortByComplexity(fileMetadata);
    for i := 0 to |sortedFiles|
      invariant batches == BatchPaths(PackFrom(sortedFiles[..i], Complexity, targetComplexity).done)
      invariant currentBatch == PathsOf(PackFrom(sortedFiles[..i], Complexity, targetComplexity).current)
      invariant currentComplexity == PackFrom(sortedFiles[..i], Complexity, targetComplexity).load
    {
      ghost var st := PackFrom(sortedFiles[..i], Complexity, targetComplexity);
      var fileInfo := sortedFiles[i];
      var fileComplexity := Complexity(fileInfo);
      AdaptiveStep(sortedFiles, i, targetComplexity);
      if currentComplexity + fileComplexity > targetComplexity && currentBatch != [] {
        batches := batches + [currentBatch];
        currentBatch := [];
        currentComplexity := 0.0;
      }
      currentBatch := currentBatch + [fileInfo.path];
      currentComplexity := currentComplexity + fileComplexity;
    }
    assert sortedFiles[..|sortedFiles|] == sortedFiles;
    ghost var st := PackFrom(sortedFiles, Complexity, targetComplexity);
    if currentBatch != [] {
      BatchPathsSnoc(st.done, st.current);
      batches := batches + [currentBatch];
    }
  }

  lemma BatchPathsSnoc(bs: seq<seq<FileInfo>>, b: seq<FileInfo>)
    ensures BatchPaths(bs + [b]) == BatchPaths(bs) + [PathsOf(b)]
  {
    assert (bs + [b])[..|bs|] == bs;
  }

  /** One iteration of the adaptive loop, on the paths of the packing state. */
  lemma AdaptiveStep(sorted: seq<FileInfo>, i: nat, target: real)
    requires i < |sorted|
    ensures var st := PackFrom(sorted[..i], Complexity, target);
      var st' := PackFrom(sorted[..i + 1], Complexity, target);
      var c := Complexity(sorted[i]);
      if st.load + c > target && st.current != [] then
        && BatchPaths(st'.done) == BatchPaths(st.done) + [PathsOf(st.current)]
        && PathsOf(st'.current) == [sorted[i].path] && st'.load == 0.0 + c
      else
        && BatchPaths(st'.done) == BatchPaths(st.done)
        && PathsOf(st'.current) == PathsOf(st.current) + [sorted[i].path] && st'.load == st.load + c
  {
    assert sorted[..i + 1][..i] == sorted[..i];
    var st := PackFrom(sorted[..i], Complexity, target);
    BatchPathsSnoc(st.done, st.current);
    assert PathsOf(st.current + [sorted[i]]) == PathsOf(st.current) + [sorted[i].path] by {
      assert (st.current + [sorted[i]])[..|st.current|] == st.current;
    }
    assert PathsOf([sorted[i]]) == [sorted[i].path] by {
      assert [sorted[i]][..0] == [];
    }
  }

  lemma PathsAppend(a: seq<FileInfo>, b: seq<FileInfo>)
    ensures PathsOf(a + b) == PathsOf(a) + PathsOf(b)
  {
  }

  lemma {:induction false} FlattenPaths(bs: seq<seq<FileInfo>>)
    ensures Flatten(BatchPaths(bs)) == PathsOf(Flatten(bs))
  {
    if bs != [] {
      FlattenPaths(bs[1..]);
      assert BatchPaths(bs)[1..] == BatchPaths(bs[1..]);
      PathsAppend(bs[0], Flatten(bs[1..]));
    }
  }

  /**
   * The adaptive batches concatenate to the paths of the files in stable descending order of
   * complexity, none is empty, and each batch of two files or more is within the target.
   */
  lemma AdaptiveBatchesSpec(fileMetadata: seq<FileInfo>, targetComplexity: real)
    ensures Flatten(AdaptiveBatches(fileMetadata, targetComplexity)) == PathsOf(SortByComplexity(fileMetadata))
    ensures |AdaptiveBatches(fileMetadata, targetComplexity)| == |Pack(SortByComplexity(fileMetadata), Complexity, targetComplexity)|
    ensures forall i :: 0 <= i < |AdaptiveBatches(fileMetadata, targetComplexity)| ==>
      && AdaptiveBatches(fileMetadata, targetComplexity)[i] != []
      && (|AdaptiveBatches(fileMetadata, targetComplexity)[i]| >= 2 ==>
          Load(Pack(SortByComplexity(fileMetadata), Complexity, targetComplexity)[i], Complexity) <= targetComplexity)
  {
    var bs := Pack(SortByComplexity(fileMetadata), Complexity, targetComplexity);
    PackSpec(SortByComplexity(fileMetadata), Complexity, targetComplexity);
    FlattenPaths(bs);
  }

  // =======================================================================================
  // The tool
  // =======================================================================================

  /** The `strategy_used` of the output, without its batch count. */
  datatype Strategy = NoFiles | AdaptiveComplexity | PatternBased | SimpleCount | Failed

  datatype SplitterOutput = SplitterOutput(batches: Batches, strategyUsed: Strategy)

  /** A strategy's batches, or no batches and the "Error" strategy when it raised. */
  function Outcome(r: Result<Batches, SplitError>, strategy: Strategy): SplitterOutput {
    if r.Success? then SplitterOutput(r.value, strategy) else SplitterOutput([], Failed)
  }

  /**
   * `_run` after the JSON inputs are decoded: the paths and metadata extracted from the
   * repository analysis, and the pattern analysis if one was given and well-formed.
   */
  method RunBatchSplitter(filePaths: seq<string>, fileMetadata: seq<FileInfo>, patternData: Option<PatternData>, targetBatchSize: int)
    returns (out: SplitterOutput)
    ensures filePaths == [] ==> out == SplitterOutput([], NoFiles)
    ensures filePaths != [] && fileMetadata != [] ==>
      out == SplitterOutput(AdaptiveBatches(fileMetadata, targetBatchSize as real * 1.5), AdaptiveComplexity)
    ensures filePaths != [] && fileMetadata == [] && patternData.Some? && patternData.value.NonEmpty() ==>
      out == Outcome(PatternBatches(filePaths, patternData.value, targetBatchSize), PatternBased)
    ensures filePaths != [] && fileMetadata == [] && !(patternData.Some? && patternData.value.NonEmpty()) ==>
      out == Outcome(SimpleBatches(filePaths, targetBatchSize), SimpleCount)
  {
    if filePaths == [] {
      return SplitterOutput([], NoFiles);
    }
    if fileMetadata != [] {
      var targetComplexity := targetBatchSize as real * 1.5;
      var batches := CreateAdaptiveBatches(fileMetadata, targetComplexity);
      return SplitterOutput(batches, AdaptiveComplexity);
    }
    out := BatchByPatternsOrCount(filePaths, patternData, targetBatchSize);
  }

  /** The fallbacks of `_run` without metadata: pattern batches when there is pattern data, else count batches. */
  method BatchByPatternsOrCount(filePaths: seq<string>, patternData: Option<PatternData>, targetBatchSize: int)
    returns (out: SplitterOutput)
    ensures patternData.Some? && patternData.value.NonEmpty() ==>
      out == Outcome(PatternBatches(filePaths, patternData.value, targetBatchSize), PatternBased)
    ensures !(patternData.Some? && patternData.value.NonEmpty()) ==>
      out == Outcome(SimpleBatches(filePaths, targetBatchSize), SimpleCount)
  {
    if patternData.Some? && patternData.value.NonEmpty() {
      var r := CreatePatternBatches(filePaths, patternData.value, targetBatchSize);
      return Outcome(r, PatternBased);
    }
    var r := CreateSimpleBatches(filePaths, targetBatchSize);
    return Outcome(r, SimpleCount);
  }
}
