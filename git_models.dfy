/**
 * The git-status record of one changed file and the outstanding-changes analysis that
 * carries lists of them. Every property is a single expression over immutable fields.
 */
module GitModels {

  /** The status codes that count as a tracked change. */
  const TrackedCodes: set<string> := {"M", "A", "D", "R", "C", "U"}

  /** The classification `file_type` returns ("staged", "untracked", "tracked", "unknown"). */
  datatype FileType = Staged | Untracked | Tracked | Unknown {
    function Name(): string {
      match this
      case Staged => "staged"
      case Untracked => "untracked"
      case Tracked => "tracked"
      case Unknown => "unknown"
    }
  }

  /** One file of the working tree or index; the line counts are constrained to be >= 0. */
  datatype FileStatus = FileStatus(
    path: string,
    statusCode: string,
    staged: bool,
    linesAdded: nat,
    linesDeleted: nat,
    isBinary: bool)
  {
    /** Total number of changed lines. */
    function TotalChanges(): (n: nat)
      ensures n >= linesAdded && n >= linesDeleted
      ensures n - linesAdded == linesDeleted
      ensures n == 0 <==> linesAdded == 0 && linesDeleted == 0
    {
      linesAdded + linesDeleted
    }

    function FileKind(): FileType {
      if staged then Staged
      else if statusCode == "?" then Untracked
      else if statusCode in TrackedCodes then Tracked
      else Unknown
    }

    predicate IsUntracked() {
      statusCode == "?"
    }

    predicate IsStaged() {
      staged
    }

    predicate IsTrackedChange() {
      statusCode in TrackedCodes && !staged
    }
  }

  /** The staged flag decides the classification, whatever the status code. */
  lemma StagedWins(f: FileStatus)
    requires f.staged
    ensures f.FileKind() == Staged && f.FileKind().Name() == "staged"
  {
  }

  /** For an unstaged file the status code alone decides, in three disjoint cases. */
  lemma UnstagedClassification(f: FileStatus)
    requires !f.staged
    ensures f.FileKind() == Untracked <==> f.statusCode == "?"
    ensures f.FileKind() == Tracked <==> f.statusCode in TrackedCodes
    ensures f.FileKind() == Unknown <==> f.statusCode != "?" && f.statusCode !in TrackedCodes
  {
  }

  /** `is_tracked_change` agrees with `file_type == "tracked"` on every record. */
  lemma TrackedChangeIffTrackedType(f: FileStatus)
    ensures f.IsTrackedChange() <==> f.FileKind() == Tracked
  {
  }

  /**
   * `is_untracked` looks at the status code only, so a staged "?" file is untracked while
   * its `file_type` is "staged".
   */
  lemma UntrackedIgnoresStaged(path: string)
    ensures var f := FileStatus(path, "?", true, 0, 0, false);
      f.IsUntracked() && f.FileKind() == Staged
    ensures forall f: FileStatus :: f.IsUntracked() <==> f.statusCode == "?"
  {
  }

  /** The analysis received from the repository analyzer (only the file lists matter here). */
  datatype OutstandingChanges = OutstandingChanges(
    totalOutstandingFiles: nat,
    summary: string,
    workingDirectoryFiles: seq<FileStatus>,
    stagedFiles: seq<FileStatus>)
  {
    /** Working-directory files followed by staged files, order kept. */
    function AllChangedFiles(): (r: seq<FileStatus>)
      ensures |r| == |workingDirectoryFiles| + |stagedFiles|
      ensures forall i :: 0 <= i < |workingDirectoryFiles| ==> r[i] == workingDirectoryFiles[i]
      ensures forall j :: 0 <= j < |stagedFiles| ==> r[|workingDirectoryFiles| + j] == stagedFiles[j]
      ensures multiset(r) == multiset(workingDirectoryFiles) + multiset(stagedFiles)
    {
      workingDirectoryFiles + stagedFiles
    }
  }
}
