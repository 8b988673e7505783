/**
  The repository inspector (`git_utils`): finding a usable repository, the
  staged diff, the log of commits unique to the current branch, and the
  classification its script block prints. The version-control library is an
  input: `Discovery` is what looking for a repository from the working
  directory finds, and a `Repository` carries the answers the library would
  give to the questions this code asks.
 */
module GitUtils {
  import opened Wrappers
  import opened Text

  /** A commit as the library hands it over; a field that is None raises when read. */
  datatype RawCommit = RawCommit(
    hexsha: string,
    message: Option<string>,
    authorName: Option<string>,
    committedDate: Option<string>)

  /** The record built for each commit; `date` is the ISO-8601 text of the commit time. */
  datatype CommitRecord = CommitRecord(hash: string, message: string, author: string, date: string)

  /** A repository found from the working directory. */
  datatype Repository = Repository(
    bare: bool,
    // the output of `git diff --staged`
    stagedDiff: string,
    // the name of the checked-out branch; None when HEAD is detached and reading it raises
    activeBranch: Option<string>,
    // the commits listed for each revision range the library can resolve, in its traversal order
    revisions: map<string, seq<RawCommit>>)

  /** The outcome of the repository search: none found (the library raises) or one found. */
  datatype Discovery = NotARepository | Found(repo: Repository)

  /** The branch the log is taken against when the caller names none. */
  const DefaultBaseBranch := "main"
  /** How many leading hex digits of a commit id a record keeps. */
  const ShortHashLength := 7

  /** `_get_repo()`: the repository, unless none was found or the one found is bare. */
  function GetRepo(discovery: Discovery): (r: Option<Repository>)
    ensures r.Some? <==> discovery.Found? && !discovery.repo.bare
    ensures r.Some? ==> r.value == discovery.repo
  {
    match discovery
    case NotARepository => None
    case Found(repo) => if repo.bare then None else Some(repo)
  }

  /** `is_git_repo()`: true exactly inside a non-bare repository. */
  function IsGitRepo(discovery: Discovery): (b: bool)
    ensures b <==> discovery.Found? && !discovery.repo.bare
  {
    GetRepo(discovery).Some?
  }

  /**
    `get_staged_changes()`: None outside a usable repository; otherwise the
    staged diff, which is the empty text, not None, when nothing is staged.
   */
  function GetStagedChanges(discovery: Discovery): (r: Option<string>)
    ensures r.None? <==> !IsGitRepo(discovery)
    ensures r.Some? ==> r.value == discovery.repo.stagedDiff
    ensures IsGitRepo(discovery) && discovery.repo.stagedDiff == "" ==> r == Some("")
  {
    match GetRepo(discovery)
    case None => None
    case Some(repo) => Some(repo.stagedDiff)
  }

  /** The revision range `base..feature`: commits reachable from `feature` but not from `base`. */
  function RevisionRange(base: string, feature: string): (range: string)
    ensures |range| == |base| + 2 + |feature|
    ensures range[..|base|] == base && range[|base|..|base| + 2] == ".." && range[|base| + 2..] == feature
  {
    base + ".." + feature
  }

  /** Reading the active branch and listing `base..branch`; None when either raises. */
  function CommitsUniqueToBranch(repo: Repository, base: string): (r: Option<seq<RawCommit>>)
    ensures r.Some? <==> repo.activeBranch.Some? && RevisionRange(base, repo.activeBranch.value) in repo.revisions
    ensures r.Some? ==> r.value == repo.revisions[RevisionRange(base, repo.activeBranch.value)]
  {
    match repo.activeBranch
    case None => None
    case Some(branch) =>
      var range := RevisionRange(base, branch);
      if range in repo.revisions then Some(repo.revisions[range]) else None
  }

  /** The record for one commit: None when reading one of its fields raises. */
  function ToRecord(c: RawCommit): (r: Option<CommitRecord>)
    ensures r.Some? <==> c.message.Some? && c.authorName.Some? && c.committedDate.Some?
    ensures r.Some? ==> r.value.hash <= c.hexsha
    ensures r.Some? ==> |r.value.hash| == if |c.hexsha| < ShortHashLength then |c.hexsha| else ShortHashLength
    ensures r.Some? ==> r.value.message == Strip(c.message.value)
    ensures r.Some? ==> r.value.author == c.authorName.value && r.value.date == c.committedDate.value
  {
    match (c.message, c.authorName, c.committedDate)
    case (Some(message), Some(author), Some(date)) =>
      Some(CommitRecord(Prefix(c.hexsha, ShortHashLength), Strip(message), author, date))
    case _ => None
  }

  /** Records for all commits, in order; None as soon as one of them cannot be built. */
  function ProjectAll(raw: seq<RawCommit>): (r: Option<seq<CommitRecord>>)
    ensures r.Some? <==> forall i :: 0 <= i < |raw| ==> ToRecord(raw[i]).Some?
    ensures r.Some? ==> |r.value| == |raw| && forall i :: 0 <= i < |raw| ==> ToRecord(raw[i]) == Some(r.value[i])
  {
    if raw == [] then Some([])
    else
      match (ToRecord(raw[0]), ProjectAll(raw[1..]))
      case (Some(first), Some(rest)) => Some([first] + rest)
      case _ => None
  }

  /** What `get_commit_log(base)` returns. */
  function CommitLog(discovery: Discovery, base: string): Option<seq<CommitRecord>>
  {
    match GetRepo(discovery)
    case None => None
    case Some(repo) =>
      match CommitsUniqueToBranch(repo, base)
      case None => None
      case Some(raw) => ProjectAll(raw)
  }

  /**
    `get_commit_log(base)`: outside a usable repository, or when any step of
    the traversal raises, None; otherwise one record per listed commit.
   */
  method GetCommitLog(discovery: Discovery, base: string) returns (log: Option<seq<CommitRecord>>)
    ensures log == CommitLog(discovery, base)
  {
    var repo := GetRepo(discovery);
    if repo.None? {
      return None;
    }
    var unique := CommitsUniqueToBranch(repo.value, base);
    if unique.None? {
      return None;
    }
    var raw := unique.value;
    var commitList: seq<CommitRecord> := [];
    for i := 0 to |raw|
      invariant |commitList| == i
      invariant forall k :: 0 <= k < i ==> ToRecord(raw[k]) == Some(commitList[k])
    {
      var record := ToRecord(raw[i]);
      if record.None? {
        assert !ProjectAll(raw).Some?;
        return None;
      }
      ghost var done := commitList;
      commitList := commitList + [record.value];
      forall k | 0 <= k <= i ensures ToRecord(raw[k]) == Some(commitList[k]) {
        if k < i {
          assert commitList[k] == done[k];
        }
      }
    }
    ghost var expected := ProjectAll(raw).value;
    assert forall k :: 0 <= k < |raw| ==> Some(expected[k]) == Some(commitList[k]);
    assert expected == commitList;
    return Some(commitList);
  }

  /** The log is absent exactly when there is no usable repository, the traversal raises, or a commit cannot be read. */
  lemma CommitLogAbsent(discovery: Discovery, base: string)
    ensures CommitLog(discovery, base).None? <==>
      || !IsGitRepo(discovery)
      || CommitsUniqueToBranch(discovery.repo, base).None?
      || exists i :: 0 <= i < |CommitsUniqueToBranch(discovery.repo, base).value|
                     && ToRecord(CommitsUniqueToBranch(discovery.repo, base).value[i]).None?
  {
  }

  /** A present log has one record per listed commit, in traversal order, each built from that commit. */
  lemma CommitLogRecords(discovery: Discovery, base: string)
    requires CommitLog(discovery, base).Some?
    ensures IsGitRepo(discovery) && CommitsUniqueToBranch(discovery.repo, base).Some?
    ensures var raw := CommitsUniqueToBranch(discovery.repo, base).value;
            var log := CommitLog(discovery, base).value;
            && |log| == |raw|
            && forall i :: 0 <= i < |raw| ==>
                 && ToRecord(raw[i]) == Some(log[i])
                 && log[i].hash <= raw[i].hexsha
                 && |log[i].hash| == (if |raw[i].hexsha| < ShortHashLength then |raw[i].hexsha| else ShortHashLength)
                 && log[i].message == Strip(raw[i].message.value)
                 && log[i].author == raw[i].authorName.value
                 && log[i].date == raw[i].committedDate.value
  {
    var raw := CommitsUniqueToBranch(discovery.repo, base).value;
    var log := CommitLog(discovery, base).value;
    forall i | 0 <= i < |raw|
      ensures ToRecord(raw[i]) == Some(log[i])
      ensures log[i].hash <= raw[i].hexsha
      ensures |log[i].hash| == (if |raw[i].hexsha| < ShortHashLength then |raw[i].hexsha| else ShortHashLength)
      ensures log[i].message == Strip(raw[i].message.value)
      ensures log[i].author == raw[i].authorName.value && log[i].date == raw[i].committedDate.value
    {
      assert ToRecord(raw[i]) == Some(log[i]);
    }
  }

  /** Each record's message is already stripped: stripping it again changes nothing. */
  lemma RecordMessageStripped(c: RawCommit)
    requires ToRecord(c).Some?
    ensures Strip(ToRecord(c).value.message) == ToRecord(c).value.message
  {
    StripIdempotent(c.message.value);
  }

  /** How many records the script block lists, and how much of each message it shows. */
  const ShownRecords := 3
  const ShownMessageLength := 50

  /** What the script block reports about a log. */
  datatype LogReport = LogError | NoCommits | Listed(count: nat, shown: seq<string>)

  /** The line listing one record: its hash and the first 50 characters of its message. */
  function ShownLine(c: CommitRecord): (line: string)
    ensures |line| <= 8 + |c.hash| + ShownMessageLength
    ensures 8 + |c.hash| <= |line| && line[..6] == "    - " && line[6..6 + |c.hash|] == c.hash
    ensures line[6 + |c.hash|..8 + |c.hash|] == ": "
    ensures line[8 + |c.hash|..] == Prefix(c.message, ShownMessageLength)
  {
    "    - " + c.hash + ": " + Prefix(c.message, ShownMessageLength)
  }

  /**
    The classification in the script block: an absent log is an error, an
    empty one means no commits, and otherwise the count is the number of
    records and at most the first three are listed.
   */
  function ClassifyLog(log: Option<seq<CommitRecord>>): (r: LogReport)
    ensures r.LogError? <==> log.None?
    ensures r.NoCommits? <==> log == Some([])
    ensures r.Listed? ==> r.count == |log.value| > 0
    ensures r.Listed? ==> |r.shown| == if r.count < ShownRecords then r.count else ShownRecords
    ensures r.Listed? ==> forall i :: 0 <= i < |r.shown| ==> r.shown[i] == ShownLine(log.value[i])
  {
    match log
    case None => LogError
    case Some(commits) =>
      if commits == [] then NoCommits
      else
        var n := if |commits| < ShownRecords then |commits| else ShownRecords;
        Listed(|commits|, seq(n, i requires 0 <= i < n => ShownLine(commits[i])))
  }
}
