/**
 * The contribution analytics of `GitHubAnalytics`: keeping the commits inside an
 * optional inclusive date range, folding them into per-contributor totals, the
 * repository summary, the per-commit patch text, and the recording of one user's
 * totals per repository. What the GitHub API returns is given as input values.
 */
module GitHubAnalytics {
  import opened Base
  import opened Text

  /** A commit as listed for an author; `date` is its author date on one timeline. */
  datatype Commit = Commit(sha: string, message: string, date: int, additions: nat, deletions: nat)

  /** A contributor of the repository with the commits listed for its login, newest API order kept. */
  datatype Contributor = Contributor(login: string, name: Option<string>, email: Option<string>, commits: seq<Commit>)

  /** The report built for one contributor; `commits` holds entries with the commit's own fields. */
  datatype ContributorData = ContributorData(
    login: string, name: Option<string>, email: Option<string>,
    commits: seq<Commit>, totalCommits: nat, linesAdded: nat, linesDeleted: nat)

  /** The repository-wide totals of `analyze_contributions`. */
  datatype Summary = Summary(totalContributors: nat, totalCommits: nat, totalLinesAdded: nat, totalLinesDeleted: nat)

  // ---------------------------------------------------------------------------
  // Date filter
  // ---------------------------------------------------------------------------

  /** A commit survives both `continue` guards: not before a given start, not after a given end. */
  predicate InRange(date: int, start: Option<int>, end: Option<int>) {
    !(start.Some? && date < start.value) && !(end.Some? && date > end.value)
  }

  /** Both bounds are inclusive and a missing bound does not filter. */
  lemma InRangeInclusive(date: int, start: Option<int>, end: Option<int>)
    ensures InRange(date, start, end)
        <==> (start.None? || start.value <= date) && (end.None? || date <= end.value)
  {
  }

  /** The commits kept by the date filter, in input order. */
  function KeptCommits(commits: seq<Commit>, start: Option<int>, end: Option<int>): (kept: seq<Commit>)
    ensures |kept| <= |commits|
  {
    if commits == [] then []
    else
      var init := KeptCommits(commits[..|commits| - 1], start, end);
      var last := commits[|commits| - 1];
      if InRange(last.date, start, end) then init + [last] else init
  }

  /** A commit is kept iff it is one of the input commits and lies inside the range. */
  lemma {:induction false} KeptCommitsMembership(commits: seq<Commit>, start: Option<int>, end: Option<int>, c: Commit)
    ensures c in KeptCommits(commits, start, end) <==> c in commits && InRange(c.date, start, end)
  {
    if commits != [] {
      var n := |commits|;
      KeptCommitsMembership(commits[..n - 1], start, end, c);
      assert commits == commits[..n - 1] + [commits[n - 1]];
    }
  }

  /** The filter distributes over concatenation: kept commits stay in input order. */
  lemma {:induction false} KeptCommitsAppend(a: seq<Commit>, b: seq<Commit>, start: Option<int>, end: Option<int>)
    ensures KeptCommits(a + b, start, end) == KeptCommits(a, start, end) + KeptCommits(b, start, end)
  {
    if b == [] {
      assert a + b == a;
    } else {
      var n := |b|;
      assert (a + b)[..|a + b| - 1] == a + b[..n - 1];
      KeptCommitsAppend(a, b[..n - 1], start, end);
    }
  }

  // ---------------------------------------------------------------------------
  // Sums
  // ---------------------------------------------------------------------------

  /** Lines added over the given commits. */
  function SumAdditions(commits: seq<Commit>): nat {
    if commits == [] then 0 else SumAdditions(commits[..|commits| - 1]) + commits[|commits| - 1].additions
  }

  /** Lines deleted over the given commits. */
  function SumDeletions(commits: seq<Commit>): nat {
    if commits == [] then 0 else SumDeletions(commits[..|commits| - 1]) + commits[|commits| - 1].deletions
  }

  /** Lines added are additive over concatenation. */
  lemma {:induction false} AdditionsAppend(a: seq<Commit>, b: seq<Commit>)
    ensures SumAdditions(a + b) == SumAdditions(a) + SumAdditions(b)
  {
    if b == [] {
      assert a + b == a;
    } else {
      var ab := a + b;
      assert ab[..|ab| - 1] == a + b[..|b| - 1];
      AdditionsAppend(a, b[..|b| - 1]);
    }
  }

  /** Lines deleted are additive over concatenation. */
  lemma {:induction false} DeletionsAppend(a: seq<Commit>, b: seq<Commit>)
    ensures SumDeletions(a + b) == SumDeletions(a) + SumDeletions(b)
  {
    if b == [] {
      assert a + b == a;
    } else {
      var ab := a + b;
      assert ab[..|ab| - 1] == a + b[..|b| - 1];
      DeletionsAppend(a, b[..|b| - 1]);
    }
  }

  // ---------------------------------------------------------------------------
  // Per-contributor aggregation
  // ---------------------------------------------------------------------------

  /** The report of one contributor over the range. */
  function Aggregate(c: Contributor, start: Option<int>, end: Option<int>): ContributorData {
    var kept := KeptCommits(c.commits, start, end);
    ContributorData(c.login, c.name, c.email, kept, |kept|, SumAdditions(kept), SumDeletions(kept))
  }

  /** The contributor has at least one commit inside the range. */
  predicate HasKeptCommit(c: Contributor, start: Option<int>, end: Option<int>) {
    KeptCommits(c.commits, start, end) != []
  }

  /** The value `get_repository_contributors` returns: the reports with at least one kept commit. */
  function ContributorsInRange(repo: seq<Contributor>, start: Option<int>, end: Option<int>): (result: seq<ContributorData>)
    ensures |result| <= |repo|
  {
    if repo == [] then []
    else
      var init := ContributorsInRange(repo[..|repo| - 1], start, end);
      var last := repo[|repo| - 1];
      if HasKeptCommit(last, start, end) then init + [Aggregate(last, start, end)] else init
  }

  /**
   * Every report has a kept commit, and its count and line totals are those of
   * exactly the commits listed in it.
   */
  lemma {:induction false} ReportsAreConsistent(repo: seq<Contributor>, start: Option<int>, end: Option<int>)
    ensures forall d :: d in ContributorsInRange(repo, start, end) ==>
      && d.totalCommits > 0
      && d.totalCommits == |d.commits|
      && d.linesAdded == SumAdditions(d.commits)
      && d.linesDeleted == SumDeletions(d.commits)
  {
    if repo != [] {
      ReportsAreConsistent(repo[..|repo| - 1], start, end);
    }
  }

  /** A report is returned iff it is the report of an input contributor that has a kept commit. */
  lemma {:induction false} ContributorsInRangeMembership(repo: seq<Contributor>, start: Option<int>, end: Option<int>, d: ContributorData)
    ensures d in ContributorsInRange(repo, start, end)
        <==> exists c :: c in repo && d == Aggregate(c, start, end) && d.totalCommits > 0
  {
    if repo != [] {
      var n := |repo|;
      ContributorsInRangeMembership(repo[..n - 1], start, end, d);
      assert repo == repo[..n - 1] + [repo[n - 1]];
    }
  }

  /** Reports are kept in input order: the result distributes over concatenation of the contributor list. */
  lemma {:induction false} ContributorsInRangeAppend(a: seq<Contributor>, b: seq<Contributor>, start: Option<int>, end: Option<int>)
    ensures ContributorsInRange(a + b, start, end) == ContributorsInRange(a, start, end) + ContributorsInRange(b, start, end)
  {
    if b == [] {
      assert a + b == a;
    } else {
      var init, last := b[..|b| - 1], b[|b| - 1];
      var ab := a + b;
      assert ab[..|ab| - 1] == a + init && ab[|ab| - 1] == last;
      ContributorsInRangeAppend(a, init, start, end);
      if HasKeptCommit(last, start, end) {
        var front, middle := ContributorsInRange(a, start, end), ContributorsInRange(init, start, end);
        assert (front + middle) + [Aggregate(last, start, end)] == front + (middle + [Aggregate(last, start, end)]);
      }
    }
  }

  /** One more commit of the list is either kept at the end of the filtered prefix or dropped. */
  lemma KeptCommitsStep(commits: seq<Commit>, j: nat, start: Option<int>, end: Option<int>)
    requires j < |commits|
    ensures KeptCommits(commits[..j + 1], start, end)
         == if InRange(commits[j].date, start, end) then KeptCommits(commits[..j], start, end) + [commits[j]]
            else KeptCommits(commits[..j], start, end)
  {
    assert commits[..j + 1][..j] == commits[..j];
  }

  /** Appending a commit adds its lines to both sums. */
  lemma SumsStep(commits: seq<Commit>, c: Commit)
    ensures SumAdditions(commits + [c]) == SumAdditions(commits) + c.additions
    ensures SumDeletions(commits + [c]) == SumDeletions(commits) + c.deletions
  {
    assert (commits + [c])[..|commits|] == commits;
  }

  /** The inner loop of `get_repository_contributors`: one contributor's report, built commit by commit. */
  method BuildContributorData(contributor: Contributor, start: Option<int>, end: Option<int>)
    returns (data: ContributorData)
    ensures data == Aggregate(contributor, start, end)
  {
    var commits: seq<Commit> := [];
    var totalCommits, linesAdded, linesDeleted := 0, 0, 0;
    for j := 0 to |contributor.commits|
      invariant commits == KeptCommits(contributor.commits[..j], start, end)
      invariant totalCommits == |commits|
      invariant linesAdded == SumAdditions(commits)
      invariant linesDeleted == SumDeletions(commits)
    {
      var commit := contributor.commits[j];
      KeptCommitsStep(contributor.commits, j, start, end);
      if start.Some? && commit.date < start.value {
        continue;
      }
      if end.Some? && commit.date > end.value {
        continue;
      }
      SumsStep(commits, commit);
      commits := commits + [commit];
      totalCommits := totalCommits + 1;
      linesAdded := linesAdded + commit.additions;
      linesDeleted := linesDeleted + commit.deletions;
    }
    assert contributor.commits[..|contributor.commits|] == contributor.commits;
    data := ContributorData(contributor.login, contributor.name, contributor.email,
                            commits, totalCommits, linesAdded, linesDeleted);
  }

  /** `get_repository_contributors`: the outer loop, keeping the reports with a commit in range. */
  method GetRepositoryContributors(repo: seq<Contributor>, start: Option<int>, end: Option<int>)
    returns (contributors: seq<ContributorData>)
    ensures contributors == ContributorsInRange(repo, start, end)
  {
    contributors := [];
    for i := 0 to |repo|
      invariant contributors == ContributorsInRange(repo[..i], start, end)
    {
      var contributorData := BuildContributorData(repo[i], start, end);
      assert repo[..i + 1][..i] == repo[..i];
      if contributorData.totalCommits > 0 {
        contributors := contributors + [contributorData];
      }
    }
    assert repo[..|repo|] == repo;
  }

  // ---------------------------------------------------------------------------
  // Repository summary
  // ---------------------------------------------------------------------------

  /** `sum(c["total_commits"] for c in contributors)`. */
  function SumTotalCommits(cs: seq<ContributorData>): nat {
    if cs == [] then 0 else SumTotalCommits(cs[..|cs| - 1]) + cs[|cs| - 1].totalCommits
  }

  /** `sum(c["lines_added"] for c in contributors)`. */
  function SumLinesAdded(cs: seq<ContributorData>): nat {
    if cs == [] then 0 else SumLinesAdded(cs[..|cs| - 1]) + cs[|cs| - 1].linesAdded
  }

  /** `sum(c["lines_deleted"] for c in contributors)`. */
  function SumLinesDeleted(cs: seq<ContributorData>): nat {
    if cs == [] then 0 else SumLinesDeleted(cs[..|cs| - 1]) + cs[|cs| - 1].linesDeleted
  }

  /** The `summary` entry of `analyze_contributions` over the reports of the range. */
  function ContributionSummary(repo: seq<Contributor>, start: Option<int>, end: Option<int>): Summary {
    var cs := ContributorsInRange(repo, start, end);
    Summary(|cs|, SumTotalCommits(cs), SumLinesAdded(cs), SumLinesDeleted(cs))
  }

  /** All kept commits of the repository, contributor after contributor. */
  function KeptAcross(repo: seq<Contributor>, start: Option<int>, end: Option<int>): seq<Commit> {
    if repo == [] then []
    else KeptAcross(repo[..|repo| - 1], start, end) + KeptCommits(repo[|repo| - 1].commits, start, end)
  }

  /** Contributors of the repository with at least one kept commit. */
  function ActiveCount(repo: seq<Contributor>, start: Option<int>, end: Option<int>): nat {
    if repo == [] then 0
    else ActiveCount(repo[..|repo| - 1], start, end) + (if KeptCommits(repo[|repo| - 1].commits, start, end) != [] then 1 else 0)
  }

  /**
   * The summary counts every kept commit of the repository once: its totals are
   * the number and the line sums of all commits inside the range, and it counts
   * the contributors that have one.
   */
  lemma SummaryCountsKeptCommits(repo: seq<Contributor>, start: Option<int>, end: Option<int>)
    ensures ContributionSummary(repo, start, end)
      == Summary(ActiveCount(repo, start, end),
                 |KeptAcross(repo, start, end)|,
                 SumAdditions(KeptAcross(repo, start, end)),
                 SumDeletions(KeptAcross(repo, start, end)))
  {
    ReportCountIsActiveCount(repo, start, end);
    CommitTotalIsKeptCount(repo, start, end);
    LinesAddedTotalIsKeptSum(repo, start, end);
    LinesDeletedTotalIsKeptSum(repo, start, end);
  }

  /** `total_contributors` counts the contributors with a commit in range. */
  lemma {:induction false} ReportCountIsActiveCount(repo: seq<Contributor>, start: Option<int>, end: Option<int>)
    ensures |ContributorsInRange(repo, start, end)| == ActiveCount(repo, start, end)
  {
    if repo != [] {
      ReportCountIsActiveCount(repo[..|repo| - 1], start, end);
    }
  }

  /** `total_commits` is the number of kept commits of the repository. */
  lemma {:induction false} CommitTotalIsKeptCount(repo: seq<Contributor>, start: Option<int>, end: Option<int>)
    ensures SumTotalCommits(ContributorsInRange(repo, start, end)) == |KeptAcross(repo, start, end)|
  {
    if repo != [] {
      var init, last := repo[..|repo| - 1], repo[|repo| - 1];
      CommitTotalIsKeptCount(init, start, end);
      var cs := ContributorsInRange(init, start, end);
      if HasKeptCommit(last, start, end) {
        var d := Aggregate(last, start, end);
        assert (cs + [d])[..|cs|] == cs;
      }
    }
  }

  /** `total_lines_added` is the sum of additions over the kept commits of the repository. */
  lemma {:induction false} LinesAddedTotalIsKeptSum(repo: seq<Contributor>, start: Option<int>, end: Option<int>)
    ensures SumLinesAdded(ContributorsInRange(repo, start, end)) == SumAdditions(KeptAcross(repo, start, end))
  {
    if repo != [] {
      var init, last := repo[..|repo| - 1], repo[|repo| - 1];
      LinesAddedTotalIsKeptSum(init, start, end);
      var before, kept := KeptAcross(init, start, end), KeptCommits(last.commits, start, end);
      AdditionsAppend(before, kept);
      var cs := ContributorsInRange(init, start, end);
      if HasKeptCommit(last, start, end) {
        var d := Aggregate(last, start, end);
        assert ContributorsInRange(repo, start, end) == cs + [d];
        assert (cs + [d])[..|cs|] == cs;
        assert SumLinesAdded(cs + [d]) == SumLinesAdded(cs) + SumAdditions(kept);
      } else {
        assert ContributorsInRange(repo, start, end) == cs;
        assert before + kept == before;
      }
    }
  }

  /** `total_lines_deleted` is the sum of deletions over the kept commits of the repository. */
  lemma {:induction false} LinesDeletedTotalIsKeptSum(repo: seq<Contributor>, start: Option<int>, end: Option<int>)
    ensures SumLinesDeleted(ContributorsInRange(repo, start, end)) == SumDeletions(KeptAcross(repo, start, end))
  {
    if repo != [] {
      var init, last := repo[..|repo| - 1], repo[|repo| - 1];
      LinesDeletedTotalIsKeptSum(init, start, end);
      var before, kept := KeptAcross(init, start, end), KeptCommits(last.commits, start, end);
      DeletionsAppend(before, kept);
      var cs := ContributorsInRange(init, start, end);
      if HasKeptCommit(last, start, end) {
        var d := Aggregate(last, start, end);
        assert ContributorsInRange(repo, start, end) == cs + [d];
        assert (cs + [d])[..|cs|] == cs;
        assert SumLinesDeleted(cs + [d]) == SumLinesDeleted(cs) + SumDeletions(kept);
      } else {
        assert ContributorsInRange(repo, start, end) == cs;
        assert before + kept == before;
      }
    }
  }

  // ---------------------------------------------------------------------------
  // Patch text of a commit
  // ---------------------------------------------------------------------------

  /** One entry of the `files` list of a commit-detail response; `patch` is absent for binary files. */
  datatype FileChange = FileChange(filename: string, status: string, patch: Option<string>)

  /** A commit-detail response: HTTP status, the error `message` and the `files` list when present. */
  datatype CommitDetail = CommitDetail(statusCode: int, message: Option<string>, files: Option<seq<FileChange>>)

  /** A commit listed for the user together with the detail response fetched for it. */
  datatype FetchedCommit = FetchedCommit(commit: Commit, detail: CommitDetail)

  /** An entry of the list `get_user_code_patches` returns. */
  datatype CodePatch = CodePatch(sha: string, message: string, date: int, patch: string)

  /** The text appended for one changed file. */
  function FileSection(f: FileChange): string {
    "File: " + f.filename + "\n" + "Status: " + f.status + "\n"
    + "Patch:\n" + f.patch.GetOr("No patch available") + "\n\n"
  }

  /** The patch text before stripping: the file sections in order. */
  function RawPatch(files: seq<FileChange>): string {
    if files == [] then "" else RawPatch(files[..|files| - 1]) + FileSection(files[|files| - 1])
  }

  /** The patch text stored for a commit. */
  function PatchText(files: seq<FileChange>): string {
    Strip(RawPatch(files))
  }

  /** The first file's section opens the raw patch text. */
  lemma {:induction false} RawPatchStartsWithFirstFile(files: seq<FileChange>)
    requires files != []
    ensures FileSection(files[0]) <= RawPatch(files)
  {
    var n := |files|;
    if n > 1 {
      RawPatchStartsWithFirstFile(files[..n - 1]);
    }
  }

  /** An empty file list yields the empty patch text. */
  lemma PatchTextOfNoFiles()
    ensures PatchText([]) == ""
  {
  }

  /** Stripping never touches the front: the patch text starts with the first file's header. */
  lemma PatchTextKeepsFront(files: seq<FileChange>)
    requires files != []
    ensures "File: " + files[0].filename <= PatchText(files)
  {
    RawPatchStartsWithFirstFile(files);
    var raw := RawPatch(files);
    var section := FileSection(files[0]);
    var head := "File: " + files[0].filename;
    FileSectionStart(files[0]);
    assert raw[..|section|] == section;
    assert raw[..|head|] == section[..|head|];
    assert raw[|head| + 1] == section[|head| + 1];
    StripKeepsVisiblePrefix(raw, head, |head| + 1);
  }

  /** A file's section opens with its header line, followed by the status line. */
  lemma FileSectionStart(f: FileChange)
    ensures var head := "File: " + f.filename;
            |head| + 1 < |FileSection(f)| && FileSection(f)[..|head|] == head
            && FileSection(f)[|head| + 1] == 'S'
  {
    var head := "File: " + f.filename;
    var rest := "\n" + "Status: " + f.status + "\n" + "Patch:\n" + f.patch.GetOr("No patch available") + "\n\n";
    assert FileSection(f) == head + rest;
  }

  /** What stripping drops from a non-empty file list's raw text is trailing whitespace only. */
  lemma PatchTextTrimsOnlyTrailingSpace(files: seq<FileChange>)
    requires files != []
    ensures PatchText(files) <= RawPatch(files)
    ensures forall i :: |PatchText(files)| <= i < |RawPatch(files)| ==> IsSpace(RawPatch(files)[i])
  {
    RawPatchStartsWithFirstFile(files);
    var raw := RawPatch(files);
    assert raw[0] == 'F';
    StripKeepsVisibleFront(raw);
    StripEndRemovesTrailingSpace(raw);
  }

  /** When the last file's patch ends in a visible character, stripping drops exactly the final blank line. */
  lemma PatchTextDropsFinalBlankLine(files: seq<FileChange>)
    requires files != []
    requires var p := files[|files| - 1].patch; p.None? || (p.value != [] && !IsSpace(p.value[|p.value| - 1]))
    ensures PatchText(files) + "\n\n" == RawPatch(files)
  {
    var n := |files|;
    var last := files[n - 1];
    var p := last.patch.GetOr("No patch available");
    var x := RawPatch(files[..n - 1]) + ("File: " + last.filename + "\n" + "Status: " + last.status + "\n" + "Patch:\n" + p);
    assert RawPatch(files) == x + "\n\n";
    assert x[|x| - 1] == p[|p| - 1];
    RawPatchStartsWithFirstFile(files);
    assert x[0] == RawPatch(files)[0] == 'F';
    StripDropsTrailingNewlines(x);
  }

  /** The patch-building loop of `get_user_code_patches`. */
  method BuildPatch(files: seq<FileChange>) returns (patch: string)
    ensures patch == PatchText(files)
  {
    patch := "";
    for i := 0 to |files|
      invariant patch == RawPatch(files[..i])
    {
      var file := files[i];
      assert files[..i + 1][..i] == files[..i];
      var section := "File: " + file.filename + "\n" + "Status: " + file.status + "\n"
                     + "Patch:\n" + file.patch.GetOr("No patch available") + "\n\n";
      patch := patch + section;
    }
    assert files[..|files|] == files;
    patch := Strip(patch);
  }

  // ---------------------------------------------------------------------------
  // Code patches of one user
  // ---------------------------------------------------------------------------

  /** The exception text for a failed commit-detail request. */
  function DetailError(d: CommitDetail): string {
    "Failed to fetch commit details: " + d.message.GetOr("Unknown error")
  }

  /** The patch entry built for a fetched commit. */
  function ToCodePatch(f: FetchedCommit): CodePatch {
    CodePatch(f.commit.sha, f.commit.message, f.commit.date, PatchText(f.detail.files.GetOr([])))
  }

  /** The fetched commits that pass the date filter, in order. */
  function KeptFetched(fetched: seq<FetchedCommit>, start: Option<int>, end: Option<int>): (kept: seq<FetchedCommit>)
    ensures |kept| <= |fetched|
    ensures forall k :: 0 <= k < |kept| ==> InRange(kept[k].commit.date, start, end)
  {
    if fetched == [] then []
    else
      var init := KeptFetched(fetched[..|fetched| - 1], start, end);
      var last := fetched[|fetched| - 1];
      if InRange(last.commit.date, start, end) then init + [last] else init
  }

  /** The commits of a list of fetched commits. */
  function CommitsOf(fetched: seq<FetchedCommit>): (commits: seq<Commit>)
    ensures |commits| == |fetched|
    ensures forall k :: 0 <= k < |fetched| ==> commits[k] == fetched[k].commit
  {
    if fetched == [] then [] else CommitsOf(fetched[..|fetched| - 1]) + [fetched[|fetched| - 1].commit]
  }

  /** Filtering fetched commits selects exactly the commits the contributor filter keeps. */
  lemma {:induction false} KeptFetchedMatchesKeptCommits(fetched: seq<FetchedCommit>, start: Option<int>, end: Option<int>)
    ensures CommitsOf(KeptFetched(fetched, start, end)) == KeptCommits(CommitsOf(fetched), start, end)
  {
    if fetched != [] {
      var n := |fetched|;
      KeptFetchedMatchesKeptCommits(fetched[..n - 1], start, end);
      assert CommitsOf(fetched)[..n - 1] == CommitsOf(fetched[..n - 1]);
      var init := KeptFetched(fetched[..n - 1], start, end);
      assert CommitsOf(init + [fetched[n - 1]]) == CommitsOf(init) + [fetched[n - 1].commit];
    }
  }

  /** The value or exception of `get_user_code_patches`; the first failing detail request raises. */
  function CodePatches(fetched: seq<FetchedCommit>, start: Option<int>, end: Option<int>): Result<seq<CodePatch>, string> {
    if fetched == [] then Ok([])
    else
      var last := fetched[|fetched| - 1];
      match CodePatches(fetched[..|fetched| - 1], start, end)
      case Err(e) => Err(e)
      case Ok(patches) =>
        if !InRange(last.commit.date, start, end) then Ok(patches)
        else if last.detail.statusCode != 200 then Err(DetailError(last.detail))
        else Ok(patches + [ToCodePatch(last)])
  }

  /** The call raises iff some commit inside the range has a detail response other than 200. */
  lemma {:induction false} CodePatchesFailIff(fetched: seq<FetchedCommit>, start: Option<int>, end: Option<int>)
    ensures CodePatches(fetched, start, end).Err?
        <==> exists k :: 0 <= k < |fetched| && InRange(fetched[k].commit.date, start, end) && fetched[k].detail.statusCode != 200
  {
    if fetched != [] {
      var n := |fetched|;
      CodePatchesFailIff(fetched[..n - 1], start, end);
      if exists k :: 0 <= k < n - 1 && InRange(fetched[k].commit.date, start, end) && fetched[k].detail.statusCode != 200 {
        var k :| 0 <= k < n - 1 && InRange(fetched[k].commit.date, start, end) && fetched[k].detail.statusCode != 200;
        assert fetched[..n - 1][k] == fetched[k];
      }
    }
  }

  /** On success there is one patch per kept commit, in order, built from that commit's own detail. */
  lemma {:induction false} CodePatchesMatchKept(fetched: seq<FetchedCommit>, start: Option<int>, end: Option<int>)
    requires CodePatches(fetched, start, end).Ok?
    ensures var patches := CodePatches(fetched, start, end).value;
            var kept := KeptFetched(fetched, start, end);
            |patches| == |kept| && forall k :: 0 <= k < |kept| ==> patches[k] == ToCodePatch(kept[k])
  {
    if fetched != [] {
      CodePatchesMatchKept(fetched[..|fetched| - 1], start, end);
    }
  }

  /** `get_user_code_patches` over the commits listed for the user. */
  method GetUserCodePatches(fetched: seq<FetchedCommit>, start: Option<int>, end: Option<int>)
    returns (r: Result<seq<CodePatch>, string>)
    ensures r == CodePatches(fetched, start, end)
  {
    var patches: seq<CodePatch> := [];
    for i := 0 to |fetched|
      invariant CodePatches(fetched[..i], start, end) == Ok(patches)
    {
      var f := fetched[i];
      assert fetched[..i + 1][..i] == fetched[..i];
      if start.Some? && f.commit.date < start.value {
        continue;
      }
      if end.Some? && f.commit.date > end.value {
        continue;
      }
      if f.detail.statusCode != 200 {
        r := Err(DetailError(f.detail));
        CodePatchesErrPersists(fetched, i + 1, start, end);
        return;
      }
      var patch := BuildPatch(f.detail.files.GetOr([]));
      patches := patches + [CodePatch(f.commit.sha, f.commit.message, f.commit.date, patch)];
    }
    assert fetched[..|fetched|] == fetched;
    r := Ok(patches);
  }

  /** Once a prefix raises, the whole list raises with the same exception. */
  lemma {:induction false} CodePatchesErrPersists(fetched: seq<FetchedCommit>, i: nat, start: Option<int>, end: Option<int>)
    requires i <= |fetched| && CodePatches(fetched[..i], start, end).Err?
    ensures CodePatches(fetched, start, end) == CodePatches(fetched[..i], start, end)
  {
    if i < |fetched| {
      var n := |fetched|;
      assert fetched[..n - 1][..i] == fetched[..i];
      CodePatchesErrPersists(fetched[..n - 1], i, start, end);
    } else {
      assert fetched[..i] == fetched;
    }
  }

  // ---------------------------------------------------------------------------
  // One user's contributions across the installation's repositories
  // ---------------------------------------------------------------------------

  /** `next((c for c in contributions if c['login'] == username), None)`. */
  function FirstWithLogin(cs: seq<ContributorData>, username: string): Option<ContributorData> {
    if cs == [] then None
    else if cs[0].login == username then Some(cs[0])
    else FirstWithLogin(cs[1..], username)
  }

  /**
   * The selection finds nothing iff no report has the login, and otherwise it is
   * the first report, in list order, whose login is the username.
   */
  lemma {:induction false} FirstWithLoginIsFirstMatch(cs: seq<ContributorData>, username: string)
    ensures var r := FirstWithLogin(cs, username);
            && (r.None? <==> forall k :: 0 <= k < |cs| ==> cs[k].login != username)
            && (r.Some? ==> exists k :: 0 <= k < |cs| && cs[k] == r.value && r.value.login == username
                                        && forall j :: 0 <= j < k ==> cs[j].login != username)
  {
    if cs != [] && cs[0].login != username {
      FirstWithLoginIsFirstMatch(cs[1..], username);
      assert forall k :: 1 <= k < |cs| ==> cs[k] == cs[1..][k - 1];
      var r := FirstWithLogin(cs, username);
      if r.Some? {
        var k :| 0 <= k < |cs| - 1 && cs[1..][k] == r.value && r.value.login == username
                 && forall j :: 0 <= j < k ==> cs[1..][j].login != username;
        assert cs[k + 1] == r.value;
      }
    }
  }

  /**
   * A repository of the installation: its full name, its contributors, the commits
   * listed for the user, and the date `datetime.now()` gives when this repository's
   * row is inserted (the clock is read anew for every row).
   */
  datatype RepoActivity = RepoActivity(fullName: string, contributors: seq<Contributor>, userCommits: seq<FetchedCommit>,
                                       insertDate: string)

  /** A row of the `user_contributions` table. */
  datatype ContributionRow = ContributionRow(repoName: string, username: string, totalCommits: nat, linesAdded: nat, linesDeleted: nat, date: string)

  /** The user's report in a repository, if the user is among its reported contributors. */
  function UserReport(repo: RepoActivity, username: string, start: Option<int>, end: Option<int>): Option<ContributorData> {
    FirstWithLogin(ContributorsInRange(repo.contributors, start, end), username)
  }

  /** The row `analyze_user_contributions` inserts for the user's report in a repository. */
  function RowFor(repo: RepoActivity, username: string, d: ContributorData): ContributionRow {
    ContributionRow(repo.fullName, username, d.totalCommits, d.linesAdded, d.linesDeleted, repo.insertDate)
  }

  /**
   * One repository's step: no row when the user is not reported, the exception
   * of `get_user_code_patches` when it raises, and otherwise the user's row.
   */
  function RepoStep(repo: RepoActivity, username: string, start: Option<int>, end: Option<int>)
    : Result<Option<ContributionRow>, string>
  {
    match UserReport(repo, username, start, end)
    case None => Ok(None)
    case Some(d) =>
      match CodePatches(repo.userCommits, start, end)
      case Err(e) => Err(e)
      case Ok(_) => Ok(Some(RowFor(repo, username, d)))
  }

  /** The rows inserted while walking the repositories, or the first exception raised. */
  function ContributionRows(repos: seq<RepoActivity>, username: string, start: Option<int>, end: Option<int>)
    : Result<seq<ContributionRow>, string>
  {
    if repos == [] then Ok([])
    else
      match ContributionRows(repos[..|repos| - 1], username, start, end)
      case Err(e) => Err(e)
      case Ok(rows) =>
        match RepoStep(repos[|repos| - 1], username, start, end)
        case Err(e) => Err(e)
        case Ok(None) => Ok(rows)
        case Ok(Some(row)) => Ok(rows + [row])
  }

  /**
   * The rows `analyze_user_contributions` leaves committed, or the exception it raises:
   * a failed repository listing raises at once, and an exception later leaves the
   * transaction uncommitted, so no row is kept.
   */
  function UserContributions(listingStatus: int, listingMessage: Option<string>, repos: seq<RepoActivity>,
                             username: string, start: Option<int>, end: Option<int>)
    : Result<seq<ContributionRow>, string>
  {
    if listingStatus != 200 then Err("Failed to get repositories: " + listingMessage.GetOr("Unknown error"))
    else ContributionRows(repos, username, start, end)
  }

  /** A repository's step raises iff the user is reported there and fetching the user's patches raises. */
  lemma RepoStepFailIff(repo: RepoActivity, username: string, start: Option<int>, end: Option<int>)
    ensures RepoStep(repo, username, start, end).Err?
        <==> UserReport(repo, username, start, end).Some? && CodePatches(repo.userCommits, start, end).Err?
  {
  }

  /** The walk raises iff some repository's step raises. */
  lemma {:induction false} ContributionRowsFailIff(repos: seq<RepoActivity>, username: string, start: Option<int>, end: Option<int>)
    ensures ContributionRows(repos, username, start, end).Err?
        <==> exists k :: 0 <= k < |repos| && RepoStep(repos[k], username, start, end).Err?
  {
    if repos != [] {
      var n := |repos|;
      var prefix := repos[..n - 1];
      ContributionRowsFailIff(prefix, username, start, end);
      assert ContributionRows(repos, username, start, end).Err?
        <==> ContributionRows(prefix, username, start, end).Err?
             || RepoStep(repos[n - 1], username, start, end).Err?;
      assert forall k :: 0 <= k < n - 1 ==> prefix[k] == repos[k];
    }
  }

  /** The rows recorded for the repositories where the user is reported, in repository order. */
  function MatchedRows(repos: seq<RepoActivity>, username: string, start: Option<int>, end: Option<int>)
    : (rows: seq<ContributionRow>)
    ensures |rows| <= |repos|
  {
    if repos == [] then []
    else
      var init := MatchedRows(repos[..|repos| - 1], username, start, end);
      var repo := repos[|repos| - 1];
      match UserReport(repo, username, start, end)
      case None => init
      case Some(d) => init + [RowFor(repo, username, d)]
  }

  /** On success the rows are exactly the matched rows, in order. */
  lemma {:induction false} ContributionRowsAreMatches(repos: seq<RepoActivity>, username: string, start: Option<int>, end: Option<int>)
    requires ContributionRows(repos, username, start, end).Ok?
    ensures ContributionRows(repos, username, start, end).value == MatchedRows(repos, username, start, end)
  {
    if repos != [] {
      ContributionRowsAreMatches(repos[..|repos| - 1], username, start, end);
    }
  }

  /** `row` is the row recorded for the user's report in `repo`. */
  predicate RecordedFor(repo: RepoActivity, row: ContributionRow, username: string, start: Option<int>, end: Option<int>) {
    UserReport(repo, username, start, end).Some?
    && row == RowFor(repo, username, UserReport(repo, username, start, end).value)
  }

  /**
   * A row is recorded iff it is the row of a repository where the user is reported,
   * carrying the totals of the first reported contributor whose login is the username.
   */
  lemma {:induction false} MatchedRowsMembership(repos: seq<RepoActivity>, username: string, start: Option<int>, end: Option<int>, row: ContributionRow)
    ensures row in MatchedRows(repos, username, start, end)
        <==> exists repo :: repo in repos && RecordedFor(repo, row, username, start, end)
  {
    if repos != [] {
      var n := |repos|;
      var prefix, last := repos[..n - 1], repos[n - 1];
      MatchedRowsMembership(prefix, username, start, end, row);
      assert row in MatchedRows(repos, username, start, end)
        <==> row in MatchedRows(prefix, username, start, end) || RecordedFor(last, row, username, start, end);
      assert repos == prefix + [last];
    }
  }

  /** `analyze_user_contributions` without its language-model analyses. */
  method AnalyzeUserContributions(listingStatus: int, listingMessage: Option<string>, repos: seq<RepoActivity>,
                                  username: string, start: Option<int>, end: Option<int>)
    returns (r: Result<seq<ContributionRow>, string>)
    ensures r == UserContributions(listingStatus, listingMessage, repos, username, start, end)
  {
    if listingStatus != 200 {
      r := Err("Failed to get repositories: " + listingMessage.GetOr("Unknown error"));
      return;
    }
    var rows: seq<ContributionRow> := [];
    for i := 0 to |repos|
      invariant ContributionRows(repos[..i], username, start, end) == Ok(rows)
    {
      var repo := repos[i];
      assert repos[..i + 1][..i] == repos[..i];
      var contributions := GetRepositoryContributors(repo.contributors, start, end);
      var userContributions := FirstWithLogin(contributions, username);
      if userContributions.Some? {
        var codePatches := GetUserCodePatches(repo.userCommits, start, end);
        if codePatches.Err? {
          r := Err(codePatches.error);
          ContributionRowsErrPersists(repos, i + 1, username, start, end);
          return;
        }
        var d := userContributions.value;
        rows := rows + [ContributionRow(repo.fullName, username, d.totalCommits, d.linesAdded, d.linesDeleted, repo.insertDate)];
      }
    }
    assert repos[..|repos|] == repos;
    r := Ok(rows);
  }

  /** Once a prefix of the walk raises, the whole walk raises with the same exception. */
  lemma {:induction false} ContributionRowsErrPersists(repos: seq<RepoActivity>, i: nat, username: string, start: Option<int>, end: Option<int>)
    requires i <= |repos| && ContributionRows(repos[..i], username, start, end).Err?
    ensures ContributionRows(repos, username, start, end) == ContributionRows(repos[..i], username, start, end)
  {
    if i < |repos| {
      var n := |repos|;
      assert repos[..n - 1][..i] == repos[..i];
      ContributionRowsErrPersists(repos[..n - 1], i, username, start, end);
    } else {
      assert repos[..i] == repos;
    }
  }
}
