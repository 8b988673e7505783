/**
  The pull-request description generator (`pr_generator`): the commit
  summary built line by line, the summary and the base branch spliced into a
  fixed template, the template sent to the inference client, and the script
  block that fetches the log and decides whether to call the generator.
 */
module PrGenerator {
  import opened Wrappers
  import opened LlmClient
  import GitUtils

  type CommitRecord = GitUtils.CommitRecord

  /** The summary line for one commit: `- {hash}: {message}` and a newline. */
  function SummaryLine(c: CommitRecord): (line: string)
    ensures |line| == |c.hash| + |c.message| + 5
    ensures line[..2] == "- " && line[2..2 + |c.hash|] == c.hash
    ensures line[2 + |c.hash|..4 + |c.hash|] == ": "
    ensures line[4 + |c.hash|..|line| - 1] == c.message
    ensures line[|line| - 1] == '\n'
  {
    "- " + c.hash + ": " + c.message + "\n"
  }

  /** The space the summary takes: five characters of punctuation per commit around its hash and message. */
  function SummaryWidth(commits: seq<CommitRecord>): nat
  {
    if commits == [] then 0 else |commits[0].hash| + |commits[0].message| + 5 + SummaryWidth(commits[1..])
  }

  /** The summary of a commit list: the lines of its commits, in list order. */
  function Summary(commits: seq<CommitRecord>): (summary: string)
    ensures |summary| == SummaryWidth(commits)
    ensures commits == [] ==> summary == ""
  {
    if commits == [] then "" else SummaryLine(commits[0]) + Summary(commits[1..])
  }

  /** The summary of two lists in a row is the two summaries in a row. */
  lemma {:induction false} SummaryConcat(a: seq<CommitRecord>, b: seq<CommitRecord>)
    ensures Summary(a + b) == Summary(a) + Summary(b)
  {
    if a != [] {
      assert (a + b)[1..] == a[1..] + b;
      SummaryConcat(a[1..], b);
    } else {
      assert a + b == b;
    }
  }

  /** One more commit adds its line at the end and changes nothing before it. */
  lemma SummaryAppend(commits: seq<CommitRecord>, c: CommitRecord)
    ensures Summary(commits + [c]) == Summary(commits) + SummaryLine(c)
  {
    SummaryConcat(commits, [c]);
    assert Summary([c]) == SummaryLine(c) + Summary([]);
  }

  /** The line of the `i`-th commit sits in the summary right after the lines of the commits before it. */
  lemma SummaryLineAt(commits: seq<CommitRecord>, i: nat)
    requires i < |commits|
    ensures var at := |Summary(commits[..i])|;
            at + |SummaryLine(commits[i])| <= |Summary(commits)|
            && Summary(commits)[at..at + |SummaryLine(commits[i])|] == SummaryLine(commits[i])
  {
    assert commits == commits[..i] + commits[i..];
    SummaryConcat(commits[..i], commits[i..]);
    assert Summary(commits[i..]) == SummaryLine(commits[i]) + Summary(commits[i + 1..]);
  }

  /** The instructions before the base branch name. */
  const PromptHead :=
    "You are an expert at writing GitHub Pull Request descriptions.\n\n"
    + "Based on the following commits, generate a comprehensive PR description.\n\n"
    + "Commits being merged into '"

  /** The text between the base branch name and the summary. */
  const PromptMiddle := "':\n"

  /** The instructions after the summary. */
  const PromptTail :=
    "\n\nGenerate a PR description with this structure:\n\n"
    + "# [Title]\n"
    + "Brief one-line summary of the changes\n\n"
    + "## Description\n"
    + "2-3 sentences explaining what this PR does and why\n\n"
    + "## Changes\n"
    + "- Bullet point list of key changes\n"
    + "- Focus on what changed, not how\n"
    + "- Group related changes together\n\n"
    + "## Testing\n"
    + "Brief notes on how to test these changes (if applicable)\n\n"
    + "Use markdown formatting. Be clear and professional. Focus on what reviewers need to know.\n\n"
    + "Generate only the PR description, nothing else."

  /** The prompt: fixed text, the base branch, fixed text, the summary, fixed text. */
  function PrPrompt(baseBranch: string, summary: string): (prompt: string)
    ensures |prompt| == |PromptHead| + |baseBranch| + |PromptMiddle| + |summary| + |PromptTail|
    ensures prompt[..|PromptHead|] == PromptHead
    ensures prompt[|PromptHead|..|PromptHead| + |baseBranch|] == baseBranch
    ensures prompt[|PromptHead| + |baseBranch|..|PromptHead| + |baseBranch| + |PromptMiddle|] == PromptMiddle
    ensures prompt[|PromptHead| + |baseBranch| + |PromptMiddle|..|prompt| - |PromptTail|] == summary
    ensures prompt[|prompt| - |PromptTail|..] == PromptTail
  {
    SplicedAt(PromptHead, baseBranch, PromptMiddle, summary, PromptTail);
    PromptHead + baseBranch + PromptMiddle + summary + PromptTail
  }

  /** Where each of five texts written in a row sits in the result. */
  lemma SplicedAt(a: string, b: string, c: string, d: string, e: string)
    ensures var s := a + b + c + d + e;
            && |s| == |a| + |b| + |c| + |d| + |e|
            && s[..|a|] == a
            && s[|a|..|a| + |b|] == b
            && s[|a| + |b|..|a| + |b| + |c|] == c
            && s[|a| + |b| + |c|..|s| - |e|] == d
            && s[|s| - |e|..] == e
  {
  }

  /** Given the branch name's length, a prompt determines both the branch and the summary it was built from. */
  lemma PrPromptDetermines(base1: string, summary1: string, base2: string, summary2: string)
    requires PrPrompt(base1, summary1) == PrPrompt(base2, summary2)
    requires |base1| == |base2|
    ensures base1 == base2 && summary1 == summary2
  {
    var p := PrPrompt(base1, summary1);
    assert base1 == p[|PromptHead|..|PromptHead| + |base1|];
    assert summary1 == p[|PromptHead| + |base1| + |PromptMiddle|..|p| - |PromptTail|];
  }

  /** `generate_pr_description(commits, base_branch)`: the summary is accumulated line by line, then the client is asked once. */
  method GeneratePrDescription(reply: ChatRequest -> ChatOutcome, commits: seq<CommitRecord>, baseBranch: string)
    returns (description: Option<string>)
    ensures description == GenerateText(reply, PrPrompt(baseBranch, Summary(commits)))
  {
    var commitSummary := "";
    for i := 0 to |commits|
      invariant commitSummary == Summary(commits[..i])
    {
      SummaryAppend(commits[..i], commits[i]);
      assert commits[..i + 1] == commits[..i] + [commits[i]];
      commitSummary := commitSummary + SummaryLine(commits[i]);
    }
    assert commits[..|commits|] == commits;
    var prompt := PrPrompt(baseBranch, commitSummary);
    description := GenerateText(reply, prompt);
  }

  /** The outcomes the script block tells apart; `count` is the number of commits it reports finding. */
  datatype PrOutcome = LogFailure | NoCommits | GenerationFailed(count: nat) | Generated(count: nat, description: string)

  /**
    The script block: the log against the default branch is fetched; an
    absent log is an error and an empty one means no commits, neither of which
    calls the generator; otherwise the generator is called once and an absent
    or empty description is a failure.
   */
  method RunScript(discovery: GitUtils.Discovery, reply: ChatRequest -> ChatOutcome)
    returns (outcome: PrOutcome, generatorCalls: nat)
    ensures var log := GitUtils.CommitLog(discovery, GitUtils.DefaultBaseBranch);
      && (log.None? ==> outcome == LogFailure && generatorCalls == 0)
      && (log == Some([]) ==> outcome == NoCommits && generatorCalls == 0)
      && (log.Some? && log.value != [] ==>
            var answer := GenerateText(reply, PrPrompt(GitUtils.DefaultBaseBranch, Summary(log.value)));
            && generatorCalls == 1
            && (outcome.Generated? <==> IsTruthy(answer))
            && (outcome.Generated? ==> outcome == Generated(|log.value|, answer.value))
            && (!outcome.Generated? ==> outcome == GenerationFailed(|log.value|)))
  {
    var commits := GitUtils.GetCommitLog(discovery, GitUtils.DefaultBaseBranch);
    if commits.None? {
      return LogFailure, 0;
    } else if commits.value == [] {
      return NoCommits, 0;
    }
    var result := GeneratePrDescription(reply, commits.value, GitUtils.DefaultBaseBranch);
    generatorCalls := 1;
    if IsTruthy(result) {
      outcome := Generated(|commits.value|, result.value);
    } else {
      outcome := GenerationFailed(|commits.value|);
    }
  }
}
