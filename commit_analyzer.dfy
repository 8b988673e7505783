/**
  The commit-message generator (`commit_analyzer`): the staged diff embedded
  verbatim in a fixed instruction template, the template sent to the
  inference client, and the script block that decides between reporting an
  error and asking for a message.
 */
module CommitAnalyzer {
  import opened Wrappers
  import opened LlmClient
  import GitUtils

  /** The instructions before the diff. */
  const PromptHead :=
    "You are an expert at writing git commit messages following the Conventional Commits specification.\n\n"
    + "Analyze the following git diff and generate a clear, concise commit message.\n\n"
    + "Rules:\n"
    + "1. Use the format: type(scope): description\n"
    + "2. Types: feat, fix, docs, style, refactor, test, chore, perf\n"
    + "3. Keep the description under 72 characters\n"
    + "4. Use imperative mood (e.g., \"add\" not \"added\" or \"adds\")\n"
    + "5. Be specific about what changed\n"
    + "6. Don't include file paths in the message\n\n"
    + "Examples:\n"
    + "- feat(auth): add JWT token validation\n"
    + "- fix(api): resolve null pointer in user endpoint\n"
    + "- docs(readme): update installation instructions\n"
    + "- refactor(utils): simplify date formatting logic\n\n"
    + "Git diff:\n"

  /** The instructions after the diff. */
  const PromptTail :=
    "\n\nGenerate only the commit message, nothing else. No explanation, no code blocks, just the commit message."

  /** The prompt for a diff: the fixed head, the diff exactly as given, the fixed tail. */
  function CommitPrompt(diff: string): (prompt: string)
    ensures |prompt| == |PromptHead| + |diff| + |PromptTail|
    ensures prompt[..|PromptHead|] == PromptHead
    ensures prompt[|PromptHead|..|PromptHead| + |diff|] == diff
    ensures prompt[|PromptHead| + |diff|..] == PromptTail
  {
    PromptHead + diff + PromptTail
  }

  /** The text between `head` and `tail`, when `text` starts with `head` and ends with `tail` without overlap. */
  function Between(head: string, tail: string, text: string): Option<string>
  {
    if |head| + |tail| <= |text| && text[..|head|] == head && text[|text| - |tail|..] == tail
    then Some(text[|head|..|text| - |tail|])
    else None
  }

  /** Wrapping a text and taking the middle back out are inverse to each other, for any head and tail. */
  lemma {:induction false} BetweenInverse(head: string, tail: string, text: string, middle: string)
    ensures Between(head, tail, text) == Some(middle) <==> text == head + middle + tail
  {
    if text == head + middle + tail {
      assert text[..|head|] == head;
      assert text[|text| - |tail|..] == tail;
      assert text[|head|..|text| - |tail|] == middle;
    }
    if Between(head, tail, text) == Some(middle) {
      var h, t := |head|, |text| - |tail|;
      assert text == text[..h] + text[h..t] + text[t..];
    }
  }

  /** The diff a prompt was built from, when it has the template's head and tail. */
  function DiffOf(prompt: string): Option<string>
  {
    Between(PromptHead, PromptTail, prompt)
  }

  /** Cutting the head and tail off a prompt gives back its diff, byte for byte. */
  lemma DiffOfCommitPrompt(diff: string)
    ensures DiffOf(CommitPrompt(diff)) == Some(diff)
  {
    BetweenInverse(PromptHead, PromptTail, CommitPrompt(diff), diff);
  }

  /** Conversely, every prompt `DiffOf` accepts is the prompt of the diff it finds. */
  lemma CommitPromptOfDiff(prompt: string, diff: string)
    requires DiffOf(prompt) == Some(diff)
    ensures CommitPrompt(diff) == prompt
  {
    BetweenInverse(PromptHead, PromptTail, prompt, diff);
  }

  /** Different diffs give different prompts. */
  lemma CommitPromptInjective(diff1: string, diff2: string)
    requires CommitPrompt(diff1) == CommitPrompt(diff2)
    ensures diff1 == diff2
  {
    DiffOfCommitPrompt(diff1);
    DiffOfCommitPrompt(diff2);
  }

  /**
    `generate_commit_message(diff)`: the client's answer to the diff's prompt,
    unchanged: the reply's content verbatim, or None when the call raised.
   */
  function GenerateCommitMessage(reply: ChatRequest -> ChatOutcome, diff: string): (r: Option<string>)
    ensures r == GenerateText(reply, CommitPrompt(diff))
    ensures reply(Request(CommitPrompt(diff))).Raised? ==> r == None
    ensures r.Some? <==> reply(Request(CommitPrompt(diff))).Returned? && CarriesContent(reply(Request(CommitPrompt(diff))).response)
    ensures r.Some? ==> Str(r.value) == reply(Request(CommitPrompt(diff))).response.entries["message"].entries["content"]
  {
    GenerateText(reply, CommitPrompt(diff))
  }

  /** The request carries the prompt for the diff, and a well-formed reply, whatever its other keys, comes back verbatim. */
  lemma GenerateCommitMessagePassesReply(reply: ChatRequest -> ChatOutcome, diff: string, text: string)
    requires reply(Request(CommitPrompt(diff))).Returned? && CarriesContent(reply(Request(CommitPrompt(diff))).response)
    requires reply(Request(CommitPrompt(diff))).response.entries["message"].entries["content"] == Str(text)
    ensures GenerateCommitMessage(reply, diff) == Some(text)
  {
    GenerateTextReturnsContent(reply, CommitPrompt(diff), text);
  }

  /** A backend exception reaches the caller as None. */
  lemma GenerateCommitMessagePassesNone(reply: ChatRequest -> ChatOutcome, diff: string)
    requires reply(Request(CommitPrompt(diff))).Raised?
    ensures GenerateCommitMessage(reply, diff) == None
  {
    GenerateTextContainsErrors(reply, CommitPrompt(diff));
  }

  /** The outcomes the script block tells apart. */
  datatype CommitOutcome = NotAGitRepository | NoStagedChanges | GenerationFailed | Generated(message: string)

  /** An outcome, with how often the generator was asked for a message on the way. */
  datatype CommitRun = CommitRun(outcome: CommitOutcome, generatorCalls: nat)

  /**
    The script block: an absent diff means no repository and an empty one
    means nothing staged, neither of which calls the generator; otherwise
    the generator is called once and an absent or empty answer is a failure.
   */
  function RunScript(discovery: GitUtils.Discovery, reply: ChatRequest -> ChatOutcome): (run: CommitRun)
    ensures !GitUtils.IsGitRepo(discovery) ==> run == CommitRun(NotAGitRepository, 0)
    ensures GitUtils.IsGitRepo(discovery) && discovery.repo.stagedDiff == "" ==> run == CommitRun(NoStagedChanges, 0)
    ensures GitUtils.IsGitRepo(discovery) && discovery.repo.stagedDiff != "" ==>
      var answer := GenerateCommitMessage(reply, discovery.repo.stagedDiff);
      && run.generatorCalls == 1
      && (run.outcome.Generated? <==> IsTruthy(answer))
      && (run.outcome.Generated? ==> answer == Some(run.outcome.message))
      && (!run.outcome.Generated? ==> run.outcome == GenerationFailed)
  {
    match GitUtils.GetStagedChanges(discovery)
    case None => CommitRun(NotAGitRepository, 0)
    case Some(diff) =>
      if diff == "" then CommitRun(NoStagedChanges, 0)
      else
        var result := GenerateCommitMessage(reply, diff);
        if IsTruthy(result) then CommitRun(Generated(result.value), 1) else CommitRun(GenerationFailed, 1)
  }

  /** The line the script block prints for an outcome. */
  function Report(outcome: CommitOutcome): string
  {
    match outcome
    case NotAGitRepository => "Error: Not a git repository"
    case NoStagedChanges => "Error: No staged changes"
    case GenerationFailed => "Error: Failed to generate message"
    case Generated(message) => "Generated message: " + message
  }

  /** The printed line tells the outcomes apart: no repository, nothing staged and a failed call never read alike. */
  lemma ReportDistinguishes(o1: CommitOutcome, o2: CommitOutcome)
    requires Report(o1) == Report(o2)
    ensures o1 == o2
  {
    var r := Report(o1);
    assert r[0] == Report(o2)[0];
    if r[0] == 'G' {
      assert Report(o1)[19..] == Report(o2)[19..];
    } else {
      assert r[7] == Report(o2)[7] && r[9] == Report(o2)[9];
    }
  }

  /** A staged diff and a well-formed, non-empty reply end in that reply, after one call. */
  lemma RunScriptDeliversReply(discovery: GitUtils.Discovery, reply: ChatRequest -> ChatOutcome, text: string)
    requires GitUtils.IsGitRepo(discovery) && discovery.repo.stagedDiff != ""
    requires var outcome := reply(Request(CommitPrompt(discovery.repo.stagedDiff)));
             outcome.Returned? && CarriesContent(outcome.response)
             && outcome.response.entries["message"].entries["content"] == Str(text)
    requires text != ""
    ensures RunScript(discovery, reply) == CommitRun(Generated(text), 1)
    ensures Report(RunScript(discovery, reply).outcome) == "Generated message: " + text
  {
    GenerateCommitMessagePassesReply(reply, discovery.repo.stagedDiff, text);
  }
}
