# gitgenie core in Dafny

gitgenie is a command-line assistant that reads the state of a local git
repository and asks a local language model (through ollama) to draft a commit
message from the staged diff, or a pull-request description from the commits
unique to the current branch. This project models the orchestration around
those two external calls and proves its contracts:

- `GitUtils` (`src/gitgenie/git_utils.py`): finding a usable, non-bare
  repository; the staged diff, where "not a repository" (None) stays distinct
  from "nothing staged" (`""`); the commit log, built by a loop that turns each
  listed commit into a record with a 7-character hash and a stripped message,
  and that collapses every failure to None; and the classification the
  module's script block prints.
- `Text`: the Python built-ins that code relies on, namely `str.isspace()`,
  `str.strip()` and the slice `s[:n]`.
- `LlmClient` (`src/gitgenie/llm_client.py`): the single-message request with
  the fixed model `llama3`, and the lookup of `response['message']['content']`,
  with every exception and every malformed shape reported as None.
- `CommitAnalyzer` (`src/gitgenie/commit_analyzer.py`): the diff embedded
  verbatim between a fixed head and tail, with the round trip back to the diff;
  the pass-through of the client's answer; the script block's decision chain.
- `PrGenerator` (`src/gitgenie/pr_generator.py`): the summary accumulated in a
  loop, one `- {hash}: {message}` line per commit in list order; the template
  around the base branch and the summary; the script block's decision chain.

The two external collaborators are inputs. GitPython is a `Discovery` value:
either no repository was found, or a `Repository` that holds whether it is
bare, the text the library returns for `git diff --staged`, the active branch name (None when
reading it raises), and the commits the library lists for each revision range
it can resolve. A raw commit's message, author name and commit date are
Options, where None stands for a read that raises. `ollama.chat` is a function
parameter `reply` from a request to an outcome: either an exception or a
response value built from text, mappings and null.

The decision chains live in the `if __name__ == '__main__'` blocks of the
source files, since `src/gitgenie/cli.py` only echoes fixed strings. They print
and set no exit code, and no repository check runs before them. The model
follows that code: it has outcomes and a count of generator calls, and no exit
codes or entry gate.

## Model

| member | source | states |
|---|---|---|
| `GitUtils.GetRepo` | src/gitgenie/git_utils.py:3-11 | a repository is yielded exactly when one was found and it is not bare, and then it is that repository |
| `GitUtils.IsGitRepo` | src/gitgenie/git_utils.py:13-14 | true exactly inside a found, non-bare repository; a bare one gives false |
| `GitUtils.GetStagedChanges` | src/gitgenie/git_utils.py:16-21 | None exactly when there is no usable repository; otherwise the staged diff text, and an empty diff is `Some("")`, never None |
| `GitUtils.RevisionRange` | src/gitgenie/git_utils.py:29 | the range text is the base name, `..`, then the feature branch name |
| `GitUtils.CommitsUniqueToBranch` | src/gitgenie/git_utils.py:28-29 | the traversal yields commits exactly when the active branch can be read and the range `base..branch` resolves, and then they are the commits the library lists for `base..branch`, in its order |
| `GitUtils.CommitLog` | src/gitgenie/git_utils.py:23-40 | the specification of `get_commit_log`: defined as None without a usable repository or when the branch, range or any commit cannot be read, else the records in traversal order; `CommitLogAbsent` and `CommitLogRecords` carry these properties and `GetCommitLog` is proved equal to it |
| `GitUtils.ToRecord` | src/gitgenie/git_utils.py:32-37 | a record exists exactly when every field can be read; its hash is a prefix of the full id of length min(7, id length); its message is the stripped raw message; author and date are carried over |
| `GitUtils.ProjectAll` | src/gitgenie/git_utils.py:30-38 | the list exists exactly when every commit yields a record, and then it has one record per commit, the i-th built from the i-th commit |
| `GitUtils.GetCommitLog` | src/gitgenie/git_utils.py:23-40 | the loop returns exactly the specification `CommitLog`: None without a repository or on any failure, else the records in traversal order |
| `GitUtils.CommitLogAbsent` | src/gitgenie/git_utils.py:24-40 | the log is None exactly when there is no usable repository, the branch or range cannot be resolved, or some commit cannot be read |
| `GitUtils.CommitLogRecords` | src/gitgenie/git_utils.py:31-38 | a present log has exactly one record per traversed commit, in traversal order, and the i-th record is the one built from the i-th commit: its hash is the prefix of the commit id of length min(7, id length), its message the stripped raw message, its author and date those of the commit |
| `GitUtils.RecordMessageStripped` | src/gitgenie/git_utils.py:34 | a record's message has no surrounding whitespace left: stripping it again changes nothing |
| `GitUtils.ShownLine` | src/gitgenie/git_utils.py:60 | a listed record's line is the indent and dash `    - `, its full hash, `: `, then the first min(50, length) characters of its message |
| `GitUtils.ClassifyLog` | src/gitgenie/git_utils.py:52-60 | None gives the error report, the empty list "no commits", otherwise the count equals the list length and at most the first three records are shown, each as hash and the first 50 message characters |
| `Text.IsSpace` | src/gitgenie/git_utils.py:34 | defines the characters `str.isspace()` accepts (tab to carriage return, the separators 0x1C-0x1F, space, 0x85, 0xA0 and the Unicode space separators); `StripIsSlice` and `StripUnique` state what strip does with them |
| `Text.Strip` | src/gitgenie/git_utils.py:34 | `str.strip()`: the result is no longer than the input and, when non-empty, starts and ends with a non-space; `StripIsSlice`, `StripUnique` and `StripIdempotent` give the full characterisation |
| `Text.Prefix` | src/gitgenie/git_utils.py:33 | `s[:n]` is a prefix of `s` whose length is the smaller of n and the length of s |
| `Text.FirstNonSpace` | src/gitgenie/git_utils.py:34 | the scan forward stops at the first non-space character, or at the end, and everything it passed is whitespace |
| `Text.EndOfText` | src/gitgenie/git_utils.py:34 | the scan backward stops just past the last non-space character, or at its lower bound, and everything it passed is whitespace |
| `Text.StripIsSlice` | src/gitgenie/git_utils.py:34 | the stripped message is one contiguous piece of the raw message, only whitespace is cut off either side, and a non-empty result starts and ends with a non-space |
| `Text.StripUnique` | src/gitgenie/git_utils.py:34 | any piece bounded that way is exactly the stripped string, so the characterisation is complete |
| `Text.StripIdempotent` | src/gitgenie/git_utils.py:34 | stripping twice is stripping once |
| `LlmClient.Request` | src/gitgenie/llm_client.py:5-9 | every request names model `llama3` and carries exactly one message, with role `user` and the prompt unchanged as content, whatever the prompt |
| `LlmClient.Lookup` | src/gitgenie/llm_client.py:10 | subscripting succeeds exactly on a mapping holding the key, and yields the value under it |
| `LlmClient.ContentOf` | src/gitgenie/llm_client.py:10-12 | a text comes back exactly when the call returned and `['message']['content']` is text, and it is that text verbatim; otherwise None |
| `LlmClient.GenerateText` | src/gitgenie/llm_client.py:3-12 | the result is the content lookup on the reply to the prompt's request: a raised exception gives None, a text comes back exactly when the call returned and `['message']['content']` is text, and it is that text verbatim |
| `LlmClient.IsTruthy` | src/gitgenie/commit_analyzer.py:38 | defines Python truthiness of an optional text (present and non-empty), the test both script blocks apply; `CommitAnalyzer.RunScript` and `PrGenerator.RunScript` state its use |
| `LlmClient.GenerateTextReturnsContent` | src/gitgenie/llm_client.py:10 | any well-formed reply, whatever other keys it carries, has its content returned unchanged, and empty content stays `""`, not None |
| `LlmClient.GenerateTextContainsErrors` | src/gitgenie/llm_client.py:11-12 | any backend exception gives None |
| `LlmClient.GenerateTextMissingKey` | src/gitgenie/llm_client.py:10-12 | a response without the `message` key, or whose message lacks `content`, gives None |
| `CommitAnalyzer.CommitPrompt` | src/gitgenie/commit_analyzer.py:5-26 | the prompt is the fixed head, the diff verbatim, the fixed tail; its length is the diff's plus a constant |
| `CommitAnalyzer.DiffOfCommitPrompt` | src/gitgenie/commit_analyzer.py:23-26 | cutting the head and tail off a prompt recovers the diff exactly |
| `CommitAnalyzer.CommitPromptOfDiff` | src/gitgenie/commit_analyzer.py:5-26 | every text the recovery accepts is the prompt of the diff it recovers |
| `CommitAnalyzer.CommitPromptInjective` | src/gitgenie/commit_analyzer.py:23-26 | different diffs give different prompts |
| `CommitAnalyzer.GenerateCommitMessage` | src/gitgenie/commit_analyzer.py:4-28 | the result is `generate_text` of the diff's prompt, unchanged: a raised exception gives None, a text comes back exactly when the reply is well-formed, and it is the reply's content |
| `CommitAnalyzer.GenerateCommitMessagePassesReply` | src/gitgenie/commit_analyzer.py:28 | the request carries the diff's prompt, and the content of any well-formed reply is returned unchanged |
| `CommitAnalyzer.GenerateCommitMessagePassesNone` | src/gitgenie/commit_analyzer.py:28 | a failed call is passed through as None |
| `CommitAnalyzer.RunScript` | src/gitgenie/commit_analyzer.py:30-41 | no repository: "not a git repository" with no generator call; empty diff: "no staged changes" with no call; otherwise exactly one call, and a None or empty answer is a failure, any other answer the message |
| `CommitAnalyzer.Report` | src/gitgenie/commit_analyzer.py:33-41 | defines the line printed for each outcome (three error texts, or `Generated message: ` and the message); `ReportDistinguishes` states that no two outcomes print alike |
| `CommitAnalyzer.ReportDistinguishes` | src/gitgenie/commit_analyzer.py:32-41 | different outcomes print different lines, so no repository, nothing staged and failure stay distinguishable |
| `CommitAnalyzer.RunScriptDeliversReply` | src/gitgenie/commit_analyzer.py:36-39 | a staged diff and a non-empty well-formed reply end in that reply printed as the generated message, after one call |
| `PrGenerator.SummaryLine` | src/gitgenie/pr_generator.py:6 | a commit's line is `- `, its hash, `: `, its message and a newline, five characters longer than hash and message together |
| `PrGenerator.Summary` | src/gitgenie/pr_generator.py:4-6 | the summary of no commits is empty, and its length is the sum over commits of hash length, message length and 5 |
| `PrGenerator.SummaryAppend` | src/gitgenie/pr_generator.py:5-6 | adding a commit at the end adds its `- hash: message` line at the end and changes nothing before it |
| `PrGenerator.SummaryConcat` | src/gitgenie/pr_generator.py:5-6 | the summary of two lists in a row is their summaries in a row |
| `PrGenerator.SummaryLineAt` | src/gitgenie/pr_generator.py:5-6 | the i-th commit's line sits right after the lines of the commits before it: one line per commit, in input order |
| `PrGenerator.PrPrompt` | src/gitgenie/pr_generator.py:8-33 | the prompt is fixed text, the base branch, fixed text, the summary, fixed text, and its length is theirs summed |
| `PrGenerator.PrPromptDetermines` | src/gitgenie/pr_generator.py:8-33 | given the branch name's length, a prompt determines its branch and summary |
| `PrGenerator.GeneratePrDescription` | src/gitgenie/pr_generator.py:3-36 | the loop builds exactly `Summary(commits)`, and the result is the client's answer to the spliced prompt, None included, unchanged |
| `PrGenerator.RunScript` | src/gitgenie/pr_generator.py:39-52 | a None log is a failure and an empty log "no commits", both without a generator call; otherwise exactly one call, the count reported is the number of commits, and a None or empty description is a failure |

## Left out

- GitPython itself: repository discovery, `git diff --staged`, `iter_commits` and `active_branch` are inputs, not modelled.
- GitUtils.GetRepo: only the "no repository found" exception is modelled; any other exception from discovery, which the source does not catch, is not.
- GitUtils.GetStagedChanges: an exception from `git diff --staged` propagates in the source; the model treats the diff of a usable repository as always available.
- Commit author names and dates are opaque texts; ISO-8601 formatting is not modelled.
- LlmClient.ContentOf: a response whose content is itself a mapping is reported as None, whereas Python would return that mapping; ollama types content as text or null.
- The ollama transport, model loading, timeouts and streaming (commented out in the source) are not modelled.
- `src/gitgenie/cli.py` is not modelled: its commands only echo fixed strings.
- Exit codes and a repository check before every command do not exist in the code (the `__main__` blocks only print), and the model has none.
- The `git_utils` script block's first two prints (`is_git_repo()` and the staged diff) only print values and are not modelled; the "Found N commits" lines are modelled as outcomes, not as rendered text.
- The wording of the prompt templates is kept as constants; nothing is proved about its content.
