# gh-jira in Dafny

A model of gh-jira, a service that mirrors open GitHub issues into Jira. It covers
two parts:

- **The poll cycle** (`main.go`). It lists a repository's open issues and stops at the
  first pull request. For each issue before that it asks a local Ollama model for a
  summary, and a summary error ends the process. It then consults an in-memory ledger
  of processed issue IDs. If the ID is not marked, it creates the Jira issue. It marks
  the ID only when Jira answers with a 2xx status.
- **The summarizer** (`pkg/summarizer/summarizer.go`). It builds a generation request.
  The model defaults to "mistral" and the template to a built-in one. A producer
  goroutine streams response fragments over one channel and its error over another.
  A consumer `select` loop then collects them.

Modules:

- `Wrappers`: Option and Result.
- `Errors`: error values, including `%w` wrapping.
- `Decimal`: the `%d` rendering of issue numbers and a parser for it.
- `GitHub`: the issue snapshot.
- `Jira`: the payload and `createJiraIssue`.
- `Summarizer`: `New`, prompt defaulting, and the collect loop.
- `Poll`: the `Poller` class that holds `processedIssueIDs`, and `pollGitHub`.

The outside world is an oracle passed in as data:

- The listing, or its error.
- Each Jira reply: a transport error, or a status code with its status line.
- Each summary call's observed event trace. The trace holds fragments, a non-nil
  error from `errChan`, nil from the closed `errChan`, the closed stream, and
  `ctx.Done()`. The consumer loop is a method that walks the trace. It is proved equal
  to the specification function `Collected`.

`PollGitHub` is a method on the `Poller` class that updates the ledger in place. It is
proved equal to the specification function `Scan`, and the cycle's properties are
lemmas about `Scan`. `Scan` reads one `Fate` per issue: whether its summary fails and
whether its Jira reply is 2xx. `FateOf` derives the Fate from the oracle.

Behaviour of the code that the model keeps:

- `pollGitHub` stops the scan at the first pull request (main.go:65-67). It does not
  skip that item and continue.
- A summary error calls `log.Fatalf` and ends the process (main.go:83-85). Summary
  failures are not isolated per issue.
- Creation is a single POST; nothing is written back to GitHub.
- The summary is requested before the ledger check. Already-processed issues are
  therefore summarized again on every cycle.

## Model

| member | source | states |
|---|---|---|
| Summarizer.EffectiveModel | pkg/summarizer/summarizer.go:29-32 | the recorded model is never empty: a given model is kept, and an empty one becomes "mistral" |
| Summarizer.New | pkg/summarizer/summarizer.go:27-46 | if the client cannot be built, no summarizer is returned and the error is wrapped as "failed to create Ollama client: …"; otherwise the summarizer holds that client and the config with its model defaulted |
| Summarizer.EffectiveTemplate | pkg/summarizer/summarizer.go:118-130 | the built-in Jira template is used exactly when the given template is empty; a non-empty template is used as given |
| Summarizer.SummarizeWithCustomPrompt | pkg/summarizer/summarizer.go:115-182 | the request carries the summarizer's model and the effective template formatted with the content; the result is exactly what the collect loop yields for the observed trace |
| Summarizer.SummarizeChanges | pkg/summarizer/summarizer.go:49-112 | the request carries the summarizer's model and the fixed changes template formatted with the changes; the result is the same collection as the custom-prompt call |
| Summarizer.Collect | pkg/summarizer/summarizer.go:163-181 | the consumer loop returns exactly `Collected(trace)`: it stops at the first returning event, with the text of the fragments before it |
| Summarizer.FirstEnd | pkg/summarizer/summarizer.go:164-180 | the loop returns on the first event that is a non-nil error, the closed stream or context cancellation, and no earlier event is one of these |
| Summarizer.TextAppend | pkg/summarizer/summarizer.go:176 | appending fragments is a homomorphism: the text of a concatenation is the concatenation of the texts |
| Summarizer.StreamAssembly | pkg/summarizer/summarizer.go:170-176 | fragments followed by the closed stream yield their in-order concatenation and no error |
| Summarizer.StreamAssemblyExample | pkg/summarizer/summarizer.go:170-176 | the fragments "Over", "view: " and "fix bug", then the closed stream, yield "Overview: fix bug" |
| Summarizer.CancellationDiscardsText | pkg/summarizer/summarizer.go:177-179 | cancellation or the deadline yields "" and the context's own error, whatever was received before |
| Summarizer.ProducerErrorRace | pkg/summarizer/summarizer.go:143-160 | after the same received fragments, seeing the producer error gives "" and "failed to generate summary: …" wrapping it, while seeing the closed stream instead gives no error: the two orders the race allows end differently |
| Summarizer.ErrorChannelClosedIgnored | pkg/summarizer/summarizer.go:165-169 | nil read from the closed error channel, anywhere before the returning event, changes neither the text nor the outcome |
| Summarizer.ResultFrozen | pkg/summarizer/summarizer.go:163-181 | once the loop has returned, later events change nothing |
| Decimal.IntToStringRoundTrip | main.go:107 | the `%d` rendering of an issue number can be parsed back to that number |
| Jira.SummaryLineRoundTrip | main.go:107 | "GitHub Issue #<number>: <title>" determines the number and the title |
| Jira.DescriptionRoundTrip | main.go:108 | the description starts with "Imported from GitHub: " and the URL and ends with the summary; both can be read back when the URL has no line break |
| Jira.BuildPayload | main.go:102-113 | project key "GT" and issue type "Task"; a summary line that parses back to the issue's number and title; a description holding the issue URL and the summary |
| Jira.PayloadExample | main.go:107 | issue #42 "Crash on save" gets the summary "GitHub Issue #42: Crash on save" |
| Jira.CreateJiraIssue | main.go:99-142 | success exactly when the reply is a 2xx response; transport errors are returned unchanged; any other status gives "Jira API responded with status <status>" |
| Poll.IssuePrompt | main.go:74-82 | the template main.go builds holds the issue body between the fixed head and tail text; it is never empty, so the summarizer's default template is never used |
| Poll.Poller.PollGitHub | main.go:46-97 | the new ledger and the summarized, attempted and created IDs equal the cycle specification on the old ledger; a failed listing changes nothing; marked IDs stay marked; only unmarked IDs are attempted |
| Poll.ScanAdvance | main.go:64-95 | one loop iteration past an issue whose summary succeeds: it is summarized; it is attempted exactly when unmarked; it is created and marked exactly when unmarked and Jira answers 2xx |
| Poll.ScanLedger | main.go:87-95 | every created ID is marked afterwards; every other entry of the ledger is exactly as before |
| Poll.ScanLedgerGrows | main.go:87-95 | the ledger only grows: no key is removed, no true entry is cleared, and any entry that is new or changed is true |
| Poll.ScanAttemptsOnlyUnprocessed | main.go:87-89 | only IDs not marked at the start of the cycle are attempted; created IDs were attempted; no ID is created twice in a cycle |
| Poll.ScanCreatesOnlyOnSuccess | main.go:83-94 | every created ID belongs to a listed issue whose summary and Jira creation both succeeded |
| Poll.ScanStopsAtPullRequest | main.go:64-67 | the cycle is the same as the cycle over the issues before the first pull request: nothing at or after it has any effect |
| Poll.ScanSummarizesEveryIssue | main.go:64-87 | with no pull request and no summary error, every listed ID is summarized in order, marked or not, and the process goes on |
| Poll.ScanHaltsOnSummaryError | main.go:83-85 | a summary error halts the process: the failing issue is the last summarized, and the ledger, attempts and creations are those of the issues before it |
| Poll.NextCycleSkipsCreated | main.go:87-91 | an ID created in one cycle, or marked before it, is never attempted in the next cycle |

## Left out

- The GitHub, Jira and Ollama clients are not modelled. Their answers are inputs: the listing, the Jira replies and the summary event traces.
- OAuth, the Jira endpoint URL, basic-auth headers, JSON marshalling and the response body are not modelled. A failing `http.NewRequest` and a failing `client.Do` are both a transport error.
- The scheduler in `main` (main.go:34-44) is not modelled: the one-minute ticker and the initial `go pollGitHub()` that can overlap with the first tick. The ledger is modelled as owned by one cycle at a time.
- The producer goroutine and channel semantics are not modelled. The model takes the order in which the consumer observed events as given, so any interleaving the Go scheduler allows can be expressed.
- `Summarizer.Trace`: every observed trace contains a returning event. The 30-second context deadline guarantees this in the source. A call that never returns is not modelled.
- `fmt.Sprintf` verb semantics are not modelled. The prompt is kept as the unevaluated `Sprintf(format, args)`. One consequence is not captured: main.go formats the body into its template and the summarizer formats that result again with the body. Go then appends a `%!(EXTRA …)` note, or expands any verbs that appear in the issue body.
- `Config.ollamaURL` is carried but never used, matching the source. The client comes from the environment, which is an input to `New`.
- The package-level `sum, _ = summarizer.New(...)` ignores the error. A nil summarizer and the resulting nil dereference are not modelled; the poller takes a built summarizer.
- Nil pointer fields of a GitHub issue, `defer cancel()` accumulating inside the loop, logging, and the environment configuration are not modelled.
- `log.Fatalf` is modelled as `halted` plus a return. Process exit itself is not modelled.
- Integer widths: issue IDs and numbers (`int64`/`int`) are unbounded integers. No wrap-around can occur for them in this code.
