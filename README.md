# MailCat classify-and-route pipeline, modelled in Dafny

MailCat logs in to an IMAP mailbox, lists the UIDs in `INBOX`, and walks them
in batches of 50. For each fetched message it joins the sender addresses with
commas and asks a text classifier for a label. It then maps the label to one
of the configured folders (`INBOX`, `INBOX.Spam`) and moves the message when
that folder is not the inbox. Any error from the mail store or the classifier
panics and ends the run.

The model covers five parts:

- `Text` (text.dfy): the Go `strings` operations the pipeline relies on.
  - `ToLower` folds ASCII only.
  - `TrimSpace` uses the exact `unicode.IsSpace` set.
  - `Join` is modelled together with `Split`, its inverse.
- `Router` (router.dfy): `mapCategoryToFolder` over the configured
  `categories`.
- `Login` (login.dfy): the short-alias rule applied to a typed login.
- `Batching` (batching.dfy): the `start`/`end` arithmetic of the batch loop.
- `Pipeline` (pipeline.dfy): the run itself.
  - The specification functions `ProcessEmail`, `ProcessEmails`,
    `ProcessBatches`, `Run` and `Result` describe the run.
  - The methods `HandleEmail`, `HandleEmails` and `ProcessMailbox` carry the
    program's loops and are proved equal to those functions.
  - The mail store and the classifier are an `Oracle`: the answer to the n-th
    fetch, classification and move. A failing answer is `None`, or `false`
    for a move.
  - What a run does is a trace of `Event`s, one per collaborator call,
    answer and decision: `Fetch`, `Classify`, `Classified`, `Move` and
    `Keep`.

`PipelineProps` (pipeline_props.dfy) proves properties of that run:

- **The trace is well-formed.** Every classifier answer is followed by a move
  to exactly the folder the router gives for it when that folder is not the
  inbox, and by `Keep` otherwise. Every move follows such an answer for the
  same message.
- **Every fetch requests the whole UID list.**
- **A stopped run stopped at its last call**, and the answer to that call was
  the error.
- **An error answer only cuts the run short.** The trace of a run that hits an
  error is a prefix of the trace of the same run with any other answer to
  that call.
- **Within a pass, messages are classified in fetch order, each once.**
- **A completed run fetches once per batch.** That is ceil(N / 50) fetches.
- **No error answer goes unnoticed.** The counters of a run equal the numbers
  of fetch, classifier and move calls in its trace. A completed run got a good
  answer to every call it made. A failed fetch, classification or move is the
  run's last call of its kind and its last event, and the run panics with it.

Two behaviours of the code that a reader might not expect are kept as
written:

- **Whole-list fetch.** Each batch iteration calls `GetEmails(uids...)` with
  the WHOLE UID list (main.go:187). The computed `start..end` range is never
  used. The model keeps this: each `Fetch` event carries the batch range and
  the full request. `EachMessageClassifiedPerBatch` proves the consequence:
  with a store that returns the same messages each time, every message is
  handed to the classifier once per batch.
- **Only `inbox.spam` matches spam.** The router compares the whole normalised
  label with the normalised configured names. So only a label whose normal
  form is `inbox.spam` reaches `INBOX.Spam`. A bare `"Spam"`, `"  Spam  "` or
  `"Other"` stays in the inbox (`UnknownLabelsStayInInbox`).

## Model

| member | source | states |
|---|---|---|
| Text.TrimLeftSpec | main.go:134 | trimming the left drops exactly a prefix made only of white space, and what remains does not start with white space |
| Text.TrimRightSpec | main.go:134 | trimming the right drops exactly a suffix made only of white space, and what remains does not end with white space |
| Text.TrimSpaceEnds | main.go:59 | a trimmed string is empty or starts and ends with a character that is not white space |
| Text.TrimSpaceIdempotent | main.go:134 | `TrimSpace` applied twice equals `TrimSpace` applied once |
| Text.TrimLowerCommute | main.go:134-137 | the label's normalisation (lower, then trim) and the configured name's normalisation (trim, then lower) agree on every string |
| Text.SplitJoin | main.go:193-197 | splitting on `c` the join of a non-empty list on `c` gives the list back, when no element contains `c` |
| Router.FindFolderInList | main.go:136-142 | the search returns the inbox, or an entry of the list whose trimmed, lower-cased form equals the normalised label |
| Router.FirstMatchWins | main.go:136-139 | the first matching entry is returned, spelled as configured |
| Router.NoMatchFallsBack | main.go:142 | when no entry matches, the answer is `INBOX` |
| Router.RouteInCategories | main.go:133-143 | the folder is always one of the configured categories |
| Router.RouteIgnoresCaseAndSpace | main.go:134 | normalising is idempotent, and the folder depends only on the label's normal form |
| Router.InboxKey | main.go:29 | the first configured category normalises to `inbox` |
| Router.SpamKey | main.go:29 | the second configured category normalises to `inbox.spam` |
| Router.SearchPair | main.go:136-142 | over a two-entry list, the search gives the first entry if it matches, else the second if it matches, else `INBOX` |
| Router.SearchCategories | main.go:133-143 | over the configured list, only the key `inbox.spam` finds a folder other than `INBOX`, and that folder is `INBOX.Spam` |
| Router.MovesOnlyToSpam | main.go:203-205 | a label leads to a move if and only if its normal form is `inbox.spam`, and then the destination is `INBOX.Spam` |
| Router.SpamLabelsRoute | main.go:133-143 | `"  inbox.spam \n"` and `"INBOX.SPAM"` both route to `INBOX.Spam` |
| Router.UnknownLabelsStayInInbox | main.go:133-143 | the classifier's fallback `"Other"` (main.go:99), an unknown `"Newsletter"` and a bare `"  Spam  "` all route to `INBOX` |
| Router.NormalizeShort | main.go:134 | normalising never lengthens a label |
| Login.WithAlias | main.go:61-63 | the login is a prefix of the result; the result contains '@' if and only if the login or the alias does; the result equals the login if and only if the login contains '@' or the alias is empty |
| Login.EnteredLogin | main.go:57-63 | the trimmed typed text is a prefix of the login that is used |
| Login.AliasIdempotent | main.go:61-63 | with an alias that holds '@', applying the rule twice equals applying it once |
| Login.LoginFor | main.go:58-63 | for any alias, the trimmed typed text is a prefix of the login sent, and the login holds '@' when the alias does |
| Login.BareLoginGetsAlias | main.go:59-63 | a typed login whose trimmed form has no '@' is sent as that form followed by the alias; one with '@' is sent as its trimmed form |
| Login.LoginForIdempotent | main.go:58-63 | with an alias that holds '@' and has no white space at its ends, typing again the login that was sent gives the same login |
| Batching.BatchesFromShape | main.go:181-185 | the i-th batch from `start` begins at `start + 50 i` and ends at `min(start + 50 i + 49, total)`; there are `(total - start) / 50 + 1` batches, or none when `start > total` |
| Batching.BatchCount | main.go:179-181 | the loop runs ceil(total / 50) times |
| Batching.BatchBounds | main.go:182-185 | each batch lies within `1..total`, holds at most 50 positions, and every batch but the last holds exactly 50 |
| Batching.BatchesTile | main.go:181-185 | the first batch starts at 1, each batch starts right after the previous one ends, and the last ends at `total` |
| Batching.BatchesCover | main.go:179-185 | every position `1..total` lies in exactly one batch |
| Pipeline.HandleEmail | main.go:190-211 | the loop body (the sender copy loop, join, classify, route, move or keep) produces the trace, counters and stop that `ProcessEmail` specifies |
| Pipeline.HandleEmails | main.go:190-212 | the per-message loop produces what `ProcessEmails` specifies, and it returns at the first error |
| Pipeline.ProcessMailbox | main.go:171-215 | the whole processing loop returns the outcome `Result` and the trace `Run`; an empty UID list gives `NoNewEmails` and an empty trace |
| PipelineProps.ProcessEmailShape | main.go:190-211 | handling one message appends the classifier call and, when there is an answer, the answer and its decision; nothing is fetched; a stop happens at that message's last call |
| PipelineProps.EmailBlockFacts | main.go:198-211 | a message's events are well-formed, start with the classifier call, call the classifier once for that message, and fetch nothing |
| PipelineProps.ClassifiesOnce | main.go:199 | handling a message adds exactly that message's UID to the classifier calls |
| PipelineProps.ProcessEmailsKeeps | main.go:190-212 | a pass keeps the earlier trace as a prefix, makes no fetch call, keeps the trace well-formed, and stops at its last call |
| PipelineProps.ProcessEmailsFetchNothing | main.go:190-212 | a pass adds no fetch |
| PipelineProps.PassInOrder | main.go:190-212 | a pass classifies a prefix of the fetched messages, in fetch order, each once; if it does not stop, that prefix is all of them |
| PipelineProps.ProcessBatchesKeeps | main.go:181-213 | the batch loop keeps the earlier trace as a prefix, keeps it well-formed, and stops at its last call |
| PipelineProps.ProcessBatchesFetches | main.go:181-188 | a batch loop that does not stop fetches once per batch, in batch order |
| PipelineProps.RunWellFormed | main.go:171-215 | every answer is followed by a move to the routed folder when that folder is not `INBOX`, and by keeping the message otherwise; every move follows such an answer for the same message; every fetch requests the whole UID list; a stopped run stopped at the call whose answer was the error |
| PipelineProps.CompletedRunFetchesEachBatch | main.go:179-188 | a completed run fetches once for each batch `1..50`, `51..100`, ..., in order |
| PipelineProps.ProcessBatchesRepeat | main.go:181-212 | with a store that returns the same messages on every fetch, each batch that does not stop classifies all of them once more, in order |
| PipelineProps.EachMessageClassifiedPerBatch | main.go:187-199 | with such a store, a completed run classifies the fetched messages once per batch, so ceil(N / 50) times in all |
| PipelineProps.EmptyInboxDoesNothing | main.go:174-177 | an empty UID list gives `NoNewEmails` with no call of any kind |
| PipelineProps.FallbackKeepsSpamMoves | main.go:203-211 | the label `"Other"` leads to keeping the message, and `"INBOX.SPAM"` to a move to `INBOX.Spam` |
| PipelineProps.SendersRecoverable | main.go:193-199 | the sender string handed to the classifier splits back into the sender list, when there is at least one sender and no address holds a comma |
| PipelineProps.ProcessEmailAgree | main.go:199-207 | changing only a failing answer either leaves one message's handling unchanged or only extends its trace |
| PipelineProps.ProcessEmailsExtends | main.go:190-212 | a pass never removes events from the trace |
| PipelineProps.ProcessBatchesExtends | main.go:181-213 | the batch loop never removes events from the trace |
| PipelineProps.ProcessEmailsAgree | main.go:190-212 | changing only a failing answer leaves a pass unchanged when it completes, and otherwise only extends its trace |
| PipelineProps.ProcessBatchesAgree | main.go:181-213 | the same holds for the batch loop |
| PipelineProps.ErrorTruncatesRun | main.go:218-222 | a run that gets an error answer has a trace that is a prefix of the trace of the same run with that answer replaced by any other. So everything done before the error, moves included, is also done without it. A run that completes is unchanged. That nothing happens after the error is stated by `MoveErrorEndsRun`, `ClassifyErrorEndsRun` and `FetchErrorEndsRun` |
| PipelineProps.EmailBlockCounts | main.go:199-207 | a message's events hold one classifier call, no fetch, and a move of that message exactly when the answer routes it away from `INBOX` |
| PipelineProps.ProcessEmailCounters | main.go:199-207 | one message makes one classifier call and at most one move call; if it does not stop the run, the classifier answered and any move succeeded; if it stops the run, the error is the classifier's (no move made) or the move's (after an answer) |
| PipelineProps.ProcessEmailAnswers | main.go:199-207 | handling one message keeps the counters equal to the calls in the trace, and keeps every answer but a stopping error good |
| PipelineProps.ProcessEmailsAnswers | main.go:190-212 | the same holds for a pass over the fetched messages |
| PipelineProps.FetchCounted | main.go:187 | a fetch call adds one fetch to the counters and to the trace, and nothing else |
| PipelineProps.ProcessBatchesAnswers | main.go:181-213 | the same holds for the batch loop, including its fetch calls and their check at main.go:188 |
| PipelineProps.RunCallsAnswered | main.go:171-222 | the counters of a run are the numbers of fetch, classifier and move calls in its trace, and every such call got a good answer except the last call of a stopped run, when the error is of that kind |
| PipelineProps.CompletedRunHadNoError | main.go:187-207 | a run that completes got a good answer to every fetch, classification and move it made |
| PipelineProps.MoveErrorEndsRun | main.go:205-206 | a move that fails is the run's last move and last event, and the run panics with a move error |
| PipelineProps.ClassifyErrorEndsRun | main.go:199-200 | a classification that fails is the run's last classifier call and last event, and the run panics with a classifier error |
| PipelineProps.FetchErrorEndsRun | main.go:187-188 | a fetch that fails is the run's last fetch and last event, and the run panics with a fetch error |

## Left out

- Reading credentials from `credentials.json`, the "use saved account"
  prompt, reading the password and writing the file back (main.go:37-76) are
  I/O. Only the trimming and the short-alias rule (`Login.EnteredLogin`) are
  modelled.
- The classifier request (main.go:78-100) is an answer of the `Oracle`. This
  covers the Gemini client, the prompt built from `categoriesString`
  (main.go:30) and the extraction of the first response part. The fallback
  label `"Other"` is covered by the routing lemmas.
- `printResponse` and `printStruct` (main.go:102-131) only print.
- Connecting and logging in, `GetFolders` and `SelectFolder` happen before any
  message is processed (main.go:146-169). Their errors panic before the loop
  and are not modelled.
- `GetUIDs` (main.go:171-172): the UID list is an input of the run, and an
  error from listing it is not modelled.
- The three-second `time.Sleep` before each message (main.go:191) is timing
  only: one sleep precedes each `Classify` event.
- The log lines' exact text is not modelled. The `Event`s stand for them.
- The retries inside the mail library (`imap.RetryCount`, main.go:147) are
  not modelled. An error answer of the `Oracle` is what remains after them.
- Panics (`check`, main.go:218-222) become `Outcome.Panicked` and the end of
  the trace. The deferred `im.Close` and the process exit are not modelled.
- Text.ToLower: folds ASCII letters only, whereas Go's `strings.ToLower` folds
  every Unicode letter. Labels and configured names are compared after this
  folding.
- Strings are sequences of Unicode code points, not UTF-8 bytes. Invalid
  UTF-8 is not modelled.
- The mail library's own types and iteration order are not part of this
  model. The fetched messages are taken in the order the loop visits them,
  and each sender list in the order it is iterated.
- Login.ShortAlias: the source holds the placeholder `"SHORT_ALIAS"`
  (main.go:24) where a deployment puts its own suffix, which evidently names
  a domain (main.go:57). The login lemmas are stated for any alias, so no
  property depends on the placeholder's text.
- Loop counters are unbounded integers. Go's 64-bit `int` cannot overflow at
  any realistic mailbox size.
