# Judgment Pack Desk: a verified model

A Dafny model of the parts of Judgment Pack Desk that keep state over whole runs, and proofs of what
they keep. Each component is one `.dfy` file (the larger ones two), in the form its source has: an object
whose methods update it is a class, a loop is a loop, a plain computation a function. Concurrency is
modelled step by step: what a mutex, a channel or a file replacement makes atomic is one step, and
anything may happen between two of them.

- `AccountWorld.dfy`, `Account.dfy`: the world of the Codex account manager and its durable cleanup file,
  with crashes between any two writes and native processes that act at any moment, and the manager itself.
- `RunLoop.dfy`, `RunMeaning.dfy`: the event loop of one Codex run, against a declarative description of
  the transcripts it accepts.
- `AgentSocket.dfy`: the reader and the tool handler that share one pending call. `EndToEnd.dfy`: the event
  loop with that handler.
- `Client.dfy`: the RPC client, its callers, its reader, and whoever takes its notices or closes it.
- `Dispatch.dfy`: the workers of a delegated batch. `Admission.dfy`: admission by leases.
- `Ledgers.dfy`, `Versions.dfy`, `Publishing.dfy`, `Paging.dfy`: the ledger of published artifacts,
  the version check, the transactions, and the history served in pages.
- `SemVer.dfy`, `Updater.dfy`: managed updates.
- `Memory.dfy`: project memory. `Requests.dfy`: what each request makes of it. `Provenance.dfy`: which messages stand behind an entry, and what a tombstone
  reaches. `UniqueJson.dfy`: unambiguous JSON. `NightlyTable.dfy`: the nightly table.

`dafny verify dfyconfig.toml` checks everything.

## What is assumed of the world

- Digests identify what they digest, and fresh ids are new. So a publication's identity is the hashed part
  itself, and a tombstone holds the normal form of its text.
- A file is replaced as a whole: a failed write leaves the old content or the new. The cleanup file, which
  is written in place, may be left torn, and a crash may bring back any content it had since the last sync.
- A reaped native process writes nothing more, and its answers name the login it opened; `account/read`
  tells whether credentials are stored; a login that is reported as successful has ended. Clocks do not go
  back.
- Hooks, handlers, the network, the native process and the disk answer anything. Their answers are parameters,
  so that each operation says when it succeeds; what the world does by itself between two steps is not, and
  where success depends on that it is stated for a world that stays as it is (`still`, `alone`).
- The Runtime's version grammar has no slash (`MemoConfuses` shows what the check admits if it has), and its
  comparison of one pair does not change.

## Where the code differs from what is said of it

- `process_linux.go` starts native processes without asking the kernel to end them with Desk. The account
  claim therefore holds over a crash exactly when no process left behind still has a login open
  (`CrashIsSafeExactlyWhenTame`, with the run that shows the other case in `OrphanCompletes`).
- `complete` can report a login as failed whose account stays usable. It does so exactly if the login passed
  every check, the cleanup file was removed but the directory could not be synced, and the file could then not
  be looked up or created again, while the account is still stored (`Manager.Complete`, with the run in
  `FailedYetUsable`).
- The paging cursor does not get past a document larger than one reading (`FollowingEndsExactlyWhenRowsFit`).
- A staged review without a time would leave an unreadable ledger if it were recovered
  (`RecoveredIsReadable`); the writer never stages one.
- A memory save or remember command that carries an id can leave two active entries of one key
  (`OneActiveExactlyWhen`, `TwoActive`, `TwoActiveByCommand`).
- What was forgotten can come back: a suggestion that carries an id puts its message's text into an entry that
  records another message, and forgetting the entry buries only that other one. Forgetting reaches every message
  whose text an entry ever held exactly if every stored suggestion was recorded under the key it was stored under (`EveryRunIsTraceableExactlyWhen`,
  `ForgettingReachesExactlyWhen`, `ForgottenComesBack`).
- In the same way an unasked suggestion can be stored under a key that has a tombstone (`TombFreeExactlyWhen`,
  `StoredUnderATomb`).
- The client's limit of 64 is on calls without an answer: one that was answered and has not yet returned does
  not count (`Client.Client.Register`).
- The updater's digit class takes every Unicode decimal digit, so one version can have two texts
  (`OtherDigitsAreAmbiguous`).

## Model

| member | source | states |
|---|---|---|
| AccountWorld.EveryRunIsSafe | internal/codexbridge/account.go:199-267 | Over every run with crashes at any moment, up to one that leaves an open login behind: a stored account is usable only if that login was accepted by `complete` before; without the cleanup file no live process can still complete a login; a pending login keeps the file; at most one un-reaped process; an active run excludes a login and a cleanup |
| AccountWorld.StepKeepsInv | internal/codexbridge/account.go:134-231 | Every write, native action, launch, login, acceptance, change of memory and safe reopening keeps the invariant |
| AccountWorld.NothingIsAdmittedWhileDisconnecting | internal/codexbridge/account.go:417-447 | For as long as the manager disconnects or is closed, over any steps, no run and no login is admitted |
| AccountWorld.CrashIsSafeExactlyWhenTame | internal/codexbridge/process_linux.go:8-11 | Every continuation of a reopened profile uses accepted logins only if and only if no process left behind has a login open |
| AccountWorld.OrphanCompletes | internal/codexbridge/account.go:199-231 | The run in which a process left behind stores credentials after the next manager's reset |
| Account.FailedYetUsable | internal/codexbridge/account.go:504-528 | Through `Complete` itself: a login that passed every check is reported failed after the double fault, and its account is usable |
| Account.SignInAndOut | internal/codexbridge/account.go:234-447 | With nothing in the way a stored login is accepted, its owner is told signed in, has a run, signs out, is told signed out, and somebody else can begin to sign in |
| Account.AnyHistory | internal/codexbridge/account.go:76-552 | Any operations, completions, waits and crashes leave the manager ready for the next one, on a run that `EveryRunIsSafe` speaks about |
| Account.Manager.NeedsCleanup | internal/codexbridge/profile.go:223-236 | Tells whether cleanup is owed and refuses a torn file |
| Account.Manager.MarkCleanup | internal/codexbridge/profile.go:197-243 | Succeeds exactly if no step of it failed and no torn file is there, and then the file is durable; what is left of it otherwise is exactly as far as it got |
| Account.Manager.ClearCleanup | internal/codexbridge/profile.go:244-249 | Removes the file only where nothing unaccepted is stored or can be stored; says whether that is durable |
| Account.Manager.Spawn | internal/codexbridge/account.go:134-169 | A client is there afterwards exactly if the manager is open and its process has not stopped, or a new one starts and answers; it has the only un-reaped process |
| Account.Manager.ReadAccount | internal/codexbridge/account.go:188-194 | Says whether credentials are stored, and changes nothing itself |
| Account.Manager.Reset | internal/codexbridge/account.go:199-233 | Ends the attempt with its outcome, reaps every process, and if done leaves no account and durably no cleanup file; done exactly if the file is marked, the logout and the look after it are answered, no account is left and the file is durably removed; fails to mark exactly if a step of marking failed, and the file is then as far as it got |
| Account.Manager.Ready | internal/codexbridge/account.go:234-267 | An expired, abandoned or broken attempt ends with its outcome, and no other; ready exactly if the cleanup that is owed gets through and there is a client |
| Account.Manager.Status | internal/codexbridge/account.go:269-316 | Login pending exactly while an attempt is under way; otherwise, if the look is answered, signed in exactly if an account is stored, which is then accepted and usable; the last outcome, and that an attempt waits, are told to the owner, always and to no one else |
| Account.Manager.StartLogin | internal/codexbridge/account.go:318-403 | Starts exactly if the owner is alive, nothing else is under way, the manager gets ready, nobody is signed in, the file is marked and the challenge comes; a started login has the durable cleanup file, a live owner and time left; a refused one leaves none |
| Account.Manager.CancelLogin | internal/codexbridge/account.go:405-416 | Exactly the owner's own attempt is canceled, and then it is gone |
| Account.Manager.Abort | internal/codexbridge/account.go:448-461 | Ends exactly the attempt of that id, as expired or canceled |
| Account.Manager.WatchDone | internal/codexbridge/account.go:463-503 | Only the current client's end fails the attempt |
| Account.Manager.Complete | internal/codexbridge/account.go:504-528 | Accepts exactly a matching login, reported as a success, of a live owner, in time and stored; a login reported failed is usable if and only if it passed every check and met the double fault, with its account still stored |
| Account.Manager.LogoutBegin | internal/codexbridge/account.go:417-447 | Sets `disconnecting` unless closed or already disconnecting |
| Account.Manager.LogoutFinish | internal/codexbridge/account.go:417-447 | A successful logout ends with no run, no attempt, no process, no account and durably no cleanup file; it succeeds exactly if the reset does, and a closed manager does nothing |
| Account.Manager.CloseFinish | internal/codexbridge/account.go:532-552 | Close reaps everything and leaves the stored account and the cleanup file |
| Account.Manager.AdmitRun | internal/codexbridge/run.go:75-122 | A run is admitted exactly when idle, open, ready without a cleanup, and signed in with an accepted account |
| Account.Manager.EndRun | internal/codexbridge/run.go:127-140 | The run's process is reaped before the next run can be admitted |
| RunMeaning.LawfulIsDeclared | internal/codexbridge/run.go:173-396 | The loop's frame by frame checks accept exactly the transcripts described as a whole: fresh RPC and call ids, no delta or completion after completion, one message equal to what was streamed, the limits |
| RunMeaning.EndedRunIsFaithful | internal/codexbridge/run.go:286-360 | When a run ends well, the deltas of each item concatenate to nothing or to its one message, nothing streamed is open, and the turn is the run's own |
| RunMeaning.EveryRunIsBounded | internal/codexbridge/run.go:178-206 | However a run ends: at most 2 MiB of text, retries 1 and 2, 20 calls (4 for a critic), each call under a new id |
| RunMeaning.EveryAnswerIsToItsCall | internal/codexbridge/run.go:219-284 | Every answer sent is the handler's answer to one call of the transcript, for an offered tool, under that call's RPC id and no other's |
| RunMeaning.ForwardedContent | internal/codexbridge/run.go:297-347 | What is forwarded under an item's opaque id is what was streamed and finished of that item |
| RunMeaning.TextsMean | internal/codexbridge/run.go:286-348 | The tables of texts and completions hold what each item streamed and whether it finished |
| Transcript.LawfulIsBounded | internal/codexbridge/run.go:173-216 | A transcript that goes on keeps every counter within its limit |
| RunLoop.EventLoop | internal/codexbridge/run.go:208-396 | Goes on past exactly the admitted frames that meet no fault, and ends at the first other one with exactly its verdict: well, refused with the reason, or stopped by what stopped it; the events and answers are those of exactly the frames admitted, and no answer is over 1 MiB |
| RunLoop.OutcomeMeans | internal/codexbridge/run.go:208-396 | Only an admitted frame is followed by another, and without a fault every one is |
| RunLoop.RefusedForLimits | internal/codexbridge/run.go:213-389 | A refused frame is refused for a limit exactly if only the counts of the run are against it, and for its retries exactly if it announces one too many or says that they were in vain |
| RunLoop.ItemID | internal/codexbridge/run.go:181-196 | An item keeps its opaque id, a new one gets a new id, and there are at most 256 |
| RunLoop.OnToolCall | internal/codexbridge/run.go:219-284 | A call reaches the handler once and only if every check passed, and is answered at most once |
| RunLoop.OnDelta | internal/codexbridge/run.go:287-304 | A delta is admitted and forwarded exactly as the law says |
| RunLoop.OnStarted | internal/codexbridge/run.go:305-331 | A started item is admitted exactly as the law says |
| RunLoop.OnCompleted | internal/codexbridge/run.go:305-348 | A completion is admitted and forwarded exactly as the law says |
| RunLoop.OnTurn | internal/codexbridge/run.go:349-360 | The run ends well exactly on its own completed turn with no open text |
| RunLoop.OnError | internal/codexbridge/run.go:361-389 | A retry is announced at most twice, and any other error ends the run |
| AgentSocket.Session | internal/desk/agent_run.go:150-220 | Whatever the interleaving, the input and the cancellation: the two goroutines do what one would, call after call, never finding a call pending and never blocking on the answer channel, and both end |
| AgentSocket.EachCallIsAnsweredOnce | internal/desk/agent_run.go:165-220 | In what one goroutine does each call is asked, shown, answered and returned at most once, and returned with the browser's answer to that call |
| AgentSocket.Read | internal/desk/agent_run.go:154-182 | The reader accepts exactly the answer to the pending call; anything else ends the session |
| AgentSocket.Handle | internal/desk/agent_run.go:200-219 | The handler asks, shows and returns in turn, and ends only when the run, the socket or the context does |
| EndToEnd.BrowserRun | internal/desk/agent_run.go:200-219 | The loop with the socket's handler: every answer that is sent is the browser's one answer to that very call, which was shown to it; it goes back under that call's RPC id, and nothing happened to a later call by then |
| Client.AnyHistory | internal/codexbridge/protocol.go:71-106 | For every interleaving of the callers, the reader, whoever takes notices and whoever closes the client: what happens is a lawful history |
| Client.LawfulMeans | internal/codexbridge/protocol.go:71-180 | In a lawful history a number is asked once and only while fewer than 64 calls wait, and a call is refused only while 64 do; a response is delivered exactly if its call waits and it says something, and an unknown, repeated or empty one is the last line; a call comes back once, and a success has the one response its number got; notices are taken in order |
| Client.Client.Register | internal/codexbridge/protocol.go:144-157 | A new number and an empty channel, unless 64 calls are unanswered |
| Client.Client.Send | internal/codexbridge/protocol.go:125-143 | A failed write stops the client; an oversized request does not |
| Client.Client.Select | internal/codexbridge/protocol.go:161-179 | A call succeeds exactly with a frame of its own number, in time, without an error and decodable; an error, a cancellation and a stopped client have each their own outcome; once the client has stopped, every caller can leave |
| Client.Client.Return | internal/codexbridge/protocol.go:157-170 | The result is the one response its number got |
| Client.Client.Match | internal/codexbridge/protocol.go:71-86 | A response goes to its waiter, the first of its number; an unknown, repeated or empty one is the end |
| Client.Client.Hand | internal/codexbridge/protocol.go:86-87 | The waiter's channel is empty when the reader delivers, so the reader does not block |
| Client.Client.Enqueue | internal/codexbridge/protocol.go:88-98 | Notices keep their order; a full queue is the end |
| Client.Client.End | internal/codexbridge/protocol.go:101-104 | The end of the reader stops the client |
| Client.Released | internal/codexbridge/protocol.go:161-180 | Once the client has stopped, every caller comes back by its own steps, with an answer only if it got one before |
| Dispatch.Run | internal/delegation/tasks.go:93-183 | For every schedule, hook behaviour and cancellation: claims in order, each task once, executed only after its running transition, at most `concurrency` at once, every task closed once unless its running transition failed, which happens at most once a worker; blamed on a hook exactly if a transition failed or something fatal came back, stopped exactly if not and the caller withdrew, and nil exactly otherwise, and then every task was executed and committed as complete or failed |
| Dispatch.Check | internal/delegation/tasks.go:94-106 | A batch is accepted exactly if it is valid, queued and distinct |
| Dispatch.Conclude | internal/delegation/tasks.go:141-155 | The closing record: complete, failed with its reason, or interrupted exactly after cancellation, and always readable |
| Dispatch.InvMoves | internal/delegation/tasks.go:124-166 | A worker's step about its own claim keeps what holds between any two steps |
| Dispatch.InvClaims | internal/delegation/tasks.go:126-133 | So does the claim under the mutex |
| Dispatch.InvCancels | internal/delegation/tasks.go:112-119 | So does the cancellation, apart from the error that was set before it |
| Dispatch.InvWithdraws | internal/delegation/tasks.go:108-109 | The end of the caller's context keeps it |
| Dispatch.LeaveKeeps | internal/delegation/tasks.go:170-178 | What no worker took is closed as interrupted, once |
| Admission.AnyHistory | internal/delegation/capacity.go:22-61 | At every moment of any use, with repeated releases, throttling and time passing: at most four leases of a key are out, at most two of them background |
| Admission.Capacity.Take | internal/delegation/capacity.go:22-50 | Granted exactly if there is room: fewer than four, two of them background, one if throttled; refused with a channel that is open |
| Admission.Capacity.RoomMeans | internal/delegation/capacity.go:33-41 | Room is fewer than four leases of the key, fewer than two of them background for background work, and none while it is throttled |
| Admission.Capacity.Release | internal/delegation/capacity.go:45-59 | Ends one lease, drops the entry exactly if nobody holds it and it is not throttled, closes the channel that waiters hold; a second call changes nothing |
| Admission.Capacity.Throttle | internal/delegation/capacity.go:95-108 | The key is throttled and no lease is lost |
| Admission.Capacity.LeasesAreWithinLimits | internal/delegation/capacity.go:33-44 | At most four leases of a key are out, two of them background |
| Ledgers.Read | internal/desk/artifact_publications.go:71-112 | The ledger is accepted exactly if it is well formed |
| Ledgers.Admit | internal/desk/artifact_publications.go:113-127 | A candidate is admitted exactly if no identity would name two contents |
| Ledgers.IdentitiesNeverChange | internal/desk/artifact_publications.go:113-127 | Nothing a ledger ever named comes to name another content in a later one |
| Versions.Check | internal/desk/artifact_publications.go:272-343 | With its memo, admits exactly what comparing every pair anew admits, if that takes no more than 256 comparisons; with any Runtime it computes `Every` of the candidates |
| Versions.NeedsMean | internal/desk/artifact_publications.go:284-341 | What is compared is each candidate with itself and with every release it must exceed |
| Versions.AdvancingIsGreater | internal/desk/artifact_publications.go:307-341 | Content new to an artifact has a version greater than every version the ledger held of it |
| Versions.BindingsNeverGoBack | internal/desk/artifact_publications.go:299-306 | An alias or path kept for an artifact keeps its content or gets a greater version than in the locked base |
| Versions.KeysAgree | internal/desk/artifact_publications.go:273-278 | Two pairs with candidates without a slash have one memo key only if they are one pair |
| Versions.MemoConfuses | internal/desk/artifact_publications.go:275-278 | With slashes in versions the check admits a publication that the Runtime, asked anew, finds to go back |
| Versions.FindReleases | internal/desk/artifact_publications.go:307-313 | Collects the artifact's releases and whether the content is known |
| Publishing.AnyHistory | internal/desk/artifact_publications.go:156-380 | Any transactions in any order, failing anywhere, leave a chain of readable ledgers that only grow by appending, in which every checked publication advanced |
| Publishing.Store.Begin | internal/desk/artifact_publications.go:158-268 | Opens exactly for reviewed bytes that are whole, on a readable ledger, when what the lock pins can be recovered and no identity would name two contents (short of a full ledger); the candidate is of exactly those bytes, and its base is what the lock pins: the first publication of that content, or the recovered one |
| Publishing.Store.Recover | internal/desk/artifact_publications.go:174-249 | If the ledger has what the lock pins, that is the base and nothing is written; if not, what is written and the base are the staged publication if it is of that content, with its reviews, and otherwise a copy marked as imported; it succeeds exactly if the pinned bytes and the staged review can be read, no identity would change and the file is written |
| Publishing.Store.Commit | internal/desk/artifact_publications.go:344-380 | The ledger is afterwards the old one or the one with the candidate, recorded as checked; success is exactly a ledger within its limits that is written, or already there |
| Publishing.Store.RetainReceipt | internal/desk/dialect_publications.go:533-563 | A receipt names a known publication and is never changed; retained exactly if it was so before, or the publication is known, there is room and the file is written |
| Publishing.Store.LockConfirmed | internal/desk/review.go:899-942 | A confirmed lock ends with its content in the ledger; any other end has its reason: not opened, turned down by the version check, not staged, not locked or not written; the staged review is of exactly the reviewed bytes with the accepted reviews |
| Publishing.Store.PublishDialect | internal/desk/dialect_publications.go:350-392 | A request that is done is answered with what it published and writes nothing; any other is saved exactly if its base is still the newest publication of that dialect, no identity would change, the version check admits it and the file is written |
| Publishing.PublishBoth | internal/desk/dialect_publications.go:355-366 | Of two requests to publish a dialect on one base, with any transactions in between, at most one is saved |
| Publishing.AdmitReviews | internal/desk/project_artifact_review.go:273-284 | Reviews join the candidate without changing its content |
| Publishing.RecoveredIsReadable | internal/desk/project_artifact_review.go:299-317 | Recovering a staged review leaves a readable ledger exactly if it has a time and no broken review |
| Publishing.FromSnapshot | internal/desk/artifact_publications.go:128-143 | A sound publication of exactly the snapshot, or none if an artifact has no identity |
| Paging.Page | internal/desk/artifact_publications.go:424-464 | The newest unseen rows that fit, newest first, and the cursor of the next page; refused exactly if a document of that page cannot be read |
| Paging.PageIsFull | internal/desk/artifact_publications.go:446-454 | A page has at most 25 rows of at most 8 MiB together, and one row more would be too many or too large |
| Paging.RowsAreExactly | internal/desk/artifact_publications.go:428-443 | The rows are the artifact's documents, one a release and publication |
| Paging.FollowingGivesEveryRow | internal/desk/artifact_publications.go:444-464 | Following the cursor to its end gives every row once, newest first, even if publications are appended meanwhile |
| Paging.FollowingEndsExactlyWhenRowsFit | internal/desk/artifact_publications.go:450-454 | It comes to its end exactly if every document fits the budget |
| Paging.CursorStays | internal/desk/artifact_publications.go:446-454 | A grown ledger shows behind a cursor what it showed before |
| SemVer.ParsesWhatItShows | scripts/desk-update.py:32-38 | Every version is read back from its text |
| SemVer.ShowsWhatItParses | scripts/desk-update.py:32-38 | An ASCII text without v is the only one of its version |
| SemVer.OtherDigitsAreAmbiguous | scripts/desk-update.py:32-38 | With any other decimal digit there are two texts for one version |
| SemVer.OneIsNewer | scripts/desk-update.py:32-38 | Of two versions exactly one is newer, unless they are the same |
| SemVer.NumbersCountInTurn | scripts/desk-update.py:32-38 | A greater number makes a version newer, whatever follows it |
| Updater.ActivationIsSound | scripts/desk-update.py:252-263 | Activation goes forward only to a newer version |
| Updater.OneVersionOneManifest | scripts/desk-update.py:229-238 | Current, previous and pending naming one version are one manifest |
| Updater.Installation.RollBackTwice | scripts/desk-update.py:252-263 | Two successful rollbacks, with any steps of other processes in between, restore current and previous; one exchanges them |
| Updater.VersionsOnlyRise | scripts/desk-update.py:252-263 | Over any history, every move between two moments without a rollback went to a newer version |
| Updater.Installation.Check | scripts/desk-update.py:126-137 | At most daily unless forced; a failure keeps the last answer |
| Updater.Installation.Begin | scripts/desk-update.py:191-197 | A download begins exactly for a newer release with an asset; a release that is not newer is no failure |
| Updater.Installation.Place | scripts/desk-update.py:223-233 | A release directory is made once and never replaced |
| Updater.Installation.Record | scripts/desk-update.py:234-239 | On the state as it is then, only a newer release becomes pending |
| Updater.Installation.Activate | scripts/desk-update.py:252-263 | A verified release that waits becomes current, what was current becomes previous and nothing waits; a rollback exchanges the two and turns automatic updates off; without a target, or if it does not verify, nothing changes |
| Updater.Installation.Launch | scripts/desk-update.py:265-291 | What waits when it activates, which is the release it just fetched, if it had to and could, and else what waited before, runs if it verifies; if nothing waits, what was current runs; never an older one than was installed |
| Updater.Installation.Install | scripts/desk-update.py:304-308 | The latest release, if it is newer, is fetched and verifies, is current afterwards; if anything fails, what was current stays |
| Updater.FirstRun | scripts/desk-update.py:265-308 | What is installed with nothing in the way runs |
| Updater.UpAndBack | scripts/desk-update.py:252-312 | A launch fetches and runs a newer release, and after a rollback the next launch runs the one before |
| Updater.Installation.AnyHistory | scripts/desk-update.py:293-318 | Over any interleaving with abandoned downloads: pending is newer than current, every move forward raises the version, directories are write-once |
| Memory.ApplyMemory | internal/desk/ai_memory.go:225-356 | The code computes the change as described |
| Requests.SettingUpIs | internal/desk/ai_memory.go:229-234 | The given settings are stored, and nothing else changes; without settings it is refused |
| Requests.ClearingIs | internal/desk/ai_memory.go:235-241 | No entry is left, the tombstones are those before and those of every entry, and history up to now is cut off |
| Requests.ForgettingIs | internal/desk/ai_memory.go:242-257 | Exactly the entries of the key of the named entry go, the others stay in order, and the tombstones are those before and those of what went |
| Requests.ApprovingIs | internal/desk/ai_memory.go:258-355 | Exactly an entry that is found, with text and files that may be said, becomes active with its own text and files, and any other active one of its key is superseded |
| Requests.EditingIs | internal/desk/ai_memory.go:258-355 | The same with the new text and files, and the tombstones of its key and that text go |
| Requests.SavingIs | internal/desk/ai_memory.go:277-355 | A save is accepted exactly if key, text and files may be said and there is room, and is then stored as an active entry, in the place of its id or at the end, without the tombstones of its key and text |
| Requests.SuggestingIs | internal/desk/ai_memory.go:291-355 | A suggestion is accepted exactly if its message is there, dated after the cutoff and not buried, and, unless the message asks for it, suggestions are on and it is under no tombstone; it is stored active exactly if asked for, and a repeated one changes nothing |
| Requests.HashIsWords | internal/desk/ai_memory.go:118-120 | Texts are compared by their words in lower case, with single spaces between |
| Requests.CommandsAsk | internal/desk/ai_memory.go:190-197 | What a message asks to be remembered is the rest after its command |
| Memory.Restore | internal/desk/ai_memory.go:325-333 | The filter that reuses its list leaves exactly the other tombstones, in order |
| Memory.Saved.Request | internal/desk/ai_memory.go:385-403 | A change is stored exactly if it is acceptable, fits and is written, and then as a whole; otherwise the file is as it was |
| Memory.EveryRunIsInOrder | internal/desk/ai_memory.go:225-356 | Over any changes the stored document can be read (distinct ids, 256 entries, 4096 tombstones), and one entry a key is active at every moment if and only if no stored change misplaces one |
| Memory.OneActiveExactlyWhen | internal/desk/ai_memory.go:334-349 | Every change keeps one active entry a key, except exactly a save or a remember command whose id names an entry of another key beside an active one of that key |
| Memory.TwoActive | internal/desk/ai_memory.go:334-349 | A save after which two entries of one key are active |
| Memory.TwoActiveByCommand | internal/desk/ai_memory.go:334-349 | A remember command after which two entries of one key are active |
| Memory.ForgottenStaysForgotten | internal/desk/ai_memory.go:121-130 | Once a source is buried it stays buried, no entry comes from it, and every later suggestion that cites it is refused |
| Provenance.ForgettingBuriesExactly | internal/desk/ai_memory.go:242-257 | Forgetting an entry buries exactly the messages that entries of its key record, and those buried before |
| Provenance.TraceableExactlyWhen | internal/desk/ai_memory.go:341-354 | A stored suggestion leaves every entry's messages within reach of a forget exactly if the entry it names, or another of that key, records the cited message, or it names none |
| Provenance.EveryRunIsTraceableExactlyWhen | internal/desk/ai_memory.go:225-356 | Over any run: at every moment forgetting would bury whatever message's text an entry ever held, if and only if every stored suggestion was recorded so |
| Provenance.ForgottenTextStaysOut | internal/desk/ai_memory.go:225-356 | A message whose text was ever in an entry that is forgotten or cleared is never stored again, whatever follows, if the suggestions before were recorded |
| Provenance.ForgettingReachesExactlyWhen | internal/desk/ai_memory.go:235-257 | After the entry of a stored suggestion is forgotten, its message is refused if and only if it was recorded; a command that was not is stored again |
| Provenance.ForgottenComesBack | internal/desk/ai_memory.go:341-349 | The input: the text of a forgotten entry is stored again from the same message |
| Provenance.TombFreeExactlyWhen | internal/desk/ai_memory.go:307-349 | What an unasked suggestion stores is under no tombstone exactly if the entry it names is under none by its key and the message it records, or it names none |
| Provenance.StoredUnderATomb | internal/desk/ai_memory.go:341-349 | The input: an unasked suggestion is stored under a blocked key |
| Memory.ClearedHistoryStaysOut | internal/desk/ai_memory.go:235-306 | Over any run, once a clear was stored, every suggestion stored later cites a message from after that clear |
| Memory.RestoresExactly | internal/desk/ai_memory.go:325-333 | A human's save or edit takes away exactly the tombstones of its key and text |
| UniqueJson.UniqueJSON | internal/desk/ai_connections.go:67-110 | Accepts exactly one value and the end of the input, with no repeated name and nothing deeper than 32 |
| UniqueJson.AcceptsExactly | internal/desk/ai_connections.go:67-110 | The same of any sequence of tokens |
| UniqueJson.Walk | internal/desk/ai_connections.go:70-109 | Consumes exactly the value's tokens |
| NightlyTable.TakingUndoesDealing | scripts/mutation-nightly-table.py:83-90 | Taking rows in turn restores the order in which they were dealt, for every number of rows and shards |
| NightlyTable.Gather | scripts/mutation-nightly-table.py:76-91 | The rows of a half in order, and a row for every shard that is missing |
| NightlyTable.EachRowIsCountedOnce | scripts/mutation-nightly-table.py:93-102 | Every row is in exactly one of caught, survivor, inconclusive and not run |
| NightlyTable.Sort | scripts/mutation-nightly-table.py:93-102 | The lists are those rows, and what is left over is what was caught |
| NightlyTable.Report | scripts/mutation-nightly-table.py:75-121 | Clean exactly if both halves ran, no shard is missing and every row was caught |
| NightlyTable.Overlay | scripts/mutation-nightly-table.py:61-73 | The merged record has, for each key, what the last shard that changed it says |
| NightlyTable.OrderDoesNotMatter | scripts/mutation-nightly-table.py:63-73 | Where no two shards change one key, the order of the shards does not matter |

## Left out

- HTTP, WebSocket and process plumbing, file systems, locks and archives as such: their outcomes are parameters or free choices.
- The catalog of models, login addresses and account contracts: one free answer each.
- `Manager.models` and the polling of `admitRun`: waiting only delays an admission that is modelled.
- `Capacity.wait`: a loop of `Take` and the channel it returns; that no release is missed is in `Take` and `Release`.
- The initial handshake of the RPC client and its timeouts: a call that is cancelled stops the client, as modelled.
- `recallMemory`: a bounded selection that changes nothing.
- Updater downloads, archives and signal handling: `fetched` and `intact` say how they came out.
- Malformed queries of the paged history.
- Versions.Check: takes the Runtime's answers as one table for the length of a check.
- Publishing.Store.Begin: does not say which transactions open on a ledger that is full or one publication short of it.
- `checkUpgradePublication`: it builds a transaction for the same version check and commits nothing.
- Unicode case and space in memory texts: those of ASCII are modelled.
- Text layout of the nightly tables and the issue text: rows are pairs of a name and a verdict.
- The impact check of reviews and the runtime lock itself: free answers between the steps of `LockConfirmed`.
- Liveness under scheduling: the batch, the socket session and the walks end if their hooks answer; fairness among waiters is not modelled.
