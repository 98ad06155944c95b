# A verified model of the capture assistant

The repository is a single-user assistant: messages are captured into an inbox table, voice notes
are transcribed, a language model turns each text into one item, and a gatekeeper decides what may
be done now within a weekly capacity. This project models that pipeline and its supporting
algorithms in Dafny 4.11 and proves what holds over every input, every run and every interleaving
of transactions. `dafny verify dfyconfig.toml` checks all of it.

## The parts

- `Wrappers`, `PyText`: optional values, raised exceptions, and the Python text operations used
  (`strip`, `int`, `str`, `isdigit`).
- `Gatekeeper`: from one model answer to the stored item. Capacity is counted in minutes, so the
  division by 60 disappears.
- `Tables`: the tables; each function is one transaction. `TableLaws`: which columns each one writes,
  what the sweeps select, and how each moves what is left of the week.
- `Pipeline`: the step system. A state is the tables plus the open jobs; a step is one transaction
  or the end of a job; everything between two transactions is a free choice of the step; a crash
  drops every job and keeps the tables.
- `PipelineSafety`: what every interleaving keeps. `ExactlyOnce`: one item per text, and progress.
  `Capacity`: the overcommit bound, and where the minutes of the week go. `OverrideLog`: the
  calibration log.
- `Commands`: what "/done" changes. `Jobs`, `App`: the jobs and sweeps run from start to end, the
  class whose methods update the tables step by step, and the proof that an uninterrupted job is a
  run of the step system.
- `Polling`: the offset protocol. `Settings`, `SettingsHistory`: the settings store as a cache and
  the client registry; `SettingsOverlap`: the same with queries and cache entries as separate events.
- `Redaction`: the substitutions and their completeness; `RedactionKeeps`: what they keep.
- `RateLimiter`, `Goals`, `MorningBrief`, `Reminders`, `DailyGate`: the other self-contained algorithms.

Classes are used where the source updates fields in place. Each method is proved equal to a
function on values, and the laws are lemmas about those functions.

## Where the code differs from what is promised

- Triage is documented as never raising (`app/triage.py:3`). Cleaning an answer raises exactly when
  the effort or the score is text that `isdigit()` accepts after its dashes are dropped and `int()`
  refuses: two or more dashes, a digit that is not decimal (as in "²"), or more than 4300 digits
  (`JudgeRaises`; one text of each kind in `RaisingTexts`). The insert refuses exactly the answers
  that put a NUL character, or an effort beyond the int column, into the row (`StorableIff`). The job
  raises exactly when it reaches such an answer, a weekly capacity too large for a float, or a settings
  read, a query, a model client or a transaction that raises, none of which it guards
  (`TriageRaisesIff`). Whatever fails, an unprocessed row with text gets an item exactly when it
  becomes processed (`ItemIffProcessed`).
- Every row is documented as classified exactly once (`ARCHITECTURE.md:83`). A sweep of a row that
  can still yield an item leads to no second item, as long as later sweeps are exclusive too, exactly
  when no handler or job holds the row (`SweepSafeIffAlone`). Otherwise it can be continued to a
  second item with no further sweep (`HeldRowDuplicates`), even if scheduled jobs never overlap
  (`LateHandlerDuplicates`).
- The transcription job is documented as never raising (`app/transcribe/orchestrator.py:4`). It
  raises exactly when the client cannot be looked up, the audio cannot be written or recorded, the
  row cannot be marked as failed, the transcript cannot be stored, a reply fails, or the triage of
  the transcript raises (`TranscribeRaisesIff`).
- No capture is to be lost (`app/capture.py:1`), but the polling loop stores the next offset even when
  the handler raised (`app/main.py:58-65`). An update below the offset that no gate stopped has its row
  unless some handling of it raised before its insert (`StoredUnlessLost`); such a message never gets
  a row from polling again (`RaisingHandlerLoses`). What does get in is from listed users only
  (`RowsAreAdmitted`).
- A reminder is documented as sent exactly once (`app/reminders.py:3`). The sends of a stamped task
  number one plus the iterations aborted after such a send began, so it was sent once exactly when
  there was none (`StampedSends`); `SentTwice` gives a run whenever anything is due.
- The send-time validator accepts any decimal digit (`app/admin/forms.py:15`). The gate opens at the
  meant minute for every clock reading exactly when the accepted text is ASCII (`GateIsRightIffAscii`).
- The admin page closes items with the unguarded call (`app/items_view.py:112`). The log counts an
  item's real completions exactly when no unguarded call meets it already done (`LogCountsIff`).
- Triages between snapshot and commit can all see the last free minute. `OvercommitBound` bounds what
  is accepted, and `BoundReached` attains the bound for every week of at least one hour, every
  number of triages in flight and every largest effort (as far as the int column holds it).
- Five failures lock an IP out, but only sequential logins make any six of them span the window. With
  k attempts between check and record it is any 5 + k (`OverlapBound`), and no fewer
  (`OverlapBoundReached`).
- An invalidation of the settings cache holds exactly when no resolve of the key has a value from
  before the write between its query and its cache entry (`InvalidationHoldsIff`); the transparency laws are about operations that do
  not overlap, and `OverlappingStaleness` is the bound for those that do. A client built from a stale
  token has no expiry and stays until another write drops it (`ClientGoesStale`); waiting for the registry's lock does not
  prevent it (`WaitingReloadGoesStale`), and `ReloadHoldsIff` says exactly when it cannot happen.
- A daily broadcast begins once plus the iterations aborted before its date was stored
  (`CompletedBroadcasts`); `BroadcastTwice` gives a run whenever one is due.

## Model

| member | source | states |
|---|---|---|
| PyText.IntRoundTrip | app/settings_store.py:349-357 | int(str(n)) is n exactly for the integers that str() can print, negative ones included |
| PyText.ParsedIsPrintable | app/constitution.py:43-46 | every number that int() returns can be printed again |
| PyText.SignsAreRead | app/constitution.py:43-46 | int() takes one sign before the digits |
| PyText.NextDigit | app/constitution.py:43-46 | a further decimal digit of any script counts ten of the number before it, with or without one underscore in between |
| PyText.SpacesAround | app/constitution.py:43-46 | int() ignores surrounding spaces |
| PyText.StripIsUnique | app/triage.py:42-45 | stripping removes the surrounding spaces and nothing else, and its result is the only text of which that is true |
| PyText.BlankIffAllSpaces | app/triage.py:182 | text counts as blank exactly when every character is a space |
| Gatekeeper.GateRule | app/triage.py:79-114 | "do it now" is stored exactly when asked for, with a trade-off named and capacity left; a refusal becomes "schedule" with the one flag that says why; each of the four other decisions is stored as sent, with its reason, and what is no decision becomes "schedule" |
| Gatekeeper.DraftInRange | app/triage.py:42-80 | stored effort is positive, score in 0..25, kind and decision valid, title non-empty and exactly the first 200 characters of the model's title, or of the text when there is none |
| Gatekeeper.DraftCarriesAnswer | app/triage.py:202-248 | every stored field comes from its own field of the answer: free texts without surrounding spaces, numbers clamped to 0..25, a valid type and decision as sent and else a note and "schedule"; an accepted or untouched answer keeps its reason, and a refusal's reason keeps the model's and ends in the note of the guard that refused |
| Gatekeeper.NumberAsText | app/triage.py:48-76 | a number sent as text is understood like the number itself, and raises beyond the digit limit |
| Gatekeeper.TextSameDraft | app/triage.py:48-76 | the whole draft is the same whether effort and score come as numbers or as their texts |
| Gatekeeper.OtherTextIsNoNumber | app/triage.py:48-76 | other text counts as no number, and a number from text is the one that int() reads, clamped for the score |
| Gatekeeper.NumberRaises | app/triage.py:52-54 | cleaning a number raises exactly on text that isdigit() accepts after its leading dashes and int() refuses: two or more dashes, a digit that is not decimal, or too many digits |
| Gatekeeper.JudgeRaises | app/triage.py:204-222 | triage raises on an answer exactly when its effort or score is such text |
| Gatekeeper.RaisingTexts | app/triage.py:52-54 | one raising text of each kind: "--5", "²", and every run of more than 4300 digits |
| Gatekeeper.StorableIff | app/triage.py:225-248 | the insert takes the row of an answer exactly when none of its stored texts holds a NUL character and its effort fits the int column |
| Pipeline.RunsCompose | app/triage.py:171-275 | runs of transactions compose: a job may be continued after any interruption |
| TableLaws.CaptureStores | app/capture.py:79-143 | a message becomes a new last row, with the source, text and status of its kind, exactly when no row has its update id |
| TableLaws.RowUpdates | app/transcribe/orchestrator.py:49-114 | each row update writes its own columns of its own row and nothing else |
| TableLaws.SweepsSelect | app/recovery.py:26-95 | each sweep selects exactly what waits in its state for more than 600 seconds |
| TableLaws.CommitStores | app/triage.py:225-252 | the item comes last with its draft, open and unmarked, and its row alone is processed |
| TableLaws.ItemUpdates | app/triage.py:129-139 | each item update writes its own column of its own item and nothing else |
| TableLaws.StatusChange | app/decisions_log.py:20-62 | a status change writes the status of its item exactly when a row matches; "done" on a declined or archived item adds the log row with decision, score and "completed_despite_" and the decision, and nothing else is logged |
| TableLaws.StatusMovesRemaining | app/constitution.py:57-70 | setting an open task to any other status raises what is left of the week by its effort, and reopening lowers it by as much |
| TableLaws.CommitTakesRemaining | app/constitution.py:57-70 | a new item lowers what is left by its effort exactly when it is a task with one, whatever was decided |
| TableLaws.OthersKeepRemaining | app/constitution.py:57-70 | no other transaction changes what is left |
| PipelineSafety.StepRowsEvolve | app/transcribe/orchestrator.py:90-114 | no step removes a row or alters its capture; processed_at, audio and text are never lost, and no status returns to pending |
| PipelineSafety.StepItemsEvolve | app/triage.py:129-140 | no step removes an item or changes anything but title, status, duplicate flag, embedding and reminder stamp |
| PipelineSafety.StepUpdatesDistinct | db/schema.sql:25-27 | no step gives a non-null update id a second row |
| PipelineSafety.StepGatesOk | app/triage.py:207-223 | every stored item keeps the gatekeeper rule: do_now has a trade-off, a positive snapshot and no flag; the flags exclude each other and imply schedule |
| PipelineSafety.StepSafe | app/triage.py:225-252 | one step keeps all invariants: an item's row is processed, a finished transcription has text and audio, a failed one its error, a pending row is unprocessed, update ids are distinct, the gate rule holds |
| PipelineSafety.RunSafe | app/recovery.py:21-83 | the same for every run, with overlapping jobs, sweeps and crashes, and nothing is lost along the way |
| ExactlyOnce.StepExact | app/triage.py:182-252 | one step with an exclusive sweep keeps: one job per row, jobs that fit their rows, and exactly the items each row calls for |
| ExactlyOnce.RunExact | app/recovery.py:63-83 | the same for every run whose sweeps select only rows that no handler or job holds |
| ExactlyOnce.OneItemPerText | app/triage.py:182-252 | from the empty database, a processed row has exactly one item when its text is non-blank and none when it is blank; an unprocessed row has none |
| ExactlyOnce.SweepSafeIffAlone | app/recovery.py:21-83 | the exact condition: a sweep of a row that can still yield an item (text for triage, a file for transcription) never leads to a second item, in any continuation with exclusive sweeps, if and only if no handler or job holds the row |
| ExactlyOnce.HeldRowDuplicates | app/triage.py:171-252 | for every settled state, a sweep of such a row that some handler or job holds can be continued, without another sweep, to exactly two items |
| ExactlyOnce.StepRank | app/transcribe/orchestrator.py:66-135 | a step never raises a row's rank (pending 2, awaiting triage 1, settled 0) and lowers it where it settles the row |
| ExactlyOnce.RankNeverRises | app/recovery.py:21-83 | over every run with exclusive sweeps no row's rank rises |
| ExactlyOnce.SweptRowSettles | app/recovery.py:51-83 | whatever other jobs, captures, exclusive sweeps and time run in between, once the job that a sweep opened for a row nobody held is through, the row needs no more work |
| ExactlyOnce.SelectionSettles | app/recovery.py:24-83 | the same for a whole selection made at one moment, whose jobs interleave with everything else |
| ExactlyOnce.SettlingIsBounded | app/recovery.py:21-83 | settling steps plus the remaining rank sum never exceed the initial rank sum plus two per new capture: the rank sum is a termination measure |
| ExactlyOnce.LateHandlerDuplicates | app/capture.py:132-143 | a concrete run without overlapping scheduled jobs that stores two items for one row |
| Capacity.OvercommitBound | app/triage.py:198-252 | with at most k triages in flight and efforts at most E, open do_now tasks total at most 60W-1+kE minutes (kE when W is not positive) in every reachable state, E being at most what the int column holds |
| Capacity.RunCovered | app/constitution.py:57-70 | the potential (accepted minutes plus E per hopeful triage) stays under the bound at every step |
| Capacity.DecisionAdds | app/triage.py:198-252 | a decision adds accepted minutes only when its snapshot was positive, and at most its effort |
| Capacity.RemainingConserved | app/constitution.py:57-70 | over every run, what is left of the week changes by the efforts of the tasks that come in, close and reopen, and by nothing else |
| Capacity.BoundReached | app/triage.py:198-252 | for every W, k and E of at least one, a run from the empty database reaches 60W-1+kE, E again at most what the column holds |
| OverrideLog.LogConserved | app/decisions_log.py:41-62 | an item gains one log row per successful "done" call if it was declined or archived and none otherwise; every log row agrees with its item |
| OverrideLog.GuardedCallsAreCompletions | app/commands.py:210 | with guarded closes, successful calls are the real transitions to done |
| OverrideLog.CallsAreCompletionsIff | app/decisions_log.py:41-62 | in every run successful calls are at least the real transitions, and equal to them if and only if no unguarded call meets the item already done |
| OverrideLog.LogCountsCompletions | app/decisions_log.py:65-70 | from the empty database, the log rows of an item count its real completions when closes are guarded |
| OverrideLog.LogCountsIff | app/items_view.py:107-112 | from the empty database, the log rows of a turned-down item are at least its completions, with equality under exactly that condition |
| OverrideLog.UnguardedCallOvercounts | app/items_view.py:107-112 | the unguarded call on a done, overridden item adds a log row without a transition |
| Jobs.FullSweepClears | app/admin/routes.py:526-527 | on any tables, one uninterrupted pass of both sweeps whose calls all return leaves no row older than ten minutes with work left |
| Jobs.TranscribeAllSettles | app/recovery.py:51-60 | the transcription sweep settles every selected row and leaves the others alone |
| Jobs.TriageAllSettles | app/recovery.py:80-83 | the triage sweep settles every selected row and leaves the others alone |
| Jobs.TriageOnlyRow | app/triage.py:171-252 | a triage changes its own row only, and settles it when its calls return |
| Jobs.TriageAddsItsItem | app/triage.py:117-252 | a triage adds an item exactly when there is text, it is configured, the answer can be read and stored and the commit goes through; the item is open, for its own row, with the judged draft, and flagged exactly when it is embedded, the search names an earlier open, embedded item and the flag can be written; every other item and the log stay as they are |
| Jobs.ItemIffProcessed | app/triage.py:225-252 | on an unprocessed row with text, whatever raises or fails, an item appears exactly when the row becomes processed, and otherwise nothing changes |
| Jobs.TriageWithoutItem | app/triage.py:178-200 | switched off, unconfigured or without an answer, a triage leaves the tables alone; blank text is marked processed |
| Jobs.TranscribeOnlyRow | app/transcribe/orchestrator.py:66-135 | a transcription changes its own row only, and settles it when its calls return |
| Jobs.TranscribedRow | app/transcribe/orchestrator.py:66-135 | when only download or backend can fail, the row ends with text, audio and processed_at, or failed with its error and whatever audio there is |
| Jobs.TriageRaisesIff | app/triage.py:171-252 | a triage raises exactly when a settings read, query, model client or transaction that it reaches raises, the weekly capacity has no float, or the answer it gets cannot be read or its row not be stored |
| Jobs.TranscribeRaisesIff | app/transcribe/orchestrator.py:66-135 | a transcription raises exactly when the client lookup does, the audio cannot be written or recorded, the row not be marked as failed, the transcript not be stored, a reply fails, or the triage of the transcript raises |
| Jobs.TriageIsRun | app/triage.py:171-275 | an uninterrupted triage is a run of the step system with the same tables |
| Jobs.TranscribeIsRun | app/transcribe/orchestrator.py:66-135 | an uninterrupted transcription with its inline triage is a run of the step system |
| Jobs.PendingIds | app/recovery.py:26-33 | the selected rows are exactly the pending ones older than ten minutes, each once |
| Jobs.UntriagedIds | app/recovery.py:69-78 | the selected rows are exactly the old, unprocessed ones with status n/a or done, each once |
| App.Application.InsertInboxRow | app/capture.py:94-129 | a row is added exactly when the update id is new; on conflict nothing changes |
| App.Application.HandleUpdate | app/capture.py:37-76 | an update without message, list, listed user or chat changes nothing and says why; a text that begins with "/" adds no row; an admitted message is inserted once, or not at all when something raises first; a failing reply keeps the row and schedules nothing |
| App.GateIff | app/capture.py:39-60 | the gates let through exactly the messages of listed users with a chat and no command, and name the first reason against any other |
| App.Application.Dispatch | app/commands.py:51-77 | of all commands only "/done" with a readable number changes the tables, through the guarded call, and a failure leaves them alone |
| Commands.DoneCommand | app/commands.py:202-210 | "/done" and a printed number name that item |
| Commands.CommandKeeps | app/commands.py:51-77 | no command touches the inbox or any item but the one it closes |
| Commands.OnlyDoneCloses | app/commands.py:51-77 | only a text whose first word spells "done" in either case behind its slashes, with a readable number second, changes the tables |
| Commands.WordsSplit | app/commands.py:54 | a word ends at the first space and spaces between words do not count |
| App.Application.RemainingMinutes | app/constitution.py:57-70 | the loop over items returns what is left of the week, whose meaning is given by the laws of `TableLaws` and by `RemainingConserved` |
| App.Application.TriageInboxRow | app/triage.py:171-275 | the tables and the exception status are those of the triage specification |
| App.Application.SaveItem | app/triage.py:225-252 | the item is inserted and its row marked processed in one transaction |
| App.Application.TranscribeVoiceJob | app/transcribe/orchestrator.py:66-135 | the tables and the exception status are those of the transcription specification |
| App.Application.ApplyStatusChange | app/decisions_log.py:26-62 | the status changes exactly when a row matches, and the override is logged with it |
| App.Application.RecoverStuckTranscriptions | app/recovery.py:21-60 | the sweep equals its specification, stops when a job raises, and does nothing without a backend or a client |
| App.Application.RecoverStuckTriage | app/recovery.py:63-83 | the sweep equals its specification and stops when a job raises |
| App.Application.RecoverMissingEmbeddings | app/recovery.py:86-103 | exactly the old items without embedding that the sweep gets to and whose call succeeds get one, nothing else changes, and a raising settings read ends the sweep |
| App.Application.Recover | app/admin/routes.py:526-528 | the recover button: when every call returns, no old row is left waiting |
| Polling.ExactlyOnceCapture | app/main.py:54-65 | in every run, with crashes and webhook redelivery anywhere, no update has two rows and every update below the offset has exactly one, or was stopped by a gate, or was lost |
| Polling.StoredUnlessLost | app/main.py:57-65 | an update below the offset has exactly one row if and only if some step of the run stored it, and otherwise some handling of it stopped at a gate or raised before its insert |
| Polling.CapturedIff | app/main.py:54-65 | over any run an update has a row at the end if and only if it had one before, or some handling of it, polled or from the webhook, passed the gates, did not raise and could be stored |
| Polling.OneRowIffStored | app/capture.py:106-129 | from the start, an update has exactly one row if some step stored it and none otherwise |
| Polling.StepAddsAdmitted | app/capture.py:44-60 | a delivery, polled or from the webhook, adds at most one row, of a listed user with a chat and no command text; for a user who is not listed nothing changes |
| Polling.RowsAreAdmitted | app/capture.py:44-60 | over any run every row is one from before or holds a message that was handled while its user was listed, with a chat and no command text |
| Polling.LostForGood | app/main.py:54-65 | an update below the offset without a row never gets one from polling |
| Polling.RaisingHandlerLoses | app/main.py:58-65 | for every message that the gates let through, a run that loses it for good |
| Polling.RunInv | app/main.py:54-65 | the protocol invariant holds in every run and the offset never decreases |
| Polling.InsertKeepsDistinct | app/capture.py:106-129 | inserting keeps update ids distinct, forgets none, and leaves the inserted one captured |
| Polling.OffsetRoundTrip | app/settings_store.py:349-357 | a stored offset is read back unchanged |
| Polling.OffsetStartsAtZero | app/settings_store.py:349-354 | a missing, empty or unreadable offset counts as 0 |
| Polling.IterationIsRun | app/main.py:54-65 | an iteration cut short after any update is a run of the protocol |
| Polling.UnconfirmedIsRun | app/main.py:57-65 | so is an iteration that ends between handling an update and confirming it |
| Polling.PollingLoop.Iterate | app/main.py:57-65 | the loop handles and confirms the first updates of an answer, one after another, and stops after one whose next offset str() refuses |
| Settings.SettingsStore.ResolveKey | app/settings_store.py:219-257 | the value and the new cache are those of the cached layered resolution; a failing decryption caches nothing |
| Settings.SettingsStore.SetKey | app/settings_store.py:266-297 | the row is stored (sealed if secret), the entry invalidated, the audit extended and the client dropped for a reload key |
| Settings.SettingsStore.ClearKey | app/settings_store.py:299-312 | the store is that of a clear, whose effect `ClearThenResolve` and `WritesNoOtherKey` state; the audit is extended and the client dropped for a reload key |
| Settings.ProviderRegistry.GetBaleClient | app/providers/registry.py:19-26 | a client is built from the resolved token when none is held |
| SettingsHistory.StepCoherent | app/settings_store.py:219-318 | one operation of the only writer keeps cached values equal to the layers and the client's token current |
| SettingsHistory.CacheTransparent | app/settings_store.py:219-312 | after any sequence of operations by the only writer, a resolve returns exactly the uncached resolution |
| SettingsHistory.ClientFollowsToken | app/providers/registry.py:19-34 | a client is handed out exactly when a non-empty token resolves, and carries that token |
| SettingsHistory.SetThenResolve | app/settings_store.py:237-243 | a written value is read back from the database, with a masked hint only for secrets |
| SettingsHistory.ClearThenResolve | app/settings_store.py:245-257 | a cleared key has no row and resolves to the value of the environment, with a hint if secret, and else to the default of its definition |
| SettingsHistory.DatabaseFirst | app/settings_store.py:230-243 | a row answers before the environment; one sealed with another key raises and caches nothing |
| SettingsHistory.FallbackBeforeVariable | app/settings_store.py:207-217 | the decoded fallback variable comes before the variable of the key |
| SettingsHistory.HintShowsFour | app/crypto.py:29-33 | a hint shows at most the last four characters |
| SettingsHistory.WritesOwnKey | app/settings_store.py:266-297 | a secret is stored sealed, any other value plainly, and the cached value of the key is gone |
| SettingsHistory.WritesNoOtherKey | app/settings_store.py:266-312 | a write leaves the rows and cached values of all other keys alone |
| SettingsHistory.ServedForThirtySeconds | app/settings_store.py:219-257 | a resolved value is served for thirty seconds whatever the table says by then, and no longer |
| SettingsHistory.ClientIsHeld | app/settings_store.py:190-197 | a held client is handed out again, and a write drops it exactly for the six reload keys |
| SettingsHistory.CacheOrigin | app/settings_store.py:256 | every cached value was read from the table 30 seconds before its expiry, with no own write since |
| SettingsHistory.BoundedStaleness | app/settings_store.py:219-257 | with other writers, a value returned at t is the layered resolution at some instant in (t-30, t], not before the store's own last write |
| SettingsOverlap.OverlappingStaleness | app/settings_store.py:219-257 | with overlapping operations and other writers, when no resolve takes longer than d, a value returned at t is the layered resolution at some instant in (t-30-d, t] |
| SettingsOverlap.ResolveIsAskThenFill | app/settings_store.py:219-257 | a resolve with nothing in between is its query followed by its cache entry |
| SettingsOverlap.WriteIsItsEvents | app/settings_store.py:266-312 | a write with nothing in between is its commit, its invalidation and its reload |
| SettingsOverlap.ClientIsItsEvents | app/providers/registry.py:19-26 | a call of get_bale_client is a resolve of the token, unless a client is held, and the building of the client |
| SettingsOverlap.InvalidationHoldsIff | app/settings_store.py:266-297 | after a write and its invalidation, whatever happened between the two, no value read before the commit is ever cached again, in any continuation, if and only if no resolve of the key has such a value between query and cache entry |
| SettingsOverlap.ReloadHoldsIff | app/providers/registry.py:19-34 | after a token write drops the client, whatever happened since the commit, no client built from a token read before the commit is ever held again, in any continuation, if and only if no such token is in the hands of a resolve or in an unexpired cache entry |
| SettingsOverlap.ClientGoesStale | app/providers/registry.py:19-34 | for every token write: a run after which the client carries the old token, and keeps it through every continuation without another reload |
| SettingsOverlap.WaitingReloadGoesStale | app/providers/registry.py:19-34 | for every token write: a run in which the reload waits for get_bale_client, drops the client that it built, and the next call builds it again from the old token in the cache, to be kept without end |
| SettingsOverlap.InterleavedResolveGoesStale | app/settings_store.py:230-257 | for every key, table and write: a run in which the write falls between query and cache entry, and the next resolve returns the value from before it |
| RateLimiter.PruneLossless | app/security.py:96-103 | pruning at one cutoff changes no answer at a later cutoff |
| RateLimiter.LoginRateLimiter.IsLockedOut | app/security.py:85-87 | the answer is that of the rule on the full list of failures since the last success |
| RateLimiter.LoginRateLimiter.RecordFailure | app/security.py:89-91 | the failure is added to the history of its IP and the pruned lists stay faithful |
| RateLimiter.LoginRateLimiter.Login | app/admin/routes.py:172-191 | one login request: refused exactly when locked out, otherwise accepted or rejected by its verdict, which is recorded |
| RateLimiter.FailuresSpreadOut | app/security.py:83-103 | in every run of sequential logins any six consecutive failures of an IP span more than 900 seconds |
| RateLimiter.LockedIffFifthLast | app/security.py:83-103 | on failures in order, an IP is locked out exactly while its fifth last failure is at most 900 seconds old |
| RateLimiter.LoginRecords | app/admin/routes.py:173-187 | a wrong password that is let in is recorded, a right one clears the record, and other logins do neither |
| RateLimiter.FiveStrikes | app/security.py:83-103 | after five wrong passwords in a row that were let in, whatever came before, attempts are refused for exactly 900 seconds from the first of them |
| RateLimiter.OtherIpsIrrelevant | app/security.py:83-103 | what an IP has against it depends on its own attempts only |
| RateLimiter.OverlapBound | app/admin/routes.py:172-191 | with at most k attempts of an IP between check and record, any 5+k consecutive failures span more than 900 seconds, over every run of events |
| RateLimiter.OverlapBoundReached | app/admin/routes.py:173-180 | for every k, a run with at most k open attempts records 4+k failures at one instant |
| RateLimiter.LoginIsCheckThenRecord | app/admin/routes.py:172-191 | a login with no other attempt in between is its check followed by its record |
| Goals.ParseGoals | app/constitution.py:28-54 | the loop returns the goals of the parsing function, with no text giving no goals |
| Goals.ParseJoined | app/constitution.py:37 | parsing distributes over ";" for all strings |
| Goals.WeightedChunk | app/constitution.py:37-53 | the last colon parts title and weight; an unreadable weight becomes 3 and an empty title is skipped |
| Goals.PlainChunk | app/constitution.py:47-53 | a title without a weight gets 3; with the two rules and the distribution over ";" every text is parsed |
| Goals.ParsePrint | app/constitution.py:29-31 | printing then parsing returns every list of trimmed, non-empty, semicolon-free titles with printable weights; colons allowed |
| Goals.ParsePrintParse | app/constitution.py:28-54 | parse after print after parse is parse |
| Redaction.Redact | app/logsafe.py:21-24 | the loop over patterns is their successive substitution, which `SubIsCut` and `RedactedJoined` describe on the text itself |
| RateLimiter.AppendKeepsAgreement | app/security.py:89-103 | recording a failure keeps the pruned and the full lists in agreement at every cutoff still to come |
| Redaction.SubFree | app/logsafe.py:18-24 | substituting one pattern removes its matches and creates none of another |
| Redaction.RedactedIsFree | app/logsafe.py:11-24 | the output matches none of the four patterns |
| Redaction.RedactTwice | app/logsafe.py:21-24 | redacting twice is redacting once |
| Redaction.CleanTextUntouched | app/logsafe.py:21-24 | text without a match is unchanged |
| Redaction.NoTailSurvives | app/logsafe.py:11-16 | a match takes every character that continues the secret |
| Redaction.RedactedUnfolds | app/logsafe.py:11-24 | the four patterns are substituted in the order of the list |
| RedactionKeeps.PatternsMean | app/logsafe.py:11-16 | where a match may start: prefix, characters and least length of the four expressions, spelled out |
| RedactionKeeps.SubIsCut | app/logsafe.py:21-24 | one substitution cuts the text at whole matches, leftmost first, keeps every character outside them in its place and puts one marker for each |
| RedactionKeeps.SubOfCut | app/logsafe.py:21-24 | however the text is cut at its whole matches, the output is the kept pieces with markers in between |
| RedactionKeeps.RedactedJoined | app/logsafe.py:21-24 | on both sides of a newline, or of any other character that no pattern can match, the output is that of the side alone |
| MorningBrief.Build | app/morning_brief.py:77-98 | the brief lists a maximal prefix of the ranked open tasks that fits the day, always at least the first, and counts the rest |
| MorningBrief.BeforeIsStrictTotalOrder | app/morning_brief.py:44-56 | the query's order is a strict total order |
| MorningBrief.OrderMeans | app/morning_brief.py:38-58 | due tasks first, then the five decisions in their order and any other last, then the higher score and none last, then the id |
| MorningBrief.BriefMeasures | app/morning_brief.py:25-65 | ranked are the open tasks, a task without effort counts 30 minutes, and a day is a seventh of the week |
| MorningBrief.RankingUnique | app/morning_brief.py:38-58 | only one order of the open tasks is sorted |
| MorningBrief.RankingOfOpenTasks | app/morning_brief.py:38-58 | two tables with the same open tasks give the same list, however their other items differ |
| MorningBrief.MoreCapacityListsMore | app/morning_brief.py:65 | only one length qualifies, and it never shrinks when the capacity grows |
| MorningBrief.OmittedRankLower | app/morning_brief.py:77-85 | no omitted task outranks a listed one, and an omitted due task means every listed task is due |
| Reminders.AttemptsBounded | app/main.py:174-199 | sends of a task to a user are at most one more than the iterations aborted after such a send began |
| Reminders.StampedSends | app/main.py:191-195 | a stamped task was sent to a user exactly once plus the iterations aborted after such a send began, hence once if and only if there was none |
| Reminders.SentTwice | app/main.py:191-195 | whenever a task is due and someone is allowed, a run that makes the first send twice |
| Reminders.DueUntilHandled | app/reminders.py:40-53 | with fixed settings a due task stays due until it is stamped or leaves "open" |
| Reminders.DueMeans | app/reminders.py:40-53 | selected are exactly the open, unstamped tasks whose deadline is at most the lead time away |
| Reminders.StampedStays | app/reminders.py:56-58 | a stamped task is never selected again |
| Reminders.ReminderLoop.Iterate | app/main.py:191-195 | an iteration is a run of the step system; every task before the one it stopped at went to every user in order and is stamped, and it stops only when a send or a stamp raises |
| Reminders.ReminderLoop.SendToAll | app/main.py:193-194 | the inner loop sends one task to the users in order, and stops early only when a send raises |
| Reminders.SendsInOrder | app/main.py:191-195 | the place of every send in the order: task by task, and each task user by user |
| DailyGate.AsciiOrder | app/review.py:70-77 | on ASCII send times, text order is time order |
| DailyGate.AcceptedIffShown | app/admin/forms.py:15 | the ASCII send times that the validator accepts are exactly the texts a clock shows |
| DailyGate.DueFromSendTimeOn | app/review.py:70-77 | with an ASCII send time a broadcast is due from that time on unless today's date is stored, hence again the day after the last one |
| DailyGate.ClockReadsBack | app/review.py:77 | the clock text shows hour and minute in two digits each and is read back |
| DailyGate.GateIsRightIffAscii | app/admin/forms.py:71-75 | the gate opens at the meant time for every clock reading exactly when the accepted send time is ASCII |
| DailyGate.OncePerDay | app/main.py:84-117 | with non-decreasing dates, broadcasts of a day are at most one more than its iterations aborted before the date was stored |
| DailyGate.CompletedBroadcasts | app/main.py:84-117 | a day whose date was stored had exactly one broadcast more than were aborted, hence one if and only if none was |
| DailyGate.BroadcastTwice | app/main.py:84-117 | whenever a broadcast is due, a run that begins it twice that day |
| DailyGate.NotBeforeSendTime | app/review.py:77 | no broadcast begins before an ASCII send time |
| DailyGate.DailyLoop.Iterate | app/main.py:130-161 | one iteration: it sends only when due, to the users in order up to the first failure, and stores the date exactly when nothing raised |
| DailyGate.BroadcastAt | app/main.py:109-117 | every user gets the text of the day once, in their order |

## Left out

- HTTP, routing, the messenger and model clients, prompts, templates and command-line scripts: they appear only as free choices of steps.
- Encryption, password hashing, signed cookies and request tokens: a sealed value opens only with the key that sealed it.
- Calendar conversion and the wording of replies; dates are day numbers, and the ISO text of a date is taken to identify it.
- Embedding vectors and distances: an item is embedded or not, and a duplicate is any other open, embedded item.
- `float` rounding: capacity comparisons are made exact by multiplying by 60 and 7; the step system, unlike `Jobs`, also takes a snapshot of a capacity too large for a float.
- Unicode versions other than 15.0, the one of Python 3.12, in the tables of decimal and other digits.
- Gaps in generated ids, transaction isolation, and the width of ids and durations: ids are positions, transactions are serial, and a number too large for its column is one of the ways a transaction fails.
- Half of a surrogate pair in a text of the model: texts are sequences of Unicode characters, so this too appears as a failing commit.
- Failures of the sweeps' own queries before their first job.
- A stored update that no longer parses during recovery (app/recovery.py:53-55): rows keep the parsed message.
- The replies of bot commands, pagination, the counting queries, retry delays and the loops' back-off.
- The log filter that applies redaction to a record's message and arguments (app/logsafe.py:27-32).
- Reminders: the list of allowed users of one iteration names nobody twice.
