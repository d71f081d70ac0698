# mailmind, modelled in Dafny

mailmind lets an agent propose changes to a mailbox.  A person reads each proposal as a bundle and accepts
or rejects it, and a background runner applies what was accepted, only if nothing moved in the meantime.
This project models the four state machines that share one store, and two algorithms on text:

- **Following a server** (`Mailbox`, `Sync`, `SyncSafety`, `SyncExact`, `Freshness`, `Identity`, `Trust`).  A
  folder on the server is a box that anybody may change, delete and make again.  The server is a history, one box
  for each call the client makes, so it may change between any two of them.  A sync is the list of states it
  commits.  `Trust` has the whole life of a folder's rows: any number of syncs, each cut off after any of its
  commits, and between them whatever applying, discarding, reviving and listing write into the same rows.
- **Proposing, reviewing, applying** (`Review`, `ReviewSafety`, `Growth`, `Provenance`, `Reading`, `Desk`,
  `Proposals`, `Deciding`, `FolderNames`, `Client`, `Once`, `Apply`, `Fates`, `Effects`, `Resume`, `Applier`, `Branch`, `RunnerSteps`).
  `Review` has the rows and one step for each transaction; the properties are about every run of those steps.
  `Apply` has the server, the order of the items, and the loop with its checkpoints; a crash goes back to the last of them.
  `Fates` and `Effects` say what a bundle does to the mailbox.  `RunnerSteps` shows that what a sync or an apply commits is
  always reached by steps of `Review`, and `Trust` that these do nothing else to a folder than its lives allow.
- **The work queue** (`Tasks`, `Retries`): enqueueing, lanes, shutdown, retries, and recovery at startup.
- **Grants and tokens** (`Grants`): consent, single-use codes (section 4.1.2 of RFC 6749), rotating refresh
  tokens (section 6 of RFC 6749), revocation.
- **A printer for search queries** (`Search`), with the lexer that reads them back, and **the tree of folders**
  (`FolderTree`), with what it takes to undo it.

Where the code changes rows step by step the model has a class whose methods do the same (`Sync.FolderCache`,
`Desk.Desk`, `Applier.Applier`, `Tasks.TaskRunner`, `Grants.AuthorizationServer`), each method proved equal to a
function of the state before; the lemmas are about those functions.

## Where the code falls short

Seven properties one would expect do not hold of the code as it is.  Each is stated with the exact condition
under which it does, and with what shows that it fails otherwise.

- A first sync stores UIDVALIDITY only at its end (`src/mailmind/imap/sync.py:176`), but commits batch by
  batch.  If it is cut off after a batch and the folder is then made again, the next sync sees no change of
  identity (`src/mailmind/imap/sync.py:119-121`) and keeps the messages of the old folder under the UIDs of the
  new one.  `Identity.RightAfterEverySyncExactly` has the condition, `Identity.FirstSyncCutShort` the way there.
- Without MOVE, a message is marked after it is copied (`src/mailmind/imap/client.py:266-267`) and the cache says
  that it left (`src/mailmind/imap/apply.py:452-453`).  If it was marked before and the server does not count a
  change that changes nothing, the next sync is not told of the message, and the cache goes on saying so.
  `Trust.DeedKeepsExactly` and `Trust.MarkedAgreesExactly` have the condition, `Trust.UnnoticedIsReached` the way there.
- A discarded folder that somebody makes again may still be synced, by a task asked for earlier, before it is
  listed.  If it is then wanted as a target, `resolve_target` (`src/mailmind/suggest/model.py:119-124`) moves its
  generation on and leaves the UIDVALIDITY and the mod-sequence that were stored, so its messages are behind and the
  next sync does not bring them.  `Trust.DeedKeepsExactly` has the condition, `Trust.RevivedUnread` the outcome.
- Without MOVE, a crash between COPY and the flag that hides the original lets a retry copy once more; without
  CONDSTORE, a change of flags that somebody undoes before a retry is made again.
  `Once.AtMostOnceExactly` has the condition, `Once.CopiedTwice` and `Once.FlaggedTwice` the runs.
- Without MOVE, when COPY succeeds and the flag after it is answered NO, the item is reported as not done and goes
  stale while the copy stays in the target (`src/mailmind/imap/client.py:262-269`).
  `Effects.RefusedIsUntouchedExactly` has the condition, `Effects.CopiedAndStale` the item.
- A bundle none of whose items could be applied closes as partially applied, but as stale when the runner
  crashed after the last item's checkpoint.  `Resume.ResumeEquivalence` has the condition, `Resume.RefusedThenCut`
  the bundle.
- When recovery at startup fails, `start` in `src/mailmind/worker.py:134-148` says that the dispatcher will retry;
  it never does.  A row that a crash left running stays so, and the bundle it was to apply stays accepted with nobody
  at it.  `Tasks.AttendedExactlyWhenRecovered` has the condition, `Tasks.CrashedAndNotRecovered` the run.  An accepted
  bundle without any row, which the same step rescues, is left only by builds older than the queue
  (`src/mailmind/tasks.py:138-139`).

## Assumptions

UIDs are never given out twice under one UIDVALIDITY, a folder made again has a larger one, and a folder keeps
or lacks mod-sequences for good (RFC 3501, RFC 7162).  Hashes of flags are as good as the flags, content keys as
good as messages, secrets never repeat, time is a natural number.  There is one tenant and, in `Review` and
`Apply`, one account; write transactions are serialised.  Applying does not read UIDVALIDITY again, so `Once`
and `Apply` are about folders that are not made again meanwhile.  In `Trust` a row is held against the history
of its own folder, whatever name the server gives it, and a command that changes a message is one step of that
history.  `Effects.MailboxAfterwards` is about folders with distinct names, from which the premises were taken and
which the server has, and about a CREATE that does not answer with the name of another folder of the cache.
`where` in `Review` answers which live placement of a message was seen last, and `found` and `matched` are what
the search index answers.

## Model

| member | source | states |
|---|---|---|
| Mailbox.RunIsLater | src/mailmind/imap/backend.py:92-162 | Over any deliveries, flag changes, expunges and re-creations of a folder: mod-sequences and the next UID only rise under one UIDVALIDITY, a message whose mod-sequence has not risen is unchanged, and a UID keeps its message (sections 2.3.1.1 of RFC 3501 and 3.1 of RFC 7162) |
| Sync.FolderCache.AbsorbOne | src/mailmind/imap/sync.py:258-295 | One FETCH result folded in: a new slot names the message fetched, a slot that exists keeps the message it named and takes the new flags and mod-sequence |
| Sync.FolderCache.AbsorbBatch | src/mailmind/imap/sync.py:136-149 | A batch folded in one by one is the fold over the batch, and is committed |
| Sync.FolderCache.MarkAbsent | src/mailmind/imap/sync.py:298-331 | Exactly the live slots of the current generation whose UID is not listed are marked gone, and as many are reported |
| Sync.FolderCache.SyncContainer | src/mailmind/imap/sync.py:108-201 | The commits of a whole run are the states of `Trace`, whichever way it goes |
| Sync.FolderCache.AbsorbInBatches | src/mailmind/imap/sync.py:165-172 | Batches of 200, a commit after each, in order, the last one short |
| SyncSafety.SyncKeepsWatermark | src/mailmind/imap/sync.py:117-179 | Every state one run may leave behind, with the server changing between any two of its calls: every message with a mod-sequence at or below the stored one is live in the cache with its own flags and mod-sequence, now and for as long as the server goes on |
| Trust.DeedKeepsExactly | src/mailmind/imap/apply.py:434-457 | Whatever is done to the rows of a folder (a sync cut off after any commit, a change applied and reflected, a discard, a revival, a listing) keeps the watermark, unless it is a move by COPY whose mark the server does not count, or the revival of a folder that holds live messages; and then it does not |
| Trust.SyncedThroughoutExactly | src/mailmind/imap/sync.py:117-179 | Over whole lives of a folder, the server changing between any two calls: the watermark holds all the way if and only if neither of the two happens |
| Trust.NoHarmIsDone | src/mailmind/suggest/model.py:117-125 | Neither happens where marks are counted and no row is synced while it is discarded |
| Trust.StepsAreDeeds | src/mailmind/suggest/model.py:102-135 | No step of the review or the runner does anything else to the rows of a folder, and a row that is added is new |
| Trust.SyncTellsTheTruth | src/mailmind/imap/sync.py:151-179 | From a new row through any life without that harm: after a sync nobody disturbed, the CHANGEDSINCE way and the full way have left the very same rows, they show the messages of the server, each with its flags and mod-sequence, and no others of whatever generation, and the verdict on any premise, with its reason, is the one the server itself would give |
| Trust.MarkedAgreesExactly | src/mailmind/imap/client.py:262-270 | After a move by COPY the two ways of syncing agree if and only if the mark is noticed; where they do not, the cache says that the message left and the server still has it, unchanged |
| Trust.UnnoticedIsReached | src/mailmind/imap/client.py:262-270 | It is reached from any new row: read whole, then a message moved that was marked already |
| Trust.RevivedUnread | src/mailmind/suggest/model.py:117-125 | A discarded folder made again and synced, then wanted back: the next sync asks what changed and shows none of its messages |
| Trust.LifeDescends | src/mailmind/imap/sync.py:204-295 | Whatever is done to the rows: a slot keeps its message, the generation never falls, one generation knows one UIDVALIDITY |
| Trust.FreshIsTheSame | src/mailmind/suggest/staleness.py:32-64 | For an item proposed from a folder whose UIDVALIDITY was stored, a fresh verdict after a sync means the folder was not made again since the item was proposed, the UID holds the very message the item names, and with CONDSTORE nothing at all has happened to that message; whatever was done to the folder before and since |
| Trust.NamesStayRight | src/mailmind/imap/sync.py:273-294 | Slots name the right messages through syncs, applies, revivals, deletions and re-creations of the folder, for lives that are anchored |
| Trust.KnownIsAnchored | src/mailmind/imap/sync.py:119-125 | A folder whose UIDVALIDITY has been stored once is anchored for good |
| SyncSafety.CoverBatch | src/mailmind/imap/sync.py:168-172 | What has not changed since the folder was selected is in the cache but for the batches still to come |
| SyncExact.IncrementalRefinesFull | src/mailmind/imap/sync.py:151-174 | The step that makes it so: what the server did not report as changed the cache already shows, so asking and reading leave the same rows |
| SyncExact.QuietBatches | src/mailmind/imap/sync.py:168-172 | Reading a quiet folder in batches is reading it at once |
| SyncExact.ForcedIsRightExactly | src/mailmind/imap/sync.py:122-179 | A forced sync of a quiet folder, whatever flags and mod-sequences the cache has: it ends showing the messages of the server and nothing else if and only if no message of a generation that is over was shown as live |
| SyncExact.BatchesAreFew | src/mailmind/imap/sync.py:165-172 | One commit for every two hundred messages listed, and one for the rest |
| Identity.RightAfterEverySyncExactly | src/mailmind/imap/sync.py:119-176 | Whatever becomes of the folder on the server, the next complete sync files every message under itself if and only if the rows are anchored: a UIDVALIDITY is stored, or no slot of the current generation is filled |
| Identity.UnanchoredReadsWrong | src/mailmind/imap/sync.py:119-121 | The folder that shows it: made again, with another message at a UID already filled |
| Identity.FirstSyncCutShort | src/mailmind/imap/sync.py:136-176 | Any first sync of a folder with mail, cut off after its first batch, leaves rows that are not anchored |
| RunnerSteps.SyncIsSteps | src/mailmind/imap/sync.py:108-201 | After its k-th transaction a sync leaves exactly its k-th commit in the rows the review works on, and no other folder touched |
| ReviewSafety.ListedIsThere | src/mailmind/imap/sync.py:47-84 | After the folders are listed each is in the cache as the server has it, proposed and discarded ones too |
| Desk.Desk.RefreshBundle | src/mailmind/suggest/staleness.py:131-191 | Every open item that no longer holds goes stale, and a proposed bundle with nothing open and something stale closes |
| Desk.Desk.SweepQueue | src/mailmind/suggest/staleness.py:194-220 | Every bundle awaiting review refreshed, and as many reported as closed |
| ReviewSafety.SweptIsSettled | src/mailmind/suggest/staleness.py:194-220 | After a sweep every open item of a bundle still awaiting review holds, and no such bundle is dead |
| Desk.Desk.AddMessages | src/mailmind/suggest/model.py:210-280 | Each distinct id sorted by what is known of it, the items written for those added; a claim that does not hold refuses |
| Desk.Desk.RecordQuery | src/mailmind/suggest/model.py:298-340 | The least and greatest id among the items the search brought |
| Desk.Desk.ProposeBundle | src/mailmind/suggest/model.py:343-480 | All of the proposal or none of it |
| Desk.Desk.AddToBundle | src/mailmind/suggest/model.py:483-558 | All of the growth or none of it, the refresh before it included |
| Desk.Desk.ProposeDiscarding | src/mailmind/suggest/model.py:561-696 | Distinct folders, each removable and with everything under it in the bundle, or a refusal |
| Desk.Desk.AcceptBundle | src/mailmind/suggest/model.py:741-852 | Growth is looked for before staleness; a refusal keeps what the refresh found |
| Desk.Desk.EndBundle | src/mailmind/suggest/model.py:855-897 | A bundle awaiting review ends, and its open items with it |
| Desk.Desk.WithdrawBundle | src/mailmind/suggest/model.py:877-897 | Only by its own producer |
| Desk.Desk.Expire | src/mailmind/suggest/model.py:900-919 | Every due bundle and no other, and as many reported |
| Desk.Desk.LastShown | src/mailmind/suggest/model.py:199-207 | The last item of the bundle |
| Desk.Desk.StartSyncing | src/mailmind/imap/sync.py:119-255 | A broken identity kills every open item resting on the old generation of that folder, only those, and reports how many |
| Desk.ReportsTheKilled | src/mailmind/imap/sync.py:204-255 | The number reported is how many open items rest on that folder at that generation |
| Desk.ReportsTheMoved | src/mailmind/suggest/staleness.py:194-220 | The number a sweep reports is how many bundles changed their status |
| Desk.ReportsTheDue | src/mailmind/suggest/model.py:900-919 | The number that expire is how many await review and are past their time |
| ReviewSafety.RunOnward | src/mailmind/suggest/model.py:727-919 | Over any run: rows are never taken away or re-purposed, terminal statuses of bundles and items never change, searches are only added |
| ReviewSafety.StepCoupled | src/mailmind/suggest/model.py:727-919 | Every step keeps the coupling: a proposed bundle holds only proposed, excluded or stale items, an accepted one only accepted, applied, excluded or stale ones, any other none proposed or accepted |
| ReviewSafety.StepPinned | src/mailmind/suggest/model.py:248-279 | Every step keeps, for each item, a slot under its premise that names its message, at a generation the folder has not passed below |
| ReviewSafety.EveryRunIsSound | src/mailmind/imap/sync.py:204-295 | Both hold in every state reached by proposing, growing, excluding, refreshing, deciding, expiring, syncing, reviving a target and applying |
| Growth.GrowthAccounting | src/mailmind/suggest/model.py:210-280 | A call puts each distinct id in exactly one of added, already in target, in no folder, already here; each class says what is so; excluded are among those already here |
| Growth.BundlesStayTidy | src/mailmind/suggest/model.py:385-558 | With one limit for all calls no bundle exceeds it, none holds a message twice, none mixes messages and folders |
| Growth.AddedIsArriving | src/mailmind/suggest/model.py:521-530 | What is added was counted before it was let in |
| Growth.NewItemsPin | src/mailmind/suggest/model.py:264-278 | A new item records the generation, UID, mod-sequence and flags of a live slot of its own message |
| Provenance.SpanIsWhatItBrought | src/mailmind/suggest/model.py:298-340 | The span a search records is exactly the ids of the items it brought |
| Provenance.SpansStayApart | src/mailmind/suggest/model.py:325-340 | In every state reached the spans of a bundle are in order and disjoint |
| Provenance.ProvenanceIsExact | src/mailmind/views.py:535-579 | After any run each item is attributed to the search that brought it, or to none if it was named outright, and is said to have arrived late exactly if the bundle was grown by it |
| Reading.ShownThroughIsLast | src/mailmind/suggest/model.py:199-207 | `shown_through` is an item of the bundle and no item of it is later |
| Reading.OnlyWhatWasReadGoes | src/mailmind/suggest/model.py:741-852 | In every run whose acceptances carry what a page showed, each accepted or applied item was on that page, was open when it was accepted, and still held |
| Reading.OnlyAcceptedIsApplied | src/mailmind/imap/apply.py:217-325 | An item becomes applied only by the runner, only from accepted, and only if its premise held once more |
| Proposals.ProposedExactly | src/mailmind/suggest/model.py:343-480 | A proposal is made if and only if the change has what it needs, its folder can be moved into, and its messages are named well: outright, each in a folder other than the target, or by a search that finds something that can take part and not too much |
| Proposals.ProposedAdds | src/mailmind/suggest/model.py:424-480 | It is then one bundle more, awaiting review, of this producer and for this change, and what was there is as it was but for the row of its target |
| Proposals.GrownExactly | src/mailmind/suggest/model.py:483-558 | A bundle grows if and only if, looked at again, it still awaits review, is this producer's and about messages, something found can take part, and what it would hold in all is within the limit |
| Proposals.DiscardProposedExactly | src/mailmind/suggest/model.py:561-696 | A discard is proposed if and only if the folders are some, not too many, and each is known, empty, not discarded, special or INBOX, with every known folder under it in the bundle; there is then one open item for each, at its generation |
| Proposals.TargetAwaitsAcceptance | src/mailmind/suggest/model.py:102-135 | A folder named to move into is used as it is if it is there, lives again past every premise taken of it if it was discarded, and else is a new row; in neither case does the row say that the server has it |
| Proposals.DelimiterIsReported | src/mailmind/suggest/model.py:85-99 | The separator a proposed name is checked against is one a folder of the account reports, if any does |
| FolderNames.ValidNamesHaveNoEmptyLevel | src/mailmind/suggest/model.py:45-82 | The checks on the separator let a name through exactly if no level of the hierarchy it names is empty |
| Applier.Applier.ApplyBundle | src/mailmind/imap/apply.py:50-134 | The loop with its checkpoints and its stop; every state it commits is one a run can be cut off in |
| Applier.Applier.ApplyOrdered | src/mailmind/imap/apply.py:88-102 | The items in order up to the stop or to the first that cannot be reached |
| RunnerSteps.FinishedIsSteps | src/mailmind/imap/apply.py:50-134 | What an apply does to the rows is a run of the review's steps |
| RunnerSteps.CutIsSteps | src/mailmind/imap/apply.py:79-102 | So is an apply that is cut off |
| Resume.OneOrder | src/mailmind/imap/apply.py:148-171 | The order of the items is determined by which items there are |
| Resume.SomeLeave | src/mailmind/imap/apply.py:89-102 | After part of a run, the order of what is left is the rest of the order |
| Resume.FinishedIsRolledUp | src/mailmind/imap/apply.py:104-145 | A run that gives up leaves something accepted, and the roll-up is for runs that did not |
| Resume.ResumeEquivalence | src/mailmind/imap/apply.py:79-145 | Stopped and crashed any number of times: the same items, cache and server as one run left alone; and the same bundle status if and only if by the last start something was applied, or something was left to do, or there never was anything |
| Resume.RefusedThenCut | src/mailmind/imap/apply.py:104-126 | The bundle that shows it: its one item refused, closed as partially applied if left alone, as stale if cut off after the checkpoint |
| Resume.EveryBundleIsWellMade | src/mailmind/suggest/model.py:610-618 | In every state reached a discard has no target |
| Once.AtMostOnceExactly | src/mailmind/imap/apply.py:217-325 | An accepted change of a message happens at most once on every run, with retries, crashes and anybody else changing the folder, if and only if a move has MOVE and a change of flags has CONDSTORE |
| Once.ThroughKept | src/mailmind/imap/client.py:179-270 | What makes it so: once done, the folder shows for good that it was done |
| Once.CopiedTwice | src/mailmind/imap/client.py:265-267 | Without MOVE: copied, the runner gone before the original is marked, copied again |
| Once.FlaggedTwice | src/mailmind/imap/apply.py:244-276 | Without CONDSTORE: set, not committed, undone by somebody, set again |
| Branch.WholeBranchIsDiscarded | src/mailmind/imap/apply.py:148-171 | If the cache knows the server's folders and the bundle holds a whole branch of empty ones, all of them go, whatever the server does with parents, and each DELETE finds its folder empty with nothing listed under it |
| Branch.ChildrenFirst | src/mailmind/imap/apply.py:158-171 | No folder comes before one under it |
| Branch.DeepestFirst | src/mailmind/imap/apply.py:158-171 | Folders to be discarded go deepest first, counted by the separators in their names, and those alike in depth by name |
| Branch.NothingUnderTheNext | src/mailmind/imap/apply.py:416-430 | What is under the next folder would have come before it |
| Branch.ProposedBranchIsWhole | src/mailmind/suggest/model.py:648-696 | A discard that can be proposed holds every folder known to be under one of its own |
| Branch.DiscardLosesNothing | src/mailmind/imap/apply.py:384-431 | However old the cache is: a discard deletes no folder that has mail in it, and changes no other |
| Desk.Desk.Wanted | src/mailmind/suggest/model.py:595-604 | The folders named, each once, if the account has them all |
| Deciding.AcceptedExactly | src/mailmind/suggest/model.py:774-852 | An acceptance goes through if and only if the bundle awaits review, the page showed all of it, something of it still holds, and all of it does or the reader has acknowledged what does not |
| Deciding.AcceptsWhatHolds | src/mailmind/suggest/model.py:834-841 | And then exactly the open items that hold are accepted, the others stale |
| Deciding.RefusedKeepsWhatItFound | src/mailmind/suggest/model.py:774-841 | An acceptance that does not go through leaves what drawing the page leaves, or nothing if the bundle was not to be accepted or the page was short |
| Deciding.ExcludedForGood | src/mailmind/suggest/model.py:727-738 | From the step on that excludes an open item, in every state of every run it is excluded, neither accepted nor applied |
| Deciding.ExcludesTheOne | src/mailmind/suggest/model.py:727-738 | It is taken out if it was open, and nothing else changes |
| Deciding.EndsExactly | src/mailmind/suggest/model.py:855-897 | A bundle awaiting review is rejected, or withdrawn by its producer, with exactly its open items; no other item or bundle changes |
| Deciding.DrawnExactly | src/mailmind/suggest/staleness.py:131-191 | Drawing a page kills exactly the open items of the bundle that no longer hold, and closes it if it awaited review and nothing of it is open |
| Deciding.StartsExactly | src/mailmind/imap/sync.py:204-255 | A broken identity: exactly the open items resting on the old generation of that folder die, the generation and UIDVALIDITY move on, the mod-sequence is forgotten, the old messages are gone; if it is not broken nothing changes |
| Deciding.AppliesExactly | src/mailmind/imap/apply.py:434-457 | One accepted item written down: stale and the cache untouched if it does not hold or the server did nothing; else applied, and the cache has exactly that flag set or removed, that message gone, or that folder discarded |
| Deciding.DiscardedOnce | src/mailmind/imap/apply.py:384-457 | Once a folder has been discarded no other item about it holds |
| Deciding.StatusTells | src/mailmind/imap/apply.py:104-145 | In every state reached: all of an applied bundle that was not taken out was applied, something of a partially applied one died, and nothing of any other that ended was ever applied |
| Deciding.ExpiresWhatIsDue | src/mailmind/suggest/model.py:900-919 | Exactly the bundles awaiting review that are due expire, with exactly their open items |
| Deciding.OnlyItsProducer | src/mailmind/suggest/model.py:483-508 | No step but its own producer's withdraws a bundle or adds an item to it |
| Deciding.LeftBehindForGood | src/mailmind/suggest/staleness.py:40-45 | Once a folder is past the generation of a premise, no run makes the item hold again |
| Deciding.RevivedLeavesBehind | src/mailmind/suggest/model.py:118-125 | Reviving a discarded folder as a target leaves every item behind that rested on it |
| Deciding.RefreshTellsTheTruth | src/mailmind/suggest/staleness.py:131-164 | Right after a sync of a quiet folder, whatever its life before, a refresh leaves open exactly the items the server itself would call unchanged |
| Effects.MailboxAfterwards | src/mailmind/imap/apply.py:50-134 | A whole bundle of changes to messages, run with nobody else at the mailbox: first its folder is on the server, new and empty if it was not listed, and the row says so; then each item ends as it would have alone, all are decided up to the first that cannot be reached, and the mailbox is what it was but for exactly the messages of the applied items, each with its flags changed, gone or marked, and for moves a copy of each in the target, in order, with its flags |
| Effects.StartIsPrepared | src/mailmind/imap/apply.py:174-214 | If something is to be applied and the target is not made: CREATE is asked; the row takes the name, separator and specialness the server answers and is made; what was not listed is there as a new folder; every other row, name and folder is as before; and the run gives up exactly if CREATE is refused |
| Effects.MadeExactly | src/mailmind/imap/apply.py:217-325 | An item is applied if and only if the cache still has its message as proposed, the server has it unchanged since (by mod-sequence or else by flags), the folder may be changed, and a move has a folder to go to |
| Effects.AsTheyStand | src/mailmind/imap/apply.py:148-171 | Items about messages are applied in the order they were proposed in |
| Effects.ApplyIsATry | src/mailmind/imap/apply.py:217-325 | What applying one item does to the folder of its message is one undisturbed attempt in the sense of `Once` |
| Effects.NothingIsLost | src/mailmind/imap/client.py:262-270 | What a move takes from where it was is in the target; what is in the target was taken, but for messages that could be copied and not marked |
| Effects.CopiedOnce | src/mailmind/imap/apply.py:89-102 | No message is copied twice by a bundle |
| Effects.ReachedIsReady | src/mailmind/suggest/model.py:241-247 | Every accepted bundle that can be reached is ready for that, if folders have distinct names and items that still hold rest on folders the server has |
| Effects.RefusedIsUntouchedExactly | src/mailmind/imap/apply.py:297-309 | An item that does not end as applied has left every mailbox as it was, if and only if it is no move or the server has MOVE |
| Effects.CopiedAndStale | src/mailmind/imap/client.py:262-270 | The item that shows it: COPY succeeds, the mark is answered NO, the item goes stale, the copy stays |
| Tasks.TaskRunner.Enqueue | src/mailmind/tasks.py:23-65 | A new row unless a live one is already the same ask |
| Tasks.TaskRunner.OnePass | src/mailmind/worker.py:196-207 | One claim after another |
| Tasks.TaskRunner.RunOne | src/mailmind/worker.py:209-285 | What an executor may leave its row in |
| Tasks.TaskRunner.RequeueInterrupted | src/mailmind/tasks.py:117-132 | Every running row waits again, and as many are reported |
| Tasks.TaskRunner.RescueAcceptedBundles | src/mailmind/tasks.py:135-157 | Every accepted bundle without a live apply task gets one, and as many are reported |
| Tasks.TaskRunner.RetryTask | src/mailmind/web/app.py:511-543 | Only a failed task, and an apply only of a bundle still accepted |
| Tasks.TaskRunner.AcceptBundle | src/mailmind/web/app.py:733-769 | The acceptance and its task in one transaction |
| Tasks.TaskRunner.Start | src/mailmind/worker.py:134-148 | Both halves of recovery before the dispatcher, or neither if it fails |
| Tasks.RestartOwes | src/mailmind/tasks.py:117-157 | Recovery gives every accepted bundle a task, from whatever a crash left |
| Tasks.NoAcceptedBundleIsLost | src/mailmind/worker.py:309-362 | From then on, through claims, failures, stops and restarts, every accepted bundle has an apply task queued, running or failed, and no ask has two live rows |
| Tasks.AttendedExactlyWhenRecovered | src/mailmind/worker.py:134-148 | While lanes write down what became of their rows, every accepted bundle keeps a row that is queued, failed, or running in a lane, if and only if recovery succeeded or nothing was running or without a row that an accepted bundle depends on |
| Tasks.UnattendedStays | src/mailmind/worker.py:157-194 | A bundle without such a row stays without one through whatever the dispatcher does, until a restart |
| Tasks.CrashedAndNotRecovered | src/mailmind/worker.py:134-148 | The run that shows it: accepted, claimed, a crash, and a recovery that fails |
| Tasks.StuckRowsStay | src/mailmind/worker.py:269-283 | A row left running without a lane stays so until a restart, and every later ask for the same work joins it |
| Tasks.ClaimStartsTheOldest | src/mailmind/tasks.py:68-91 | A claim starts the oldest waiting task of an account without a lane, if there is one; no younger one of an account before an older |
| Tasks.LanesAlwaysHold | src/mailmind/worker.py:196-214 | One lane an account, and nothing older of that account waits while it runs |
| Tasks.NothingJumpsTheQueue | src/mailmind/tasks.py:68-91 | No step adds to the older tasks a task waits behind, of its account or of any, and each start of its account takes one of them away |
| Tasks.WaitIsBounded | src/mailmind/tasks.py:68-91 | While a task waits, no more of its account are started than were waiting before it |
| Tasks.TurnComes | src/mailmind/worker.py:196-214 | Once it is its turn in its account, it is started by enough claims |
| Tasks.TurnArrives | src/mailmind/worker.py:157-214 | However busy its account: in rounds in which the lanes there are go and enough claims follow, it is started within one round more than there are older tasks of its account waiting |
| Retries.AskedExactly | src/mailmind/tasks.py:23-65 | After an ask some row for it is queued or running: the one there was, or one new one; nothing else in the queue changes |
| Retries.AcceptedIsUnderway | src/mailmind/web/app.py:733-769 | A bundle is accepted if and only if it awaits review, and its apply is then queued or running |
| Retries.RetriedExactly | src/mailmind/web/app.py:511-543 | Exactly what failed, and of applies those whose bundle is still accepted, is asked for again |
| Retries.RetriedIsStarted | src/mailmind/web/app.py:511-543 | What is retried is tried again, however busy its account: a row for it runs already or is started within a bounded number of rounds |
| Retries.FinishedExactly | src/mailmind/worker.py:217-362 | What each outcome leaves its row in, and the bundle of an apply: closed by one that ended, still accepted after any other |
| Retries.InterruptedWaitsAgain | src/mailmind/worker.py:309-362 | An orderly stop loses nothing: the sync or apply it interrupts waits again after the next startup, recovered or not |
| Retries.RestartedExactly | src/mailmind/tasks.py:117-157 | Recovery puts back exactly the rows that ran, takes none away and leaves none running |
| Retries.ReportsInterruptions | src/mailmind/tasks.py:117-132 | The number put back is how many rows ran |
| Retries.ReportsStranded | src/mailmind/tasks.py:135-157 | The number rescued is how many accepted bundles had no row queued or running |
| Retries.ProposedAwaits | src/mailmind/suggest/model.py:343-480 | Over any run nothing is queued to apply a bundle before somebody accepts it |
| Retries.DeclinedForGood | src/mailmind/suggest/model.py:855-897 | Over any run a declined bundle stays closed and nothing is queued to apply it |
| Grants.AuthorizationServer.RedeemCode | src/mailmind/mcp/oauth.py:166-210 | Once, in time, by the client that asked |
| Grants.AuthorizationServer.ExchangeRefreshToken | src/mailmind/mcp/oauth.py:243-290 | The old one revoked, a new pair issued |
| Grants.AuthorizationServer.Revoke | src/mailmind/mcp/oauth.py:334-348 | One token |
| Grants.ChainHolds | src/mailmind/mcp/oauth.py:191-290 | In every state reached each consented grant has at most one refresh token that is not revoked, and every token descends from a redeemed request of its own client |
| Grants.CodeYieldsOnce | src/mailmind/mcp/oauth.py:191-210 | Over any run a code yields at most one pair |
| Grants.ConsentedExactly | src/mailmind/mcp/oauth.py:378-421 | In every state reached: consent is taken if and only if the request was parked less than ten minutes ago and nobody consented before; the grant is its client's, and the code is new and good for five minutes |
| Grants.RedeemedExactly | src/mailmind/mcp/oauth.py:166-210 | In every state reached: a code yields a pair if and only if it is that of a consented request of this very client, unused and not past its time; the pair is for that client and grant, an hour and thirty days |
| Grants.ExchangedExactly | src/mailmind/mcp/oauth.py:243-290 | In every state reached: a refresh token yields a pair if and only if it is this client's, not revoked, not past its time, and its grant is not revoked; it is then revoked itself |
| Grants.RefreshRotatesOnce | src/mailmind/mcp/oauth.py:262-290 | Over any run a refresh token is exchanged at most once |
| Grants.RevokedGrantStaysDead | src/mailmind/mcp/oauth.py:292-332 | Once a grant is revoked no secret resolves to it and none of its refresh tokens is exchanged, whatever happens next |
| Grants.ResolvesToWhatWasConsented | src/mailmind/mcp/oauth.py:292-332 | An access token resolves to the grant its request was consented to exactly while both live |
| Grants.ResolvesExactly | src/mailmind/mcp/oauth.py:292-332 | In every state reached: a secret lets its bearer in under a grant if and only if the grant lives and the secret is its own, or that of a live access token for it |
| Grants.HandGrantResolves | src/mailmind/mcp/oauth.py:312-332 | A grant made by hand lets its own secret in for as long as it was made for |
| Grants.RevokedExactly | src/mailmind/mcp/oauth.py:334-348 | Revoking revokes exactly the one token, or the one grant |
| Search.FtsQuery | src/mailmind/db/cache.py:169-205 | The loop that appends and takes back computes the query of the expression read |
| Search.SplitExactly | src/mailmind/db/cache.py:187-187 | Every whitespace cuts, and what has none in it is one chunk: the two determine the chunks of any text |
| Search.TermExactly | src/mailmind/db/cache.py:188-205 | Every chunk is looked for but the three operators and a bare star; a star at its end asks for a prefix |
| Search.ReadingExactly | src/mailmind/db/cache.py:187-205 | What is not looked for changes nothing at either end; between two terms, the first operator typed joins them, or AND if there is none |
| Search.ChunksAreTheText | src/mailmind/db/cache.py:187-187 | Splitting loses the whitespace and nothing else |
| Search.QuotedUndoesEscape | src/mailmind/db/cache.py:195-200 | A doubled quote reads back as one |
| Search.LexUndoesPrint | src/mailmind/db/cache.py:200-205 | What is printed reads back as the same tokens |
| Search.QueryRoundTrip | src/mailmind/db/cache.py:169-205 | None exactly when nothing but operators and bare stars was typed; otherwise what is printed reads back as phrases and operators in turn, whose phrases and stars are the chunks typed, in order |
| FolderTree.AsTree | src/mailmind/views.py:120-151 | The tree of the folders, each level made once |
| FolderTree.Flattened | src/mailmind/views.py:154-165 | The rows of the tree, depth by depth |
| FolderTree.LevelsExactly | src/mailmind/views.py:140-140 | No level of a name has the separator in it, and there is one level more than there are separators; without one the name is one level |
| FolderTree.TreeRoundTrip | src/mailmind/views.py:120-165 | Flattening the tree of distinctly named folders lists each folder exactly once, at the depth of the separators in its name and under a label without any, and every level above one exactly once |
| FolderTree.NamesRoundTrip | src/mailmind/views.py:120-165 | The labels down to a folder, joined, are its name |
| FolderTree.RowsTellTheirPaths | src/mailmind/views.py:154-165 | Labels and depths alone tell where every row sits |
| FolderTree.TreeIsTidy | src/mailmind/views.py:120-151 | No two siblings share a label, and siblings are in order at every level |
| FolderTree.SiblingsAreAlphabetical | src/mailmind/views.py:145-151 | Of two siblings the one listed first is INBOX, in whatever case it is written, or the other is not and its label comes later in the alphabet, whatever the case |
| FolderTree.InboxComesFirst | src/mailmind/views.py:145-151 | INBOX before its siblings |

## Left out

- The IMAP wire, login, parsing of responses and capability probing: `Client` and `Apply` have the outcomes instead.
- Message parsing, link extraction, mechanical findings and cached bodies: a message is its content key.
- Matching and ranking of searches: the index is a parameter, and only the query it is given is modelled.
- Web routes, pages, server-sent events, cookies, the command line and the text of prompts and refusals: a refusal is that nothing, or only the refresh before it, stays.
- Progress display, audit rows, apply attempts, sync reports and their counters, and timestamps that nothing branches on.
- Account health: a call refused because an account is not reachable changes nothing.
- `evict_bodies` drops cached bodies over a budget, `bounded` cuts long answers to the agent, and configuration and password lookup read files: no row of a folder, an item, a task or a grant depends on what they do.
- The item statuses `failed` and `superseded` and the bundle status `superseded`: nothing assigns them.
- FolderTree.AsTree: walks the tree to the node of a path where the code keeps a dictionary of nodes by path; upper case and case folding are those of ASCII.
- Review.ValidName: compares with INBOX in the upper case of ASCII only.
- Desk.Desk.ProposeDiscarding: matches a folder's prefix exactly, where SQLite's LIKE ignores the case of ASCII letters.
- ReviewSafety.ListedIsThere: is about listings in which no name comes twice.
- Branch.WholeBranchIsDiscarded: is about one separator for all folders, and folders that can be opened; a folder that cannot is left, and the bundle then closes as partially applied.
- Once.AtMostOnceExactly: counts what is done to the mailbox for one item; two bundles proposing the same change of one message are two items.
- Tasks.TaskRunner.OnePass: lanes are rows of a map, not coroutines; what a lane does between its claim and its end is one of four outcomes.
- Resources of the store itself: pools, pragmas, migrations and tenancy listeners.
