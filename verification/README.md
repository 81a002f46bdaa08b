# Non-destructive IMAP ingestion, modelled in Dafny

This project models the core of the `mailbox_custom` Django application. That core is
four IMAP transports that ingest mail without deleting it, plus the `getmail_nodelete`
management command that drives them.

**The four transports.** They share one loop over candidate UIDs. For each UID the loop:
- FETCHes the message;
- parses it;
- applies an optional condition;
- yields the message;
- then copies it to an optional archive folder.

The transports differ in four ways:
- **Candidates.** NoDelete and MarkAsRead take every UID. UnreadOnly and UnreadOnlyNoMark take only the UIDs from `UID SEARCH UNSEEN`.
- **FETCH item.** Every variant fetches `RFC822` except UnreadOnlyNoMark, which fetches `BODY.PEEK[]`.
- **Marking.** MarkAsRead and UnreadOnly `STORE +FLAGS \Seen` after the yield.
- **Duplicates.** UnreadOnlyNoMark skips a message whose Message-ID is already stored.

Failures are contained to one message:
- A raise during one UID is counted in `error_count`, and the loop goes on.
- A `TypeError` while reading the fetched text means the message vanished. It is skipped and not counted.
- The size filter, the archive setup, the COPY and the STORE are all best effort.

**The command.** It does three things:
- It maps `--transport-type` to a mailbox class.
- It selects the active mailboxes, or raises `CommandError` when there are none.
- It drains `get_new_mail` for each selected mailbox. It counts successful and failed mailboxes and the total number of messages, and sends the notification fan-out for each mailbox. It warns when a mailbox failed.

**Modules.**
- `Imap` is the server side, following RFC 3501: UID SEARCH UNSEEN (section 6.4.4), UID FETCH (6.4.5), UID STORE (6.4.6), UID COPY (6.4.7), LIST (6.3.8) and CREATE (6.3.3).
  - `ImapServer` is a class whose methods change its mailbox and folders in place.
  - A set of `faults` names the calls that raise on the client side. A call that raises changes nothing.
- `SearchResponse` is the SEARCH reply's text handling: Python's `bytes.strip()`, `str.split(' ')` and the space-separated UID list.
- `Transports` is the four transports as one `Transport` class tagged with a `Variant`. `GetMessage` is proved to compute the pure function `Cycle`, which folds `Step` over the candidates.
- `TransportProperties` and `CycleProperties` prove what a run does, against the server state before the run. They define `Classify`, a reference classification of each candidate that does not depend on the run's state.
- `GetmailNodelete` is the command.

**Behaviour the proofs expose.**
- `RFC822` fetches set `\Seen` on every candidate whose FETCH goes through. This includes candidates that are filtered by the condition or unparsable. (Only UnreadOnlyNoMark skips duplicates, and it fetches with `BODY.PEEK[]`.) So NoDelete leaves its candidates read too, and the STOREs of the marking variants add nothing new (`StepFlags`, `CycleMailbox`).
- Only UnreadOnlyNoMark leaves the mailbox exactly as it was (`CyclePeekUnchanged`).

**Environment parameters.** The following are parameters of the model rather than code in it:
- the generator's callers, who drain it;
- the inherited `_get_all_message_ids`, `_get_small_message_ids` and `get_email_from_bytes`;
- the condition callback;
- the set of stored Message-IDs;
- `get_new_mail`.

**The duplicate lookup.** It is `Message.objects.filter(message_id=...)`. That lookup is global: a Message-ID stored by any mailbox makes the message a duplicate. The model follows the code: `storedMessageIds` is one set. The set is taken as it was before the run (see `CycleYields` under "Left out").

## Model

| member | source | states |
|---|---|---|
| SearchResponse.Strip | mailbox_custom/transports.py:248 | the stripped text has no ASCII whitespace at either end, and is empty exactly when the line is all whitespace |
| SearchResponse.StripIsSlice | mailbox_custom/transports.py:248 | the stripped text is a slice of the line, and everything before and after that slice is ASCII whitespace, so only the outer whitespace is removed |
| SearchResponse.Split | mailbox_custom/transports.py:251 | `split(' ')` always gives at least one piece, and no piece holds a space |
| SearchResponse.JoinSplit | mailbox_custom/transports.py:251 | joining the pieces of a split with single spaces gives back the text |
| SearchResponse.SplitJoin | mailbox_custom/transports.py:251 | splitting the join of space-free pieces gives back the pieces |
| SearchResponse.ParseSearchLine | mailbox_custom/transports.py:248-256 | the UID list is empty exactly when the line is all whitespace; otherwise its join is the stripped line and no UID holds a space (same code at 371-379) |
| SearchResponse.SearchLineRoundTrip | mailbox_custom/transports.py:247-253 | the SEARCH line a server sends for any list of UIDs parses back into that list, in order |
| Imap.UnseenUids | mailbox_custom/transports.py:247 | SEARCH UNSEEN finds a UID exactly when it is in the mailbox and lacks `\Seen` |
| Imap.FetchResult | mailbox_custom/transports.py:73 | FETCH returns no data exactly for a UID the server does not hold, and otherwise that message's text |
| Imap.AddFlag | mailbox_custom/transports.py:219 | STORE +FLAGS adds the flag to that UID only, and changes no text, UID or folder |
| Imap.AfterFetch | mailbox_custom/transports.py:429 | a `BODY.PEEK[]` fetch changes nothing, while an `RFC822` fetch sets `\Seen` |
| Imap.AfterCopy | mailbox_custom/transports.py:104 | COPY appends the message to an existing destination, and changes no other folder and not the mailbox |
| Imap.ListResponse | mailbox_custom/transports.py:58-59 | the first LIST entry is `None` exactly when the folder does not exist |
| Imap.AfterCreate | mailbox_custom/transports.py:61 | CREATE adds the folder, empty when new, and keeps every other folder and the mailbox |
| Imap.ImapServer.UidSearchUnseen | mailbox_custom/transports.py:247 | raises when faulted, otherwise returns the SEARCH line of the current state |
| Imap.ImapServer.UidFetch | mailbox_custom/transports.py:73 | raises and changes nothing when faulted, otherwise returns the fetch result and leaves the state `AfterFetch` says |
| Imap.ImapServer.UidStore | mailbox_custom/transports.py:219 | raises and changes nothing when faulted, otherwise adds the flag |
| Imap.ImapServer.UidCopy | mailbox_custom/transports.py:104 | raises and changes nothing when faulted, otherwise copies as `AfterCopy` says |
| Imap.ImapServer.List | mailbox_custom/transports.py:58 | raises when faulted, otherwise returns the LIST reply |
| Imap.ImapServer.Create | mailbox_custom/transports.py:61 | raises and changes nothing when faulted, otherwise creates the folder |
| Transports.UnreadIds | mailbox_custom/transports.py:242-259 | definition of `_get_unread_message_ids` on a server state (same code at 365-382); `ParseSearchLine` and `UnreadIdsAreUnseen` state its properties |
| Transports.Listing | mailbox_custom/transports.py:36-45 | definition of the candidate listing, SEARCH UNSEEN in the unread variants (271-275); `UnreadIdsAreUnseen`, `CycleEmptyListing` and `CycleTrace` state its properties |
| Transports.ArchiveSetup | mailbox_custom/transports.py:56-65 | definition of the archive setup; `ArchiveSetupEffect` and `CycleFolders` state its properties |
| Transports.CopyToArchive | mailbox_custom/transports.py:102-107 | definition of the best-effort COPY after a yield; `StepFolders`, `LoopFolders` and `ArchivedFacts` state its properties |
| Transports.MarkSeen | mailbox_custom/transports.py:217-223 | definition of the best-effort STORE `\Seen` after a yield; `StepFlags`, `StepTally` and `CycleTally` state its properties |
| Transports.Step | mailbox_custom/transports.py:70-107 | definition of one pass of the loop body; `StepForm`, `StepContents`, `StepFlags`, `StepFolders`, `StepRecord`, `StepTally` and `StepTrace` state its properties |
| Transports.Cycle | mailbox_custom/transports.py:27-118 | definition of a whole drained `get_message` (the other variants at 134-227, 261-349 and 384-475); `GetMessage` is proved to compute it and the `Cycle*` lemmas state its properties |
| Transports.SizeFiltered | mailbox_custom/transports.py:47-54 | without a maximum size, or when `_get_small_message_ids` raises, the candidate list is kept exactly; otherwise it is the filter's answer |
| Transports.Transport.UnreadMessageIds | mailbox_custom/transports.py:242-259 | `_get_unread_message_ids`: the parsed SEARCH line, or `[]` when the search raised (same code at 365-382) |
| Transports.Transport.ListMessageIds | mailbox_custom/transports.py:36-45 | the candidate listing: SEARCH UNSEEN in the unread variants (271-275), otherwise `_get_all_message_ids`, whose raise gives no candidates |
| Transports.Transport.SmallMessageIds | mailbox_custom/transports.py:47-54 | the size filter applies only when a maximum is set, and keeps the list when it raises |
| Transports.Transport.EnsureArchiveFolder | mailbox_custom/transports.py:56-65 | the archive setup: LIST, then CREATE when LIST reports `None`, with any raise caught, leaving the state `ArchiveSetup` gives |
| Transports.Transport.ProcessUid | mailbox_custom/transports.py:70-100 | one loop pass: the new state is `Step`; the yielded message and the processed and error counters move together with it |
| Transports.Transport.AfterYield | mailbox_custom/transports.py:210-223 | after a yield: COPY to the archive, then STORE `\Seen` in the marking variants; `marked_count` grows exactly when the STORE did not raise |
| Transports.Transport.GetMessage | mailbox_custom/transports.py:134-227 | a drained `get_message` in any variant: the yielded messages, the counters and the final server state are those of `Cycle` on the state before the run |
| TransportProperties.Classify | mailbox_custom/transports.py:70-100 | a candidate is yielded only if its FETCH did not raise, the server holds it, it parsed, the condition accepted it and, in the peek-only variant, its Message-ID is not stored |
| TransportProperties.ClassifyStable | mailbox_custom/transports.py:78-89 | the decision for a UID depends only on UIDs and texts, not on flags |
| TransportProperties.StepForm | mailbox_custom/transports.py:70-107 | one pass is a yield plus COPY and STORE, an error, or a skip, as `Classify` decides |
| TransportProperties.StepContents | mailbox_custom/transports.py:109-111 | one pass keeps the mailbox order, every UID and every text, so nothing is deleted |
| TransportProperties.StepFlags | mailbox_custom/transports.py:181 | one pass changes flags only by `\Seen` on its own UID, when an `RFC822` FETCH went through |
| TransportProperties.StepFolders | mailbox_custom/transports.py:102-107 | one pass creates no folder, changes no folder but the archive, and appends to the archive the text of a yielded message whose COPY went through |
| TransportProperties.StepRecord | mailbox_custom/transports.py:85-91 | one pass records its outcome, and appends the UID and its parsed message exactly when it is yielded |
| TransportProperties.StepTally | mailbox_custom/transports.py:197-223 | one pass adds one processed per yield, one error per errored UID and one mark per STORE that did not raise |
| TransportProperties.StepTrace | mailbox_custom/transports.py:178-223 | one pass sends FETCH and, for a yield, the yield, COPY and STORE in that order |
| TransportProperties.LoopContents | mailbox_custom/transports.py:109-115 | the loop keeps the mailbox order, UIDs and texts, with no deletion and no expunge |
| TransportProperties.LoopFlags | mailbox_custom/transports.py:178-223 | the loop changes flags only by `\Seen` on candidates whose FETCH sets it |
| TransportProperties.LoopFolders | mailbox_custom/transports.py:102-107 | the loop appends to the archive the texts of the yielded candidates whose COPY went through, in order, and touches no other folder |
| TransportProperties.LoopLists | mailbox_custom/transports.py:70-91 | the loop's outcomes and yielded lists are the reference lists of the candidates |
| TransportProperties.LoopTrace | mailbox_custom/transports.py:70-107 | the loop's commands are the candidates' events, one candidate after the other |
| TransportProperties.LoopTally | mailbox_custom/transports.py:67-100 | the counters grow by the yields, the errored candidates and the STOREs that went through |
| CycleProperties.EntryFresh | mailbox_custom/transports.py:67-68 | the loop starts with no yield, zero counters and an untouched mailbox |
| CycleProperties.ArchiveSetupEffect | mailbox_custom/transports.py:56-65 | CREATE is sent exactly when LIST did not raise and found no folder; the archive exists afterwards when it existed before or both commands went through; the setup keeps every other folder and the mailbox |
| CycleProperties.AfterFetchEvents | mailbox_custom/transports.py:73-107 | after the FETCH of a UID come no further FETCH, and a yield only first and only when the UID is yielded |
| CycleProperties.StepFetched | mailbox_custom/transports.py:73 | each pass fetches its UID exactly once |
| CycleProperties.StepYielded | mailbox_custom/transports.py:89 | each pass yields its UID exactly when it is accepted |
| CycleProperties.StepOrder | mailbox_custom/transports.py:102-111 | each pass sends COPY and STORE only after its yield, and only allowed commands |
| CycleProperties.LoopFetched | mailbox_custom/transports.py:70-73 | the loop fetches every candidate once, in candidate order |
| CycleProperties.LoopYieldedUids | mailbox_custom/transports.py:70-89 | the loop yields the accepted candidates, in candidate order |
| CycleProperties.LoopOrder | mailbox_custom/transports.py:178-223 | in the loop, COPY and STORE follow the yield of their UID, and no command deletes or expunges |
| CycleProperties.PreambleFacts | mailbox_custom/transports.py:36-65 | the commands before the loop fetch and yield nothing, and are allowed |
| CycleProperties.AcceptedFacts | mailbox_custom/transports.py:78-89 | the accepted candidates are exactly those `Classify` yields, each paired with its parsed message |
| CycleProperties.CountFacts | mailbox_custom/transports.py:174-223 | yields plus errors never exceed the candidates; marks never exceed yields, are zero without marking, and equal the yields when no STORE raises |
| CycleProperties.ArchivedFacts | mailbox_custom/transports.py:102-107 | the archive gets only texts of yielded messages, and all of them in order when no COPY raises |
| CycleProperties.UnreadIdsAreUnseen | mailbox_custom/transports.py:242-256 | on a well-formed server, `_get_unread_message_ids` is exactly the messages without `\Seen`, in mailbox order |
| CycleProperties.CycleLists | mailbox_custom/transports.py:70-100 | a run's outcomes and yielded lists are the reference lists of its candidates |
| CycleProperties.AcceptedParsed | mailbox_custom/transports.py:78-89 | each accepted candidate is on the server, and its message parsed from its text, passed the condition and is not a stored duplicate in the peek-only variant |
| CycleProperties.CycleYields | mailbox_custom/transports.py:425-453 | a run yields exactly the candidates that pass, in order, each the parse of its text, accepted by the condition and, in the peek-only variant, whose Message-ID is not in the stored set as it was before the run |
| CycleProperties.AcceptedIsSubsequence | mailbox_custom/transports.py:70-91 | the accepted candidates are the candidates with some left out, in candidate order |
| CycleProperties.CycleYieldsInOrder | mailbox_custom/transports.py:70-91 | the yielded UIDs are an order-preserving subsequence of the candidates |
| CycleProperties.CycleEmptyListing | mailbox_custom/transports.py:36-45 | when the listing raises or is empty, nothing is yielded or counted, the server is untouched, and no FETCH, COPY, STORE, LIST or CREATE is sent (same at 271-275) |
| CycleProperties.CycleTally | mailbox_custom/transports.py:174-226 | `processed_count` is the number yielded, and `error_count` the number of errored candidates; their sum is at most the candidates; `marked_count <= processed_count`, is 0 without marking, and is equal when no STORE raises |
| CycleProperties.CycleMailbox | mailbox_custom/transports.py:109-118 | a run keeps the mailbox order, UIDs and texts and the server's well-formedness, and adds only `\Seen` on candidates fetched with `RFC822` |
| CycleProperties.RerunAfterMarking | mailbox_custom/transports.py:230-240 | after an unread-and-mark run, the next unread listing holds no new UID and none of the candidates whose FETCH went through |
| CycleProperties.RerunPeekOnly | mailbox_custom/transports.py:351-363 | after a peek-only run, the next unread listing is the same list |
| CycleProperties.UnreadShrinks | mailbox_custom/transports.py:242-256 | when flags only grow, the unread listing only shrinks, and loses the UIDs that gained `\Seen` |
| CycleProperties.CyclePeekUnchanged | mailbox_custom/transports.py:428-472 | the peek-only variant leaves every message of the mailbox exactly as it was |
| CycleProperties.CycleYieldedSeen | mailbox_custom/transports.py:217-223 | in the other variants, every yielded message ends with `\Seen` |
| CycleProperties.CycleFolders | mailbox_custom/transports.py:56-107 | a run touches no folder but the archive; an archive that existed gets the copied texts in order; an archive is created only when there were candidates, LIST found it missing and neither command raised |
| CycleProperties.CycleTrace | mailbox_custom/transports.py:261-349 | a run sends SEARCH, the archive setup, then each candidate's events; it fetches each candidate once in order; its yields are the yielded UIDs; COPY and STORE only follow their yield; and no command deletes, expunges or stores other than `\Seen` |
| GetmailNodelete.VariantOf | mailbox_custom/models.py:19-42 | definition of the transport each mailbox class connects with (the other classes at 81-100, 139-159 and 198-218); `VariantOfIsBijective` states its property |
| GetmailNodelete.VariantOfIsBijective | mailbox_custom/models.py:19-218 | each mailbox class connects with its own transport variant, no two classes share one, and every variant has its class (`ClassOf` is the inverse) |
| GetmailNodelete.ChoiceOf | mailbox_custom/management/commands/getmail_nodelete.py:29-34 | every mailbox class has one of the listed choices |
| GetmailNodelete.ParseTransportType | mailbox_custom/management/commands/getmail_nodelete.py:89-104 | a class is chosen exactly when the option is absent or a listed choice; otherwise the error names the value |
| GetmailNodelete.DispatchIsBijective | mailbox_custom/management/commands/getmail_nodelete.py:29-34 | the default is the no-delete class, and choices and classes correspond one to one |
| GetmailNodelete.NotificationAlerts | mailbox_custom/management/commands/getmail_nodelete.py:41-76 | definition of the alerts `send_email_notification` sends; `NotificationFanOut` and `SendEmailNotification` state its properties |
| GetmailNodelete.PerMessageAlerts | mailbox_custom/management/commands/getmail_nodelete.py:46-61 | one alert per message, in order, each with the message and count 1 |
| GetmailNodelete.NotificationFanOut | mailbox_custom/management/commands/getmail_nodelete.py:41-76 | n messages give n alerts, plus a final summary with count n exactly when n > 1, and only the summary has no message |
| GetmailNodelete.SendEmailNotification | mailbox_custom/management/commands/getmail_nodelete.py:41-76 | the alerts sent are the fan-out for the messages |
| GetmailNodelete.SelectMailboxes | mailbox_custom/management/commands/getmail_nodelete.py:110-123 | a mailbox is selected exactly when it is active and, if names were given, is among them |
| GetmailNodelete.HandleStepRaised | mailbox_custom/management/commands/getmail_nodelete.py:167-175 | a mailbox whose fetch raised counts as failed and adds no messages |
| GetmailNodelete.HandleStepReturned | mailbox_custom/management/commands/getmail_nodelete.py:141-155 | a mailbox whose fetch returned counts as successful, adds its messages and sends their alerts |
| GetmailNodelete.DeliveredOrRaising | mailbox_custom/management/commands/getmail_nodelete.py:137-175 | every mailbox is exactly one of successful or failed, and each entry is what its fetch gave |
| GetmailNodelete.AlertsBound | mailbox_custom/management/commands/getmail_nodelete.py:143-155 | the alerts of a run number at least the messages and at most the messages plus the mailboxes |
| GetmailNodelete.ProcessMailboxes | mailbox_custom/management/commands/getmail_nodelete.py:133-175 | every selected mailbox is visited in order; the successful and failed counts and the message total match what each fetch gave; the alerts are the fan-outs of the successful mailboxes |
| GetmailNodelete.Handle | mailbox_custom/management/commands/getmail_nodelete.py:108-190 | `CommandError` is raised exactly when no mailbox is selected, with the message depending on whether names were given; otherwise the counts and alerts are those of the loop, and the warning is written exactly when a mailbox failed |

## Left out

- **Logging and output.** Logging and the text of the `stdout` output, its styling and the `--verbose` listing of subjects are not modelled. Logging swallows its own errors. The model also assumes that every `self.stdout.write` goes through. A write can raise, for instance on a broken pipe or a subject the terminal cannot encode, and the lines below say what the command then does and which contracts do not describe it.
- HandleStepReturned: assumes the writes in the `try` block (`mailbox_custom/management/commands/getmail_nodelete.py:149-153`, and 163 with `--verbose`) do not raise. Such a raise comes after the mailbox was counted successful and its messages added (144-146). It is caught at 167, which also counts the mailbox as failed. When it is the write at 149-153, the mailbox's alerts (155) are never sent.
- DeliveredOrRaising: "each mailbox is exactly one of successful or failed" assumes no write in the `try` block raises. With such a raise, one mailbox counts as both.
- AlertsBound: the lower bound (at least one alert per message) assumes the write at 149-153 does not raise. With such a raise, a mailbox's messages are counted but none of its alerts are sent.
- ProcessMailboxes: assumes no `stdout` write in the loop raises. A raise at 149-163 makes `successful + failed` exceed the number of mailboxes. A raise at 139, or at 173 inside the `except`, leaves the loop with the exception.
- Handle: assumes the writes at 139, 173 and 182-189 do not raise. Such a raise ends `handle` with the exception instead of the report.
- **Generator laziness.** Laziness and early termination of the `get_message` generator are not modelled. Both callers drain it, so a yield is an append, and the COPY and STORE after it run before the next UID.
- **Inherited collaborators.** The inherited `_get_all_message_ids`, `_get_small_message_ids` and `get_email_from_bytes` are parameters (`Env`), not code. So are the condition callback and `get_new_mail`. `mailbox_custom/models.py` and the django-mailbox base classes are not part of this model. The commands the inherited listing and size filter send (`UID SEARCH ALL`, and a FETCH of sizes) are not in the run's trace, so the trace lemmas (`PreambleFacts`, `CycleTrace`) speak only of the commands `get_message` sends itself.
- UnreadIds: a `NO` reply to `UID SEARCH UNSEEN` is not modelled. `mailbox_custom/transports.py:247-251` does not check the reply's status, and imaplib raises only on `BAD`, so the text of a `NO` reply would be stripped and split into candidate words, and each FETCH of such a word would raise and add 1 to `error_count`. The model's SEARCH either raises or returns the line of the unseen UIDs. `UnreadIdsAreUnseen`, and the unread-variant cases of `CycleEmptyListing` and `RerunAfterMarking`, describe a server that does not refuse the SEARCH. A `NO` reply to FETCH, LIST or STORE needs nothing new: it acts as a raised FETCH, a raised LIST, or a STORE of a `\Seen` flag the `RFC822` FETCH already set.
- **Raised calls.** A call that raises is modelled as having no effect on the server. A connection that drops halfway through a command is not modelled.
- **The `if not msg_contents` branch.** imaplib answers a FETCH of a missing UID with `[None]`, which is not empty, so this branch cannot be reached. Reading `msg_contents[0][1]` then raises `TypeError`, and the model skips the UID as vanished. A reply with no data list at all cannot occur with imaplib, so that case is not modelled.
- CycleYields: the stored Message-IDs are the set as it was before the run. The lookup at `mailbox_custom/transports.py:445-449` is a live database query, and the caller (django-mailbox's `get_new_mail`, not part of this model) saves each yielded message before the generator resumes. So in the peek-only variant, a second unseen message whose Message-ID equals that of a message yielded earlier in the same run is skipped by the code but yielded again by the model. `CycleYields`, `AcceptedParsed` and `CycleTally` hold for the set as it was before the run, and promise nothing about duplicates within one run.
- CycleMailbox: the archive folder is assumed to be a folder other than the selected mailbox. `mailbox_custom/models.py:105-106` passes `archive` and `folder` separately, and nothing forbids them to be equal. When they are equal, each COPY adds a new UID to the selected mailbox. The model keeps the selected mailbox apart from `folders`, so it does not capture that case, and `CycleMailbox` and `CycleFolders` do not describe it.
- **The LIST pattern.** It is taken as a plain folder name. Wildcards (`*`, `%`) in the archive name are not modelled.
- **COPY flags.** COPY keeps the source's flags on the server (RFC 3501, section 6.4.7), and `AfterCopy` appends the whole stored message, flags included. The lemmas about the archive (`StepFolders`, `LoopFolders`, `CycleFolders`) state only the copied texts, not the copied flags.
- **Decoding.** `bytes.decode()` of the SEARCH line is modelled as the identity on characters. A non-ASCII SEARCH line, and the resulting `UnicodeDecodeError` (which is caught and gives `[]`), are not modelled.
- **Database errors.** An error in the duplicate lookup (`Message.objects.filter(...).exists()`) would be counted in `error_count`; it is not modelled. An error in the mailbox query would propagate out of `handle`; it is not modelled either. The stored Message-IDs are one abstract set.
- **Deletion.** The parent class's `+FLAGS \Deleted` and `expunge` are not modelled. The model's commands (`Call`) have no delete or expunge command at all. `CycleTrace` proves that a run sends only the commands `SendsOnlyAllowed` permits for its variant.
- **Notification sending.** The notification HTTP client (`notification/notification.py`) is not part of this model. The reply of each `send_email_alert` only chooses a log line, so the model records only the calls made.
- **An unset transport type.** A `transport_type` outside the four choices is rejected by argparse before `handle` runs. `ParseTransportType` models that rejection. Calling `handle` directly with such a value, which would fail on the unbound `message`, is not modelled.
- **The scheduler and admin.** `start_email_scheduler`, `start_scheduler.py` and the admin UI are not part of this model.
