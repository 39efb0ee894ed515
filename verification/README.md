# mailassist: a verified model

mailassist reads mail over IMAP, lets language models and user rules decide what to do with it, and carries the
decisions out on the server and in its database. This project models the parts of its backend where something can be
lost, doubled or misreported, and proves what they keep and exactly when they do not.

The parts that live outside the program are oracles. An IMAP command is answered OK or NO, or raises before or after
the server has carried it out; a language model, a tool, a validator, a commit, the job queue, the cache and the
address book may each succeed, answer anything of their type, or fail. Results hold for all of these answers, unless a
condition on them is stated. Code that changes state step by step is modelled by classes and methods with loops; each
is proved equal to a function, and the results about runs are lemmas about those functions.

Files, one module each:

- `ImapServer`, `ImapMoves`, `ImapBatch`, `ImapActions`, `FolderPaths`, `ActionEffects`: a server as mailboxes of messages
  with UIDs and flags (RFC 3501 sections 6.4.3, 6.4.7 and 6.4.8, RFC 6851 section 3.3, RFC 4315 section 3), moving one
  message or a whole folder, executing a list of actions, and the folders and flags that come of it.
- `MoveTruth`, `OutcomeTruth`, `OutcomeTruthIff`, `ExecutionTruth`, `SpamReport`: when the reported outcome of a list of
  actions and the answer to a spam report say where a message is.
- `ResetSafety`, `ResetTruth`: what resetting a folder keeps, and which rows of tracked mails locate their mail afterwards.
- `ActionStrings`, `ActionLiterals`, `RuleActions`, `Labeling`, `LabelText`, `LabelRoundTrip`, `SmartFolder`: action
  strings, their one parser, and the modules that print them.
- `JsonRepair`, `JsonNesting`, `ToolLoop`, `ToolProtocol`: repairing the text of a model's answer, with nesting given by a
  grammar, and the tool-calling loop.
- `RateLimit`, `RateVerdicts`, `LikeSearch`: admission of requests, and search text in SQL patterns.
- `Approvals`, `ApprovalRuns`, `FolderReset`, `ContactCache`, `CacheRuns`, `Persistence`, `Providers`: database protocols with
  rollback, unique keys, a cache beside the database, upserts, and a default-and-pause state machine.
- `Conditions`, `Comparisons`, `Negation`, `RuleRun`: condition trees, what each comparison asks, and the rule engine.
- `KeyRotation`: envelope encryption and changes of the application secret.
- `Prelude`, `Text`: an option type, replies of a service, and Python's string operations.

Check everything with `dafny verify --resource-limit 2000000 dfyconfig.toml`.

## What the proofs found

Where a promise fails, the model follows the code, a lemma gives the failure, and another says exactly when the promise
holds.

- `move_message` ends with a plain EXPUNGE, so it loses nothing under all failure patterns exactly when no other
  message of the source folder is flagged `\Deleted` (`ImapMoves.MoveConservesIff`). The status of EXPUNGE is not
  looked at, so success does not mean that the message left its old place (`ImapMoves.MoveEndMeans`).
- Resetting a smart folder deletes the IMAP folder even if its messages could not be moved back; it keeps all messages
  exactly when the folder was empty, was not deleted, or its messages had reached INBOX, themselves or by a twin with the
  same content. INBOX itself can be reset too, is never deleted, and loses exactly the messages flagged `\Deleted` that
  have no unflagged twin, once they are copied and EXPUNGE takes effect (`ResetSafety.ResetKeepsIff`). The rows that are
  sent to INBOX keep their old UID, so such a row locates its mail only if the mail happened to get that UID again
  (`ResetTruth.RelocatedRowLocatesIff`).
- Two completed rows for one UID make the database half of the reset violate its unique key, because the last update
  does not filter on the folder (`FolderReset.KeepsUniqueKeyIff`).
- A move slips when EXPUNGE raises behind its effect, or MOVE does and the commands that follow do not all succeed: the
  message has left, and nothing is reported (`MoveTruth.UnreportedIff`). Any move that can find its folder can slip, so the outcome is true
  under all replies whatsoever exactly when no move can (`OutcomeTruthIff.AlwaysTruthfulIff`).
- Under all replies on which no move slips the outcome is true exactly when the moves that can find their folder name one
  folder and, if that is the folder the message is in, there is one such move and the message is not flagged `\Deleted`
  (`OutcomeTruthIff.MovesAreTruthfulIff`, and from the first action on `ExecutionTruth.ExecutionIsTruthfulIff`).
  Otherwise a later move acts on a UID that is gone, is answered OK, and overwrites the outcome; a run of two moves shows
  it (`ExecutionTruth.TwoMovesReportTheWrongFolder`).
- `report_as_spam` claims a move whenever the account exists, because failures of single actions never reach it; a move
  is reported by the server exactly on the answers of `SpamReport.ReportMovesIff`. If another row stands at the new place
  the flush fails, the exception is swallowed, and the blocklist entries that were counted are lost with the transaction
  (`SpamReport.SpamService.ReportAsSpam`). If the move slipped, the row stays on a place that is empty
  (`SpamReport.UnreportedRowLocatesIff`). A mail whose row names the spam folder already is moved within it, and if it is
  flagged `\Deleted` the fallback loses it while the row follows to the new UID (`SpamReport.ReportedTwiceIsLost`).
- `create_folder` tries to create a folder with the empty name for a path that begins with a separator, and never the path
  itself (`FolderPaths.LeadingSeparatorsAreLost`).
- The comment on the prefix table says that its order matters; it does not (`ActionStrings.TableOrderIsIrrelevant`).
  The prefix `label:` that rules print is unknown to the parser, so rule labels are dropped (`RuleActions.LabelIsLost`).
- A fixed window of sixty seconds with limit L lets up to 2 L - 1 requests through in a sliding one, and this is
  reached (`RateLimit.SlidingBound`, `RateLimit.SlidingBoundIsReached`).
- The status EXPIRED is written and then rolled back by the error that reports it, so an expired approval can neither
  be resolved nor deleted (`Approvals.ExpiredIsStuck`). A commit that fails behind the queue leaves an executable job
  for an approval that can still be rejected (`Approvals.LostCommitExecutesRejected`).
- Assigning an address to a contact never writes it back to the address book: the address is added first, and the
  write-back skips addresses that are there, yet `writeback_triggered` is true (`ContactCache.Contacts.AssignEmail`).
- The retry flag of the smart-folder plugin is shared by all mails, so a mail can be refused without ever being
  reprompted (`SmartFolder.UnearnedRefusalIff`).
- Deleting the default provider leaves the user without one (`Providers.DefaultIsKeptIff`) until a flag is set by hand, or
  all providers are gone and one is created (`Providers.StaysWithoutDefaultIff`).
  A transient failure is counted by the executor and again by the worker, so the third in a row pauses a provider whose
  threshold is five (`Providers.ThreeFailuresPause`). A pause by hand with the reason `circuit_breaker` is ended by the
  recovery job (`Providers.StepKeepsConsistentIff`). A plugin whose assigned provider is paused is blocked even if the
  user has a healthy default (`Providers.ProviderApi.AdmitPlugin`).
- A write-back whose cache call fails is repeated although the address book took it, so an address is stored once for each
  attempt that is carried out, up to three times (`ContactCache.AddsTwiceIff`, `ContactCache.AddsThrice`). No request
  reaches this: both callers, `backend/app/api/contacts.py:663-672` and
  `backend/app/services/contacts/writeback.py:270-288`, add the address to the contact first, so the function returns at
  its first check.
- No module of the repository calls `rotate_envelope`; a credential stays readable through changes to new secrets exactly
  when it is rotated between any two of them (`KeyRotation.StaysReadableIff`).

## Model

| member | source | states |
|---|---|---|
| ImapServer.ListingOne | backend/app/services/mail.py:488-499 | a command with one UID acts on that message, or on nothing when the UID is absent |
| ImapServer.CopyKeeps | backend/app/services/mail.py:499-499 | COPY leaves every message of every folder in its place and puts the copies under fresh UIDs |
| ImapServer.CopyHasAll | backend/app/services/mail.py:574-574 | a batch COPY makes a copy of every selected message that exists |
| ImapMoves.Connection.MoveMessage | backend/app/services/mail.py:476-530 | the commands of one move, with MOVE or with COPY, STORE and EXPUNGE, leave exactly the server and the result that the specification gives for the answers they get |
| ImapMoves.MoveConservesIff | backend/app/services/mail.py:476-530 | whatever fails, every message stays in its place and the moved one is at its old or its new place, for all failure patterns if and only if no bystander is flagged deleted |
| ImapMoves.MoveEndMeans | backend/app/services/mail.py:461-530 | success: the message is in the destination, under the reported UID if one is reported, and gone from the source unless EXPUNGE was refused; failure: it is still in the source unless MOVE raised after moving it; a message flagged deleted that is moved within its folder is there after a success of the fallback if and only if EXPUNGE was refused |
| ImapMoves.FallbackEndMeans | backend/app/services/mail.py:498-530 | COPY, STORE, EXPUNGE alone: a failed COPY or STORE leaves the message in the source; success leaves it in the destination, and of a flagged message copied within its folder nothing unless EXPUNGE was refused |
| ImapMoves.AbsentMoveFindsNothing | backend/app/services/mail.py:498-530 | on an absent UID nothing appears anywhere and no UID is reported |
| ImapMoves.AbsentMoveStillSucceeds | backend/app/services/mail.py:485-530 | on an absent UID a willing server answers OK throughout and the call reports success |
| ImapMoves.MoveStaysInTwoFolders | backend/app/services/mail.py:476-530 | a move touches source and destination only, and the source only loses messages |
| ImapMoves.MoveGainsOne | backend/app/services/mail.py:476-530 | beyond what it held, the destination holds at most one more message, under its next UID |
| ImapBatch.MoveAllToInbox | backend/app/services/mail.py:535-602 | for every pattern of answers, a MOVE carried out for some messages only among them: the server afterwards, and the UIDs reported as moved |
| ImapBatch.DeleteFolder | backend/app/services/mail.py:605-621 | the folder is gone exactly when the server carried the deletion out |
| ImapBatch.ResetAccount | backend/app/api/folders.py:146-173 | one account of a reset: move everything, then delete the folder whatever was moved; the two reported values |
| ResetSafety.MoveAllDelivers | backend/app/services/mail.py:535-602 | for any folder: messages outside it stay; its messages all reach INBOX if MOVE took them all or COPY took the rest, and otherwise those that MOVE took are in INBOX and at least one is left, each in its place; on INBOX itself, once EXPUNGE takes effect behind the copies, a message is left if and only if it has an unflagged twin |
| ResetSafety.ResetKeepsIff | backend/app/api/folders.py:155-160 | the reset keeps every message if and only if the folder was empty, was not deleted, its messages had reached INBOX, or each one left has a twin that was taken; for INBOX, if and only if EXPUNGE takes no effect behind the copies or every flagged message has an unflagged twin |
| ResetSafety.ResetIsSafeIff | backend/app/api/folders.py:155-160 | under every failure pattern only an empty folder is safe, and an INBOX where every flagged message has an unflagged twin |
| ResetSafety.ReportedIff | backend/app/services/mail.py:535-602 | UIDs are reported as moved if and only if there are any, selections and listing succeed, and MOVE is OK, or COPY and STORE are and EXPUNGE does not raise; then all of them, ascending |
| ImapActions.CreateFolder | backend/app/services/mail.py:282-313 | the loop over the path creates what the specification says and stops at the first failure |
| ImapActions.CreateGrows | backend/app/services/mail.py:282-313 | existing folders keep their messages; only the path and its ancestors are created, and all of them exist on success |
| FolderPaths.CreatedFolders | backend/app/services/mail.py:288-311 | for a path that does not begin with a separator: on success the path and all its ancestors exist, and nothing but these is ever created |
| FolderPaths.LeadingSeparatorsAreLost | backend/app/services/mail.py:288-311 | leading separators: the folder with the empty name and the ancestors of the rest are created, and never the path itself |
| ImapActions.ResolveFolder | backend/app/services/mail.py:235-255 | the first candidate that exists, else the first candidate, created if possible |
| ActionEffects.SpamGoesTo | backend/app/services/mail.py:235-255 | the first of Junk, Spam, INBOX.Junk and INBOX.Spam that exists, and a new Junk if none does |
| ImapActions.StoreFlags | backend/app/services/mail.py:378-406 | the message carries the flag exactly when the server took the command, and true is returned exactly when it was answered OK |
| ActionEffects.FlagsArriveIff | backend/app/services/imap_actions.py:274-297 | the first loop gives the message exactly the flags that its actions ask for, the seen flag for mark-as-read, and the server takes; other messages keep theirs |
| ActionEffects.ExpungeTakes | backend/app/services/mail.py:522-522 | EXPUNGE takes exactly the messages of the folder that carry the deletion flag |
| ActionEffects.UnexpungedCarriesDeleted | backend/app/services/mail.py:509-525 | a move by copy whose EXPUNGE is refused leaves the original in the source with the deletion flag |
| ImapActions.ApplyFlag | backend/app/services/imap_actions.py:277-291 | one label, flag or folder action, its failure swallowed |
| ImapActions.ApplyMove | backend/app/services/imap_actions.py:300-324 | one move, to spam or to a folder, skipped when the folder is the source up to case; only a success changes the outcome |
| ImapActions.ApplyFlags | backend/app/services/imap_actions.py:274-297 | the first loop applies the non-moves in order and puts the moves aside in order |
| ImapActions.ApplyMoves | backend/app/services/imap_actions.py:299-324 | the second loop applies the moves in order; the last success is the outcome |
| ImapActions.ExecuteJobs | backend/app/services/imap_actions.py:267-328 | the result depends only on the list of non-moves and on the list of moves, however they are interleaved |
| MoveTruth.UnreportedIff | backend/app/services/mail.py:476-530 | one move that reports nothing has left the message in its place if and only if it did not slip: MOVE raised behind its effect and the three commands did not all succeed, or EXPUNGE raised behind its effect |
| MoveTruth.MoveToTruth | backend/app/services/imap_actions.py:300-321 | one move, for every message: the outcome is true if and only if the move did not slip, except when EXPUNGE took a flagged message and its copy in their own folder; then if and only if no UID is reported and the same content is there unflagged |
| OutcomeTruth.OneFolderTruthIff | backend/app/services/imap_actions.py:299-324 | for every list whose moves can find one folder only, and the source at most once, under all replies and for flagged messages too: the outcome is true if and only if a folder is reported or no move slipped; after a message vanished in its own folder, if and only if no UID is reported and the same content is there unflagged |
| OutcomeTruth.UnambiguousTruthIff | backend/app/services/imap_actions.py:299-324 | for every list of moves that is unambiguous on the server they start on, under all replies: the outcome is true if and only if a folder is reported or no move slipped |
| OutcomeTruthIff.MovesAreTruthfulIff | backend/app/services/imap_actions.py:299-324 | for every list of moves, on a message held at one place only: the outcome is true under all replies on which no move slips if and only if the moves that can find their folder (for spam the first that exists, or the one created) name one folder and, if that is the source, there is one of them and the message is not flagged deleted |
| OutcomeTruthIff.AlwaysTruthfulIff | backend/app/services/imap_actions.py:299-324 | it is true under all replies whatsoever if and only if no move can find its folder |
| ExecutionTruth.FlagsKeepMessages | backend/app/services/imap_actions.py:274-297 | labels, flags and new folders leave every message where it is |
| ExecutionTruth.OneMoveTruthIff | backend/app/services/imap_actions.py:267-328 | for every list of actions with at most one move that is not skipped, from the server before the first action and under all replies: the outcome is true if and only if a folder is reported or the move did not slip; after a flagged message vanished in its own folder, if and only if no UID is reported and the same content is there unflagged |
| ExecutionTruth.ExecutionIsTruthfulIff | backend/app/services/imap_actions.py:267-328 | for every list of actions the outcome is true under all replies on which no move slips if and only if, on the server before the first action, its moves are unambiguous however many of their folders the creations make and whichever labels named like the deletion flag are set |
| ExecutionTruth.ExecutionIsAlwaysTruthfulIff | backend/app/services/imap_actions.py:267-328 | it is true under all replies whatsoever if and only if no move can find its folder, however far the first loop gets |
| ExecutionTruth.PlainExecutionIsTruthfulIff | backend/app/services/imap_actions.py:267-328 | if no folder is created and no label is named like the deletion flag, the condition is that the moves are unambiguous on the server before the first action |
| ExecutionTruth.FolderListIsTruthfulIff | backend/app/services/imap_actions.py:267-328 | without a move to spam, as in the list of the smart-folder plugin, it is that they are unambiguous with all these folders created and labels set |
| ExecutionTruth.SecondMoveOverwrites | backend/app/services/imap_actions.py:300-321 | once the first of two moves has moved the message, a second one that is answered OK overwrites the outcome with a folder that does not hold it |
| ExecutionTruth.TwoMovesReportTheWrongFolder | backend/app/services/imap_actions.py:314-321 | a run on a concrete server: the mail is in the first folder and the second is reported |
| SpamReport.ReportActionsParse | backend/app/services/spam.py:143-148 | the two action strings of a report parse to a move to spam and a mark-as-read |
| SpamReport.SpamService.BlockSender | backend/app/services/spam.py:93-115 | the blocklist gains exactly the sender's address and domain; the count is how many of them were new, and is 0 if and only if none was |
| SpamReport.DomainIff | backend/app/services/spam.py:27-33 | the domain of an address is what follows an @ and has none itself |
| SpamReport.EntriesAre | backend/app/services/spam.py:93-115 | the sender's address is blocked as an address and the domain, if there is one, as a domain, for this user |
| SpamReport.SpamService.CurrentFolder | backend/app/services/spam.py:128-140 | the folder of a row with that UID, INBOX without one |
| SpamReport.SpamService.ReportAsSpam | backend/app/services/spam.py:68-186 | server, row, blocklist and reported values after a report; a move is claimed whenever the account is found; when another row stands at the new place, row and blocklist entries are lost and the move on the server stays |
| SpamReport.ReportsCreateOnce | backend/app/services/spam.py:93-115 | over every run of reports: the counts, less those of lost reports, add up to the growth of the blocklist; a report counts 0 if and only if each of its entries was there or in an earlier report that was not lost |
| SpamReport.ReportMovesIff | backend/app/services/spam.py:142-166 | a folder is reported by the moves if and only if listing and SELECT succeed, the target exists after creation, and MOVE is OK, or COPY and STORE are and EXPUNGE does not raise |
| SpamReport.ClaimIsTrueIff | backend/app/services/spam.py:142-186 | the claimed move is a reported one under all replies if and only if nothing is claimed |
| SpamReport.RowLocatesIff | backend/app/services/spam.py:128-163 | after a report that reported a folder its row locates the mail, in another folder, if and only if COPYUID was sent or the copy happened to get the old UID, and if another row stands at the new place, if and only if the mail was copied and EXPUNGE refused; in the folder it was in, if and only if COPYUID was sent, no row stands there and EXPUNGE did not take a flagged copy, or the mail was copied and EXPUNGE refused |
| SpamReport.ReportedTwiceIsLost | backend/app/services/spam.py:128-163 | a run: a flagged mail whose row names the spam folder already is copied there and expunged with its copy; the row follows to the new UID, and the folder is empty |
| SpamReport.UnreportedRowLocatesIff | backend/app/services/spam.py:151-163 | after a report that reported no folder the row is unchanged and locates the mail if and only if the move did not slip |
| ActionStrings.PrefixMapIsPrefixFree | backend/app/services/imap_actions.py:99-112 | no prefix of the table is a prefix of another |
| ActionStrings.LookupFindsTheMatch | backend/app/services/imap_actions.py:174-176 | the loop over the table finds the one entry that matches, wherever it stands |
| ActionStrings.TableOrderIsIrrelevant | backend/app/services/imap_actions.py:99-112 | every reordering of the table parses every text alike |
| ActionStrings.AnnotationIsRemoved | backend/app/services/imap_actions.py:72-75 | a final confidence annotation is cut off whole, with the spaces around it |
| ActionStrings.UnannotatedChangesOnlyAnnotations | backend/app/services/imap_actions.py:72-75 | a text without a final annotation is left alone |
| ActionStrings.PrefixedActionParses | backend/app/services/imap_actions.py:154-186 | every prefixed string parses to its own kind, with its parameter less a final annotation and trailing spaces |
| ActionStrings.TrimmedIff | backend/app/services/imap_actions.py:166-166 | a parameter comes back unchanged if and only if it ends neither in a space nor in an annotation |
| ActionStrings.FilterDropsUnknown | backend/app/services/imap_actions.py:198-200 | actions that need no server are dropped |
| ActionLiterals.PrefixedLiteral | backend/app/services/imap_actions.py:101-112 | each of the ten prefixes, spelled out, parses to its kind with what follows |
| ActionLiterals.ConfidenceIsIgnored | backend/app/services/imap_actions.py:72-75 | any percentage in any spacing behind an action is ignored |
| ActionLiterals.ServerActions | backend/app/services/imap_actions.py:198-200 | the server is asked for six kinds of actions, in order, and for no others |
| RuleActions.MoveSurvivesIff | backend/app/services/rules.py:63-73 | a printed move parses to a move, with its own target if and only if the target is not trimmed |
| RuleActions.BareActionsSurvive | backend/app/services/rules.py:48-60 | mark-as-read and delete come back as mark-as-read and move-to-spam |
| RuleActions.LabelIsLost | backend/app/services/rules.py:50-50 | every label action prints a string that parses to UNKNOWN and is dropped |
| RuleActions.OnlyMoveReadDeleteReachTheServer | backend/app/services/rules.py:48-73 | an accepted rule action reaches the server if and only if it is a move, a mark-as-read or a delete |
| Labeling.Normalise | backend/app/plugins/labeling.py:43-47 | the result is in a-z, 0-9 and hyphen, without a hyphen at an edge |
| Labeling.NormaliseFixpoints | backend/app/plugins/labeling.py:43-47 | exactly the labels of that form are unchanged, so normalising is idempotent |
| LabelText.LettersAreKept | backend/app/plugins/labeling.py:43-47 | no letter or digit of the lower-cased label is lost, doubled or moved |
| LabelText.WordsAreJoined | backend/app/plugins/labeling.py:44-44 | two words with any spaces and underscores between them come out with one hyphen |
| Labeling.Classify | backend/app/plugins/labeling.py:41-54 | the first loop splits the non-empty labels into reused and new ones, in order |
| LabelText.ReusedIff | backend/app/plugins/labeling.py:51-54 | a label is reused if and only if an existing one has its name up to case, and created otherwise |
| Labeling.PrintEach | backend/app/plugins/labeling.py:61-65 | one action per label, in order |
| Labeling.Execute | backend/app/plugins/labeling.py:36-78 | the printed actions: reused labels, new labels, and one log action if there are new ones; a no-op string if there are none |
| Labeling.Deduplicate | backend/app/services/change_logger.py:24-33 | the loop with its set keeps the items whose key does not occur before them |
| Labeling.ExtractNewLabels | backend/app/services/change_logger.py:36-50 | the loop collects the labels of create and log actions and deduplicates them |
| LabelRoundTrip.DedupKeepsKeys | backend/app/services/change_logger.py:24-33 | a key occurs in the result if and only if it occurs in the list |
| LabelRoundTrip.DedupIsDistinct | backend/app/services/change_logger.py:24-33 | no key occurs twice in the result |
| LabelRoundTrip.SplitJoin | backend/app/services/change_logger.py:45-45 | splitting the logged labels at commas gives back the joined list |
| LabelRoundTrip.ServerGetsEveryLabel | backend/app/services/imap_actions.py:154-200 | the IMAP actions parsed from what was printed are the reused labels and then the new ones, in order |
| LabelRoundTrip.LabelsSurvive | backend/app/plugins/labeling.py:36-78 | for all raw and existing labels: the server is told exactly these labels, and the change log gets the new ones once each, in order of first occurrence |
| LabelRoundTrip.LabelsArePartitioned | backend/app/plugins/labeling.py:51-54 | every label is reused or new, none is both and none is lost |
| SmartFolder.SmartFolderPlugin.Execute | backend/app/plugins/smart_folder.py:43-124 | result of one call, and the flag afterwards: whether this call suggested an excluded folder |
| SmartFolder.CallMeans | backend/app/plugins/smart_folder.py:43-124 | when a call reprompts, refuses, asks the user or acts, and the action strings it prints, spelled out |
| SmartFolder.SmartFolderPlugin.Process | backend/app/workers/plugin_executor.py:291-319 | one mail: a call and, after a reprompt, a second one; result and flag |
| SmartFolder.RefusedIff | backend/app/plugins/smart_folder.py:48-62 | a mail is refused if and only if the flag is set and its first suggestion excluded, or it earned the refusal itself |
| SmartFolder.FlagIsALeak | backend/app/plugins/smart_folder.py:52-81 | the flag is set if and only if some mail earned a refusal and every mail since began with an excluded suggestion |
| SmartFolder.UnearnedRefusalIff | backend/app/plugins/smart_folder.py:52-81 | over any run of mails: a mail that did not earn it is refused if and only if its first suggestion is excluded and the flag leaked from earlier mails |
| SmartFolder.SecondMailPaysForTheFirst | backend/app/plugins/smart_folder.py:52-62 | a run of two mails in which the second, whose answer to a reprompt would be allowed, is refused |
| SmartFolder.CreatedFolderIsTheTarget | backend/app/plugins/smart_folder.py:106-119 | for every folder name the created folder and the target of the move are the same |
| JsonRepair.OpenBrackets | backend/app/services/ai.py:609-630 | the loop over the text ends with the closers of exactly the brackets a rescan finds open |
| JsonRepair.Repair | backend/app/services/ai.py:599-633 | the text with a quote appended if the count is odd, then with the reversed closers of what is open |
| JsonRepair.ScanCounts | backend/app/services/ai.py:603-624 | the scanner waits for an escaped character exactly behind an odd run of backslashes, and is in a string exactly when counted and missed quotes add up to an odd number |
| JsonRepair.ParityIff | backend/app/services/ai.py:603-604 | the quote count has the parity of the scanner's state if and only if it misses an even number of quotes |
| JsonRepair.DoubleBackslashFoolsTheCount | backend/app/services/ai.py:603-604 | two backslashes and a quote open a string that is counted as no quote and left open |
| JsonRepair.StageClosesIff | backend/app/services/ai.py:609-631 | appending the reversed closers leaves a text closed if and only if it ends outside strings and, unless nothing is open, not behind an escaping backslash |
| JsonRepair.RepairClosesIff | backend/app/services/ai.py:599-633 | for every text: a rescan of the repaired text ends outside strings with nothing open if and only if, for an even count, the missed quotes are even in number and nothing is open or the end is not escaped, and, for an odd count, the missed quotes are even in number exactly when the stripped text does not end escaped |
| JsonRepair.RepairExtends | backend/app/services/ai.py:599-633 | the text without trailing space is a prefix of the repaired one |
| JsonRepair.RepairIsIdempotentIff | backend/app/services/ai.py:599-633 | for every text: a second run changes nothing if and only if the appended quote was not swallowed by a backslash and nothing was open or all was closed |
| JsonRepair.OrdinaryTextIsRepaired | backend/app/services/ai.py:599-633 | without adjacent backslashes and without one at the end: the count is exact, everything is closed and the repair is idempotent |
| JsonNesting.BalancedIsClosed | backend/app/services/ai.py:608-631 | text that is balanced by the grammar leaves the scanner outside strings with nothing open |
| JsonNesting.ScanOpen | backend/app/services/ai.py:608-631 | of text that breaks off, the scanner's stack is the closers of its open brackets, and its two flags say whether it breaks off in a literal or behind a backslash |
| JsonNesting.OpenTextIsBalanced | backend/app/services/ai.py:599-633 | a repairable text that breaks off gets its literal closed and one closer for each open bracket, innermost first and each of its own kind, and is balanced then |
| JsonNesting.PrefixIsRepairedIff | backend/app/services/ai.py:599-633 | every prefix of a balanced text is repaired to a balanced text if and only if it is repairable |
| JsonNesting.CountIsPattern | backend/app/services/ai.py:603-603 | the quote count is the number of quotes that no backslash precedes |
| ToolLoop.TruncateToSchema | backend/app/services/ai.py:561-576 | the loop over the schema's properties computes the truncation |
| ToolLoop.TruncationFits | backend/app/services/ai.py:561-576 | truncation keeps the fields, cuts strings only at the end and to a limit of their own, and no further than the limits ask |
| ToolLoop.CutIsDetermined | backend/app/services/ai.py:561-576 | there is one way to do so |
| ToolLoop.AnswerToolCalls | backend/app/services/ai.py:376-432 | for every tool and validator: messages, dispatched tools and end after the calls of one reply are those of the specification, which answers calls one by one up to a submission or an exception |
| ToolLoop.AnswerText | backend/app/services/ai.py:440-479 | a reply without tool calls ends in a validated result or a failure and adds no message, or else adds the reply and one reminder |
| ToolLoop.AnswerReply | backend/app/services/ai.py:372-479 | one reply adds its assistant message and its answers, or the reminder, and nothing else |
| ToolLoop.CallLlmWithTools | backend/app/services/ai.py:343-495 | for every model, tool and validator: the end of the whole loop, and the exact message list of every request |
| ToolProtocol.EveryRequestIsSound | backend/app/services/ai.py:343-479 | every request is the one before with the model's reply and, for each call in order, what the tool returned for its parsed arguments or the rejection of a submission, or with the reminder; at most max requests |
| ToolProtocol.ResultIsAccounted | backend/app/services/ai.py:343-495 | the run ends in the iteration in which a submission or content is judged valid or something raises, with the exception classified, or after all iterations; a result carries the sum of all usages and exactly the tools dispatched, in order |
| ToolProtocol.TurnEndsAs | backend/app/services/ai.py:374-455 | a turn ends with a value if and only if its first submission, behind tools that returned, or its content is judged valid once cut to the schema, and with an exception if and only if one of these raises it |
| ToolProtocol.LoopKeepsTheProtocol | backend/app/services/ai.py:257-495 | both for every call of the loop, from the two prompts on |
| RateLimit.RateLimiter.Eval | backend/app/core/middleware.py:216-222 | the script: one more hit, and an expiry set by the first only |
| RateLimit.RateLimiter.Dispatch | backend/app/core/middleware.py:184-245 | passed on, refused or unavailable, with the store afterwards, for each request and fault |
| RateLimit.KeysAreDistinct | backend/app/core/middleware.py:203-211 | users and addresses never share a counter |
| RateLimit.WindowIsExact | backend/app/core/middleware.py:216-223 | a counter lives for sixty seconds from its first hit, and no more than the limit get through in that time |
| RateLimit.SlidingBound | backend/app/core/middleware.py:184-245 | over every run with a monotone clock, under any faults: at most 2 L - 1 checked requests of a caller get through in any sixty seconds |
| RateLimit.SlidingBoundIsReached | backend/app/core/middleware.py:184-245 | for every limit a run that lets 2 L - 1 through |
| RateVerdicts.VerdictIff | backend/app/core/middleware.py:184-245 | over every run: 429 if and only if the request is limited, meets no fault, and its caller has made more counted requests since the window of sixty seconds opened than the settings allow a user or an address; 503 if and only if it is limited, meets a fault and faults are not forgiven; what is not limited is admitted and leaves no trace |
| RateVerdicts.AtMostTwiceLessOne | backend/app/core/middleware.py:206-225 | in any sixty seconds a user gets at most twice the API limit less one through, and an address twice the limit for addresses less one |
| LikeSearch.SanitizeIsEscape | backend/app/api/deps.py:229-234 | the three ordered replacements are one escape per character |
| LikeSearch.EscapedMatchesItself | backend/app/api/deps.py:229-234 | an escaped text in front of any pattern matches exactly itself |
| LikeSearch.SearchIsSubstring | backend/app/api/deps.py:229-234 | for all texts the search pattern matches if and only if the search text occurs, up to case folding |
| Approvals.Api.GetPendingOr404 | backend/app/api/approvals.py:206-226 | 404, 409, 410 with the EXPIRED write in the session, or the row |
| Approvals.Api.Enqueue | backend/app/api/approvals.py:229-255 | a job is on the queue exactly when the queue took it, also when it raised afterwards |
| Approvals.Api.Endpoint | backend/app/api/approvals.py:88-203 | session, new jobs and status of each endpoint |
| Approvals.Api.Handle | backend/app/core/database.py:38-64 | committed when the endpoint returns and the commit works, rolled back otherwise; queued jobs stay |
| Approvals.OnlyActionableIsExecuted | backend/app/api/approvals.py:88-111 | over one request: an execution job comes only from approving an actionable, unexpired row of the caller |
| Approvals.ResolvedRowsAreFrozen | backend/app/api/approvals.py:206-218 | over every run: a resolved row never changes until it is deleted |
| Approvals.NothingBecomesExpired | backend/app/api/approvals.py:220-224 | over every run no row becomes EXPIRED |
| Approvals.ExpiredIsStuck | backend/app/api/approvals.py:184-226 | over every later run an expired actionable row stays as it is and is never executed |
| ApprovalRuns.ApprovalLives | backend/app/api/approvals.py:88-226 | over every run an actionable approval is as its owner edited it last in time, until the first request that resolves it; then it has that request's status and time and the actions edited before, until it is deleted |
| ApprovalRuns.GoneIff | backend/app/api/approvals.py:178-203 | a row goes if and only if its owner deletes it, it cannot be acted on, and the commit works |
| ApprovalRuns.AnswerIs | backend/app/api/approvals.py:88-226 | which of 404, 409, 410, 500 and 200 the caller gets |
| ApprovalRuns.ReprocessedIff | backend/app/api/approvals.py:114-160 | a mail goes back into the pipeline if and only if its spam verdict is rejected in time by the owner, it is tracked, and the queue takes the job |
| Approvals.CleanRunsAgree | backend/app/api/approvals.py:88-111 | over every run without a failure between queue and commit: jobs belong to approved rows, and none is executed twice |
| Approvals.StepAgreesIff | backend/app/api/approvals.py:88-203 | every request keeps this, except exactly an approval whose job is queued and whose transaction is lost |
| Approvals.LostCommitExecutesRejected | backend/app/api/approvals.py:96-136 | then the row can be rejected while its job is queued |
| FolderReset.Database.ResetAccount | backend/app/api/folders.py:215-275 | the statements for one account rewrite the table row by row as specified |
| FolderReset.Database.ResetRows | backend/app/api/folders.py:117-277 | all accounts, 404 without an assignment, rollback when the key is violated |
| FolderReset.Database.ResetAccounts | backend/app/api/folders.py:215-277 | the loop over the accounts is one rewrite for all affected mails |
| FolderReset.RowBecomes | backend/app/api/folders.py:215-275 | what becomes of each row: deleted, queued afresh in INBOX, or left alone |
| FolderReset.KeepsUniqueKeyIff | backend/app/models/mail.py:638-638 | for every table the rewrite keeps (account, uid, folder) unique if and only if no affected mail without an INBOX row has two completed rows |
| FolderReset.TwoCompletedRowsClash | backend/app/api/folders.py:253-274 | two completed rows of one mail violate the key |
| FolderReset.KeepsPairsIff | backend/app/api/folders.py:215-275 | no tracked (account, uid) pair is lost or invented if and only if the folder is not INBOX or every affected mail with an INBOX row has another row |
| FolderReset.NoRowLeftBehindIff | backend/app/api/folders.py:253-274 | no row of an affected mail still names the deleted folder if and only if each of them was completed or had a row in INBOX |
| FolderReset.ThirdFolderIsRelocated | backend/app/api/folders.py:253-274 | a completed row in a third folder is sent to INBOX |
| FolderReset.AccountsCompose | backend/app/api/folders.py:215-215 | accounts do not interfere, so their order is irrelevant |
| FolderReset.StatementsCompose | backend/app/api/folders.py:216-275 | the delete and the two updates for one account are the row-by-row rewrite |
| ResetTruth.RelocatedRowLocatesIff | backend/app/api/folders.py:253-274 | after both halves of a reset a row that was sent to INBOX locates its mail if and only if the mail arrived there and its new UID is the old one |
| ResetTruth.RolledBackRowLocatesIff | backend/app/api/folders.py:146-277 | if the database half is rolled back behind the IMAP half, the row locates its mail if and only if the mail did not leave and the folder was not deleted, which INBOX never is |
| ResetTruth.InboxRowIsDeleted | backend/app/api/folders.py:216-225 | a reset of INBOX deletes the row of every affected mail that names INBOX |
| ContactCache.Contacts.CreateContact | backend/app/api/contacts.py:472-497 | contacts and cache after a creation, for each way it may end |
| ContactCache.CreatedHas | backend/app/api/contacts.py:472-497 | a contact that is created has exactly the given addresses, lower-cased; other contacts stay |
| ContactCache.Contacts.AssignEmail | backend/app/api/contacts.py:640-700 | contacts and cache after an assignment; no request changes the address book, although a write-back is reported exactly when the address is new and a book with readable credentials is active |
| ContactCache.AssignedHas | backend/app/api/contacts.py:650-662 | an assigned address is on the contact, up to case, and all its others stay |
| ContactCache.Contacts.WriteBackEmail | backend/app/services/contacts/writeback.py:24-130 | nothing is sent for an address the contact has; otherwise contact, cache, requests and result are what the attempts give, up to three of them |
| ContactCache.WriteBackMeans | backend/app/services/contacts/writeback.py:24-130 | the address is added once for each attempt that is made and carried out; success means that one of them reached the end, so that the address was added and the cache entry dropped |
| ContactCache.AddsTwiceIff | backend/app/services/contacts/writeback.py:100-128 | it is stored more than once if and only if the cache fails behind an attempt that is carried out and a later one is made and carried out too |
| ContactCache.AddsThrice | backend/app/services/contacts/writeback.py:65-128 | if the cache fails behind all three attempts it is stored three times, and failure is reported |
| ContactCache.Contacts.TryWriteBack | backend/app/services/contacts/writeback.py:65-128 | one attempt: contact, cache, requests, and whether the loop ends and how |
| ContactCache.Contacts.RemoveEmail | backend/app/api/contacts.py:704-761 | contacts and cache after a removal, with the early commit of its write-back |
| ContactCache.RemovedHas | backend/app/api/contacts.py:715-745 | a removed address is off the contact, in any case, and exactly the others stay |
| ContactCache.Contacts.DeleteContact | backend/app/api/contacts.py:583-592 | the contact goes, the cache stays |
| ContactCache.Contacts.MatchSender | backend/app/services/contacts/matching.py:59-120 | the cached answer unless its contact is gone, else what the table says, which is then cached |
| ContactCache.MatchIsRemembered | backend/app/services/contacts/matching.py:81-120 | what was looked up is answered again from the cache |
| ContactCache.CoherentIffMatchingIsRight | backend/app/services/contacts/matching.py:81-120 | matching is right for every user and sender if and only if the cache is coherent |
| CacheRuns.StepKeepsCoherenceIff | backend/app/api/contacts.py:435-761 | each request keeps the cache coherent, except exactly an assignment whose commit fails behind the cache write, and a removal that has committed early when the cache refuses to drop its entry |
| CacheRuns.MatchingIsRightInCleanRuns | backend/app/api/contacts.py:435-761 | over every run without these failures, deletions included, every sender is matched rightly |
| CacheRuns.StepKeepsNoneDanglingIff | backend/app/services/spam.py:241-243 | cached contacts keep existing if and only if no contact with entries is deleted and no creation is rolled back behind a cache write |
| CacheRuns.LastingRunsStayExact | backend/app/api/contacts.py:435-761 | over every run without these events and without the two harmful failures, every cached hit names an existing contact of that user with that address |
| CacheRuns.LastingIsNeeded | backend/app/api/contacts.py:472-592 | the first such event ends it: the cache stays exact if and only if the event is not one of them |
| Persistence.Store.SaveEmailSummary | backend/app/services/persistence.py:139-167 | one upsert keyed by user and mail |
| Persistence.Store.SaveNewsletter | backend/app/services/persistence.py:172-215 | a no-op for other mails, else an upsert keyed by mail with defaults and truncation |
| Persistence.NewsletterIsStored | backend/app/services/persistence.py:190-205 | a newsletter without a name or a sender gets a stand-in, and the address is cut to 320 characters |
| Persistence.Store.SaveCoupons | backend/app/services/persistence.py:239-284 | a no-op without coupons, else the mail's rows are replaced by the batch, texts truncated and unreadable dates absent |
| Persistence.CouponIsStored | backend/app/services/persistence.py:259-282 | each coupon is stored in its own columns of 100, 300 and 200 characters and two dates |
| Persistence.Store.SaveAppliedLabels | backend/app/services/persistence.py:287-321 | the mail's rows are replaced by the batch, each marked as new or not |
| Persistence.LabelIsStored | backend/app/services/persistence.py:300-321 | a label is stored as new if and only if no existing one has its name up to case |
| Persistence.SavesRefineAMap | backend/app/services/persistence.py:139-165 | over every run of saves: one row per key, with id, user and creation time of the first save and payload and update time of the last |
| Persistence.UpsertFinds | backend/app/services/persistence.py:337-358 | an upsert changes what is found under its own key and nothing else |
| Persistence.BatchesKeepTheLast | backend/app/services/persistence.py:255-282 | over every run of batches: a mail has exactly its last non-empty batch, and other mails are untouched |
| Providers.ProviderApi.CreateProvider | backend/app/api/ai_providers.py:60-77 | the new provider is the default if and only if the user had none |
| Providers.ProviderApi.UpdateProvider | backend/app/api/ai_providers.py:166-187 | setting the flag clears it on the user's other providers |
| Providers.ProviderApi.DeleteProvider | backend/app/api/ai_providers.py:193-201 | the provider goes, no flag moves |
| Providers.ProviderApi.ResetProviderHealth | backend/app/api/ai_providers.py:234-259 | counters and pause fields are cleared |
| Providers.ProviderApi.UpdatePauseState | backend/app/api/ai_providers.py:263-301 | a manual pause with its reason, or everything cleared |
| Providers.ProviderApi.UpdateProviderHealth | backend/app/services/ai.py:140-179 | a failure counts, a success or an empty error clears |
| Providers.ProviderApi.CheckAiCircuitBreaker | backend/app/services/ai.py:182-210 | trips exactly at five errors of a provider that is not paused |
| Providers.ProviderApi.GetDefaultProvider | backend/app/services/provider_resolver.py:16-53 | the default unless paused, else the oldest that is not, else none |
| Providers.ProviderApi.PauseProvider | backend/app/workers/mail_processor.py:361-408 | a failed mail counts, and at five errors the provider is paused under the failure's reason |
| Providers.ProviderApi.RecoverCircuitBrokenProviders | backend/app/workers/health.py:170-225 | the loop unpauses exactly the cooled providers paused under the breaker's name |
| Providers.ProviderApi.RecoverPausedAiProviders | backend/app/workers/health.py:416-455 | the loop unpauses exactly the other cooled ones that were not paused by hand and answer a probe |
| Providers.ProviderApi.AdmitPlugin | backend/app/workers/plugin_executor.py:150-178 | a plugin is called with its assigned provider if and only if that one is not paused, whatever the default; without one, it is called if and only if a usable provider exists, and then with the fallback |
| Providers.StepKeepsConsistentIff | backend/app/workers/health.py:186-212 | every event keeps at most one default per user; it keeps a manual pause a pause, and a reason exactly while paused, if and only if it is not a recovery that reaches a provider paused by hand under the breaker's name |
| Providers.HonestRunsAreConsistent | backend/app/api/ai_providers.py:46-301 | over every run in which nobody gives the breaker's name as a reason, all of this holds |
| Providers.ForgedReasonLosesThePause | backend/app/api/ai_providers.py:278-283 | a pause by hand under that name is gone after the next recovery |
| Providers.DefaultIsKeptIff | backend/app/api/ai_providers.py:176-201 | a default is kept by every event if and only if it is not deleted and its flag not taken away |
| Providers.DefaultIsGainedIff | backend/app/api/ai_providers.py:60-187 | a user without a default gets one by an event if and only if a flag is set by hand on an own provider or the first provider is created |
| Providers.StaysWithoutDefaultIff | backend/app/api/ai_providers.py:46-301 | over every run, at every point: a user without a default stays without one if and only if neither happens |
| Providers.CounterCountsFailures | backend/app/workers/mail_processor.py:373-393 | over every run the error counter of a provider is the number of its failures, reported or recorded by the worker, behind the last event that cleared it: creation, success, reset, unpausing or recovery |
| Providers.ThreeFailuresPause | backend/app/workers/mail_processor.py:718-728 | a transient failure counts twice: the third in a row pauses a provider, under a reason that the recovery of broken providers passes by |
| Providers.UnpausedHasFewErrors | backend/app/services/ai.py:182-210 | if each reported failure is checked at once, a provider that is not paused has fewer than five errors, over every run with workers and recoveries |
| Providers.PausedIff | backend/app/workers/health.py:170-455 | for every event: a provider is paused behind it if and only if the event pauses it, by hand or at five errors, or it was paused and the event is not a reset, an unpausing or the recovery of its kind of pause |
| Providers.WhatIsNoted | backend/app/services/ai.py:160-205 | the last error and the reason of a pause after each event that sets them |
| Providers.ExistsIff | backend/app/api/ai_providers.py:60-201 | providers come by creation, without errors, and go by their owner's deletion |
| Providers.FlagIsSet | backend/app/api/ai_providers.py:176-187 | setting the flag of an own provider sets it there and clears it on the user's others |
| Providers.FallbackIsDetermined | backend/app/services/provider_resolver.py:16-53 | one provider is chosen, if creation times differ, and one is chosen if and only if one is not paused |
| Conditions.EvaluatorIsExact | backend/app/services/rules.py:173-185 | stopping early gives the same truth as all rules or some rule |
| Comparisons.TextLeaf | backend/app/services/rules.py:188-335 | for every text field of a mail and every operator: what the comparison asks of the lower-cased text, as an occurrence, a beginning, an end, a match, a number or a blank |
| Comparisons.NullLeaf | backend/app/services/rules.py:201-208 | a null entry of the contact compares as the empty text and is empty |
| Comparisons.SizeLeaf | backend/app/services/rules.py:242-296 | the size compares as a number |
| Comparisons.FlagLeaf | backend/app/services/rules.py:274-281 | a boolean field only compares for equality with the truth of the value |
| Comparisons.AttachmentLeaf | backend/app/services/rules.py:235-237 | attachment names compare if one of them does, as a subject of that name would |
| Comparisons.GreaterExcludesLess | backend/app/services/rules.py:284-296 | but for attachment names nothing is both greater and less |
| Comparisons.UnnamedIsUnread | backend/app/services/rules.py:188-223 | two mails that differ in one attribute are alike to every tree that does not name it |
| Conditions.DepthCheckIsHeight | backend/app/schemas/rules.py:102-108 | the recursive check accepts exactly the trees of at most five levels |
| Conditions.AcceptedIff | backend/app/schemas/rules.py:87-108 | accepted are exactly the groups with one to twenty rules in every group and at most five levels |
| Conditions.AcceptedTreesAreCheap | backend/app/schemas/rules.py:87-108 | every accepted tree is decided by at most 20^5 comparisons |
| Conditions.CheapBoundIsReached | backend/app/schemas/rules.py:87-108 | an accepted tree that needs all of them |
| Negation.OppositeDisagreesIff | backend/app/services/rules.py:224-281 | for every field value and every operator with an opposite: the two answer differently if and only if emptiness is asked, a boolean is compared for equality, a list is not empty and unanimous, or the value is any other single one |
| Negation.LeafNegatesIff | backend/app/services/rules.py:194-239 | a leaf is negated on every mail if and only if its operator has an opposite and it asks for emptiness, or its field is not attachment_name and no boolean is searched for text |
| Negation.TreeNegates | backend/app/services/rules.py:173-271 | every tree of such leaves is negated by swapping AND with OR and the operators |
| Negation.NegateIsAnInvolution | backend/app/schemas/rules.py:20-40 | negating twice gives the tree back |
| Negation.NegationIsAccepted | backend/app/schemas/rules.py:87-108 | the negation of a tree is accepted if and only if the tree is |
| Negation.AttachmentsBreakNegation | backend/app/services/rules.py:235-237 | on attachment names a condition and its negation can both fail and both hold |
| RuleRun.Engine.ParseActions | backend/app/services/rules.py:128-134 | the accepted actions of a rule, in order |
| RuleRun.Engine.Record | backend/app/services/rules.py:136-140 | the entries and action strings of one matched rule |
| RuleRun.Engine.EvaluateRules | backend/app/services/rules.py:93-157 | the loop gives the contributions of the matching rules through the first that stops, and counts each |
| RuleRun.LaterRulesDoNotMatter | backend/app/services/rules.py:153-155 | rules behind a matching stop rule have no influence, whatever they are |
| RuleRun.UnmatchedRulesAreInvisible | backend/app/services/rules.py:116-125 | a rule that is invalid or does not match is as good as absent |
| RuleRun.ReportedIff | backend/app/services/rules.py:115-155 | a rule is reported if and only if it matches and none before it matches and stops |
| RuleRun.ActedIff | backend/app/services/rules.py:115-155 | exactly the accepted actions of the reported rules are carried out |
| RuleRun.RulesActInOrder | backend/app/services/rules.py:136-155 | more rules at the end only add to what is done, behind it |
| RuleRun.CountsFollowMatches | backend/app/services/rules.py:372-387 | match counts go up by one for exactly these rules |
| RuleRun.RunIsDetermined | backend/app/services/rules.py:352-369 | without ties in priority and creation time the run is determined by the table |
| KeyRotation.EnvelopeEncryption.Encrypt | backend/app/core/security.py:80-102 | a version-1 envelope under the current secret that decrypts to the text |
| KeyRotation.EnvelopeEncryption.TryDecryptDek | backend/app/core/security.py:129-142 | the current secret first, then the old one |
| KeyRotation.EnvelopeEncryption.Decrypt | backend/app/core/security.py:104-127 | text or error for every blob |
| KeyRotation.EnvelopeEncryption.RotateEnvelope | backend/app/core/security.py:144-172 | new wrapper and key id, everything else kept; version not checked |
| KeyRotation.RotationKeepsMeaning | backend/app/core/security.py:144-172 | a rotated envelope decrypts to the same, with the same encrypted data and version, under the current secret alone, and names its key |
| KeyRotation.RotatableIff | backend/app/core/security.py:104-172 | decrypting succeeds if and only if rotating does and version and data fit |
| KeyRotation.DataNeverChanges | backend/app/core/security.py:144-160 | over every run of saves, rotations and key changes encrypted data stay the same |
| KeyRotation.ChangeKeepsReadableIff | backend/app/core/security.py:70-78 | a change of the secret keeps a credential readable if and only if its wrapper is sealed with the previous or the new secret |
| KeyRotation.DisciplinedRunsStayReadable | backend/app/core/security.py:70-172 | if everything is rotated between consecutive changes, every credential decrypts to its text through any number of changes |
| KeyRotation.ReadableAfterIff | backend/app/core/security.py:70-172 | for every run through any number of changes, also back to an old secret: a credential is readable if and only if the secret it is sealed with by then is one of the last two; a rotation reseals it only while it is sealed with one of the two configured ones |
| KeyRotation.StaysReadableIff | backend/app/core/security.py:70-172 | through any number of changes to new secrets a credential sealed with the current one stays readable if and only if every period but the last rotates it |
| KeyRotation.SkippingRotationLoses | backend/app/core/security.py:129-142 | two changes without a rotation make a credential unreadable |

## Left out

- ImapMoves.MoveEndMeans: UIDs are numbers; the parsing of the COPYUID text, and a stale COPYUID left over in the client's buffer, are not modelled.
- ImapActions.ExecuteJobs: capabilities are one flag, a failed connection and the logout are not modelled.
- ImapActions.StoreFlags: a store of flags is one UID STORE; `mailbox.flag` belongs to a library that is not part of this model. If it issues EXPUNGE as well, every store also removes the messages of the folder that are flagged deleted, and the message itself when the label is named like that flag, so ExecutionTruth.FlagsKeepMessages would hold for folders without such messages and lists without such labels only.
- ActionStrings.PrefixedActionParses: digits of an annotation are ASCII digits, while the pattern's class has all Unicode digits.
- JsonRepair.Repair: control characters, single quotes and trailing commas are heuristics of earlier stages, and markdown extraction is a later one; only the quote and bracket stages are modelled.
- ToolLoop.CallLlmWithTools: streaming, token tracking and the sorting of exceptions into transient and permanent ones are not modelled.
- Approvals.CleanRunsAgree: the queue itself drops a job whose id it already holds; the model keeps every job, so the result does not rely on it.
- FolderReset.Database.ResetRows: the number of rows reported, the change-log rows that are deleted, cascades and timestamps are not modelled.
- ContactCache.Contacts.WriteBackEmail: discovery, vCards and ETags are reduced to the answers of up to three attempts.
- Persistence.Store.SaveCoupons: the reading of a date is a parameter, and dates are numbers.
- CacheRuns.MatchingIsRightInCleanRuns: address-book synchronisation and the automatic adding of sender addresses write the same cache and are not modelled.
- Persistence.SavesRefineAMap: folders, replies, spam results, calendar events and contact assignments use the same upsert, one-time codes the same replacement; their columns are not modelled.
- Providers.ProviderApi.RecoverPausedAiProviders: cooldowns and probes are sets of providers given to the event; the times themselves are not modelled.
- Providers.CounterCountsFailures: a health report that fails in its own session is no event.
- Negation.TreeNegates: regular expressions, number conversion and case mapping are parameters; numbers are reals.
- KeyRotation.EnvelopeEncryption.Decrypt: key derivation and tokens are symbolic; a token opens under its own key and no other, and text that is not base64 counts as a token that opens under none.
- Labeling.Normalise: lower-casing is a parameter that leaves a-z, 0-9 and hyphens alone.
- `reprocess_smart_folder`, `extract_new_folders` and the saving of change-log rows: they repeat patterns that are modelled.
- `PipelineContext`, summaries, pagination, dashboards and listings: only easy members.
- Concurrency: requests run one after the other; interleaved transactions are not modelled.
- Scheduler, pipeline orchestration and the approval executor: only the jobs they are given are modelled.
