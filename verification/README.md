# Verified model of the libsignon daemon

`signond` is a single-sign-on daemon: it queues authentication requests of applications, hands them one at a time to
plugin processes, and keeps identities and their secrets in two databases, the second of which lives on an encrypted
volume that is there only while a key is. This project models the logic between the D-Bus adaptors and the foreign
libraries, and proves what that logic keeps over every run. Qt's event loop, SQLite, LUKS and the plugin processes
appear as events and as outcomes that may go either way.

Each part has two layers. One is a set of functions on values, with ghost histories where a property speaks of the
past (replies sent, resources acquired); the theorems are about these functions and about every sequence of events.
The other is classes with the fields of the original objects; every method is proved to move the fields as its function
moves the value, so that the theorems hold of the objects.

| files | part |
|---|---|
| `SessionEngine.dfy`, `SessionCore.dfy` | the request queue of a session core together with the result automaton of its plugin proxy |
| `PluginTalk.dfy`, `SessionReplies.dfy` | what the core and its plugin tell each other, and which event answers which request |
| `SessionRegistry.dfy` | the global collections that own session cores, and the disposable list |
| `SessionPool.dfy` | all live cores together: the registry with the engine of each core, and the collection of idle ones |
| `MetaDataTables.dfy`, `IdentityStore.dfy`, `MetaDataDB.dfy` | identities flattened into tables and rebuilt, with triggers and transactions |
| `SecretsStore.dfy`, `SecretsCache.dfy` | secrets, the size limit, and the write-behind cache |
| `CredentialsStore.dfy`, `CredentialsDB.dfy` | the credentials database over both: identities with their secrets, data by method name |
| `SecureStorage.dfy`, `SecureStorageObjects.dfy` | the staged mount, key slots and keychain, and the coupling of "mounted" to "secrets open" |
| `KeyAccess.dfy`, `Unmounting.dfy` | when a key gives access, and when the volume is given up |
| `Keychain.dfy`, `KeyLoss.dfy`, `MountedSecrets.dfy` | more about secure storage: its keychain file, the loss of the last key, and the secrets database that its flags stand for |
| `CallQueue.dfy`, `Reconnection.dfy`, `AsyncDBusProxy.dfy` | the reconnecting queue of client calls |
| `BackupRestore.dfy` | restoring the storage directory, with rollback |
| `BlobTransfer.dfy`, `BlobIO.dfy` | paged transfer of blobs between processes |
| `Mechanisms.dfy` | which mechanisms an identity allows |

`dafny verify dfyconfig.toml` checks the whole project.

## What the proofs turned up

Several natural claims are false of the code. The model keeps the code as it is; for each claim the project proves
when exactly the code meets it, and shows what happens otherwise.

- `startNewRequest` clears the cancellation flag before it looks at anything else (signonsessioncore.cpp:892): a
  cancelled request is answered a second time when another client's event arrives first (`ForgottenCancellation`; when
  exactly there is one reply is in `EveryDepartureIsAnswered`).
- A plugin result that overtakes an answered but undelivered dialog leaves the answer without its request: it then
  finds none, against the assertion in `queryUiSlot`, or is handed on for another request, and `destroyUnused` drops from
  its list a core that refuses to be destroyed (`OvertakenExactly`, `StaleAnswer`, `AnswerGoesToAnother`,
  `SessionPool.StepKeepsWholeExactly`).
- A core waiting for the credentials system counts as idle and can be destroyed with a request in it
  (`DestroyLosesNothingExactly`, `DestroyLosesRequestWhenNotReady`).
- The proxy would take an answer of a plugin that was given nothing to process: it does no harm exactly when no request
  waits (`UnsolicitedAnswer`).
- Setting up a volume anew forgets every authorized key before it knows whether it can (`AuthorizeExactly`).
- `setId` from one stored identity to another leaves the old key in the map (`SetIdKeepsInvExactly`,
  `UnsafeSetIdDangles`).
- Updating an identity that does not exist can leave owner rows of nobody, outside the transaction that the trigger
  has already ended (`UpdateKeepsIntegrityExactly`).
- `removeReference` without a token looks at the references of every token and takes only those of the empty one, so
  that it can report success and remove nothing (`RemovedRowsExactly`).
- A blank login is not written by the flush, a login with a secret user name and no password is: the first makes
  deferred and direct writes differ, the second erases a stored password; data over the limit displaces good data in
  the cache (`DeferredRefinesDirect` has the exact condition; `SessionsErasePasswordExactly`).
- A session that finishes after its identity was removed creates a new identity, each time (`SessionsCreateExactly`).
- Removing credentials leaves them in the cache, so that the next opening can write them back
  (`RemovedSecretsComeBackExactly`); a password that may no longer be stored leaves the old one in the database
  (`UnstoredPasswordStaysExactly`).
- A revoked key that the volume is mounted with is authorized again when it is next inserted (`RevokeKeepsInvExactly`,
  `RevokedKeyComesBack`); revocation reports success although the slot may still be there (`RevocationMayLeaveSlot`); the
  keychain reuses numbers after a removal and loses keys (`AddDropsKeyExactly`); before the first opening and after
  closing, losing the last key dereferences a database object that is not there (`KeyLossIsSafeExactly`,
  `KeyLostBeforeOpen`, `KeyLostAfterClose`).
- A call that comes back while the proxy is Ready again waits until the next reconnection (`QuietExactly`); a call
  cancelled between being queued as Invalid and its posted failure is reported twice (`ReportedTwiceExactly`).
- Restoring a backup is failure-atomic exactly for lists of distinct names none of which is the ".bak" of another
  (`AtomicExactly`).
- An empty blob makes the receiver read past it: blobs arrive one by one exactly when none but the last is empty
  (`BlobsArriveExactly`). The daemon's own maps never serialize to nothing.
- The comment at signonidentityinfo.cpp:94 says that a one-word list did not pass the earlier checks; a listed word
  with a space beside it is refused for that reason (`AcceptedExactly`, `PaddedWordIsRefused`).

## Model

| member | source | states |
|---|---|---|
| SessionEngine.EveryDepartureIsAnswered | libsignon/src/signond/signonsessioncore.cpp:254-299 | In every run, a request that left the queue has a reply; the plugin answered it at most once, and only if it was started; it has exactly one reply if and only if it was never cancelled, or cancelled once without the cancellation being forgotten by a wake-up. |
| SessionEngine.NoEarlyReply | libsignon/src/signond/signonsessioncore.cpp:542-625 | In every run, a queued request has no result or error, and no cancellation reply unless it is the running one. |
| SessionEngine.NoLostWakeUp | libsignon/src/signond/signonsessioncore.cpp:888-915 | In every run, if the credentials system is ready, nothing is active and the queue is not empty, then a start event is posted, and delivering it starts the queue head. |
| SessionEngine.StartsInArrivalOrder | libsignon/src/signond/signonsessioncore.cpp:327-398 | In every run, starts are a subsequence of arrivals, at most one request is in the plugin and it is the queue head and the last start, and nothing starts before the credentials system is ready. |
| SessionEngine.QueueDrains | libsignon/src/signond/signonsessioncore.cpp:535-540 | From every reachable state with the credentials system ready, wake-ups and plugin answers alone lead to an empty queue: the engine cannot deadlock. |
| SessionEngine.StepKeepsInv | libsignon/src/signond/pluginproxy.cpp:340-443 | Every slot of the core and of the proxy keeps their joint invariant: queue order, flags, start order and the reply count of every request. |
| SessionEngine.ReachableInv | libsignon/src/signond/signonsessioncore.cpp:237-252 | The joint invariant holds after every sequence of enabled events. |
| SessionEngine.TerminalKeepsReplyInvAt | libsignon/src/signond/signonsessioncore.cpp:535-540 | A result or error answers the queue head at most once and lets it depart; no other request gains a reply. |
| PluginTalk.RunningPolicy | libsignon/src/signond/pluginproxy.cpp:176-194 | In every run, the UI policy that the proxy applies to the running request is the one that came with the event that started it, at which the core became active with that request at the head. |
| PluginTalk.StepTalks | libsignon/src/signond/signonsessioncore.cpp:327-398 | The policy changes, and a request becomes the running one, only when it is started; the running request stays the head of the queue; and at each event the plugin is told exactly what the event calls for. |
| PluginTalk.DialogRespectsPolicy | libsignon/src/signond/pluginproxy.cpp:364-399 | A dialog on screen is for the running request, which is not cancelled; unless it only refreshes, the policy that came with that request does not forbid it: not "no interaction", and under the validation policy no question for credentials without a captcha. |
| PluginTalk.DialogOpensExactly | libsignon/src/signond/pluginproxy.cpp:364-399 | A plugin that asks for a dialog gets it if and only if a request is running, not cancelled, whose own policy does not forbid it; and is refused if and only if that policy does. |
| PluginTalk.RefreshOpensExactly | libsignon/src/signond/pluginproxy.cpp:401-405 | A refreshed dialog opens if and only if a request is running and not cancelled, whatever its policy. |
| PluginTalk.AnswerReachesPlugin | libsignon/src/signond/signonsessioncore.cpp:833-886 | The answer of a dialog is passed to the plugin, as an answer or a wish to refresh, if and only if the running request is not cancelled and a process is up; unless it was overtaken, that request is the one that asked. |
| PluginTalk.TalkIsOrderly | libsignon/src/signond/signonsessioncore.cpp:254-299 | In every run, the plugin is given requests in the order of their arrival, hears of no cancellation but of the request given last, of no refusal that the policy of that one does not call for, and of answers only for it or an earlier one. |
| PluginTalk.ProcessingExactly | libsignon/src/signond/pluginproxy.cpp:176-235 | The proxy counts as processing from handing something to the plugin to a result or error. |
| SessionReplies.StepAnswers | libsignon/src/signond/signonsessioncore.cpp:254-299 | Every event gives every request exactly the replies it calls for: a cancellation to the first request with its key; a result or error to the running one unless it is cancelled; an error to a head whose plugin is not up; those leave the queue, but for a running one that is cancelled, and no others. |
| SessionReplies.IdleIsMarked | libsignon/src/signond/signonsessioncore.cpp:888-915 | In every run, a core that is idle with nothing posted is marked for automatic destruction. |
| SessionEngine.PromptIsExact | libsignon/src/signond/signonsessioncore.cpp:833-886 | A step keeps the watcher with the request that asked for its dialog exactly when it is not a terminal plugin answer that overtakes an answered dialog; and it leaves an answer without any request, so that the assertion in queryUiSlot would fail, exactly when it is one and no other request waits. |
| SessionEngine.RefusalIsExact | libsignon/src/signond/signonsessioncore.cpp:888-923 | After a step an object marked for automatic destruction refuses destroy() exactly when a start event found the queue empty under an answered dialog. |
| SessionEngine.OvertakenExactly | libsignon/src/signond/signonsessioncore.cpp:833-886 | In every run, the answer at hand is for the running request, which asked, if and only if no terminal plugin answer overtook it; an object marked for destruction may be destroyed if and only if no overtaken answer is at hand. |
| SessionEngine.AnswerBeforeHead | libsignon/src/signond/signonsessioncore.cpp:685-743 | Whoever asked for the dialog at hand, if not the running request, has left the queue, and every queued request came later. |
| SessionEngine.AnswerGoesToAnother | libsignon/src/signond/signonsessioncore.cpp:851-881 | A run in which an overtaken answer is about to be handed to the plugin on behalf of another request than the one that asked. |
| SessionEngine.PromptRunOwnsWatcher | libsignon/src/signond/signonsessioncore.cpp:685-743 | In runs without such overtaking the watcher always belongs to the running request, which asked for its dialog. |
| SessionEngine.PromptRunsAreSafe | libsignon/src/signond/signondisposable.cpp:109-131 | In those runs queryUiSlot always finds the request that asked, and an object marked for automatic destruction never refuses destroy(). |
| SessionEngine.StaleAnswer | libsignon/src/signond/signonsessioncore.cpp:833-839 | A run with such overtaking: the answer arrives at an empty queue, and an object marked for automatic destruction refuses destroy(). |
| SessionEngine.ForgottenCancellation | libsignon/src/signond/signonsessioncore.cpp:888-899 | A run in which one cancellation, followed by the wake-up of another client, ends in two replies to the cancelled call. |
| SessionEngine.ForgetByWakeUp | libsignon/src/signond/signonsessioncore.cpp:888-899 | Any running request that is cancelled while a wake-up is posted loses its cancellation flag and keeps its place. |
| SessionEngine.DestroyLosesNothingExactly | libsignon/src/signond/signonsessioncore.cpp:917-935 | In every run, destroying an idle core with nothing posted loses no waiting request if and only if the credentials system is ready or every call that ever arrived was cancelled; a request lost has had no reply. |
| SessionEngine.DestroyLosesRequestWhenNotReady | libsignon/src/signond/signonsessioncore.cpp:917-935 | A run in which a core that is not ready counts as idle while a request waits in it. |
| SessionEngine.UnsolicitedAnswer | libsignon/src/signond/pluginproxy.cpp:407-422 | A result or error from a plugin that was given nothing to process keeps the joint invariant if and only if no request waits; else the head departs without ever having been started. |
| SessionEngine.IndexOf | libsignon/src/signond/signonsessioncore.cpp:254-267 | The first request with the given cancel key, or the length of the queue when there is none. |
| SessionCore.Deliver | libsignon/src/signond/signonsessioncore.cpp:888-915 | Delivering an enabled event to the pair of objects is one step of the transition system, leaves them ready for the next event and keeps the joint invariant, so the theorems on runs are about these fields. |
| SessionCore.SessionCore.Process | libsignon/src/signond/signonsessioncore.cpp:237-252 | Appends the call and posts a start event only when the credentials system is ready. |
| SessionCore.SessionCore.FindRequest | libsignon/src/signond/signonsessioncore.cpp:254-267 | The loop finds the first request with the key. |
| SessionCore.SessionCore.Cancel | libsignon/src/signond/signonsessioncore.cpp:254-299 | Replies to the request; the running one stays in the queue with the flag set and its dialog closed, a waiting one is removed. |
| SessionCore.SessionCore.RequestDone | libsignon/src/signond/signonsessioncore.cpp:535-540 | Drops the head, clears the active flag and posts a start event. |
| SessionCore.SessionCore.StartProcess | libsignon/src/signond/signonsessioncore.cpp:327-398 | Marks the head active, hands it to the plugin, and answers with an error when no plugin process is up. |
| SessionCore.SessionCore.StartNewRequest | libsignon/src/signond/signonsessioncore.cpp:888-915 | Clears the cancellation flag, then does nothing for an empty queue, an active request or an open dialog, and otherwise starts the head. |
| SessionCore.SessionCore.ProcessResultReply | libsignon/src/signond/signonsessioncore.cpp:542-625 | One result reply unless cancelled, then the request is done. |
| SessionCore.SessionCore.ProcessError | libsignon/src/signond/signonsessioncore.cpp:772-795 | One error reply unless cancelled, then the request is done. |
| SessionCore.SessionCore.ProcessUiRequest | libsignon/src/signond/signonsessioncore.cpp:679-744 | Opens the dialog only for a request that is not cancelled. |
| SessionCore.SessionCore.QueryUiSlot | libsignon/src/signond/signonsessioncore.cpp:833-886 | Passes the answer to the plugin unless cancelled, and drops the watcher. |
| SessionCore.SessionCore.CredentialsSystemReady | libsignon/src/signond/signonsessioncore.cpp:937-940 | Posts a start event. |
| SessionCore.PluginProxy.Process | libsignon/src/signond/pluginproxy.cpp:176-194 | Forgets an earlier result and remembers the UI policy only when a plugin process is up. |
| SessionCore.PluginProxy.ProcessUi | libsignon/src/signond/pluginproxy.cpp:196-212 | Marks the plugin as processing only when a process is up. |
| SessionCore.PluginProxy.HandlePluginResponse | libsignon/src/signond/pluginproxy.cpp:340-443 | A result or an error is passed on once for each process(); dialogs are subject to the UI policy; store and signal change nothing here. |
| SessionRegistry.RegistryStaysWhole | libsignon/src/signond/signonsessioncore.cpp:108-137 | In every run whose setId calls move a core only to or from 0, to its own identity or to a taken one, each live core is in exactly one collection, under its own name if stored, and no pair of stored identity and method has two cores. |
| SessionRegistry.StepKeepsInvExactly | libsignon/src/signond/signonsessioncore.cpp:301-325 | Each event keeps that invariant if and only if it is not an unsafe setId. |
| SessionRegistry.SetIdKeepsInvExactly | libsignon/src/signond/signonsessioncore.cpp:301-325 | setId keeps the registry whole if and only if the move is not between two different stored identities. |
| SessionRegistry.SetIdMovesExactly | libsignon/src/signond/signonsessioncore.cpp:301-325 | After setId: nothing has changed if the identity has a core for the method; otherwise this core is for the identity, with its method, and every other core, its key and its place are as before. |
| SessionRegistry.SetIdIsFound | libsignon/src/signond/signonsessioncore.cpp:301-325 | After a safe move the core is found under its new identity; with none, it is on the list of cores without identity and its old name is free. |
| SessionRegistry.StepCores | libsignon/src/signond/signonsessioncore.cpp:108-137 | Every event changes the set of live cores, with their identities and methods, exactly as it should: a session gets the core there is or a new one, setId moves one core to a free identity, and cores go only when destroyed or collected idle. |
| SessionRegistry.UnsafeSetIdDangles | libsignon/src/signond/signonsessioncore.cpp:301-325 | After any unsafe move and the destruction of the core, its first key still yields the destroyed core. |
| SessionRegistry.SessionCoreIsTheOne | libsignon/src/signond/signonsessioncore.cpp:108-137 | sessionCore returns a live core of the requested pair, never a second one for a stored identity, and fails only if the plugin does not load. |
| SessionRegistry.OneCorePerSession | libsignon/src/signond/signonsessioncore.cpp:108-137 | Two live cores with the same stored identity and method are the same. |
| SessionRegistry.SessionNameInjective | libsignon/src/signond/signonsessioncore.cpp:69-72 | Session names are injective in identity and method, whatever characters the method contains. |
| SessionRegistry.DecimalInjective | libsignon/src/signond/signonsessioncore.cpp:69-72 | Decimal notation without leading zeros is injective. |
| SessionRegistry.DestroyKeepsInv | libsignon/src/signond/signonsessioncore.cpp:917-935 | Destroying a core removes it from its collection and no other core from any. |
| SessionRegistry.DestroyUnusedExactly | libsignon/src/signond/signondisposable.cpp:109-131 | destroyUnused destroys exactly the expired cores that are not busy, and every survivor stays on the disposable list if and only if no expired core was busy. |
| SessionRegistry.Deliver | libsignon/src/signond/signonsessioncore.cpp:108-137 | An event delivered to the collections is one step of the registry, and keeps it whole exactly unless it is an unsafe setId. |
| SessionPool.CollectionsAreNeverRefused | libsignon/src/signond/signondisposable.cpp:109-131 | In every run of the daemon, with any number of cores whose plugins do not overtake dialogs: the disposable list is exactly the live cores, and whichever are idle, destroyUnused meets no refusal and destroys exactly the idle cores marked for destruction. |
| SessionPool.StepKeepsWholeExactly | libsignon/src/signond/signondisposable.cpp:75-131 | Each event keeps the disposable list equal to the live cores, unless it is a collection in which a core marked for destruction holds an overtaken answer; and then it does not. |
| SessionPool.MarkedRefusesExactly | libsignon/src/signond/signonsessioncore.cpp:917-923 | A core marked for destruction refuses destroy() exactly when it holds an overtaken answer. |
| SessionPool.EveryCoreAnswers | libsignon/src/signond/signonsessioncore.cpp:535-540 | In every run of the daemon the theorems about one engine hold of each live core: calls that left its queue were answered, exactly once if and only if cancelled cleanly, and no start event is missing. |
| SessionPool.EnginesMoveExactly | libsignon/src/signond/signonsessioncore.cpp:108-137 | Cores do not disturb each other: an engine moves only by its own events, and all of them when the credentials system becomes ready; it stays as it is while other cores are created, assigned or destroyed, and a new one starts idle. |
| SessionRegistry.StepKeepsListingExactly | libsignon/src/signond/signondisposable.cpp:109-131 | Each event keeps the disposable list equal to the live cores if and only if it collects no busy core. |
| SessionRegistry.Registry.GetSessionCore | libsignon/src/signond/signonsessioncore.cpp:108-137 | The lookup and creation, on the global collections. |
| SessionRegistry.Registry.SetCoreId | libsignon/src/signond/signonsessioncore.cpp:301-325 | The move between the two collections, on the global collections. |
| SessionRegistry.Registry.DestroyCore | libsignon/src/signond/signonsessioncore.cpp:917-935 | The removal, refused while busy. |
| SessionRegistry.Registry.DestroyUnusedCores | libsignon/src/signond/signondisposable.cpp:109-131 | The loop over a snapshot of the disposable list. |
| IdentityStore.RoundTrip | libsignon/src/signond/credentialsdb.cpp:717-796 | For every identity (any method map, tokens, owners, realms and flags), new or existing, identity(updateIdentity(info)) returns it up to list order, with the user name withheld exactly when it is secret. |
| IdentityStore.MethodsRoundTrip | libsignon/src/signond/credentialsdb.cpp:1144-1170 | The rows of a flattened method map, read back by query, give the same map, also for methods without mechanisms and for several tokens. |
| IdentityStore.TokensRoundTrip | libsignon/src/signond/credentialsdb.cpp:828-981 | Access and owner tokens are read back as they were given, empty owner tokens aside. |
| IdentityStore.FlagsRoundTrip | libsignon/src/signond/credentialsdb.cpp:1186-1233 | The three flags survive packing into one integer. |
| IdentityStore.UpdateFrames | libsignon/src/signond/credentialsdb.cpp:828-981 | An update, of an identity that exists or not and whether it commits or fails, leaves every other identity, and all references, as they read before. |
| IdentityStore.UpdateOfAbsent | libsignon/src/signond/credentialsdb.cpp:828-981 | What an update of an identity that does not exist does, in its three cases. |
| IdentityStore.UpdateKeepsIntegrityExactly | libsignon/src/signond/credentialsdb.cpp:828-981 | An update keeps every row referring to existing rows if and only if the identity exists, or realms were given, or no owner token was. |
| IdentityStore.RemovalRemoves | libsignon/src/signond/credentialsdb.cpp:983-998 | After removeIdentity no table mentions the identity, every other identity and its references read as before; references go only by the trigger, owner rows only by the explicit statement. |
| IdentityStore.AddedReferenceIsListed | libsignon/src/signond/credentialsdb.cpp:1032-1077 | For every token, the empty one included: a reference is accepted exactly for existing identities, is then listed under its token and under none, and changes nothing else; a refused one changes nothing at all. |
| IdentityStore.RemoveUndoesAddExactly | libsignon/src/signond/credentialsdb.cpp:1079-1127 | Removing a reference that was just added succeeds, and gives the references back if and only if nothing that the removal takes was there before. |
| IdentityStore.RemovedReferencesExactly | libsignon/src/signond/credentialsdb.cpp:1079-1127 | A removal takes the one reference, or all of its token when the reference is null or empty, none of another token, and reports success exactly when there was something to take. |
| IdentityStore.RemovedRowsExactly | libsignon/src/signond/credentialsdb.cpp:1079-1127 | For every database, token and reference: success is reported exactly when a listed row matches; the rows taken are exactly those of the token with the reference, or all of the token when it is null or empty; and a success has taken something exactly when there is such a row, which without a token only the empty token has. |
| IdentityStore.RemovedReferenceKeeps | libsignon/src/signond/credentialsdb.cpp:1079-1127 | A removal keeps integrity, every identity, and the references of all other identities. |
| IdentityStore.RunKeepsIntegrity | libsignon/src/signond/credentialsdb.cpp:424-606 | In every database reached from the empty one by harmless updates, removals, clearing and reference changes, every row refers to existing rows. |
| IdentityStore.IdsAreFresh | libsignon/src/signond/credentialsdb.cpp:1186-1233 | Identity numbers never decrease: none is handed out twice, not even after removal or clearing. |
| IdentityStore.RunKeepsNamesSecret | libsignon/src/signond/credentialsdb.cpp:1186-1233 | In every run, a user name that is to be secret never gets into the metadata database. |
| IdentityStore.ClearEmpties | libsignon/src/signond/credentialsdb.cpp:1000-1014 | After clear() there is no identity, reference or name left. |
| MetaDataDB.Deliver | libsignon/src/signond/credentialsdb.cpp:828-981 | An operation carried out on the database object is one step of the identity store, and keeps every row referring to existing rows unless it is a harmful update. |
| MetaDataDB.MetaDataDB.InsertMethod | libsignon/src/signond/credentialsdb.cpp:1172-1184 | Interns a new method, and refuses one that is known. |
| MetaDataDB.MetaDataDB.UpdateIdentity | libsignon/src/signond/credentialsdb.cpp:828-981 | The transaction, statement by statement with its triggers, commit and rollback; afterwards an existing identity reads back as it was given, and integrity is kept exactly for harmless updates. |
| MetaDataDB.MetaDataDB.Identity | libsignon/src/signond/credentialsdb.cpp:717-796 | Rebuilds an identity from its rows by queries. |
| MetaDataDB.MetaDataDB.RemoveIdentity | libsignon/src/signond/credentialsdb.cpp:983-998 | The four deletions and what the triggers delete; afterwards no table mentions the identity. |
| MetaDataDB.MetaDataDB.Clear | libsignon/src/signond/credentialsdb.cpp:1000-1014 | Empties all tables; counters go on. |
| MetaDataDB.MetaDataDB.AddReference | libsignon/src/signond/credentialsdb.cpp:1032-1077 | Interns the token and inserts the row, or rolls back. |
| MetaDataDB.MetaDataDB.RemoveReference | libsignon/src/signond/credentialsdb.cpp:1079-1127 | Checks the references, then deletes. |
| MetaDataDB.MetaDataDB.UpdateCredentials | libsignon/src/signond/credentialsdb.cpp:1186-1233 | Inserts a row with a fresh number, or updates an existing one. |
| MetaDataDB.MetaDataDB.InsertMethods | libsignon/src/signond/credentialsdb.cpp:1144-1170 | Interns every method and mechanism. |
| MetaDataDB.MetaDataDB.UpdateRealms | libsignon/src/signond/credentialsdb.cpp:1235-1258 | Replaces the realms, stopping at the first refused insert. |
| MetaDataDB.MetaDataDB.InsertAclRows | libsignon/src/signond/credentialsdb.cpp:888-958 | One row for each method, mechanism and token, or the reduced rows where a list is empty. |
| MetaDataDB.MetaDataDB.InsertOwnerRows | libsignon/src/signond/credentialsdb.cpp:960-972 | One row for each owner token that is not empty. |
| SecretsStore.StorageIsBounded | libsignon/src/signond/default-secrets-storage.cpp:175-243 | In every reachable secrets database, keys and serialized values held for one identity and method add up to less than 4096. |
| SecretsStore.StoreThenLoad | libsignon/src/signond/default-secrets-storage.cpp:150-173 | storeData replaces the whole map by its non-null entries, which loadData then returns, or changes nothing; it succeeds exactly below the limit and touches no other data. |
| SecretsStore.NonNullExactly | libsignon/src/signond/default-secrets-storage.cpp:175-235 | What is kept of a map is exactly its non-null entries, each with its value. |
| SecretsStore.LoginsAndData | libsignon/src/signond/default-secrets-storage.cpp:88-128 | Saving a login keeps the data; removing credentials takes the login and data of that identity and of no other. |
| CredentialsDB.SecretsDB.UpdateCredentials | libsignon/src/signond/default-secrets-storage.cpp:88-115 | Replaces the row of one identity. |
| CredentialsDB.SecretsDB.StoreMethodData | libsignon/src/signond/default-secrets-storage.cpp:175-243 | The delete-then-insert loop with its running counter commits all entries or rolls back. |
| CredentialsDB.SecretsDB.LoadMethodData | libsignon/src/signond/default-secrets-storage.cpp:150-173 | Collects the rows of one identity and method. |
| CredentialsDB.SecretsDB.RemoveMethodData | libsignon/src/signond/default-secrets-storage.cpp:245-272 | Removes the data of one method, or of all when the method is 0. |
| CredentialsDB.SecretsDB.RemoveAll | libsignon/src/signond/default-secrets-storage.cpp:117-128 | Removes login and data of one identity. |
| SecretsCache.DeferredRefinesDirect | libsignon/src/signond/credentialsdb.cpp:64-123 | For every sequence of saves and stores, doing them with the database closed and then opening it, in any hash order, gives the same secrets as doing them with the database open if and only if every login and the data of every method are settled: what is flushed last is what a database would hold. The cache ends empty. |
| SecretsCache.DeferredLogin | libsignon/src/signond/credentialsdb.cpp:100-107 | The login of one identity ends alike if and only if it was saved last with something to flush and its password stored, or what is left instead is what was there before. |
| SecretsCache.DeferredData | libsignon/src/signond/credentialsdb.cpp:109-116 | The data of one method ends alike if and only if the last of it is under the limit, or none was, or the last that was had been there before. |
| SecretsCache.DeferredRefinesDirectWhenNotBlank | libsignon/src/signond/credentialsdb.cpp:1414-1438 | With passwords that may be stored, a password or a secret user name in every save, and data under the limit, deferring loses nothing. |
| SecretsCache.OrderIsIrrelevant | libsignon/src/signond/credentialsdb.cpp:1319-1332 | The flush gives the same database in every iteration order. |
| SecretsCache.SessionsStoreExactly | libsignon/src/signond/signonsessioncore.cpp:563-579 | What any run of finished sessions, with the database closed, stores for an identity when it opens: the user name of its first session if it was not validated, and the last password given, over what was cached; a stored login that is not replaced stays. |
| SecretsCache.SessionsCreateExactly | libsignon/src/signond/signonsessioncore.cpp:563-579 | Over any run of finished sessions, a new identity is created for each session whose own identity is gone, and for no other; a removed identity never comes back. |
| SecretsCache.CreatedExactly | libsignon/src/signond/signonsessioncore.cpp:563-579 | The identity that a finished session creates when its own is gone has the name that was given, counts as validated, and its password is cached but never flushed. |
| SecretsCache.SessionsErasePasswordExactly | libsignon/src/signond/signonsessioncore.cpp:563-579 | Over any run of sessions that give no password, the stored password is erased exactly when the user name is secret, the identity not yet validated, and its first session gave a name; else the login stays. |
| SecretsCache.ClosedRun | libsignon/src/signond/credentialsdb.cpp:45-123 | With the database closed, the cache holds the last login and the last data of each method written, and the database nothing new. |
| SecretsCache.DirectRun | libsignon/src/signond/credentialsdb.cpp:1414-1438 | With the database open, it holds the last login that may be stored and the last data under the limit, and the old ones otherwise. |
| SecretsCache.FlushOneAt | libsignon/src/signond/credentialsdb.cpp:100-116 | One visit of the flush writes the login unless both parts are empty, and the data that fits. |
| CredentialsStore.CredentialsRoundTrip | libsignon/src/signond/credentialsdb.cpp:1371-1438 | Whether the secrets database is open or closed and whether or not the password may be stored, an identity written with a password or a secret user name reads back with them. |
| CredentialsStore.UpdateKeepsOthers | libsignon/src/signond/credentialsdb.cpp:1414-1438 | No update, failed ones included, changes another identity or its secrets, and one without secrets changes none. |
| CredentialsStore.StoredDataLoads | libsignon/src/signond/credentialsdb.cpp:1464-1505 | Data stored under the name of a method, known before or not, is loaded under that name: all of it from the cache, the non-null entries from the database unless too large; no other data changes. |
| CredentialsStore.StepKeepsCreds | libsignon/src/signond/credentialsdb.cpp:1414-1505 | Updates, removals, stores, closing and opening keep what these results need: integrity, and no data under a number that no method had. |
| CredentialsStore.RemovalForgets | libsignon/src/signond/credentialsdb.cpp:1440-1451 | Removal takes an identity and its secrets out of both databases, and leaves the cache alone. |
| CredentialsStore.RemovalExactly | libsignon/src/signond/credentialsdb.cpp:1440-1451 | Removal succeeds if and only if the secrets database is open; refused, it leaves both databases and the cache as they were, and every identity reads as before; done, every other identity keeps its credentials and data. |
| CredentialsStore.SavedLoginExactly | libsignon/src/signond/credentialsdb.cpp:1413-1438 | An update writes a login only if it has a password or a secret user name: the password or none, and the user name only if it is secret; to the open database if the password may be stored, else to the cache; and no data. |
| CredentialsStore.FailedUpdateExactly | libsignon/src/signond/credentialsdb.cpp:1413-1418 | An update that fails writes no secret, and of the tables leaves at most owner rows of nobody behind. |
| CredentialsStore.StoredEntriesLoad | libsignon/src/signond/credentialsdb.cpp:1464-1505 | What was stored for a method is loaded key by key with its value and no other key, but for null values, which the database does not keep; for identity 0 nothing is stored or loaded. |
| CredentialsStore.RemovedSecretsComeBackExactly | libsignon/src/signond/credentialsdb.cpp:1440-1451 | After the next opening the database holds a login and data of a removed identity exactly as the cache had them to write. |
| CredentialsStore.UnstoredPasswordStaysExactly | libsignon/src/signond/credentialsdb.cpp:1425-1432 | When a password may no longer be stored, the old one stays in the open database, and after the next opening exactly if there is no secret user name to write. |
| CredentialsDB.CredentialsDB.UpdateCredentials | libsignon/src/signond/credentialsdb.cpp:1414-1438 | Metadata first, then the secrets if there are any, to the database or the cache; afterwards the identity reads back. |
| CredentialsDB.CredentialsDB.Credentials | libsignon/src/signond/credentialsdb.cpp:1371-1397 | Metadata, with user name and password from the database or the cache. |
| CredentialsDB.CredentialsDB.RemoveStored | libsignon/src/signond/credentialsdb.cpp:1440-1451 | Refused while the secrets database is closed. |
| CredentialsDB.CredentialsDB.StoreNamed | libsignon/src/signond/credentialsdb.cpp:1482-1505 | Looks the method up, interns it if it is new, and stores. |
| CredentialsDB.CredentialsDB.LoadNamed | libsignon/src/signond/credentialsdb.cpp:1464-1480 | Nothing for an unknown method. |
| CredentialsDB.Database.UpdateCredentials | libsignon/src/signond/credentialsdb.cpp:1426-1432 | The secrets part: to the open database if the password may be stored, else to the cache. |
| CredentialsDB.Database.StoreAuthData | libsignon/src/signond/credentialsdb.cpp:1498-1504 | With the number of the method: to the open database, else to the cache. |
| CredentialsDB.Database.FlushEntry | libsignon/src/signond/credentialsdb.cpp:94-117 | One identity of the cache. |
| CredentialsDB.Database.FlushCache | libsignon/src/signond/credentialsdb.cpp:94-117 | The loop over the cache, in the order of the hash. |
| CredentialsDB.Database.OpenSecrets | libsignon/src/signond/credentialsdb.cpp:1319-1332 | Opens the storage, flushes the cache and empties it, or changes nothing. |
| CredentialsDB.Database.LookupLogin | libsignon/src/signond/credentialsdb.cpp:1371-1397 | From the open database if the password may be stored, else from the cache. |
| CredentialsDB.Database.FinishOneSession | libsignon/src/signond/signonsessioncore.cpp:563-579 | The merge of supplied and stored credentials after a result, and the save; for an identity that is gone, a new one. |
| SecureStorage.MountIsAllOrNothing | libsignon/src/extensions/cryptsetup/crypto-manager.cpp:258-312 | Mounting ends mounted with all three resources acquired, or exactly as it began with everything acquired released in reverse order; it succeeds exactly when every step does and the key occupies a slot. |
| SecureStorage.SetupIsAllOrNothing | libsignon/src/extensions/cryptsetup/crypto-manager.cpp:175-254 | The same for setting up a volume, after which the encryption key is its only key. |
| SecureStorage.UnmountAlwaysUnmounts | libsignon/src/extensions/cryptsetup/crypto-manager.cpp:345-381 | Unmounting ends unmounted whatever fails, issues the three releases in reverse order, and reports whether they worked. |
| MountedSecrets.MountFlushes | libsignon/src/signond/credentialsaccessmanager.cpp:651-665 | A mount completed while the system is open leaves the secrets database open, with the cache flushed into it and empty, exactly when the storage initializes. |
| MountedSecrets.RunStands | libsignon/src/signond/credentialsaccessmanager.cpp:651-674 | In every run of the secure storage together with the credentials database, whatever keys come and go and whatever is saved or stored, the storage flags are those of the database, and its secrets are open only on a mounted volume in an open system. |
| SecureStorage.RunKeepsInv | libsignon/lib/signond/SignOn/key-handler.cpp:106-218 | Over every run that never revokes the mounted key: authorized keys and keychain entries occupy slots, mounted means that the encryption key does, an open secrets database means mounted, opened and present, and it was closed at every drop of the mounted flag. |
| SecureStorage.StepKeepsInv | libsignon/src/signond/credentialsaccessmanager.cpp:465-508 | Every event keeps that invariant. |
| SecureStorage.AuthorizeKeepsInv | libsignon/lib/signond/SignOn/key-handler.cpp:106-149 | Authorization keeps the invariant, and reports success only for a key that occupies a slot. |
| SecureStorage.RevokeKeepsInvExactly | libsignon/lib/signond/SignOn/key-handler.cpp:151-184 | Revocation keeps the invariant if and only if it does not destroy the only slot of the key the volume is, or for the occasion gets, mounted with. |
| SecureStorage.RevokedKeyComesBack | libsignon/src/extensions/cryptsetup/crypto-manager.cpp:470-483 | Otherwise, mounted or not before the revocation, the destroyed key, inserted again, is authorized on sight. |
| SecureStorage.RevocationMayLeaveSlot | libsignon/src/extensions/cryptsetup/crypto-manager.cpp:455-468 | A revocation that reports success, mounting first if need be, has freed the slot exactly when the slot was really released and there was no second one. |
| SecureStorage.KeyInsertedKeepsInv | libsignon/lib/signond/SignOn/key-handler.cpp:186-218 | Inserting a key keeps the invariant. |
| SecureStorage.KeyDisabledKeepsInv | libsignon/lib/signond/SignOn/key-handler.cpp:221-236 | Losing a key, the last authorized one included, keeps the invariant. |
| SecureStorage.CloseSystemKeepsInv | libsignon/src/signond/credentialsaccessmanager.cpp:492-508 | Closing keeps the invariant and leaves database and system closed. |
| Unmounting.KeyLossUnmountsExactly | libsignon/src/signond/credentialsaccessmanager.cpp:544-551 | Losing a key unmounts the volume, releasing mount, LUKS mapping and loop device in that order, if and only if it is authorized and no other authorized one is inserted; any other loss leaves volume, log and database alone. |
| Unmounting.CloseUnmountsExactly | libsignon/src/signond/credentialsaccessmanager.cpp:492-508 | Closing the system unmounts the volume in the same way if and only if the secrets database is open, and then reports success exactly when closing the mapping and releasing the loop device worked. |
| Unmounting.RunHolds | libsignon/src/extensions/cryptsetup/crypto-manager.cpp:258-380 | In every run, what was acquired and not released since is, in order, loop device, LUKS mapping and mount while the volume is mounted, and nothing otherwise; every release is of the resource acquired last. |
| Unmounting.LastKeyGone | libsignon/src/signond/credentialsaccessmanager.cpp:413-422 | In every run that ends with the loss of an authorized key and leaves no other inserted, the volume is not mounted and nothing of it is held. |
| KeyAccess.InsertExactly | libsignon/lib/signond/SignOn/key-handler.cpp:186-217 | An inserted key is authorized if and only if it opens the volume or, if that is mounted already, is the one it is mounted with or known to the keychain. |
| KeyAccess.AuthorizeExactly | libsignon/lib/signond/SignOn/key-handler.cpp:106-149 | Authorizing succeeds exactly for an authorized key, for one with which a volume can be set up anew, or where another authorized key opens the volume and a slot can be added; the key then has a slot and is in the keychain. Setting up anew forgets all keys first, even if it fails. |
| KeyAccess.RevokeExactly | libsignon/lib/signond/SignOn/key-handler.cpp:151-187 | Revoking succeeds exactly when a key is authorized and the volume is mounted or opens with the one picked; the key is then not authorized, and has lost a slot exactly when one was released. |
| KeyAccess.OpenExactly | libsignon/src/signond/credentialsaccessmanager.cpp:465-490 | Opening the system succeeds exactly when the metadata database opens; the volume is then mounted if it was, or if the remembered key opens it. |
| SecureStorage.OpenSystemKeepsInv | libsignon/src/signond/credentialsaccessmanager.cpp:465-490 | Opening keeps the invariant. |
| KeyLoss.KeyLossIsSafeExactly | libsignon/src/signond/credentialsaccessmanager.cpp:544-551 | In every run, losing a key dereferences no missing database object if and only if the events before have left one, or the key is not the last authorized one. |
| KeyLoss.RunSystem | libsignon/src/signond/credentialsaccessmanager.cpp:443-508 | In every run, whether the system is open and whether there is a database object is decided by the opening and closing events alone. |
| KeyLoss.KeyLostBeforeOpen | libsignon/src/signond/credentialsaccessmanager.cpp:544-551 | A run of a daemon just started that leads to the dereference: the key is inserted before the system is opened, and goes. |
| KeyLoss.KeyLostAfterClose | libsignon/src/signond/credentialsaccessmanager.cpp:544-551 | Another: the key is inserted, the system opens and closes, the key goes. |
| Keychain.StepKeepsNoDuplicates | libsignon/src/extensions/cryptsetup/crypto-manager.cpp:50-69 | No event puts a key into the keychain twice. |
| SecureStorage.AddDropsKeyExactly | libsignon/src/extensions/cryptsetup/crypto-manager.cpp:50-80 | Adding a key to the keychain drops another one if and only if the next number is taken. |
| SecureStorage.KeychainLosesKey | libsignon/src/extensions/cryptsetup/crypto-manager.cpp:50-80 | Two keys, the older removed, a third added: the second is lost. |
| SecureStorage.UnmountIs | libsignon/lib/signond/SignOn/abstract-crypto-manager.cpp:154-166 | The secrets database closes before the mounted flag drops. |
| SecureStorageObjects.Deliver | libsignon/src/signond/credentialsaccessmanager.cpp:465-508 | An event delivered to the three objects together is one step of the storage, keeps the keychain free of duplicates, and keeps the invariant unless it revokes the mounted key. |
| SecureStorageObjects.CryptoManager.SetFileSystemMounted | libsignon/lib/signond/SignOn/abstract-crypto-manager.cpp:154-166 | Signals before dropping the flag and after raising it, with what the listener does. |
| SecureStorageObjects.CryptoManager.SetupFileSystem | libsignon/src/extensions/cryptsetup/crypto-manager.cpp:175-254 | The stages of setting up, each with its clean-up. |
| SecureStorageObjects.CryptoManager.MountFileSystem | libsignon/src/extensions/cryptsetup/crypto-manager.cpp:258-312 | The stages of mounting, each with its clean-up. |
| SecureStorageObjects.CryptoManager.UnmountFileSystem | libsignon/src/extensions/cryptsetup/crypto-manager.cpp:345-381 | Releases by the rank of the state, then the state. |
| SecureStorageObjects.CryptoManager.KeychainContainsKey | libsignon/src/extensions/cryptsetup/crypto-manager.cpp:71-80 | The search through the keychain. |
| SecureStorageObjects.CryptoManager.RemoveKeyFromKeychain | libsignon/src/extensions/cryptsetup/crypto-manager.cpp:60-69 | The search stops at the first match, which is the only one. |
| CallQueue.EveryCallIsInOnePlace | libsignon/lib/SignOn/async-dbus-proxy.cpp:253-287 | In every run, each call ever queued is in exactly one of waiting, in flight and finished, or about to fail because it was queued while Invalid; requeueing neither loses nor duplicates a call. |
| CallQueue.ReadySendsQueueInOrder | libsignon/lib/SignOn/async-dbus-proxy.cpp:164-187 | On becoming Ready everything that waits is sent, in the order in which it waits. |
| CallQueue.FirstSendsInOrder | libsignon/lib/SignOn/async-dbus-proxy.cpp:304-313 | Across reconnections, calls are first sent in the order in which they were queued. |
| CallQueue.FinishedStaysFinished | libsignon/lib/SignOn/async-dbus-proxy.cpp:106-131 | A finished call stays finished and is never sent again. |
| CallQueue.CancelledIsNeverSent | libsignon/lib/SignOn/async-dbus-proxy.cpp:77-85 | Cancelling works exactly on calls that were never sent, and those never are. |
| CallQueue.QuietExactly | libsignon/lib/SignOn/async-dbus-proxy.cpp:323-327 | "Ready means nothing waits" is kept by an event if and only if it is not a call coming back while the proxy is already Ready. |
| CallQueue.ReportedTwiceExactly | libsignon/lib/SignOn/async-dbus-proxy.cpp:77-131 | In every run a finished call was reported finished once; or twice, if and only if it was cancelled and then the failure posted for it arrived; an unfinished one never. |
| CallQueue.StepMoves | libsignon/lib/SignOn/async-dbus-proxy.cpp:77-131 | What each event reports of each call: a call is reported, and then finished, by exactly the events that say so; a finished call is not sent again. |
| CallQueue.OnceOnlyExactly | libsignon/lib/SignOn/async-dbus-proxy.cpp:100-104 | A step keeps "reported once, when finished" for a call if and only if it is not the posted failure of a call that is finished already. |
| Reconnection.LostExactly | libsignon/lib/SignOn/async-dbus-proxy.cpp:87-142 | In every run, a call in flight has lost its interface if and only if an event that drops the interface came after the call was last sent. |
| Reconnection.RequeuedExactly | libsignon/lib/SignOn/async-dbus-proxy.cpp:105-131 | A call that ends with the error of a vanished peer waits again, last and unfinished, if and only if the interface was dropped after it was last sent; every other ending finishes and reports it. |
| Reconnection.StatusExactly | libsignon/lib/SignOn/async-dbus-proxy.cpp:189-215 | In every run the status is what the events about connection, object path and errors say: Ready exactly while the last of them found connection, path and peer there. |
| CallQueue.StepKeepsInv | libsignon/lib/SignOn/async-dbus-proxy.cpp:189-212 | Every event keeps each call in one place and first sends in order. |
| AsyncDBusProxy.Deliver | libsignon/lib/SignOn/async-dbus-proxy.cpp:164-327 | An event delivered to the proxy object is one step of the queue and keeps each call in one place and first sends in order. |
| AsyncDBusProxy.Proxy.ExecuteAll | libsignon/lib/SignOn/async-dbus-proxy.cpp:164-187 | The loop that sends everything that waits, in order. |
| AsyncDBusProxy.Proxy.FailAll | libsignon/lib/SignOn/async-dbus-proxy.cpp:164-187 | The loop that fails everything that waits. |
| BackupRestore.AtomicExactly | libsignon/src/signond/signondaemon.cpp:834-898 | Restoring a list of names leaves the directory as it was whenever it fails, for all directories, backups and failures, if and only if the names are distinct and none is the ".bak" of another. |
| BackupRestore.FailureIsAtomic | libsignon/src/signond/signondaemon.cpp:834-898 | For such a list, a failure at any file restores the directory, also with ".bak" files there before. |
| BackupRestore.SuccessRestores | libsignon/src/signond/signondaemon.cpp:834-898 | After success a listed file of the backup holds its contents; one the backup lacks is gone if it could be moved and kept if not; unlisted files, so all other ".bak" files, are as before. |
| BackupRestore.SucceedsExactly | libsignon/src/signond/signondaemon.cpp:852-876 | The restore succeeds if and only if every listed file of the backup can be copied: the copy works and nothing is in its way, or what is can be renamed. |
| BackupRestore.TwiceIsNotAtomic | libsignon/src/signond/signondaemon.cpp:878-889 | A name listed twice: undoing leaves the first copy behind. |
| BackupRestore.BakFirstIsNotAtomic | libsignon/src/signond/signondaemon.cpp:878-889 | The ".bak" of a later name listed first: undoing finds its name taken. |
| BackupRestore.BakLaterIsNotAtomic | libsignon/src/signond/signondaemon.cpp:878-889 | The ".bak" of an earlier name listed later: it is moved again, out of reach. |
| BackupRestore.RestoreFilesInv | libsignon/src/signond/signondaemon.cpp:852-876 | While the loop runs, every file is the original, the copy, the moved original or gone, according to the two lists. |
| BackupRestore.SignonDaemon.CopyFromBackupDir | libsignon/src/signond/signondaemon.cpp:834-898 | The loops over files, copied files and moved files; a failure with a clean list leaves the directory unchanged. |
| BackupRestore.SignonDaemon.RenameAllBack | libsignon/src/signond/signondaemon.cpp:885-889 | The undoing renames, in the order of the moves. |
| BackupRestore.SignonDaemon.Remove | libsignon/src/signond/signondaemon.cpp:881-883 | The removals. |
| BlobTransfer.TransferDelivers | libsignon/lib/plugins/signon-plugins-common/SignOn/blobiohandler.cpp:97-134 | For every non-empty blob, bytes arriving in any portions at any time and any schedule of reads: if no read comes before its page, then after as many reads as pages the blob is delivered once, with what follows unread, and before that the buffer is a proper prefix; otherwise there is one error and no delivery. |
| BlobTransfer.StepKeepsTransfer | libsignon/lib/plugins/signon-plugins-common/SignOn/blobiohandler.cpp:110-134 | A read goes wrong exactly when the next page is not all there; else it takes one page. |
| BlobTransfer.BlobsArriveExactly | libsignon/lib/plugins/signon-plugins-common/SignOn/blobiohandler.cpp:56-134 | Blobs sent one after the other over one channel are each delivered by their own reception if and only if none but the last is empty. |
| BlobTransfer.EveryBlobArrives | libsignon/lib/plugins/signon-plugins-common/SignOn/blobiohandler.cpp:56-134 | And then in order, without error, and with nothing left in the channel. |
| BlobTransfer.PageCount | libsignon/lib/plugins/signon-plugins-common/SignOn/blobiohandler.cpp:224-240 | The number of pages is the size divided by 16384, rounded up. |
| BlobTransfer.PageAt | libsignon/lib/plugins/signon-plugins-common/SignOn/blobiohandler.cpp:224-240 | Page k is the k-th stretch of the blob: none is empty and only the last may be short. |
| BlobTransfer.PagesJoin | libsignon/lib/plugins/signon-plugins-common/SignOn/blobiohandler.cpp:224-240 | The pages concatenate to the blob. |
| BlobTransfer.EmptyBlobEatsNextSize | libsignon/lib/plugins/signon-plugins-common/SignOn/blobiohandler.cpp:110-134 | For an empty blob the next size is read as the length of an array: the next blob is lost if it is empty, and this one if it is not. |
| BlobTransfer.LastEmptyIsDelivered | libsignon/lib/plugins/signon-plugins-common/SignOn/blobiohandler.cpp:110-134 | An empty blob with nothing behind it is delivered. |
| BlobTransfer.HugeSizeIsIgnored | libsignon/lib/plugins/signon-plugins-common/SignOn/blobiohandler.cpp:97-134 | A size that is no int is taken for a negative one: one array is read for it, and nothing is delivered or reported. |
| BlobIO.BlobIOHandler.PageByteArray | libsignon/lib/plugins/signon-plugins-common/SignOn/blobiohandler.cpp:224-240 | The paging loop: the pages join to the blob, are not empty, at most 16384 bytes, and as few as possible. |
| BlobIO.BlobIOHandler.SendData | libsignon/lib/plugins/signon-plugins-common/SignOn/blobiohandler.cpp:56-72 | Writes the size and then the pages as byte arrays, if there is a channel. |
| BlobIO.BlobIOHandler.WritePages | libsignon/lib/plugins/signon-plugins-common/SignOn/blobiohandler.cpp:67-69 | The loop over the pages. |
| BlobIO.BlobIOHandler.ReadArray | libsignon/lib/plugins/signon-plugins-common/SignOn/blobiohandler.cpp:112-115 | Takes one whole byte array, or all that is left when it is not whole. |
| BlobIO.BlobIOHandler.ReceiveData | libsignon/lib/plugins/signon-plugins-common/SignOn/blobiohandler.cpp:97-108 | Clears the buffer and enables notification only for more than one page. |
| BlobIO.BlobIOHandler.ReadBlob | libsignon/lib/plugins/signon-plugins-common/SignOn/blobiohandler.cpp:110-134 | Appends one fraction, and signals an error or the delivery. |
| Mechanisms.AcceptedExactly | libsignon/src/signond/signonidentityinfo.cpp:63-109 | A request is accepted if and only if the identity does not restrict it, lists it literally, or lists a word of it and it has at least two. |
| Mechanisms.GrantedMechanism | libsignon/src/signond/signonauthsessionadaptor.cpp:78-88 | What is granted is the request itself, or exactly the listed words of the request, in order and as often, joined by single spaces. |
| Mechanisms.GrantedStaysGranted | libsignon/src/signond/signonidentityinfo.cpp:63-109 | What was granted is granted again unchanged. |
| Mechanisms.WordsOfJoin | libsignon/src/signond/signonidentityinfo.cpp:91-107 | Splitting undoes joining, for words that are not empty and have no space. |
| Mechanisms.ListedIsExact | libsignon/src/signond/signonidentityinfo.cpp:99-103 | The loop keeps exactly the listed words, in order. |
| Mechanisms.RefusedKeepsParameter | libsignon/src/signond/signonidentityinfo.cpp:63-109 | A refused request leaves the out-parameter alone. |
| Mechanisms.PaddedWordIsRefused | libsignon/src/signond/signonidentityinfo.cpp:94-97 | A listed mechanism with a space beside it is refused, though the same word twice is accepted. |
| Mechanisms.SignonIdentityInfo.CheckMethodAndMechanism | libsignon/src/signond/signonidentityinfo.cpp:63-109 | The check with its early returns and its loop; what it grants to a request it grants again unchanged. |

## Left out

- D-Bus adaptors, object registration, access control, error-name tables, configuration, logging, example plugins and
  client facades: wrappers with no invariant of their own.
- SQL text and the SQLite engine: each statement is an operation on tables, statements succeed, recursive triggers are
  off, NULLs are distinct in keys. Database upgrades and single-key accessors are not modelled.
- QDataStream: a stored value is its bytes; in a channel, numbers and byte arrays are modelled byte by byte, a read past
  the end yields nothing and takes what there was, and maps are the blobs they serialize to.
- Crash of a plugin process (`onExit`), `blobIOError`, and a read notification without bytes (pluginproxy.cpp:296-301) in
  the reply theorems: each reports an error without setting the result flag of the proxy, and the last does not connect
  the notification again.
- Session parameters, merged session data and temporary credentials in the engine; what they do to the database is in
  `FinishSession`.
- Clocks and timers: whether an object has expired is an input of `destroyUnused`.
- Re-entrant destruction through child events: a core and its children go in one step.
- Session cores in the registry and pending calls in the queue are handles, not objects; aliasing between them is not
  modelled.
- Mount and unmount calls of the mount handler always succeed, as the code assumes; libcryptsetup and losetup succeed
  or fail as the `Luck` of an operation says. The precautionary clean-up of left-overs of an earlier daemon
  (crypto-manager.cpp:192, 223-227, 270, 290-292, 314-343) releases nothing that this daemon acquired and is not in the log.
- Key managers that are not ready yet, and the dialogs that ask whether to authorize a key: the answers are separate
  `Authorize` events.
- `SecretsDB::clear`, `CredentialsDB::removeData` and deletion of the credentials system.
- Identity numbers are unbounded, as is the running size in `storeData`, a 32-bit number in the code.
- Null and empty strings are the same in names and tokens; they differ only for the reference of `removeReference`.
- The order of lists in what `identity()` returns: method and token lists come back as sets, realms as a multiset.
- Clean-up removes and renames of a restore succeed whenever their files permit it; a failed copy leaves no file.
- SessionEngine.EveryDepartureIsAnswered: exact for runs in which the plugin process neither crashes nor fails blob input.
- SessionEngine.PromptRunOwnsWatcher: the condition on the order of plugin answers and dialog answers is one on the plugin, which
  the daemon cannot enforce; `OvertakenExactly` is about every run.
- CredentialsDB.Database.UpdateCredentials: the secrets part alone; `CredentialsDB.UpdateCredentials` has the metadata and the guard.
- CredentialsDB.Database.StoreAuthData: with the number of the method; `CredentialsDB.StoreNamed` looks it up.
- CredentialsDB.Database.FinishOneSession: sees of the metadata the four fields that decide what is stored, and the next number.
- SecureStorage.RunKeepsInv: an event that would dereference the missing database object is not enabled; `KeyLostBeforeOpen` and
  `KeyLostAfterClose` show that it is within reach.
