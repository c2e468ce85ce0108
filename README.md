# Conflict resolution for an offline-sync todo list

This is a model of the conflict-resolution engine of a Cordova todo-list app that works offline against an Azure Mobile Apps backend. The app queues local inserts, updates and deletes in a SQLite store and pushes them to the server. Each operation the server rejects is handed to the app's push handler. The handler decides whether to cancel the operation, discard it, adopt the server record, reapply a record, turn a delete into an update, or report an error. An update conflict where the two records really differ is put to the user in a dialog, and the user answers `server`, `client`, `skip` or a custom record.

Modules:

- `Records`: the column values of the todoitem table and records as property maps. An absent property reads as `undefined`, and JavaScript truthiness is modelled.
- `ConflictPolicies` (`www/js/tableManager.js`): the pure decision logic.
  - `OnConflict` and `OnError` dispatch a failure.
  - There is one handler per action.
  - `Resume` is the continuation that runs after the user answers.
  - The update handler stops at an `AskUser` step, so the point where the user is asked is explicit.
- `ConflictDialogs` (`www/js/uiManager.js`):
  - the candidate record shown to the user;
  - pure step functions for the click handlers, the close handler and the dialog being shown again;
  - the class `ConflictDialog`, which holds the module-level `result` selection and the custom-input text and is proved against those functions.
- `TableSession` (`www/js/tableManager.js`): the class `TableManager`. It holds the `isInitialized` flag, the ordered list of calls made into the mobile-apps library, and the UI manager. Its methods are `setup`, `push`, `pull`, `refresh` and the push-handler entry, which drives the dialog.
- `EndToEnd`: lemmas that span the handler and the dialog, and three worked conflicts.

How the outside world is represented:

- The library's asynchronous steps (store initialisation, the sync push, the table pull) are `Outcome` parameters: each either resolves or rejects with a message.
- `JSON.parse` and `JSON.stringify` are the dialog's `parse` and `stringify` functions. `parse` returns a record or failure.
- The user is a finite script of attempts. Each attempt is a sequence of clicks and typing, followed by closing the dialog. A result of `None` means the dialog is still open.

The model follows the code as written, including these behaviours:

- An update conflict compares `text`, `complete` **and `deleted`**, not only the payload fields.
- An update conflict that is not a 404 but lacks one of the two records returns `undefined` (`NoAction`); no resolution is made.
- A delete conflict with status 412 and a null server record throws a `TypeError` when it reads `deleted`.
- `refresh` passes a setup failure or a pull failure on unwrapped. Only its push goes through `handleError`. `pull` prefixes both kinds of failure with "Pull failed. Error: ".
- `skip` and the missing-record case both yield no call at all. They are not a discard.
- The dialog's `result` is not reset between conflicts. After a custom answer, the next dialog closed without a click parses its new candidate instead of answering `server` (`CustomSelectionCarriesOver`).

## Model

| member | source | states |
|---|---|---|
| `ConflictPolicies.OnConflict` | www/js/tableManager.js:63-75 | insert always resolves to `cancel`; update goes to the update handler and delete to the delete handler; any other action is rejected with "Unhandled conflict!"; only an update with differing records reaches the user |
| `ConflictPolicies.HandleInsertConflict` | www/js/tableManager.js:77-83 | an insert conflict is always cancelled, whatever its status and records |
| `ConflictPolicies.InsertAlwaysCancelled` | www/js/tableManager.js:77-83 | an insert failure is cancelled whatever its status and records, through `onConflict` and through `onError`'s 404 path |
| `ConflictPolicies.HandleUpdateConflict` | www/js/tableManager.js:85-108 | 404 is discarded; the user is asked if and only if the status is not 404, both records are present and they differ on text, complete or deleted; a missing record gives no action; without the user only discard or no action can result |
| `ConflictPolicies.UpdateNotFoundDiscarded` | www/js/tableManager.js:90-93 | an update failing with 404 is discarded through either entry point and never prompts the user |
| `ConflictPolicies.SameFieldsAgreesOnComparedKeys` | www/js/tableManager.js:99-101 | the three `===` tests are the same as agreement on every compared property |
| `ConflictPolicies.AskedOnlyAboutRealConflicts` | www/js/tableManager.js:95-108 | the user is asked exactly about update conflicts that come through `onConflict`, are not 404, and carry two present records that differ on some key of `ComparedKeys` (text, complete or deleted) |
| `ConflictPolicies.Resume` | www/js/tableManager.js:109-126 | skip gives no action and server gives `cancelAndUpdate(serverRecord)` unmodified (both if and only if); only client and custom give `update`. The updated record has the server's version. For client it is otherwise the client record; for custom it has the server's id and is otherwise the custom record |
| `ConflictPolicies.ReappliedRecordHasServerVersion` | www/js/tableManager.js:114-125 | for every conflict put to the user and every answer, a reapplied record carries the server's version, and the server answer adopts the server record unchanged |
| `ConflictPolicies.HandleDeleteConflict` | www/js/tableManager.js:130-149 | discard if and only if the status is 404, 409, or 412 with a truthy `deleted`; `changeAction('update', serverRecord)` if and only if the status is 412 and the record is live; a TypeError if and only if the status is 412 and there is no server record; an error if and only if the status is anything else |
| `ConflictPolicies.OnError` | www/js/tableManager.js:46-53 | a push error with status 404 is handled exactly as a conflict, by the corrected `OnConflict` (line 49 calls the as-written handler, which differs only for an unknown action); every other status is rejected with the connectivity message |
| `ConflictPolicies.PushHandler` | www/js/tableManager.js:44-54 | the `onConflict` entry is `OnConflict` and the `onError` entry is `OnError`, both built on the corrected line 74 |
| `ConflictPolicies.OnConflictAsWritten` | www/js/tableManager.js:74 | as written, the unhandled-action rejection carries an empty message; for known actions it agrees with `OnConflict` |
| `ConflictPolicies.UnhandledConflictLosesMessage` | www/js/tableManager.js:74 | for every unknown action, the code as written rejects with "" where the corrected handler rejects with "Unhandled conflict!" |
| `ConflictDialogs.Shown` | www/js/uiManager.js:30-31 | showing the dialog puts the serialised candidate of the client record in the custom box and keeps the selection |
| `ConflictDialogs.React` | www/js/uiManager.js:33-51 | a server, client or skip click selects exactly that answer and clears the box; a custom click unsets the selection and keeps the box; typing sets the box and keeps the selection |
| `ConflictDialogs.ReactAll` | www/js/uiManager.js:33-51 | the state after a non-empty run of events is the last event's reaction to the state after the others |
| `ConflictDialogs.Candidate` | www/js/uiManager.js:77-84 | the candidate has no `id`, `deleted` or `version`, has exactly the other keys of the record, and agrees with it on all of them |
| `ConflictDialogs.OnClose` | www/js/uiManager.js:62-73 | a 'server', 'client' or 'skip' selection is passed on unchanged; otherwise the close resolves if and only if the custom input parses, with the parsed record, which also becomes the selection; a parse failure changes nothing |
| `ConflictDialogs.Converse` | www/js/uiManager.js:57-75 | when the dialog resolves, the selection it leaves is the answer it gave, and some attempt was made; which answer it gives, from any state including the one the dialog opens in, is stated by `ConverseAppend`, `AnsweredAfterInvalid`, `FailedClosesAreAskedAgain` and `UntouchedCandidateResolvesItself` |
| `ConflictDialogs.TypingKeepsChoice` | www/js/uiManager.js:33-51 | typing into the custom box never changes the selection |
| `ConflictDialogs.LastNamedChoiceWins` | www/js/uiManager.js:33-68 | an attempt whose last click is server, client or skip resolves with exactly that answer, whatever was typed before or after |
| `ConflictDialogs.InvalidEventsKeepInvalid` | www/js/uiManager.js:48-51 | clicking custom and typing unparsable text keep the selection unset and the box unparsable |
| `ConflictDialogs.ClickedAnswer` | www/js/uiManager.js:33-47 | each of the server, client and skip clicks selects its named answer from any state |
| `ConflictDialogs.ConverseAppend` | www/js/uiManager.js:63-71 | running two scripts of attempts one after the other is running the first and, only if no close in it resolved, going on with the second from the state it left |
| `ConflictDialogs.AnsweredAfterInvalid` | www/js/uiManager.js:63-71 | from any state, after any attempts that left the question open, the next attempt whose last click is server, client or skip (followed only by typing) resolves with exactly that answer, whatever attempts follow |
| `ConflictDialogs.CustomThenTyping` | www/js/uiManager.js:33-51 | from any state, an attempt ending in a custom click and then typing leaves the selection unset and the last typed text in the box |
| `ConflictDialogs.EndsInvalidFails` | www/js/uiManager.js:63-71 | closing after an attempt that ends with a custom click and typing whose last text does not parse resolves nothing and keeps the state |
| `ConflictDialogs.FailedClosesAreAskedAgain` | www/js/uiManager.js:63-71 | from any state, including the one the dialog opens in, however many attempts each end with a custom click and typing whose last text does not parse, whatever came before in each, no close resolves: the dialog is shown again and never defaults to skip |
| `ConflictDialogs.InvalidInputIsAskedAgain` | www/js/uiManager.js:63-72 | from a state whose selection is already unset and whose box already fails to parse, attempts made only of custom clicks and unparsable typing never resolve |
| `ConflictDialogs.UntouchedCandidateResolvesItself` | www/js/uiManager.js:64-68 | choosing custom and closing without editing resolves with the candidate record |
| `ConflictDialogs.DefaultAnswerIsServer` | www/js/uiManager.js:7 | a fresh dialog closed untouched answers 'server' |
| `ConflictDialogs.CustomSelectionCarriesOver` | www/js/uiManager.js:64-65 | after a custom answer, the next dialog closed untouched resolves with its own parsed candidate |
| `ConflictDialogs.ConflictDialog.constructor` | www/js/uiManager.js:7 | the selection starts as 'server' |
| `ConflictDialogs.ConflictDialog.SetConflictResolutionCandidate` | www/js/uiManager.js:77-84 | the custom box holds the serialised candidate; the selection is untouched |
| `ConflictDialogs.ConflictDialog.ClickServer` | www/js/uiManager.js:33-37 | the selection becomes exactly 'server' and the custom box is cleared |
| `ConflictDialogs.ConflictDialog.ClickClient` | www/js/uiManager.js:38-42 | the selection becomes exactly 'client' and the custom box is cleared |
| `ConflictDialogs.ConflictDialog.ClickSkip` | www/js/uiManager.js:43-47 | the selection becomes exactly 'skip' and the custom box is cleared |
| `ConflictDialogs.ConflictDialog.ClickCustom` | www/js/uiManager.js:48-51 | the selection becomes unset; the box keeps its text |
| `ConflictDialogs.ConflictDialog.TypeInput` | www/js/uiManager.js:65 | typing replaces the text of the custom box that line 65 reads, and keeps the selection |
| `ConflictDialogs.ConflictDialog.HandleEvent` | www/js/uiManager.js:33-51 | each event changes the dialog exactly as `React` says |
| `ConflictDialogs.ConflictDialog.Close` | www/js/uiManager.js:62-73 | the new state and the answer are exactly those of `OnClose` |
| `ConflictDialogs.ConflictDialog.Resolve` | www/js/uiManager.js:30-75 | shows the candidate, then repeats attempts until one close resolves; the final state and answer are those of `Converse` |
| `TableSession.SetupCalls` | www/js/tableManager.js:19-22 | setup calls into the library at most once, and only if the session is not initialised |
| `TableSession.RefreshCalls` | www/js/tableManager.js:165-171 | every pull comes straight after a push; there is a pull if and only if setup and the push succeeded; a push happens if and only if setup succeeded; an initialised session makes no setup call |
| `TableSession.TableManager.constructor` | www/js/tableManager.js:7-13 | a new session is uninitialised, has made no calls and has no UI manager |
| `TableSession.TableManager.SetUiManager` | www/js/tableManager.js:15-17 | the UI manager becomes the given dialog |
| `TableSession.TableManager.Setup` | www/js/tableManager.js:19-61 | once initialised, setup resolves at once and the library is not called; otherwise it initialises the library once, and the session is initialised afterwards if and only if that succeeded |
| `TableSession.TableManager.Push` | www/js/tableManager.js:189-201 | runs setup, then the sync push only if setup succeeded; a setup or push failure becomes "Push failed. Error: " followed by its message |
| `TableSession.TableManager.Pull` | www/js/tableManager.js:177-184 | runs setup, then the table pull only if setup succeeded; either failure becomes "Pull failed. Error: " followed by its message |
| `TableSession.TableManager.Refresh` | www/js/tableManager.js:165-172 | issues exactly the calls of `RefreshCalls` (push before pull); returns the setup failure, the wrapped push failure or the pull outcome |
| `TableSession.TableManager.RunPushHandler` | www/js/tableManager.js:44-54 | a failure resolved without the user yields its resolution and leaves the dialog untouched; otherwise the dialog's state and the resolution are those of `Converse` followed by `Resume`; dispatch is `PushHandler`, so the corrected line 74 is used |
| `EndToEnd.UntouchedCustomReappliesClientRecord` | www/js/tableManager.js:118-125 | custom answered with the untouched candidate reapplies the client record without `deleted`, with the server's id and version |
| `EndToEnd.ClientAnswerKeepsClientRecord` | www/js/tableManager.js:118-125 | the client answer keeps the client's text and `deleted` and takes the server's version |
| `EndToEnd.EqualUpdateIsDiscarded` | www/js/tableManager.js:95-104 | an update whose records have the same text (and no complete or deleted) is discarded without asking |
| `EndToEnd.DifferingUpdateWithClientAnswer` | www/js/tableManager.js:106-125 | records whose text differs go to the user with candidate `{text: "foo"}`; the client answer reapplies `{id: "A", text: "foo", version: "v2"}` |
| `EndToEnd.LiveDeleteBecomesUpdate` | www/js/tableManager.js:143-146 | a 412 delete against a live server record becomes `changeAction('update', serverRecord)` |

## Findings

| source | as written | input that shows it | evidently intended | confidence | as-written member | corrected member |
|---|---|---|---|---|---|---|
| www/js/tableManager.js:74 | `handleError('Unhandled conflict!')` passes the text as the push-error argument and no message. The promise is rejected with `new Error(undefined)`, whose message is empty, and the summary shows "undefined" | a push error whose action is neither insert, update nor delete, e.g. "merge" | reject with the message "Unhandled conflict!" | high; not executed | `ConflictPolicies.OnConflictAsWritten` (shown by `ConflictPolicies.UnhandledConflictLosesMessage`) | `ConflictPolicies.OnConflict` |

## Left out

- jQuery DOM work in www/js/uiManager.js: the dialog widget, showing and hiding the custom box, building the item list, and the add/delete/update item and refresh handlers (lines 22-28, 86-264). This is presentation with no decision logic.
- Creating the Azure client and SQLite store, the table schema and `syncContext.initialize` (www/js/tableManager.js:24-56). These are foreign library calls, represented by one `InitializeStore` call whose outcome is a parameter.
- `getTable` (www/js/tableManager.js:155-160): it hands out the library's table object, which is not modelled. Its setup part is `Setup`.
- The network push and pull and the promise plumbing. These are `Outcome` parameters. The loop that calls the push handler once per rejected operation, and the list of conflicts `syncContext.push` returns, belong to the library. `RunPushHandler` models one such call.
- What `cancel`, `cancelAndDiscard`, `cancelAndUpdate`, `update` and `changeAction` then do to the pending-operation queue: they are library calls. The model stops at which call is made.
- Summary and error-log messages and `console.error` (www/js/uiManager.js:218-220, 266-278; the summary part of www/js/tableManager.js:196 and 203-207). These are fire-and-forget reporting. The rejection messages are kept.
- Real JSON parsing and serialising: `parse` and `stringify` are function parameters. `parse` yields a record or failure. Custom input that parses to a non-object (for example the string "skip", a number or null) is not modelled. Nor are nested object or array property values: a `Value` is null, a boolean, a number or a string.
- Numbers are modelled as integers: no floating point and no NaN comparisons.
- The in-place assignments `result.id = …` and `result.version = …` (www/js/tableManager.js:119-124) are modelled on record values. So the model does not capture that, for a client answer, the client record object handed over by the library is itself changed.
- Click handlers are bound again on every `resolve` (www/js/uiManager.js:33-51). Each binding sets the same value, so the model treats one binding as all of them.
- Two overlapping `setup` calls: `isInitialized` is set only at the end of the chain, so both would initialise. Concurrency is not modelled; each method runs to completion.
- A user who never gives a valid answer: the user is a finite script of attempts, and running out of attempts leaves the dialog open (`None`).
