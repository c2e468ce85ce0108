/**
 * The push handler of the table manager: how each failed insert, update or
 * delete that the server rejected is resolved.  Each handler is a decision
 * over the operation's action, the HTTP status and the two record snapshots;
 * the one that needs the user stops at `AskUser` and is resumed by `Resume`.
 */
module ConflictPolicies {
  import opened Records

  const NotFound := 404
  const Conflict := 409
  const PreconditionFailed := 412

  const UnhandledConflictMessage := "Unhandled conflict!"
  const PushErrorMessage := "Encountered error while pushing change to server. Possibly connectivity issue!"
  const UnexpectedDeleteMessage := "All possible errors were handled. We do not expect to be here ever!"

  /** One rejected operation as the sync context hands it over: `getAction()`,
      `getError().request.status`, `getServerRecord()`, `getClientRecord()`
      (None for a null or undefined record). */
  datatype PushError = PushError(action: string, status: int, serverRecord: Option<Record>, clientRecord: Option<Record>)

  /** What the conflict dialog resolves with: one of the strings 'server',
      'client', 'skip', or a record the user typed. */
  datatype Answer = UseServer | UseClient | SkipConflict | UseCustom(record: Record)
  {
    predicate IsNamed() { !UseCustom? }
  }

  /** The call a handler ends in, that is, what happens to the queued operation. */
  datatype Resolution =
    | Cancel                                        // pushError.cancel()
    | CancelAndDiscard                              // pushError.cancelAndDiscard()
    | CancelAndUpdate(record: Record)               // pushError.cancelAndUpdate(record)
    | Update(record: Record)                        // pushError.update(record)
    | ChangeAction(newAction: string, record: Record) // pushError.changeAction(action, record)
    | NoAction                                      // the handler yields undefined
    | Rejected(message: string)                     // handleError: a rejected promise
    | TypeError                                     // a property read on a null server record throws

  /** A handler either resolves at once or suspends on the user's decision. */
  datatype Step = Resolved(resolution: Resolution) | AskUser(serverRecord: Record, clientRecord: Record)

  /** The two entry points of `syncContext.pushHandler`. */
  datatype Hook = ConflictHook | ErrorHook

  predicate KnownAction(action: string)
  {
    action == "insert" || action == "update" || action == "delete"
  }

  /** The `===` comparisons of an update conflict: text, complete and deleted. */
  predicate SameFields(server: Record, client: Record)
  {
    && Get(server, TextKey) == Get(client, TextKey)
    && Get(server, CompleteKey) == Get(client, CompleteKey)
    && Get(server, DeletedKey) == Get(client, DeletedKey)
  }

  const ComparedKeys: set<string> := {TextKey, CompleteKey, DeletedKey}

  /** The records differ on no compared property iff they agree on all of them. */
  lemma SameFieldsAgreesOnComparedKeys(server: Record, client: Record)
    ensures SameFields(server, client) <==> forall k :: k in ComparedKeys ==> Get(server, k) == Get(client, k)
  {
  }

  /** An insert conflict: the record id is a GUID, so the insert already reached
      the server in an earlier push; the change is cancelled. */
  function HandleInsertConflict(e: PushError): (r: Resolution)
    ensures r == Cancel
  {
    Cancel
  }

  /** The synchronous part of an update conflict: a 404 is discarded, equal
      records are discarded, differing records go to the user, and a missing
      record falls off the end of the function. */
  function HandleUpdateConflict(e: PushError): (s: Step)
    ensures e.status == NotFound ==> s == Resolved(CancelAndDiscard)
    ensures s.AskUser? <==>
              && e.status != NotFound
              && e.serverRecord.Some? && e.clientRecord.Some?
              && !SameFields(e.serverRecord.value, e.clientRecord.value)
    ensures s.AskUser? ==> s.serverRecord == e.serverRecord.value && s.clientRecord == e.clientRecord.value
    ensures s == Resolved(NoAction) <==> e.status != NotFound && (e.serverRecord.None? || e.clientRecord.None?)
    ensures s.Resolved? ==> s.resolution == CancelAndDiscard || s.resolution == NoAction
  {
    if e.status == NotFound then
      Resolved(CancelAndDiscard)
    else
      match (e.serverRecord, e.clientRecord)
      case (Some(server), Some(client)) =>
        if SameFields(server, client) then Resolved(CancelAndDiscard)
        else AskUser(server, client)
      case _ => Resolved(NoAction)
  }

  /** The continuation of an update conflict once the user has answered. The
      version is always taken from the server record before reapplying. */
  function Resume(server: Record, client: Record, answer: Answer): (r: Resolution)
    ensures answer == SkipConflict <==> r == NoAction
    ensures answer == UseServer <==> r == CancelAndUpdate(server)
    ensures r.Update? <==> answer == UseClient || answer.UseCustom?
    ensures r.Update? ==> Get(r.record, VersionKey) == Get(server, VersionKey)
    ensures answer == UseClient ==> AgreeExcept(r.record, client, {VersionKey})
    ensures answer.UseCustom? ==>
              && Get(r.record, IdKey) == Get(server, IdKey)
              && AgreeExcept(r.record, answer.record, {IdKey, VersionKey})
  {
    match answer
    case SkipConflict => NoAction
    case UseServer => CancelAndUpdate(server)
    case UseClient => Update(Put(client, VersionKey, Get(server, VersionKey)))
    case UseCustom(custom) =>
      Update(Put(Put(custom, IdKey, Get(server, IdKey)), VersionKey, Get(server, VersionKey)))
  }

  /** A delete conflict: 404, 409 and a 412 with a deleted server record mean the
      delete already happened; a 412 with a live server record turns the delete
      into an update; anything else is reported as an error. */
  function HandleDeleteConflict(e: PushError): (r: Resolution)
    ensures r == CancelAndDiscard <==>
              || e.status == NotFound || e.status == Conflict
              || (e.status == PreconditionFailed && e.serverRecord.Some? && Truthy(Get(e.serverRecord.value, DeletedKey)))
    ensures r.ChangeAction? <==>
              e.status == PreconditionFailed && e.serverRecord.Some? && !Truthy(Get(e.serverRecord.value, DeletedKey))
    ensures r.ChangeAction? ==> r == ChangeAction("update", e.serverRecord.value)
    ensures r == TypeError <==> e.status == PreconditionFailed && e.serverRecord.None?
    ensures r.Rejected? <==> e.status != NotFound && e.status != Conflict && e.status != PreconditionFailed
    ensures r.Rejected? ==> r.message == UnexpectedDeleteMessage
  {
    if e.status == NotFound || e.status == Conflict then
      CancelAndDiscard
    else if e.status == PreconditionFailed then
      match e.serverRecord
      case None => TypeError
      case Some(server) =>
        if Truthy(Get(server, DeletedKey)) then CancelAndDiscard
        else ChangeAction("update", server)
    else
      Rejected(UnexpectedDeleteMessage)
  }

  /** `onConflict`: each known action goes to its own handler; any other action
      is an error. This is the corrected form, whose error carries its message. */
  function OnConflict(e: PushError): (s: Step)
    ensures e.action == "insert" ==> s == Resolved(Cancel)
    ensures e.action == "update" ==> s == HandleUpdateConflict(e)
    ensures e.action == "delete" ==> s == Resolved(HandleDeleteConflict(e))
    ensures !KnownAction(e.action) ==> s == Resolved(Rejected(UnhandledConflictMessage))
    ensures s.AskUser? ==> e.action == "update" && !SameFields(s.serverRecord, s.clientRecord)
  {
    if e.action == "insert" then Resolved(HandleInsertConflict(e))
    else if e.action == "update" then HandleUpdateConflict(e)
    else if e.action == "delete" then Resolved(HandleDeleteConflict(e))
    else Resolved(Rejected(UnhandledConflictMessage))
  }

  /** `onConflict` as written: `handleError('Unhandled conflict!')` passes the
      text as the push-error argument and no message, so the promise is
      rejected with `new Error(undefined)`, whose message is empty. */
  function OnConflictAsWritten(e: PushError): (s: Step)
    ensures KnownAction(e.action) ==> s == OnConflict(e)
    ensures !KnownAction(e.action) ==> s == Resolved(Rejected(""))
  {
    if e.action == "insert" then Resolved(HandleInsertConflict(e))
    else if e.action == "update" then HandleUpdateConflict(e)
    else if e.action == "delete" then Resolved(HandleDeleteConflict(e))
    else Resolved(Rejected(""))
  }

  /** The unhandled-action error loses its message in the code as written. */
  lemma UnhandledConflictLosesMessage(e: PushError)
    requires !KnownAction(e.action)
    ensures OnConflictAsWritten(e).resolution.message == ""
    ensures OnConflict(e).resolution.message == UnhandledConflictMessage
    ensures OnConflictAsWritten(e) != OnConflict(e)
  {
  }

  /** `onError`: a 404 is treated as a conflict, anything else is a push error. */
  function OnError(e: PushError): (s: Step)
    ensures e.status == NotFound ==> s == OnConflict(e)
    ensures e.status != NotFound ==> s == Resolved(Rejected(PushErrorMessage))
  {
    if e.status == NotFound then OnConflict(e)
    else Resolved(Rejected(PushErrorMessage))
  }

  /** The push handler object: which entry point the sync context calls. */
  function PushHandler(hook: Hook, e: PushError): (s: Step)
    ensures hook == ConflictHook ==> s == OnConflict(e)
    ensures hook == ErrorHook ==> s == OnError(e)
  {
    match hook
    case ConflictHook => OnConflict(e)
    case ErrorHook => OnError(e)
  }

  /** An insert failure is cancelled whatever its status and records, through
      either entry point; through `onError` that holds for a 404. */
  lemma InsertAlwaysCancelled(e: PushError)
    requires e.action == "insert"
    ensures PushHandler(ConflictHook, e) == Resolved(Cancel)
    ensures e.status == NotFound ==> PushHandler(ErrorHook, e) == Resolved(Cancel)
  {
  }

  /** An update failing with 404 is discarded and never reaches the user. */
  lemma UpdateNotFoundDiscarded(hook: Hook, e: PushError)
    requires e.action == "update" && e.status == NotFound
    ensures PushHandler(hook, e) == Resolved(CancelAndDiscard)
  {
  }

  /** The user is asked exactly about update conflicts whose two records are
      present and differ on some compared property. */
  lemma AskedOnlyAboutRealConflicts(hook: Hook, e: PushError)
    ensures PushHandler(hook, e).AskUser? <==>
              && hook == ConflictHook
              && e.action == "update"
              && e.status != NotFound
              && e.serverRecord.Some? && e.clientRecord.Some?
              && exists k :: k in ComparedKeys && Get(e.serverRecord.value, k) != Get(e.clientRecord.value, k)
  {
    if e.serverRecord.Some? && e.clientRecord.Some? {
      SameFieldsAgreesOnComparedKeys(e.serverRecord.value, e.clientRecord.value);
    }
  }

  /** Whatever the user answers, a record sent back to the server carries the
      server's version, and the server-side answer adopts the server record
      as it is. */
  lemma ReappliedRecordHasServerVersion(hook: Hook, e: PushError, answer: Answer)
    requires PushHandler(hook, e).AskUser?
    ensures var s := PushHandler(hook, e);
            var r := Resume(s.serverRecord, s.clientRecord, answer);
            && (r.Update? ==> Get(r.record, VersionKey) == Get(e.serverRecord.value, VersionKey))
            && (answer == UseServer ==> r == CancelAndUpdate(e.serverRecord.value))
  {
  }
}
