/**
 * The table manager's module-level session: one-time setup of the store and
 * sync context, push, pull and refresh, and the push handler that the sync
 * context calls for each rejected operation. The mobile-apps library is
 * represented by the outcomes its asynchronous steps produce and by the
 * ordered list of calls the session makes into it.
 */
module TableSession {
  import opened Records
  import opened ConflictPolicies
  import opened ConflictDialogs

  /** How one asynchronous library step ends: it resolves, or rejects with an error message. */
  datatype Outcome = Ok | Failed(message: string)

  /** The calls the session makes into the library, in the order it makes them.
      InitializeStore stands for creating the client and store, defining the
      table, initialising the sync context and opening the sync table. */
  datatype LibraryCall = InitializeStore | SyncPush | TablePull(query: string)

  const PushFailedPrefix := "Push failed. Error: "
  const PullFailedPrefix := "Pull failed. Error: "

  /** What `setup` asks of the library: nothing once initialised. */
  function SetupCalls(wasInitialized: bool): (cs: seq<LibraryCall>)
    ensures InitializeStore in cs <==> !wasInitialized
    ensures |cs| <= 1
  {
    if wasInitialized then [] else [InitializeStore]
  }

  /** The calls of one `refresh`: setup, then push, then pull, and a pull only
      after a push that succeeded. */
  function RefreshCalls(wasInitialized: bool, library: Outcome, query: string, push: Outcome): (cs: seq<LibraryCall>)
    ensures forall i :: 0 <= i < |cs| && cs[i].TablePull? ==> 0 < i && cs[i - 1] == SyncPush
    ensures TablePull(query) in cs <==> (wasInitialized || library.Ok?) && push.Ok?
    ensures forall c :: c in cs && c.TablePull? ==> c == TablePull(query)
    ensures SyncPush in cs <==> wasInitialized || library.Ok?
    ensures wasInitialized ==> InitializeStore !in cs
  {
    if !wasInitialized && library.Failed? then [InitializeStore]
    else SetupCalls(wasInitialized) + [SyncPush] + (if push.Ok? then [TablePull(query)] else [])
  }

  class TableManager {
    var isInitialized: bool
    var calls: seq<LibraryCall>
    var uiManager: ConflictDialog?

    constructor ()
      ensures !isInitialized && calls == [] && uiManager == null
    {
      isInitialized := false;
      calls := [];
      uiManager := null;
    }

    method SetUiManager(manager: ConflictDialog)
      modifies this`uiManager
      ensures uiManager == manager
    {
      uiManager := manager;
    }

    /** `setup`: does nothing once initialised; otherwise initialises the
        library, and is initialised afterwards only if that succeeded. */
    method Setup(library: Outcome) returns (r: Outcome)
      modifies this`isInitialized, this`calls
      ensures calls == old(calls) + SetupCalls(old(isInitialized))
      ensures old(isInitialized) ==> r == Ok && isInitialized
      ensures !old(isInitialized) ==> r == library && isInitialized == library.Ok?
    {
      if isInitialized {
        return Ok;
      }
      calls := calls + [InitializeStore];
      r := library;
      if library.Ok? {
        isInitialized := true;
      }
    }

    /** `push`: setup, then the sync context's push; a failure of either is
        reported with the push-failed message. */
    method Push(library: Outcome, transport: Outcome) returns (r: Outcome)
      modifies this`isInitialized, this`calls
      ensures isInitialized == (old(isInitialized) || library.Ok?)
      ensures calls == old(calls) + SetupCalls(old(isInitialized)) + (if isInitialized then [SyncPush] else [])
      ensures r == if !isInitialized then Failed(PushFailedPrefix + library.message)
                   else if transport.Failed? then Failed(PushFailedPrefix + transport.message)
                   else Ok
    {
      var s := Setup(library);
      if s.Failed? {
        return Failed(PushFailedPrefix + s.message);
      }
      calls := calls + [SyncPush];
      r := if transport.Failed? then Failed(PushFailedPrefix + transport.message) else Ok;
    }

    /** `pull`: setup, then the table's pull; a failure of either is reported
        with the pull-failed message. */
    method Pull(library: Outcome, query: string, transport: Outcome) returns (r: Outcome)
      modifies this`isInitialized, this`calls
      ensures isInitialized == (old(isInitialized) || library.Ok?)
      ensures calls == old(calls) + SetupCalls(old(isInitialized)) + (if isInitialized then [TablePull(query)] else [])
      ensures r == if !isInitialized then Failed(PullFailedPrefix + library.message)
                   else if transport.Failed? then Failed(PullFailedPrefix + transport.message)
                   else Ok
    {
      var s := Setup(library);
      if s.Failed? {
        return Failed(PullFailedPrefix + s.message);
      }
      calls := calls + [TablePull(query)];
      r := if transport.Failed? then Failed(PullFailedPrefix + transport.message) else Ok;
    }

    /** `refresh`: setup, push, and only then the table's pull. Setup and pull
        failures are passed on as the library reported them. */
    method Refresh(library: Outcome, query: string, pushTransport: Outcome, pullTransport: Outcome) returns (r: Outcome)
      modifies this`isInitialized, this`calls
      ensures isInitialized == (old(isInitialized) || library.Ok?)
      ensures calls == old(calls) + RefreshCalls(old(isInitialized), library, query, pushTransport)
      ensures r == if !isInitialized then library
                   else if pushTransport.Failed? then Failed(PushFailedPrefix + pushTransport.message)
                   else pullTransport
    {
      var s := Setup(library);
      if s.Failed? {
        return s;
      }
      r := Push(library, pushTransport);
      if r.Failed? {
        return;
      }
      calls := calls + [TablePull(query)];
      r := pullTransport;
    }

    /** The push handler for one rejected operation: resolved at once, or
        after the conflict dialog has been answered (None while the user has
        not given a valid answer). The dialog is untouched unless the handler
        asks the user. */
    method RunPushHandler(hook: Hook, e: PushError, attempts: seq<seq<UserEvent>>) returns (r: Option<Resolution>)
      requires uiManager != null
      modifies uiManager
      ensures PushHandler(hook, e).Resolved? ==>
                r == Some(PushHandler(hook, e).resolution) && uiManager.State() == old(uiManager.State())
      ensures PushHandler(hook, e).AskUser? ==>
                var s := PushHandler(hook, e);
                var c := Converse(Shown(old(uiManager.State()), s.clientRecord, uiManager.stringify), attempts, uiManager.parse);
                && uiManager.State() == c.state
                && r == (if c.answer.Some? then Some(Resume(s.serverRecord, s.clientRecord, c.answer.value)) else None)
    {
      var step := PushHandler(hook, e);
      match step
      case Resolved(resolution) =>
        r := Some(resolution);
      case AskUser(server, client) =>
        var answer := uiManager.Resolve(client, attempts);
        r := if answer.Some? then Some(Resume(server, client, answer.value)) else None;
    }
  }
}
