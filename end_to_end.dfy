/**
 * Properties that span the push handler and the conflict dialog: what is
 * sent back to the server for each way the user can settle an update
 * conflict, and three worked resolutions of concrete conflicts.
 */
module EndToEnd {
  import opened Records
  import opened ConflictPolicies
  import opened ConflictDialogs

  /** An update conflict that reaches the user, settled by choosing custom and
      closing without editing the box: the record reapplied is the client
      record without its `deleted` flag, with the server's id and version. */
  lemma UntouchedCustomReappliesClientRecord(e: PushError, s: DialogState,
                                             stringify: Record -> string, parse: string -> Option<Record>)
    requires OnConflict(e).AskUser?
    requires parse(stringify(Candidate(e.clientRecord.value))) == Some(Candidate(e.clientRecord.value))
    ensures var step := OnConflict(e);
            var closed := Converse(Shown(s, step.clientRecord, stringify), [[ChooseCustom]], parse);
            && closed.answer.Some?
            && var r := Resume(step.serverRecord, step.clientRecord, closed.answer.value);
               && r.Update?
               && Get(r.record, IdKey) == Get(step.serverRecord, IdKey)
               && Get(r.record, VersionKey) == Get(step.serverRecord, VersionKey)
               && Get(r.record, DeletedKey) == None
               && AgreeExcept(r.record, step.clientRecord, StrippedKeys)
  {
  }

  /** The client answer keeps every property of the client record, `deleted`
      included, and takes only the version from the server. */
  lemma ClientAnswerKeepsClientRecord(e: PushError)
    requires OnConflict(e).AskUser?
    ensures var step := OnConflict(e);
            var r := Resume(step.serverRecord, step.clientRecord, UseClient);
            && r.Update?
            && Get(r.record, DeletedKey) == Get(step.clientRecord, DeletedKey)
            && Get(r.record, TextKey) == Get(step.clientRecord, TextKey)
            && Get(r.record, VersionKey) == Get(step.serverRecord, VersionKey)
  {
  }

  const ServerFoo: Record := map[IdKey := Str("A"), TextKey := Str("foo"), VersionKey := Str("v2")]
  const ServerBar: Record := map[IdKey := Str("A"), TextKey := Str("bar"), VersionKey := Str("v2")]
  const ClientFoo: Record := map[IdKey := Str("A"), TextKey := Str("foo"), VersionKey := Str("v1")]

  /** An update whose records agree on text, complete and deleted is discarded
      without asking the user. */
  lemma EqualUpdateIsDiscarded()
    ensures OnConflict(PushError("update", PreconditionFailed, Some(ServerFoo), Some(ClientFoo))) == Resolved(CancelAndDiscard)
  {
  }

  /** An update whose text differs goes to the user with the client record;
      answering client reapplies it with the server's version. */
  lemma DifferingUpdateWithClientAnswer()
    ensures OnConflict(PushError("update", PreconditionFailed, Some(ServerBar), Some(ClientFoo))) == AskUser(ServerBar, ClientFoo)
    ensures Candidate(ClientFoo) == map[TextKey := Str("foo")]
    ensures Resume(ServerBar, ClientFoo, UseClient) == Update(map[IdKey := Str("A"), TextKey := Str("foo"), VersionKey := Str("v2")])
  {
  }

  /** A delete refused with 412 while the server record is live becomes an
      update seeded from the server record. */
  lemma LiveDeleteBecomesUpdate()
    ensures var server := map[IdKey := Str("B"), DeletedKey := Bool(false), TextKey := Str("baz"), VersionKey := Str("v5")];
            OnConflict(PushError("delete", PreconditionFailed, Some(server), None)) == Resolved(ChangeAction("update", server))
  {
  }
}
