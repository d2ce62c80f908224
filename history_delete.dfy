/**
 * The history delete endpoint: it checks the bearer token, requires a session id, counts the bytes of the
 * user's rows in that session, deletes those rows and then the session, and lowers the user's usage by the
 * freed bytes, never below zero. The user lookup and the outcome of every database call are inputs.
 */
module HistoryDelete {
  import opened Wrappers
  import opened HistoryStore

  datatype DeleteReply =
    | Unauthorized                        // 401
    | Crashed                             // 400: the user lookup came back empty and `userRes.user!.id` threw
    | MissingSession                      // 400
    | Deleted(freedBytes: nat, now: nat)  // 200

  /** `Math.max(0, current - bytes)`. */
  function Decremented(current: nat, bytes: nat): (r: nat)
    ensures r <= current
    ensures bytes <= current ==> r == current - bytes
    ensures bytes >= current ==> r == 0
  {
    if current >= bytes then current - bytes else 0
  }

  /**
   * Whether each database call of the endpoint succeeds. The endpoint reads none of their errors: a failed
   * select of the session's rows counts as no rows (0 bytes), a failed usage select as no usage row (usage 0),
   * and failed deletes and writes leave their tables as they were.
   */
  datatype DeleteCalls = DeleteCalls(selected: bool, rowsDeleted: bool, sessionDeleted: bool, usageRead: bool, usageWritten: bool)

  predicate AllSucceed(c: DeleteCalls) {
    c.selected && c.rowsDeleted && c.sessionDeleted && c.usageRead && c.usageWritten
  }

  /** `POST` on a parsed body; `user` is what the authentication service returns for the token. */
  method DeleteSession(db: Store, auth: string, user: Option<string>, sessionId: Option<string>, calls: DeleteCalls)
    returns (reply: DeleteReply)
    modifies db
    ensures BearerToken(auth).None? ==> reply == Unauthorized && unchanged(db)
    ensures BearerToken(auth).Some? && user.None? ==> reply == Crashed && unchanged(db)
    ensures BearerToken(auth).Some? && user.Some? && (sessionId.None? || sessionId.value == "") ==>
      reply == MissingSession && unchanged(db)
    ensures BearerToken(auth).Some? && user.Some? && sessionId.Some? && sessionId.value != "" ==>
      var u, s := user.value, sessionId.value;
      var bytes := if calls.selected then Bytes(Matching(old(db.rows), u, s)) else 0;
      var next := Decremented(if calls.usageRead then old(db.UsageOf(u)) else 0, bytes);
      && reply == Deleted(bytes, next)
      && db.rows == (if calls.rowsDeleted then Unmatched(old(db.rows), u, s) else old(db.rows))
      && db.sessions == (if calls.sessionDeleted then SessionsWithout(old(db.sessions), u, s) else old(db.sessions))
      && db.usage == Upsert(old(db.usage), u, calls.usageRead && u in old(db.usage), next, calls.usageWritten)
    ensures forall v :: old(db.UsageOf(v)) <= QuotaBytes ==> db.UsageOf(v) <= QuotaBytes
    ensures forall v :: old(db.Accounted(v)) && (AllSucceed(calls) || user != Some(v)) ==> db.Accounted(v)
    ensures (reply.Deleted? && !calls.selected && calls.rowsDeleted && Bytes(Matching(old(db.rows), user.value, sessionId.value)) > 0
             && old(db.Accounted(user.value))) ==> !db.Accounted(user.value)
  {
    var token := BearerToken(auth);
    if token.None? {
      return Unauthorized;
    }
    if user.None? {
      return Crashed;
    }
    var u := user.value;
    if sessionId.None? || sessionId.value == "" {
      return MissingSession;
    }
    var s := sessionId.value;
    ghost var before := db.rows;
    var bytes, next := RemoveSession(db, u, s, calls);
    forall v | old(db.Accounted(v)) && (AllSucceed(calls) || v != u) ensures db.Accounted(v) {
      if v == u {
        UnmatchedAccounts(before, u, s);
      } else if calls.rowsDeleted {
        UnmatchedKeepsOthers(before, u, s, v);
      }
    }
    if calls.rowsDeleted && old(db.Accounted(u)) {
      UnmatchedAccounts(before, u, s);
    }
    reply := Deleted(bytes, next);
  }

  /** The database work for session `s` of user `u`: select the bytes, delete rows and session, write the usage. */
  method RemoveSession(db: Store, u: string, s: string, calls: DeleteCalls) returns (bytes: nat, next: nat)
    modifies db
    ensures bytes == if calls.selected then Bytes(Matching(old(db.rows), u, s)) else 0
    ensures next == Decremented(if calls.usageRead then old(db.UsageOf(u)) else 0, bytes)
    ensures db.rows == if calls.rowsDeleted then Unmatched(old(db.rows), u, s) else old(db.rows)
    ensures db.sessions == if calls.sessionDeleted then SessionsWithout(old(db.sessions), u, s) else old(db.sessions)
    ensures db.usage == Upsert(old(db.usage), u, calls.usageRead && u in old(db.usage), next, calls.usageWritten)
  {
    bytes := if calls.selected then Bytes(Matching(db.rows, u, s)) else 0;
    if calls.rowsDeleted {
      db.rows := Unmatched(db.rows, u, s);
    }
    if calls.sessionDeleted {
      db.sessions := SessionsWithout(db.sessions, u, s);
    }
    var found := calls.usageRead && u in db.usage;
    var current := if found then db.usage[u] else 0;
    next := Decremented(current, bytes);
    db.WriteUsage(u, found, next, calls.usageWritten);
  }
}
