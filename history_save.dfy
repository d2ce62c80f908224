/**
 * The history save endpoint: it checks the bearer token and the user, refuses an empty message list, admits
 * the messages only while the user's usage stays within the 100 MiB quota, creates a session when none is
 * given, inserts one row per message and adds the new bytes to the user's usage. The user lookup and the
 * outcome of every database call are inputs.
 */
module HistorySave {
  import opened Wrappers
  import Text
  import opened ChatPage
  import opened HistoryStore

  /** The request body; absent fields are `None`. */
  datatype SaveBody = SaveBody(sessionId: Option<string>, title: Option<string>, messages: Option<seq<Turn>>)

  datatype SaveReply =
    | Unauthorized                                        // 401
    | NoMessages                                          // 400
    | StorageFull(usage: nat, limit: nat, overBy: nat)    // 409
    | Failed(message: string)                             // 400 with the database error
    | Saved(sessionId: string, usage: nat, limit: nat)    // 200

  /** A new session is created when the body names none (or names the empty id). */
  predicate NeedsSession(sessionId: Option<string>) {
    sessionId.None? || sessionId.value == ""
  }

  /** `body.title || body.messages[0]?.content || "New Chat"`. */
  function TitleSource(title: Option<string>, msgs: seq<Turn>): (r: string)
    ensures r != []
    ensures title.Some? && title.value != "" ==> r == title.value
    ensures (title.None? || title.value == "") && msgs != [] && msgs[0].content != "" ==> r == msgs[0].content
  {
    if title.Some? && title.value != "" then title.value
    else if msgs != [] && msgs[0].content != "" then msgs[0].content
    else "New Chat"
  }

  /** The new session's title: the first 80 characters of the title source. */
  function Title(title: Option<string>, msgs: seq<Turn>): (r: string)
    ensures r != [] && |r| <= 80 && Text.StartsWith(TitleSource(title, msgs), r)
    ensures |TitleSource(title, msgs)| <= 80 ==> r == TitleSource(title, msgs)
  {
    Text.Take(TitleSource(title, msgs), 80)
  }

  /** The rows inserted for a request: one per message, in order, tagged with the session and the user. */
  function RowsFor(sid: string, u: string, msgs: seq<Turn>): (r: seq<Row>)
    ensures |r| == |msgs|
    ensures forall i :: 0 <= i < |msgs| ==> r[i] == Row(sid, u, msgs[i].role, msgs[i].content)
  {
    seq(|msgs|, i requires 0 <= i < |msgs| => Row(sid, u, msgs[i].role, msgs[i].content))
  }

  /** The inserted rows are all the acting user's, and their bytes are the request's `newBytes`. */
  lemma {:induction false} RowsForAccounts(sid: string, u: string, msgs: seq<Turn>, v: string)
    ensures Bytes(OfUser(RowsFor(sid, u, msgs), v)) == if v == u then ContentBytes(msgs) else 0
    decreases |msgs|
  {
    if msgs != [] {
      var init := msgs[..|msgs| - 1];
      var m := msgs[|msgs| - 1];
      var row := Row(sid, u, m.role, m.content);
      assert RowsFor(sid, u, msgs) == RowsFor(sid, u, init) + [row];
      RowsForAccounts(sid, u, init, v);
      OfUserSnoc(RowsFor(sid, u, init), row, v);
      if v == u {
        BytesSnoc(OfUser(RowsFor(sid, u, init), v), row);
      } else {
        assert OfUser(RowsFor(sid, u, msgs), v) == OfUser(RowsFor(sid, u, init), v) + [] == OfUser(RowsFor(sid, u, init), v);
      }
    }
  }

  /** Appending a request's rows adds its `newBytes` to the acting user's bytes and nothing to anyone else's. */
  lemma SaveAccounts(rows: seq<Row>, sid: string, u: string, msgs: seq<Turn>, v: string)
    ensures Bytes(OfUser(rows + RowsFor(sid, u, msgs), v)) == Bytes(OfUser(rows, v)) + if v == u then ContentBytes(msgs) else 0
  {
    OfUserAppend(rows, RowsFor(sid, u, msgs), v);
    BytesAppend(OfUser(rows, v), OfUser(RowsFor(sid, u, msgs), v));
    RowsForAccounts(sid, u, msgs, v);
  }

  /** The row insert: the request's rows are appended, adding their bytes to the acting user's only. */
  method InsertRows(db: Store, sid: string, u: string, msgs: seq<Turn>)
    modifies db
    ensures db.sessions == old(db.sessions) && db.usage == old(db.usage)
    ensures db.rows == old(db.rows) + RowsFor(sid, u, msgs)
    ensures forall v :: Bytes(OfUser(db.rows, v)) == Bytes(OfUser(old(db.rows), v)) + if v == u then ContentBytes(msgs) else 0
  {
    ghost var before := db.rows;
    db.rows := db.rows + RowsFor(sid, u, msgs);
    forall v ensures Bytes(OfUser(db.rows, v)) == Bytes(OfUser(before, v)) + if v == u then ContentBytes(msgs) else 0 {
      SaveAccounts(before, sid, u, msgs, v);
    }
  }

  /**
   * `POST` on a parsed body. `user` is what the authentication service returns for the token, `newId` the id
   * the database gives a created session, `sessionError` and `rowsError` the errors of the two inserts, which
   * the endpoint checks. `usageRead` and `usageWritten` say whether the usage select and the usage write
   * succeed; the endpoint never reads their errors, so a failed select counts as no usage row (usage 0) and a
   * failed write still replies with the new usage.
   */
  method Save(db: Store, auth: string, user: Option<string>, body: SaveBody, newId: string,
              sessionError: Option<string>, rowsError: Option<string>, usageRead: bool, usageWritten: bool)
    returns (reply: SaveReply)
    modifies db
    ensures BearerToken(auth).None? || user.None? ==> reply == Unauthorized && unchanged(db)
    ensures BearerToken(auth).Some? && user.Some? && (body.messages.None? || body.messages.value == []) ==>
      reply == NoMessages && unchanged(db)
    ensures BearerToken(auth).Some? && user.Some? && body.messages.Some? && body.messages.value != [] ==>
      var u, msgs := user.value, body.messages.value;
      var current, added := if usageRead then old(db.UsageOf(u)) else 0, ContentBytes(msgs);
      var sid := if NeedsSession(body.sessionId) then newId else body.sessionId.value;
      && (current + added > QuotaBytes ==>
            reply == StorageFull(current, QuotaBytes, current + added - QuotaBytes) && unchanged(db))
      && (current + added <= QuotaBytes && NeedsSession(body.sessionId) && sessionError.Some? ==>
            reply == Failed(sessionError.value) && unchanged(db))
      && (current + added <= QuotaBytes && !(NeedsSession(body.sessionId) && sessionError.Some?) ==>
            && db.sessions == old(db.sessions) + (if NeedsSession(body.sessionId) then [Session(newId, u, Title(body.title, msgs))] else [])
            && (rowsError.Some? ==> reply == Failed(rowsError.value) && db.rows == old(db.rows) && db.usage == old(db.usage))
            && (rowsError.None? ==>
                  && reply == Saved(sid, current + added, QuotaBytes)
                  && db.rows == old(db.rows) + RowsFor(sid, u, msgs)
                  && db.usage == Upsert(old(db.usage), u, usageRead && u in old(db.usage), current + added, usageWritten)))
    ensures reply.Saved? ==> reply.usage <= QuotaBytes
    ensures forall v :: old(db.UsageOf(v)) <= QuotaBytes ==> db.UsageOf(v) <= QuotaBytes
    ensures forall v :: old(db.Accounted(v)) && ((usageRead && usageWritten) || user != Some(v)) ==> db.Accounted(v)
    ensures (user.Some? && body.messages.Some? && reply.Saved? && !usageWritten && ContentBytes(body.messages.value) > 0
             && old(db.Accounted(user.value))) ==> !db.Accounted(user.value)
  {
    var token := BearerToken(auth);
    if token.None? || user.None? {
      return Unauthorized;
    }
    var u := user.value;
    if body.messages.None? || body.messages.value == [] {
      return NoMessages;
    }
    var msgs := body.messages.value;
    var added := ContentBytes(msgs);
    var found := usageRead && u in db.usage;
    var current := if found then db.usage[u] else 0;
    if current + added > QuotaBytes {
      return StorageFull(current, QuotaBytes, current + added - QuotaBytes);
    }
    var sid: string;
    if NeedsSession(body.sessionId) {
      if sessionError.Some? {
        return Failed(sessionError.value);
      }
      db.sessions := db.sessions + [Session(newId, u, Title(body.title, msgs))];
      sid := newId;
    } else {
      sid := body.sessionId.value;
    }
    if rowsError.Some? {
      return Failed(rowsError.value);
    }
    Commit(db, sid, u, msgs, found, current, usageWritten);
    reply := Saved(sid, current + added, QuotaBytes);
  }

  /**
   * The row insert followed by the unchecked usage write of `current + newBytes`, where `current` is the
   * usage the select returned (`found`) or 0. The stored usage keeps matching the rows when the write lands
   * on the user's row; a write that does not land leaves it short by the new bytes.
   */
  method Commit(db: Store, sid: string, u: string, msgs: seq<Turn>, found: bool, current: nat, written: bool)
    requires (found ==> u in db.usage && current == db.usage[u]) && (!found ==> current == 0)
    requires current + ContentBytes(msgs) <= QuotaBytes
    modifies db
    ensures db.sessions == old(db.sessions)
    ensures db.rows == old(db.rows) + RowsFor(sid, u, msgs)
    ensures db.usage == Upsert(old(db.usage), u, found, current + ContentBytes(msgs), written)
    ensures forall v :: old(db.UsageOf(v)) <= QuotaBytes ==> db.UsageOf(v) <= QuotaBytes
    ensures forall v :: old(db.Accounted(v)) && (v != u || (written && (found || u !in old(db.usage)))) ==> db.Accounted(v)
    ensures !written && ContentBytes(msgs) > 0 && old(db.Accounted(u)) ==> !db.Accounted(u)
  {
    InsertRows(db, sid, u, msgs);
    db.WriteUsage(u, found, current + ContentBytes(msgs), written);
  }
}
