/**
 * The chat-history tables behind the history endpoints, as an in-memory store: sessions, message rows and
 * the per-user byte usage, plus the bearer-token extraction and the UTF-8 byte counting the endpoints share.
 * A user's usage is accounted when it equals the byte size of that user's rows.
 */
module HistoryStore {
  import opened Wrappers
  import Text
  import opened ChatPage

  /** The storage quota per user: 100 MiB. */
  const QuotaBytes: nat := 100 * 1024 * 1024

  /** The token of an `Authorization: Bearer <token>` header (the whole header is "" when absent). */
  function BearerToken(auth: string): (r: Option<string>)
    ensures r.Some? <==> Text.StartsWith(auth, "Bearer ") && |auth| > 7
    ensures r.Some? ==> r.value != "" && auth == "Bearer " + r.value
  {
    if Text.StartsWith(auth, "Bearer ") && |auth| > 7 then Some(auth[7..]) else None
  }

  /** The token written after the scheme is the token read back. */
  lemma BearerRoundTrip(token: string)
    requires token != ""
    ensures BearerToken("Bearer " + token) == Some(token)
  {
    assert ("Bearer " + token)[..7] == "Bearer ";
    assert ("Bearer " + token)[7..] == token;
  }

  /** A row of `chat_messages`. */
  datatype Row = Row(sessionId: string, userId: string, role: Role, content: string)

  /** A row of `chat_sessions`. */
  datatype Session = Session(id: string, userId: string, title: string)

  /** The UTF-8 byte size of the rows' contents. */
  function Bytes(rows: seq<Row>): nat {
    if rows == [] then 0 else Bytes(rows[..|rows| - 1]) + Text.Utf8Length(rows[|rows| - 1].content)
  }

  /** The `newBytes` sum of the UTF-8 byte lengths of the contents of a request's messages. */
  function ContentBytes(msgs: seq<Turn>): nat {
    if msgs == [] then 0 else ContentBytes(msgs[..|msgs| - 1]) + Text.Utf8Length(msgs[|msgs| - 1].content)
  }

  lemma {:induction false} BytesAppend(a: seq<Row>, b: seq<Row>)
    ensures Bytes(a + b) == Bytes(a) + Bytes(b)
    decreases |b|
  {
    if b == [] {
      assert a + b == a;
    } else {
      assert (a + b)[..|a + b| - 1] == a + b[..|b| - 1];
      BytesAppend(a, b[..|b| - 1]);
    }
  }

  /** The rows of user `u`, in order. */
  function OfUser(rows: seq<Row>, u: string): seq<Row> {
    if rows == [] then []
    else OfUser(rows[..|rows| - 1], u) + (if rows[|rows| - 1].userId == u then [rows[|rows| - 1]] else [])
  }

  lemma {:induction false} OfUserAppend(a: seq<Row>, b: seq<Row>, u: string)
    ensures OfUser(a + b, u) == OfUser(a, u) + OfUser(b, u)
    decreases |b|
  {
    if b == [] {
      assert a + b == a;
    } else {
      assert (a + b)[..|a + b| - 1] == a + b[..|b| - 1];
      OfUserAppend(a, b[..|b| - 1], u);
    }
  }

  /** The rows of session `s`, in order. */
  function BySession(rows: seq<Row>, s: string): seq<Row> {
    if rows == [] then []
    else BySession(rows[..|rows| - 1], s) + (if rows[|rows| - 1].sessionId == s then [rows[|rows| - 1]] else [])
  }

  /** The rows of user `u` in session `s`: what the delete endpoint selects and deletes. */
  function Matching(rows: seq<Row>, u: string, s: string): seq<Row> {
    if rows == [] then []
    else
      var last := rows[|rows| - 1];
      Matching(rows[..|rows| - 1], u, s) + (if last.userId == u && last.sessionId == s then [last] else [])
  }

  /** Every row that is not of user `u` in session `s`. */
  function Unmatched(rows: seq<Row>, u: string, s: string): seq<Row> {
    if rows == [] then []
    else
      var last := rows[|rows| - 1];
      Unmatched(rows[..|rows| - 1], u, s) + (if last.userId == u && last.sessionId == s then [] else [last])
  }

  lemma BytesSnoc(rows: seq<Row>, r: Row)
    ensures Bytes(rows + [r]) == Bytes(rows) + Text.Utf8Length(r.content)
  {
    assert (rows + [r])[..|rows|] == rows;
  }

  lemma OfUserSnoc(rows: seq<Row>, r: Row, u: string)
    ensures OfUser(rows + [r], u) == OfUser(rows, u) + (if r.userId == u then [r] else [])
  {
    assert (rows + [r])[..|rows|] == rows;
  }

  lemma BySessionSnoc(rows: seq<Row>, r: Row, s: string)
    ensures BySession(rows + [r], s) == BySession(rows, s) + (if r.sessionId == s then [r] else [])
  {
    assert (rows + [r])[..|rows|] == rows;
  }

  /** Selecting on user and session at once is selecting the user's rows of that session. */
  lemma {:induction false} MatchingIsBySession(rows: seq<Row>, u: string, s: string)
    ensures Matching(rows, u, s) == BySession(OfUser(rows, u), s)
    decreases |rows|
  {
    if rows != [] {
      var init := rows[..|rows| - 1];
      var last := rows[|rows| - 1];
      assert rows == init + [last];
      MatchingIsBySession(init, u, s);
      OfUserSnoc(init, last, u);
      if last.userId == u {
        BySessionSnoc(OfUser(init, u), last, s);
      } else {
        assert OfUser(rows, u) == OfUser(init, u);
      }
    }
  }

  /**
   * Deleting a session splits a user's rows: the bytes of their remaining rows plus the bytes deleted are
   * their bytes before.
   */
  lemma {:induction false} UnmatchedAccounts(rows: seq<Row>, u: string, s: string)
    ensures Bytes(OfUser(rows, u)) == Bytes(OfUser(Unmatched(rows, u, s), u)) + Bytes(Matching(rows, u, s))
    decreases |rows|
  {
    if rows != [] {
      var init := rows[..|rows| - 1];
      var last := rows[|rows| - 1];
      assert rows == init + [last];
      UnmatchedAccounts(init, u, s);
      var un := Unmatched(init, u, s);
      var ou := OfUser(init, u);
      OfUserSnoc(init, last, u);
      if last.userId == u && last.sessionId == s {
        assert Unmatched(rows, u, s) == un + [] == un;
        assert OfUser(rows, u) == ou + [last];
        BytesSnoc(ou, last);
        BytesSnoc(Matching(init, u, s), last);
      } else if last.userId == u {
        assert Unmatched(rows, u, s) == un + [last];
        assert Matching(rows, u, s) == Matching(init, u, s) + [] == Matching(init, u, s);
        OfUserSnoc(un, last, u);
        BytesSnoc(ou, last);
        BytesSnoc(OfUser(un, u), last);
      } else {
        assert Unmatched(rows, u, s) == un + [last];
        assert Matching(rows, u, s) == Matching(init, u, s) + [] == Matching(init, u, s);
        assert OfUser(rows, u) == ou + [] == ou;
        OfUserSnoc(un, last, u);
        assert OfUser(un + [last], u) == OfUser(un, u) + [] == OfUser(un, u);
      }
    }
  }

  /** Deleting a session of user `u` leaves every other user's rows as they were. */
  lemma {:induction false} UnmatchedKeepsOthers(rows: seq<Row>, u: string, s: string, v: string)
    requires v != u
    ensures OfUser(Unmatched(rows, u, s), v) == OfUser(rows, v)
    decreases |rows|
  {
    if rows != [] {
      var init := rows[..|rows| - 1];
      var last := rows[|rows| - 1];
      assert rows == init + [last];
      UnmatchedKeepsOthers(init, u, s, v);
      var un := Unmatched(init, u, s);
      OfUserSnoc(init, last, v);
      if last.userId == u && last.sessionId == s {
        assert Unmatched(rows, u, s) == un + [] == un;
        assert OfUser(rows, v) == OfUser(init, v) + [] == OfUser(init, v);
      } else {
        assert Unmatched(rows, u, s) == un + [last];
        OfUserSnoc(un, last, v);
      }
    }
  }

  /** The sessions other than session `s` of user `u`. */
  function SessionsWithout(sessions: seq<Session>, u: string, s: string): (r: seq<Session>)
    ensures forall i :: 0 <= i < |r| ==> !(r[i].userId == u && r[i].id == s)
    ensures forall x :: x in sessions && !(x.userId == u && x.id == s) ==> x in r
    ensures forall x :: x in r ==> x in sessions
  {
    if sessions == [] then []
    else
      var rest := SessionsWithout(sessions[1..], u, s);
      assert forall x :: x in sessions ==> x == sessions[0] || x in sessions[1..];
      if sessions[0].userId == u && sessions[0].id == s then rest else [sessions[0]] + rest
  }

  /** The sessions of user `u`, in order. */
  function SessionsOf(sessions: seq<Session>, u: string): (r: seq<Session>)
    ensures forall i :: 0 <= i < |r| ==> r[i].userId == u
    ensures forall x :: x in sessions && x.userId == u <==> x in r
  {
    if sessions == [] then []
    else
      var rest := SessionsOf(sessions[1..], u);
      assert forall x :: x in sessions ==> x == sessions[0] || x in sessions[1..];
      if sessions[0].userId == u then [sessions[0]] + rest else rest
  }

  /**
   * The usage table after the endpoints' unchecked write of `value` for user `u`. `found` says whether the
   * usage select returned `u`'s row: then the row is updated; otherwise a row is inserted, which conflicts
   * with a row the select failed to return (the table holds one row per user). `written` says whether the
   * database accepted the write; the endpoints never look.
   */
  function Upsert(usage: map<string, nat>, u: string, found: bool, value: nat, written: bool): (r: map<string, nat>)
    ensures forall v :: v != u ==> (v in r <==> v in usage) && (v in usage ==> r[v] == usage[v])
    ensures written && (found || u !in usage) ==> u in r && r[u] == value
    ensures !written || (!found && u in usage) ==> r == usage
  {
    if written && (found || u !in usage) then usage[u := value] else usage
  }

  /** The history tables. */
  class Store {
    var sessions: seq<Session>
    var rows: seq<Row>
    /** `user_usage.total_bytes` by user id. */
    var usage: map<string, nat>

    constructor ()
      ensures sessions == [] && rows == [] && usage == map[]
    {
      sessions, rows, usage := [], [], map[];
    }

    /** `usageRow?.total_bytes || 0`. */
    function UsageOf(u: string): nat
      reads this
    {
      if u in usage then usage[u] else 0
    }

    /** The unchecked `user_usage` update (when the row was `found`) or insert of `value` for `u`. */
    method WriteUsage(u: string, found: bool, value: nat, written: bool)
      modifies this
      ensures usage == Upsert(old(usage), u, found, value, written)
      ensures sessions == old(sessions) && rows == old(rows)
    {
      usage := Upsert(usage, u, found, value, written);
    }

    /** The stored usage of `u` is the byte size of `u`'s rows. */
    predicate Accounted(u: string)
      reads this
    {
      UsageOf(u) == Bytes(OfUser(rows, u))
    }
  }
}
