/**
 * The history list endpoint: it checks the bearer token and the user, fetches the user's sessions and
 * message rows, adds up the UTF-8 bytes per session and in total in one pass over the rows, and lists the
 * sessions with their sizes. The user lookup and the database errors are inputs.
 */
module HistoryList {
  import opened Wrappers
  import Text
  import opened HistoryStore

  datatype Listed = Listed(id: string, title: string, sizeBytes: nat)

  datatype ListReply =
    | Unauthorized                                                 // 401
    | Failed(message: string)                                      // 400 with the database error
    | Listing(sessions: seq<Listed>, totalBytes: nat, limit: nat)  // 200

  /** The session ids of `rows`, each once, in order of first appearance. */
  function SessionIds(rows: seq<Row>): (r: seq<string>)
    ensures forall i, j :: 0 <= i < j < |r| ==> r[i] != r[j]
  {
    if rows == [] then []
    else
      var ids := SessionIds(rows[..|rows| - 1]);
      var s := rows[|rows| - 1].sessionId;
      if s in ids then ids else ids + [s]
  }

  /** The sessions listed are exactly those some row belongs to. */
  lemma {:induction false} SessionIdsMet(rows: seq<Row>, s: string)
    ensures s in SessionIds(rows) <==> exists i :: 0 <= i < |rows| && rows[i].sessionId == s
  {
    if rows != [] {
      var init := rows[..|rows| - 1];
      SessionIdsMet(init, s);
      assert forall i :: 0 <= i < |init| ==> init[i] == rows[i];
      if s in SessionIds(rows) && s != rows[|rows| - 1].sessionId {
        var i :| 0 <= i < |init| && init[i].sessionId == s;
        assert rows[i].sessionId == s;
      }
    }
  }

  /** The sum of `m`'s values at `keys`. */
  function SumOver(keys: seq<string>, m: map<string, nat>): nat
    requires forall k :: k in keys ==> k in m
  {
    if keys == [] then 0 else SumOver(keys[..|keys| - 1], m) + m[keys[|keys| - 1]]
  }

  /** Changing the value at `k` changes the sum over distinct keys by the difference, when `k` is one of them. */
  lemma {:induction false} SumOverUpdate(keys: seq<string>, m: map<string, nat>, k: string, v: nat)
    requires forall x :: x in keys ==> x in m
    requires forall i, j :: 0 <= i < j < |keys| ==> keys[i] != keys[j]
    requires k in m
    ensures SumOver(keys, m[k := v]) + (if k in keys then m[k] else 0) == SumOver(keys, m) + (if k in keys then v else 0)
    decreases |keys|
  {
    if keys != [] {
      var init := keys[..|keys| - 1];
      var last := keys[|keys| - 1];
      assert forall x :: x in keys <==> x in init || x == last;
      SumOverUpdate(init, m, k, v);
      if last == k {
        assert k !in init by {
          forall i | 0 <= i < |init| ensures init[i] != k {
            assert init[i] == keys[i];
          }
        }
      }
    }
  }

  /** `sizeBySession.get(id) || 0`. */
  function Size(sizes: map<string, nat>, s: string): nat {
    if s in sizes then sizes[s] else 0
  }

  /** What the loop has built after reading `rows`: the total, the size of every session, the sum of the sizes. */
  ghost predicate Aggregated(rows: seq<Row>, sizes: map<string, nat>, total: nat) {
    && total == Bytes(rows)
    && (forall s :: Size(sizes, s) == Bytes(BySession(rows, s)))
    && (forall s :: s in sizes <==> s in SessionIds(rows))
    && total == SumOver(SessionIds(rows), sizes)
  }

  /** The size map after one more row. */
  function Added(sizes: map<string, nat>, r: Row): map<string, nat> {
    sizes[r.sessionId := Size(sizes, r.sessionId) + Text.Utf8Length(r.content)]
  }

  lemma SizeStep(rows: seq<Row>, r: Row, sizes: map<string, nat>, s: string)
    requires Size(sizes, s) == Bytes(BySession(rows, s))
    ensures Size(Added(sizes, r), s) == Bytes(BySession(rows + [r], s))
  {
    BySessionSnoc(rows, r, s);
    if r.sessionId == s {
      BytesSnoc(BySession(rows, s), r);
    } else {
      assert BySession(rows + [r], s) == BySession(rows, s) + [] == BySession(rows, s);
    }
  }

  lemma KeysStep(rows: seq<Row>, r: Row, sizes: map<string, nat>)
    requires forall s :: s in sizes <==> s in SessionIds(rows)
    ensures forall s :: s in Added(sizes, r) <==> s in SessionIds(rows + [r])
  {
    var rs := rows + [r];
    assert rs[..|rs| - 1] == rows;
  }

  /** A row of a session met before adds its bytes to that session's entry of the sum. */
  lemma SumStepKnown(keys: seq<string>, sizes: map<string, nat>, r: Row)
    requires forall s :: s in keys ==> s in sizes
    requires forall i, j :: 0 <= i < j < |keys| ==> keys[i] != keys[j]
    requires r.sessionId in keys
    ensures forall s :: s in keys ==> s in Added(sizes, r)
    ensures SumOver(keys, Added(sizes, r)) == SumOver(keys, sizes) + Text.Utf8Length(r.content)
  {
    SumOverUpdate(keys, sizes, r.sessionId, sizes[r.sessionId] + Text.Utf8Length(r.content));
  }

  /** A row of a new session adds a new entry holding its bytes. */
  lemma SumStepFresh(keys: seq<string>, sizes: map<string, nat>, k: string, b: nat)
    requires forall s :: s in keys ==> s in sizes
    requires k !in keys && k !in sizes
    ensures forall s :: s in keys + [k] ==> s in sizes[k := Size(sizes, k) + b]
    ensures SumOver(keys + [k], sizes[k := Size(sizes, k) + b]) == SumOver(keys, sizes) + b
  {
    var ks := keys + [k];
    SumOverFresh(keys, sizes, k, b);
    assert ks[..|ks| - 1] == keys && ks[|ks| - 1] == k;
  }

  lemma SessionIdsKnown(rows: seq<Row>, r: Row, next: seq<Row>)
    requires next == rows + [r]
    requires r.sessionId in SessionIds(rows)
    ensures SessionIds(next) == SessionIds(rows)
  {
    assert next[..|next| - 1] == rows;
  }

  lemma SumStepOfFresh(rows: seq<Row>, r: Row, next: seq<Row>, sizes: map<string, nat>, total: nat)
    requires next == rows + [r]
    requires forall s :: s in SessionIds(rows) ==> s in sizes
    requires r.sessionId !in SessionIds(rows) && r.sessionId !in sizes
    requires total == SumOver(SessionIds(rows), sizes)
    ensures forall s :: s in SessionIds(next) ==> s in Added(sizes, r)
    ensures total + Text.Utf8Length(r.content) == SumOver(SessionIds(next), Added(sizes, r))
  {
    assert next[..|next| - 1] == rows;
    assert SessionIds(next) == SessionIds(rows) + [r.sessionId];
    SumStepFresh(SessionIds(rows), sizes, r.sessionId, Text.Utf8Length(r.content));
  }

  lemma AggregatedEmpty()
    ensures Aggregated([], map[], 0)
  {
  }

  /** One more row adds its bytes to the total and to its own session's size. */
  lemma AggregateStep(rows: seq<Row>, r: Row, next: seq<Row>, sizes: map<string, nat>, total: nat)
    requires next == rows + [r]
    requires Aggregated(rows, sizes, total)
    ensures Aggregated(next, Added(sizes, r), total + Text.Utf8Length(r.content))
  {
    BytesSnoc(rows, r);
    forall s ensures Size(Added(sizes, r), s) == Bytes(BySession(rows + [r], s)) {
      SizeStep(rows, r, sizes, s);
    }
    KeysStep(rows, r, sizes);
    if r.sessionId in SessionIds(rows) {
      SessionIdsKnown(rows, r, next);
      SumStepKnown(SessionIds(rows), sizes, r);
    } else {
      SumStepOfFresh(rows, r, next, sizes, total);
    }
  }

  lemma SnocPrefix(rows: seq<Row>, i: nat)
    requires i < |rows|
    ensures rows[..i + 1] == rows[..i] + [rows[i]]
  {
  }

  /**
   * The loop of lines 29-33: the total and the per-session sizes of `rows`, and the total is the sum of the
   * sizes over the sessions met.
   */
  method Aggregate(rows: seq<Row>) returns (sizes: map<string, nat>, total: nat)
    ensures Aggregated(rows, sizes, total)
  {
    sizes, total := map[], 0;
    var i := 0;
    assert rows[..0] == [];
    AggregatedEmpty();
    while i < |rows|
      invariant 0 <= i <= |rows|
      invariant Aggregated(rows[..i], sizes, total)
    {
      SnocPrefix(rows, i);
      AggregateStep(rows[..i], rows[i], rows[..i + 1], sizes, total);
      sizes := Added(sizes, rows[i]);
      total := total + Text.Utf8Length(rows[i].content);
      i := i + 1;
    }
    assert rows[..i] == rows;
  }

  /** A key outside `keys` does not affect the sum over them. */
  lemma {:induction false} SumOverFresh(keys: seq<string>, m: map<string, nat>, k: string, v: nat)
    requires forall x :: x in keys ==> x in m
    requires k !in keys
    ensures SumOver(keys, m[k := v]) == SumOver(keys, m)
    decreases |keys|
  {
    if keys != [] {
      var init := keys[..|keys| - 1];
      assert forall x :: x in init ==> x in keys;
      SumOverFresh(init, m, k, v);
    }
  }

  /** `GET`: `user` is what the authentication service returns for the token, the errors are the two queries'. */
  method List(db: Store, auth: string, user: Option<string>, sessionsError: Option<string>, rowsError: Option<string>)
    returns (reply: ListReply)
    ensures BearerToken(auth).None? || user.None? ==> reply == Unauthorized
    ensures BearerToken(auth).Some? && user.Some? && sessionsError.Some? ==> reply == Failed(sessionsError.value)
    ensures BearerToken(auth).Some? && user.Some? && sessionsError.None? && rowsError.Some? ==> reply == Failed(rowsError.value)
    ensures BearerToken(auth).Some? && user.Some? && sessionsError.None? && rowsError.None? ==>
      var u := user.value;
      var mine := SessionsOf(db.sessions, u);
      && reply.Listing?
      && |reply.sessions| == |mine|
      && (forall i :: 0 <= i < |mine| ==>
            && reply.sessions[i].id == mine[i].id && reply.sessions[i].title == mine[i].title
            && reply.sessions[i].sizeBytes == Bytes(BySession(OfUser(db.rows, u), mine[i].id))
            && reply.sessions[i].sizeBytes == Bytes(Matching(db.rows, u, mine[i].id)))
      && reply.totalBytes == Bytes(OfUser(db.rows, u))
      && reply.limit == QuotaBytes
      && (db.Accounted(u) ==> reply.totalBytes == db.UsageOf(u))
  {
    var token := BearerToken(auth);
    if token.None? || user.None? {
      return Unauthorized;
    }
    var u := user.value;
    if sessionsError.Some? {
      return Failed(sessionsError.value);
    }
    if rowsError.Some? {
      return Failed(rowsError.value);
    }
    var mine := SessionsOf(db.sessions, u);
    var sizes, total := Aggregate(OfUser(db.rows, u));
    var list := seq(|mine|, i requires 0 <= i < |mine| => Listed(mine[i].id, mine[i].title, Size(sizes, mine[i].id)));
    forall i | 0 <= i < |mine| ensures list[i].sizeBytes == Bytes(Matching(db.rows, u, mine[i].id)) {
      MatchingIsBySession(db.rows, u, mine[i].id);
    }
    reply := Listing(list, total, QuotaBytes);
  }
}
