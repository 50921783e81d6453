/**
 * The relational engine (pkg/message/sqliteMessageStore.go), with the
 * database reduced to its two tables:
 *   messages        (id PRIMARY KEY, content)
 *   message_headers (message_id, key, value, PRIMARY KEY (message_id, key))
 * The header table is held curried, message_id -> key -> value: the row
 * (i, k, v) exists exactly when k maps to v under i, so the composite primary
 * key comes with the type. Foreign keys are not enforced (SQLite leaves them
 * off unless a pragma turns them on), so a header row may name a message that
 * has no row: an orphan.
 */
module SQLiteEngine {
  import opened Models
  import opened MessageStore

  type HeaderTable = map<string, map<string, string>>

  datatype Tables = Tables(messages: map<string, string>, headers: HeaderTable)

  /** The header rows of message `id`, keyed by header key. */
  function RowsOf(h: HeaderTable, id: string): map<string, string> {
    if id in h then h[id] else map[]
  }

  /** The message Get assembles for a row `id`: a non-nil map of its header rows. */
  function Assemble(t: Tables, id: string): Message
    requires id in t.messages
  {
    Message(id, t.messages[id], Some(RowsOf(t.headers, id)))
  }

  /** What List returns: every message row with its header rows; orphans are not seen. */
  function View(t: Tables): map<string, Message> {
    map id | id in t.messages :: Assemble(t, id)
  }

  /** Every header row belongs to a message row. */
  ghost predicate NoOrphans(t: Tables) {
    forall id :: id in t.headers && t.headers[id] != map[] ==> id in t.messages
  }

  /** An INSERT of Add would violate a primary key. */
  predicate AddConflicts(t: Tables, id: string, m: Message) {
    id in t.messages || exists k :: k in m.HeaderMap() && k in RowsOf(t.headers, id)
  }

  /** The tables after a committed Add: one message row and one row per header. */
  function AddRows(t: Tables, id: string, m: Message): Tables {
    Tables(t.messages[id := m.content],
           if m.HeaderMap() == map[] then t.headers
           else t.headers[id := RowsOf(t.headers, id) + m.HeaderMap()])
  }

  /**
   * The tables after a committed Update, as written: the UPDATE touches no row
   * when `id` has none, but the header rows of `id` are replaced regardless.
   */
  function UpdateRows(t: Tables, id: string, m: Message): Tables {
    Tables(if id in t.messages then t.messages[id := m.content] else t.messages,
           if m.HeaderMap() == map[] then t.headers - {id} else t.headers[id := m.HeaderMap()])
  }

  /** The tables after a committed Remove: no header row and no message row for `id`. */
  function RemoveRows(t: Tables, id: string): Tables {
    Tables(t.messages - {id}, t.headers - {id})
  }

  /**
   * Update with the existence check the in-memory engine makes: NotFound,
   * and a rollback, when the UPDATE statement affected no row.
   */
  function CheckedUpdateRows(t: Tables, id: string, m: Message): Result<Tables> {
    if id in t.messages then Ok(UpdateRows(t, id, m)) else Err(NotFound)
  }

  // ---------------------------------------------------------------------------
  // What each write does to the view readers get

  /**
   * A committed Add makes `id` read back with `m`'s content and with `m`'s
   * headers joined to any orphan rows already filed under `id`; no other id
   * changes.
   */
  lemma AddView(t: Tables, id: string, m: Message)
    ensures View(AddRows(t, id, m)) ==
            View(t)[id := Message(id, m.content, Some(RowsOf(t.headers, id) + m.HeaderMap()))]
  {
    if m.HeaderMap() == map[] {
      assert RowsOf(t.headers, id) + m.HeaderMap() == RowsOf(t.headers, id);
    }
  }

  /** Inserting the header rows one key at a time builds up `base + hdrs`. */
  lemma InsertStep(base: map<string, string>, hdrs: map<string, string>, pending: set<string>, k: string)
    requires k in pending && pending <= hdrs.Keys
    ensures base + (hdrs - (pending - {k})) ==
            (if pending == hdrs.Keys then base else base + (hdrs - pending))[k := hdrs[k]]
  {
  }

  /** Add round trip: with no orphans, Get after a committed Add reads `m` back. */
  lemma AddThenGet(t: Tables, id: string, m: Message)
    requires NoOrphans(t) && !AddConflicts(t, id, m)
    ensures id in View(AddRows(t, id, m))
    ensures View(AddRows(t, id, m))[id] == Message(id, m.content, Some(m.HeaderMap()))
    ensures Matches(View(AddRows(t, id, m))[id], m)
  {
    AddView(t, id, m);
    assert RowsOf(t.headers, id) + m.HeaderMap() == m.HeaderMap();
  }

  /** Add keeps every header row attached to a message row. */
  lemma AddKeepsNoOrphans(t: Tables, id: string, m: Message)
    requires NoOrphans(t)
    ensures NoOrphans(AddRows(t, id, m))
  {
  }

  /**
   * Update replaces content and the whole header set of a stored id (old keys
   * do not survive); on an id with no row no message appears or changes.
   */
  lemma UpdateView(t: Tables, id: string, m: Message)
    ensures View(UpdateRows(t, id, m)) ==
            if id in t.messages then View(t)[id := Message(id, m.content, Some(m.HeaderMap()))]
            else View(t)
  {
  }

  /** Remove drops exactly `id` from the view and leaves no header row under it. */
  lemma RemoveView(t: Tables, id: string)
    ensures View(RemoveRows(t, id)) == View(t) - {id}
    ensures RowsOf(RemoveRows(t, id).headers, id) == map[]
  {
  }

  /** Remove keeps every header row attached to a message row. */
  lemma RemoveKeepsNoOrphans(t: Tables, id: string)
    requires NoOrphans(t)
    ensures NoOrphans(RemoveRows(t, id))
  {
  }

  /** Update keeps every header row attached when `id` has a row or `m` has no headers. */
  lemma UpdateKeepsNoOrphans(t: Tables, id: string, m: Message)
    requires NoOrphans(t)
    requires id in t.messages || m.HeaderMap() == map[]
    ensures NoOrphans(UpdateRows(t, id, m))
  {
  }

  /**
   * As written, Update on an id with no row files its headers as orphans, and
   * a later Add under that id reads them back as its own headers.
   */
  lemma UpdateOfAbsentIdBreaksRoundTrip()
    ensures var t0 := Tables(map[], map[]);
            var t1 := UpdateRows(t0, "x", Message("x", "c", Some(map["a" := "1"])));
            var m := Message("x", "d", None);
            && NoOrphans(t0) && !NoOrphans(t1)
            && View(t1) == View(t0)
            && !AddConflicts(t1, "x", m)
            && View(AddRows(t1, "x", m))["x"].HeaderMap() == map["a" := "1"]
            && !Matches(View(AddRows(t1, "x", m))["x"], m)
  {
    var m1 := Message("x", "c", Some(map["a" := "1"]));
    assert "a" in m1.HeaderMap();
    var t1 := UpdateRows(Tables(map[], map[]), "x", m1);
    assert "a" in t1.headers["x"];
    var m := Message("x", "d", None);
    AddView(t1, "x", m);
    assert RowsOf(t1.headers, "x") + m.HeaderMap() == map["a" := "1"];
  }

  /** The corrected Update reports NotFound for an id with no row and never leaves an orphan. */
  lemma CheckedUpdateIsSound(t: Tables, id: string, m: Message)
    ensures CheckedUpdateRows(t, id, m).Err? <==> id !in t.messages
    ensures CheckedUpdateRows(t, id, m).Err? ==> CheckedUpdateRows(t, id, m).error == NotFound
    ensures CheckedUpdateRows(t, id, m).Ok? ==>
              var t' := CheckedUpdateRows(t, id, m).value;
              && (NoOrphans(t) ==> NoOrphans(t'))
              && View(t') == View(t)[id := Message(id, m.content, Some(m.HeaderMap()))]
  {
    if id in t.messages {
      if NoOrphans(t) {
        UpdateKeepsNoOrphans(t, id, m);
      }
      UpdateView(t, id, m);
    }
  }

  // ---------------------------------------------------------------------------
  // Scanning the header table row by row, as List does

  /** Every header row, as (message_id, key) pairs. */
  function AllRows(h: HeaderTable): set<(string, string)> {
    set id, k | id in h && k in h[id] :: (id, k)
  }

  /** The header table restricted to the rows already scanned: those not `pending`. */
  function Scanned(h: HeaderTable, pending: set<(string, string)>): HeaderTable {
    map id | id in h :: map k | k in h[id] && (id, k) !in pending :: h[id][k]
  }

  /** Scanning one more row adds that row and nothing else. */
  lemma ScannedStep(h: HeaderTable, pending: set<(string, string)>, p: (string, string))
    requires p in pending && p.0 in h && p.1 in h[p.0]
    ensures Scanned(h, pending - {p}) ==
            Scanned(h, pending)[p.0 := RowsOf(Scanned(h, pending), p.0)[p.1 := h[p.0][p.1]]]
  {
    var l := Scanned(h, pending - {p});
    var r := Scanned(h, pending)[p.0 := RowsOf(Scanned(h, pending), p.0)[p.1 := h[p.0][p.1]]];
    assert l.Keys == r.Keys;
    forall x | x in l ensures l[x] == r[x] {
      assert l[x].Keys == r[x].Keys;
    }
  }

  /** Scanning one more row is one header write into the listed message it names, if any. */
  lemma ViewStep(t: Tables, pending: set<(string, string)>, p: (string, string))
    requires p in pending && pending <= AllRows(t.headers)
    ensures var v := View(Tables(t.messages, Scanned(t.headers, pending)));
      (p.0 in v ==> v[p.0].headers.Some?) &&
      View(Tables(t.messages, Scanned(t.headers, pending - {p}))) ==
        if p.0 in v
        then v[p.0 := Message(v[p.0].id, v[p.0].content, Some(v[p.0].headers.value[p.1 := t.headers[p.0][p.1]]))]
        else v
  {
    ScannedStep(t.headers, pending, p);
  }

  /** With every row scanned, the restricted table reads like the whole one. */
  lemma ScannedAll(t: Tables)
    ensures View(Tables(t.messages, Scanned(t.headers, {}))) == View(t)
  {
    var h := t.headers;
    forall id | id in t.messages
      ensures RowsOf(Scanned(h, {}), id) == RowsOf(h, id)
    {
      if id in h {
        assert Scanned(h, {})[id].Keys == h[id].Keys;
      }
    }
  }

  /** With no row scanned, every message reads as having no headers. */
  lemma ScannedNoneYet(t: Tables)
    ensures View(Tables(t.messages, Scanned(t.headers, AllRows(t.headers)))) ==
            map id | id in t.messages :: Message(id, t.messages[id], Some(map[]))
  {
  }

  // ---------------------------------------------------------------------------
  // The engine

  /**
   * One call into the SQL driver (Begin, Exec, Query, Scan or Commit). It may
   * report an error for reasons the model does not see: I/O, locking, a
   * closed connection.
   */
  method DriverCall(healthy: bool) returns (ok: bool)
    ensures healthy ==> ok
  {
    if healthy {
      ok := true;
    } else {
      ok :| true;
    }
  }

  class SQLiteStore {
    var messages: map<string, string>
    var headers: HeaderTable

    function State(): Tables
      reads this
    {
      Tables(messages, headers)
    }

    /**
     * Whether the driver answers every call: when it does, only the data
     * (a primary-key clash, a missing row) decides an operation's outcome.
     */
    const healthy: bool

    /** A handle on a database whose two tables hold `t` (the schema already exists). */
    constructor (t: Tables, healthy: bool)
      ensures State() == t && this.healthy == healthy
    {
      messages, headers := t.messages, t.headers;
      this.healthy := healthy;
    }

    /**
     * Add: one transaction inserting the message row and one row per header.
     * A primary-key clash or any driver error rolls everything back.
     */
    method Add(id: string, message: Message) returns (r: Outcome)
      modifies this
      ensures r == Pass || r == Fail(StorageFailure)
      ensures r.Pass? ==> !AddConflicts(old(State()), id, message) && State() == AddRows(old(State()), id, message)
      ensures r.Fail? ==> State() == old(State())
      ensures healthy ==> r == if AddConflicts(old(State()), id, message) then Fail(StorageFailure) else Pass
    {
      var ok := DriverCall(healthy);  // Begin
      if !ok {
        return Fail(StorageFailure);
      }
      var msgs, rows := messages, headers;  // the transaction's view of the tables
      ok := DriverCall(healthy);  // INSERT INTO messages
      if !ok {
        return Fail(StorageFailure);
      }
      if id in msgs {  // primary key of messages
        return Fail(StorageFailure);
      }
      msgs := msgs[id := message.content];
      var hdrs := message.HeaderMap();
      var pending := hdrs.Keys;  // ranging over a nil map visits nothing
      while pending != {}
        invariant messages == old(messages) && headers == old(headers)
        invariant pending <= hdrs.Keys
        invariant rows == if pending == hdrs.Keys then headers
                          else headers[id := RowsOf(headers, id) + (hdrs - pending)]
        invariant forall k :: k in hdrs && k !in pending ==> k !in RowsOf(headers, id)
        decreases pending
      {
        var k :| k in pending;
        ok := DriverCall(healthy);  // INSERT INTO message_headers
        if !ok {
          return Fail(StorageFailure);
        }
        if k in RowsOf(rows, id) {  // primary key (message_id, key)
          assert k in hdrs && k in RowsOf(headers, id);
          return Fail(StorageFailure);
        }
        InsertStep(RowsOf(headers, id), hdrs, pending, k);
        rows := rows[id := RowsOf(rows, id)[k := hdrs[k]]];
        pending := pending - {k};
      }
      assert hdrs.Keys == {} ==> hdrs == map[];
      assert hdrs - {} == hdrs;
      ok := DriverCall(healthy);  // Commit
      if !ok {
        return Fail(StorageFailure);
      }
      messages, headers := msgs, rows;
      r := Pass;
    }

    /**
     * Get: without driver errors, NotFound when `id` has no message row and
     * otherwise its content and a non-nil map of exactly its header rows.
     */
    method Get(id: string) returns (r: Result<Message>)
      ensures r.Ok? ==> id in messages && r.value == Assemble(State(), id)
      ensures id !in messages ==> r.Err?
      ensures r == Err(NotFound) ==> id !in messages
      ensures healthy ==> r == if id in messages then Ok(Assemble(State(), id)) else Err(NotFound)
    {
      var ok := DriverCall(healthy);  // QueryRow + Scan
      if !ok {
        return Err(StorageFailure);
      }
      if id !in messages {  // sql.ErrNoRows
        return Err(NotFound);
      }
      var content := messages[id];
      var found: map<string, string> := map[];
      ok := DriverCall(healthy);  // Query
      if !ok {
        return Err(StorageFailure);
      }
      var rows := RowsOf(headers, id);
      var pending := rows.Keys;
      while pending != {}
        invariant pending <= rows.Keys
        invariant found == rows - pending
        decreases pending
      {
        var k :| k in pending;
        ok := DriverCall(healthy);  // Scan
        if !ok {
          return Err(StorageFailure);
        }
        found := found[k := rows[k]];
        pending := pending - {k};
        assert rows - pending == (rows - (pending + {k}))[k := rows[k]];
      }
      assert rows - {} == rows;
      r := Ok(Message(id, content, Some(found)));
    }

    /**
     * List: every message row with a non-nil header map of its rows; header
     * rows whose message has no row are skipped. It fails only on a driver error.
     */
    method List() returns (r: Result<map<string, Message>>)
      ensures r.Ok? ==> r.value == View(State())
      ensures r.Err? ==> r.error == StorageFailure
      ensures healthy ==> r.Ok?
    {
      var result: map<string, Message> := map[];
      var ok := DriverCall(healthy);  // SELECT id, content FROM messages
      if !ok {
        return Err(StorageFailure);
      }
      var ids := messages.Keys;
      while ids != {}
        invariant ids <= messages.Keys
        invariant result == map id | id in messages && id !in ids :: Message(id, messages[id], Some(map[]))
        decreases ids
      {
        var id :| id in ids;
        ok := DriverCall(healthy);  // Scan
        if !ok {
          return Err(StorageFailure);
        }
        result := result[id := Message(id, messages[id], Some(map[]))];
        ids := ids - {id};
      }
      ScannedNoneYet(State());
      ok := DriverCall(healthy);  // SELECT message_id, key, value FROM message_headers
      if !ok {
        return Err(StorageFailure);
      }
      var pending := AllRows(headers);
      while pending != {}
        invariant pending <= AllRows(headers)
        invariant result == View(Tables(messages, Scanned(headers, pending)))
        decreases pending
      {
        var p :| p in pending;
        ok := DriverCall(healthy);  // Scan
        if !ok {
          return Err(StorageFailure);
        }
        ViewStep(State(), pending, p);
        if p.0 in result {
          var msg := result[p.0];
          result := result[p.0 := Message(msg.id, msg.content, Some(msg.headers.value[p.1 := headers[p.0][p.1]]))];
        }
        pending := pending - {p};
      }
      ScannedAll(State());
      r := Ok(result);
    }

    /**
     * Update, as written: one transaction setting the content (no row is
     * created for an absent id), deleting every header row of `id` and
     * inserting the new ones. It never reports NotFound, and it succeeds
     * unless the driver fails.
     */
    method Update(id: string, message: Message) returns (r: Outcome)
      modifies this
      ensures r == Pass || r == Fail(StorageFailure)
      ensures r.Pass? ==> State() == UpdateRows(old(State()), id, message)
      ensures r.Fail? ==> State() == old(State())
      ensures healthy ==> r == Pass
    {
      var ok := DriverCall(healthy);  // Begin
      if !ok {
        return Fail(StorageFailure);
      }
      var msgs, rows := messages, headers;  // the transaction's view of the tables
      ok := DriverCall(healthy);  // UPDATE messages SET content = ? WHERE id = ?
      if !ok {
        return Fail(StorageFailure);
      }
      if id in msgs {
        msgs := msgs[id := message.content];
      }
      ok := DriverCall(healthy);  // DELETE FROM message_headers WHERE message_id = ?
      if !ok {
        return Fail(StorageFailure);
      }
      rows := rows - {id};
      var hdrs := message.HeaderMap();
      var pending := hdrs.Keys;
      while pending != {}
        invariant messages == old(messages) && headers == old(headers)
        invariant pending <= hdrs.Keys
        invariant rows == if pending == hdrs.Keys then headers - {id}
                          else headers[id := hdrs - pending]
        decreases pending
      {
        var k :| k in pending;
        ok := DriverCall(healthy);  // INSERT INTO message_headers
        if !ok {
          return Fail(StorageFailure);
        }
        // The DELETE above cleared the rows of `id`, so no insert clashes.
        assert RowsOf(rows, id) == hdrs - pending by {
          if pending == hdrs.Keys { assert hdrs - pending == map[]; }
        }
        rows := rows[id := RowsOf(rows, id)[k := hdrs[k]]];
        assert hdrs - (pending - {k}) == (hdrs - pending)[k := hdrs[k]];
        pending := pending - {k};
      }
      assert hdrs.Keys == {} ==> hdrs == map[];
      assert hdrs - {} == hdrs;
      ok := DriverCall(healthy);  // Commit
      if !ok {
        return Fail(StorageFailure);
      }
      messages, headers := msgs, rows;
      r := Pass;
    }

    /**
     * The corrected Update: NotFound, touching nothing, when `id` has no
     * message row; otherwise Update as written.
     */
    method CheckedUpdate(id: string, message: Message) returns (r: Outcome)
      modifies this
      ensures r == Fail(NotFound) ==> id !in old(messages)
      ensures id !in old(messages) ==> r.Fail?
      ensures r.Pass? ==> CheckedUpdateRows(old(State()), id, message) == Ok(State())
      ensures r.Fail? ==> State() == old(State())
      ensures healthy ==> r == if id in old(messages) then Pass else Fail(NotFound)
    {
      var ok := DriverCall(healthy);  // the row count of the UPDATE, or a query for the row
      if !ok {
        return Fail(StorageFailure);
      }
      if id !in messages {
        return Fail(NotFound);
      }
      r := Update(id, message);
    }

    /**
     * Remove: one transaction deleting the header rows of `id`, then its
     * message row. An absent id is not reported; it succeeds unless the
     * driver fails.
     */
    method Remove(id: string) returns (r: Outcome)
      modifies this
      ensures r == Pass || r == Fail(StorageFailure)
      ensures r.Pass? ==> State() == RemoveRows(old(State()), id)
      ensures r.Fail? ==> State() == old(State())
      ensures healthy ==> r == Pass
    {
      var ok := DriverCall(healthy);  // Begin
      if !ok {
        return Fail(StorageFailure);
      }
      ok := DriverCall(healthy);  // DELETE FROM message_headers WHERE message_id = ?
      if !ok {
        return Fail(StorageFailure);
      }
      var rows := headers - {id};
      ok := DriverCall(healthy);  // DELETE FROM messages WHERE id = ?
      if !ok {
        return Fail(StorageFailure);
      }
      var msgs := messages - {id};
      ok := DriverCall(healthy);  // Commit
      if !ok {
        return Fail(StorageFailure);
      }
      messages, headers := msgs, rows;
      r := Pass;
    }
  }
}
