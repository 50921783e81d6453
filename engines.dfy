/**
 * The MessageStore interface (pkg/message/messageStore.go) over its two
 * implementations. A store is one of the two engines; each operation
 * dispatches to it and promises, in terms of the messages a reader sees, what
 * every caller of the interface may rely on. Update dispatches to the
 * corrected database update (SQLiteStore.CheckedUpdate), not the one as
 * written. A healthy engine is the map, or a database whose driver answers
 * every call; for it the contracts fix each outcome.
 */
module Engines {
  import opened Models
  import opened MessageStore
  import MemoryEngine
  import SQLiteEngine

  datatype Engine = InMemory(mem: MemoryEngine.MemoryMessageStore) | Relational(db: SQLiteEngine.SQLiteStore)
  {
    /** The objects the engine's state lives in. */
    function Repr(): set<object> {
      if InMemory? then {mem} else {db}
    }

    /** The messages a reader sees: the map itself, or the message rows with their header rows. */
    function View(): map<string, Message>
      reads Repr()
    {
      match this
      case InMemory(mem) => mem.messages
      case Relational(db) => SQLiteEngine.View(db.State())
    }

    /** The database keeps every header row attached to a message row; the map always does. */
    /** The map has no driver; a database is healthy when its driver is. */
    predicate Healthy() {
      InMemory? || db.healthy
    }

    ghost predicate Consistent()
      reads Repr()
    {
      Relational? ==> SQLiteEngine.NoOrphans(db.State())
    }
  }

  /**
   * Add: on success `id` reads back as `message` and no other id changes; on
   * failure nothing changes. The map overwrites and never fails; the
   * database refuses an id it already has.
   */
  method Add(e: Engine, id: string, message: Message) returns (r: Outcome)
    modifies e.Repr()
    ensures r.Pass? ==> id in e.View()
    ensures r.Pass? && old(e.Consistent()) ==> Matches(e.View()[id], message)
    ensures r.Pass? ==> e.View() - {id} == old(e.View()) - {id}
    ensures r.Fail? ==> e.View() == old(e.View()) && r.error == StorageFailure
    ensures old(e.Consistent()) ==> e.Consistent()
    ensures e.InMemory? ==> r == Pass && e.View()[id] == message
    ensures e.Relational? && id in old(e.View()) ==> r.Fail?
    ensures e.Relational? && e.db.healthy ==>
              r == if SQLiteEngine.AddConflicts(old(e.db.State()), id, message) then Fail(StorageFailure) else Pass
  {
    match e
    case InMemory(mem) =>
      r := mem.Add(id, message);
    case Relational(db) =>
      ghost var t := db.State();
      r := db.Add(id, message);
      if r.Pass? {
        SQLiteEngine.AddView(t, id, message);
        if SQLiteEngine.NoOrphans(t) {
          SQLiteEngine.AddThenGet(t, id, message);
          SQLiteEngine.AddKeepsNoOrphans(t, id, message);
        }
      }
  }

  /** Get: the message a reader sees under `id`, or NotFound exactly when there is none. */
  method Get(e: Engine, id: string) returns (r: Result<Message>)
    ensures r.Ok? ==> id in e.View() && r.value == e.View()[id]
    ensures id !in e.View() ==> r.Err?
    ensures r == Err(NotFound) ==> id !in e.View()
    ensures e.InMemory? ==> (r.Ok? <==> id in e.View()) && (r.Err? ==> r.error == NotFound)
    ensures e.Healthy() ==> r == if id in e.View() then Ok(e.View()[id]) else Err(NotFound)
  {
    match e
    case InMemory(mem) =>
      r := mem.Get(id);
    case Relational(db) =>
      r := db.Get(id);
  }

  /**
   * Update, with the existence check of the map engine on both engines: NotFound
   * when `id` is not stored; on success `id` reads as `message` and no other
   * id changes.
   */
  method Update(e: Engine, id: string, message: Message) returns (r: Outcome)
    modifies e.Repr()
    ensures r == Fail(NotFound) ==> id !in old(e.View())
    ensures id !in old(e.View()) ==> r.Fail?
    ensures r.Pass? ==> id in e.View() && Matches(e.View()[id], message)
    ensures r.Pass? ==> e.View() - {id} == old(e.View()) - {id}
    ensures r.Fail? ==> e.View() == old(e.View())
    ensures old(e.Consistent()) ==> e.Consistent()
    ensures e.InMemory? ==> r == (if id in old(e.View()) then Pass else Fail(NotFound))
    ensures e.Healthy() ==> r == if id in old(e.View()) then Pass else Fail(NotFound)
  {
    match e
    case InMemory(mem) =>
      r := mem.Update(id, message);
    case Relational(db) =>
      ghost var t := db.State();
      r := db.CheckedUpdate(id, message);
      if r.Pass? {
        SQLiteEngine.CheckedUpdateIsSound(t, id, message);
      }
  }

  /**
   * Remove: on success `id` is gone and nothing else changes; on failure
   * nothing changes. Only the map reports an absent id.
   */
  method Remove(e: Engine, id: string) returns (r: Outcome)
    modifies e.Repr()
    ensures r.Pass? ==> e.View() == old(e.View()) - {id}
    ensures r.Fail? ==> e.View() == old(e.View())
    ensures r == Fail(NotFound) ==> id !in old(e.View())
    ensures old(e.Consistent()) ==> e.Consistent()
    ensures e.InMemory? ==> r == (if id in old(e.View()) then Pass else Fail(NotFound))
    ensures e.Healthy() ==> r == if e.Relational? || id in old(e.View()) then Pass else Fail(NotFound)
  {
    match e
    case InMemory(mem) =>
      r := mem.Remove(id);
    case Relational(db) =>
      ghost var t := db.State();
      r := db.Remove(id);
      if r.Pass? {
        SQLiteEngine.RemoveView(t, id);
        if SQLiteEngine.NoOrphans(t) {
          SQLiteEngine.RemoveKeepsNoOrphans(t, id);
        }
      }
  }

  /** List: every message a reader sees; only the database can fail. */
  method List(e: Engine) returns (r: Result<map<string, Message>>)
    ensures r.Ok? ==> r.value == e.View()
    ensures r.Err? ==> r.error == StorageFailure
    ensures e.InMemory? ==> r.Ok?
    ensures e.Healthy() ==> r.Ok?
  {
    match e
    case InMemory(mem) =>
      r := mem.List();
    case Relational(db) =>
      r := db.List();
  }
}
