/** db/sqlite.py: the `message_map` table that maps a source message
    `(src_channel, src_ts)` to the bot's threaded reply `(dst_channel, dst_ts)`.
    Only the table's map semantics are modelled: the primary key on the source
    pair, SELECT by key, INSERT and DELETE by key, and `CREATE TABLE IF NOT
    EXISTS`. A statement run before the table exists raises
    `sqlite3.OperationalError`. */
module Sqlite {
  import opened Common

  /** A message, identified by its channel and its opaque Slack timestamp. */
  datatype MessageKey = MessageKey(channel: string, ts: string)

  /** The database file: whether `message_map` exists, and its rows, keyed by
      the primary key `(src_channel, src_ts)`. */
  datatype Table = Table(created: bool, rows: map<MessageKey, MessageKey>)

  /** The outcome of a write and the table after it. */
  datatype Write = Write(outcome: Outcome, table: Table)

  const NoSuchTable := OperationalError("no such table: message_map")
  const DuplicateKey := IntegrityError("UNIQUE constraint failed: message_map.src_channel, message_map.src_ts")

  /** A database file in which `initialize` has not run yet. */
  const EmptyFile := Table(false, map[])

  /** `initialize`: CREATE TABLE IF NOT EXISTS. */
  function Initialized(t: Table): (r: Table)
    ensures r.created
    ensures t.created ==> r == t
    ensures !t.created ==> r.rows == map[]
  {
    if t.created then t else Table(true, map[])
  }

  /** SELECT dst_channel, dst_ts ... WHERE src_channel = ? AND src_ts = ?:
      the row of the key, `None` when there is none. */
  function Select(t: Table, src: MessageKey): (r: Result<Option<MessageKey>>)
    ensures r.Success? <==> t.created
    ensures !t.created ==> r == Failure(NoSuchTable)
    ensures r.Success? ==> (r.value.Some? <==> src in t.rows)
    ensures r.Success? && r.value.Some? ==> r.value.value == t.rows[src]
  {
    if !t.created then Failure(NoSuchTable)
    else if src in t.rows then Success(Some(t.rows[src]))
    else Success(None)
  }

  /** INSERT INTO message_map ...: refused on a key already present. */
  function Insert(t: Table, src: MessageKey, dst: MessageKey): (w: Write)
    ensures w.outcome.Pass? <==> t.created && src !in t.rows
    ensures !t.created ==> w.outcome == Fail(NoSuchTable)
    ensures t.created && src in t.rows ==> w.outcome == Fail(DuplicateKey)
    ensures w.outcome.Fail? ==> w.table == t
    ensures w.outcome.Pass? ==> w.table.created && w.table.rows.Keys == t.rows.Keys + {src}
    ensures w.outcome.Pass? ==> w.table.rows[src] == dst
    ensures w.outcome.Pass? ==> forall k :: k in t.rows ==> w.table.rows[k] == t.rows[k]
  {
    if !t.created then Write(Fail(NoSuchTable), t)
    else if src in t.rows then Write(Fail(DuplicateKey), t)
    else Write(Pass, Table(true, t.rows[src := dst]))
  }

  /** DELETE FROM message_map WHERE ...: deleting no row is not an error. */
  function Remove(t: Table, src: MessageKey): (w: Write)
    ensures w.outcome.Pass? <==> t.created
    ensures !t.created ==> w == Write(Fail(NoSuchTable), t)
    ensures w.table.created == t.created
    ensures t.created ==> w.table.rows.Keys == t.rows.Keys - {src}
    ensures forall k :: k in w.table.rows ==> k in t.rows && w.table.rows[k] == t.rows[k]
  {
    if !t.created then Write(Fail(NoSuchTable), t)
    else Write(Pass, Table(true, t.rows - {src}))
  }

  /** The database behind `SQLiteDatabase`: the contents of translation.db.
      Each method runs one statement and commits it. In the source,
      `initialize` is a module-level function beside the class, not a method
      of it; both open the same file, so here it is the method `Initialize`
      on the object that holds that file's state. */
  class SQLiteDatabase {
    var hasTable: bool
    var rows: map<MessageKey, MessageKey>

    function State(): Table
      reads this
    {
      Table(hasTable, rows)
    }

    /** `SQLiteDatabase()` has no constructor of its own and does not touch
        the file: the object sees translation.db as it already is, a table
        and rows left by an earlier run included. */
    constructor (file: Table)
      ensures State() == file
    {
      hasTable, rows := file.created, file.rows;
    }

    method Initialize()
      modifies this
      ensures State() == Initialized(old(State()))
      ensures hasTable && (old(hasTable) ==> rows == old(rows))
    {
      if !hasTable {
        hasTable, rows := true, map[];
      }
    }

    method GetTranslatedMessageReference(srcChannel: string, srcTs: string)
      returns (r: Result<Option<MessageKey>>)
      ensures r == Select(State(), MessageKey(srcChannel, srcTs))
      ensures r.Success? <==> hasTable
      ensures r.Success? ==> (r.value.Some? <==> MessageKey(srcChannel, srcTs) in rows)
      ensures r.Success? && r.value.Some? ==> r.value.value == rows[MessageKey(srcChannel, srcTs)]
    {
      var src := MessageKey(srcChannel, srcTs);
      if !hasTable {
        r := Failure(NoSuchTable);
      } else if src in rows {
        r := Success(Some(rows[src]));
      } else {
        r := Success(None);
      }
    }

    method SaveTranslatedMessageReference(srcChannel: string, srcTs: string, dstChannel: string, dstTs: string)
      returns (r: Outcome)
      modifies this
      ensures Write(r, State()) == Insert(old(State()), MessageKey(srcChannel, srcTs), MessageKey(dstChannel, dstTs))
      ensures r.Pass? <==> old(hasTable) && MessageKey(srcChannel, srcTs) !in old(rows)
      ensures r.Fail? ==> rows == old(rows)
    {
      var src := MessageKey(srcChannel, srcTs);
      if !hasTable {
        r := Fail(NoSuchTable);
      } else if src in rows {
        r := Fail(DuplicateKey);
      } else {
        rows := rows[src := MessageKey(dstChannel, dstTs)];
        r := Pass;
      }
    }

    method DeleteTranslatedMessageReference(srcChannel: string, srcTs: string)
      returns (r: Outcome)
      modifies this
      ensures Write(r, State()) == Remove(old(State()), MessageKey(srcChannel, srcTs))
      ensures r.Pass? <==> old(hasTable)
      ensures rows == old(rows) - {MessageKey(srcChannel, srcTs)} || r.Fail?
    {
      if !hasTable {
        r := Fail(NoSuchTable);
      } else {
        rows := rows - {MessageKey(srcChannel, srcTs)};
        r := Pass;
      }
    }
  }

  /** `initialize` starts from an empty table and running it again changes nothing. */
  lemma InitializeIdempotent(t: Table)
    ensures Initialized(Initialized(t)) == Initialized(t)
    ensures Initialized(EmptyFile).rows == map[]
    ensures Initialized(t).created
  {
  }

  /** A saved reference is found by a later lookup. */
  lemma SaveThenGet(t: Table, src: MessageKey, dst: MessageKey)
    requires t.created && src !in t.rows
    ensures Insert(t, src, dst).outcome == Pass
    ensures Select(Insert(t, src, dst).table, src) == Success(Some(dst))
  {
  }

  /** A second save of the same source key is refused and changes nothing. */
  lemma DuplicateSaveFails(t: Table, src: MessageKey, dst: MessageKey, dst': MessageKey)
    requires t.created
    ensures var w := Insert(Insert(t, src, dst).table, src, dst');
      w.outcome == Fail(DuplicateKey) && w.table == Insert(t, src, dst).table
  {
  }

  /** After a delete, the key is not found, and deleting again is no error. */
  lemma DeleteThenGet(t: Table, src: MessageKey)
    requires t.created
    ensures Select(Remove(t, src).table, src) == Success(None)
    ensures Remove(Remove(t, src).table, src) == Remove(t, src)
  {
  }

  /** Save and delete touch only the row of their own source key. */
  lemma WritesAreLocal(t: Table, src: MessageKey, dst: MessageKey, other: MessageKey)
    requires other != src
    ensures Select(Insert(t, src, dst).table, other) == Select(t, other)
    ensures Select(Remove(t, src).table, other) == Select(t, other)
  {
  }

  /** A call that writes the table: `save_translated_message_reference` or
      `delete_translated_message_reference`. */
  datatype Op = Save(src: MessageKey, dst: MessageKey) | Del(src: MessageKey)

  /** The table after a history of writes, in order; a refused write leaves
      the table as it was. */
  function Apply(t: Table, ops: seq<Op>): (r: Table)
    decreases |ops|
  {
    if ops == [] then t
    else
      var next := match ops[0]
        case Save(src, dst) => Insert(t, src, dst).table
        case Del(src) => Remove(t, src).table;
      Apply(next, ops[1..])
  }

  /** A key that no write of a history names is not found after it: for a
      fresh file, a key never saved is never found. */
  lemma {:induction false} NeverSavedNotFound(t: Table, ops: seq<Op>, k: MessageKey)
    requires t.created && k !in t.rows
    requires forall i :: 0 <= i < |ops| ==> ops[i].src != k
    ensures Select(Apply(t, ops), k) == Success(None)
    decreases |ops|
  {
    if ops != [] {
      var next := match ops[0]
        case Save(src, dst) => Insert(t, src, dst).table
        case Del(src) => Remove(t, src).table;
      if ops[0].Save? {
        WritesAreLocal(t, ops[0].src, ops[0].dst, k);
      } else {
        WritesAreLocal(t, ops[0].src, k, k);
      }
      assert next.created && k !in next.rows;
      assert forall i :: 0 <= i < |ops[1..]| ==> ops[1..][i].src != k by {
        forall i | 0 <= i < |ops[1..]| ensures ops[1..][i].src != k {
          assert ops[1..][i] == ops[i + 1];
        }
      }
      NeverSavedNotFound(next, ops[1..], k);
    }
  }
}
