/**
 * A stand-in for the Dexie table `db.memories` of src/lib/db.ts: a map from primary key to
 * record, whose adds run the `creating` hook and whose writes over a stored record run the
 * `updating` hook of DbHooks. No `deleting` hook is registered.
 */
module Db {
  import opened Wrappers
  import opened Types
  import opened DbHooks

  /** Every record is stored under its own id (the table's inbound primary key). */
  ghost predicate Keyed(rows: map<string, Memory>)
  {
    forall k :: k in rows ==> rows[k].id == k
  }

  /** The version a record ends with when `written` is written over a stored `stored`: the same value is bumped. */
  function Stamped(stored: int, written: int): int
  {
    if written == stored then stored + 1 else written
  }

  /**
   * A write of the whole object m over a stored record. Dexie runs `update` and `put` on a
   * stored key as such a write and hands the updating hook the fields that differ from the
   * stored record; a version equal to the stored one is not among them, so the hook adds
   * stored + 1. The hook hands every other changed field back as it is, so only the version
   * is passed to it here.
   */
  function Rewrite(stored: Memory, m: Memory): Memory
  {
    var changes := NO_CHANGES.(version := if m.version != stored.version then Some(m.version) else None);
    ApplyPatch(m, Updating(changes, stored))
  }

  /**
   * Whether `update` finds anything to write: Dexie compares each modified field with the
   * stored one by `!==`. A list in the modifications is never the stored array, so it always
   * counts; any other field counts when it differs.
   */
  predicate Modifies(stored: Memory, mods: Patch)
  {
    || mods.connections.Some?
    || mods.tags.Some?
    || (mods.mtype.Some? && mods.mtype.value != stored.mtype)
    || (mods.content.Some? && mods.content.value != stored.content)
    || (mods.energy.Some? && mods.energy.value != stored.energy)
    || (mods.resonance.Some? && mods.resonance.value != stored.resonance)
    || (mods.timestamp.Some? && mods.timestamp.value != stored.timestamp)
    || (mods.version.Some? && mods.version.value != stored.version)
    || (mods.lastAccessed.Some? && mods.lastAccessed != stored.lastAccessed)
    || (mods.accessCount.Some? && mods.accessCount != stored.accessCount)
  }

  /**
   * `table.update(id, mods)`: when the modifications change the stored record, they are
   * merged into it and the result is written over it; otherwise, and for absent ids,
   * nothing is written.
   */
  function UpdateRows(rows: map<string, Memory>, id: string, mods: Patch): map<string, Memory>
  {
    if id in rows && Modifies(rows[id], mods) then rows[id := Rewrite(rows[id], ApplyPatch(rows[id], mods))] else rows
  }

  /** `table.put(m)`: a new key goes through the creating hook, a stored one is written over. */
  function PutRows(rows: map<string, Memory>, m: Memory, now: int): map<string, Memory>
  {
    if m.id in rows then rows[m.id := Rewrite(rows[m.id], m)] else rows[m.id := Creating(m, now)]
  }

  /** A write keeps every field of the object but the version, which is stamped. */
  lemma RewriteSpec(stored: Memory, m: Memory)
    ensures Rewrite(stored, m) == m.(version := Stamped(stored.version, m.version))
    ensures Rewrite(stored, m).version != stored.version
  {
  }

  /**
   * An update touches only its own key and keeps records under their own ids. It leaves the
   * table as it was exactly when the id is absent or the modifications change nothing; then
   * merging them would give back the stored record. Otherwise the stored record takes the
   * modified fields, and its version becomes the one the modifications carry when that
   * differs from the stored one, otherwise stored + 1.
   */
  lemma UpdateRowsSpec(rows: map<string, Memory>, id: string, mods: Patch)
    ensures UpdateRows(rows, id, mods).Keys == rows.Keys
    ensures forall k :: k in rows && k != id ==> UpdateRows(rows, id, mods)[k] == rows[k]
    ensures UpdateRows(rows, id, mods) == rows <==> id !in rows || !Modifies(rows[id], mods)
    ensures id in rows && !Modifies(rows[id], mods) ==> ApplyPatch(rows[id], mods) == rows[id]
    ensures id in rows && Modifies(rows[id], mods) ==>
      UpdateRows(rows, id, mods)[id]
        == ApplyPatch(rows[id], mods).(version := Stamped(rows[id].version, Pick(mods.version, rows[id].version)))
    ensures id in rows && Modifies(rows[id], mods) ==>
      UpdateRows(rows, id, mods)[id].version
        == (if mods.version.Some? && mods.version.value != rows[id].version then mods.version.value
            else rows[id].version + 1)
    ensures Keyed(rows) ==> Keyed(UpdateRows(rows, id, mods))
  {
    if id in rows {
      RewriteSpec(rows[id], ApplyPatch(rows[id], mods));
      if Modifies(rows[id], mods) {
        assert UpdateRows(rows, id, mods)[id].version != rows[id].version;
      }
    }
  }

  /** A put stores the object under its id and leaves every other key alone. */
  lemma PutRowsSpec(rows: map<string, Memory>, m: Memory, now: int)
    ensures PutRows(rows, m, now).Keys == rows.Keys + {m.id}
    ensures forall k :: k in rows && k != m.id ==> PutRows(rows, m, now)[k] == rows[k]
    ensures Keyed(rows) ==> Keyed(PutRows(rows, m, now))
    ensures m.id in rows ==> PutRows(rows, m, now)[m.id] == m.(version := Stamped(rows[m.id].version, m.version))
    ensures m.id in rows && m.version == rows[m.id].version ==>
      PutRows(rows, m, now)[m.id] == m.(version := m.version + 1)
  {
    if m.id in rows {
      RewriteSpec(rows[m.id], m);
    }
  }

  class Table {
    var rows: map<string, Memory>

    constructor ()
      ensures rows == map[]
    {
      rows := map[];
    }

    /** `table.get(id)`. */
    method Get(id: string) returns (r: Option<Memory>)
      ensures r == if id in rows then Some(rows[id]) else None
    {
      if id in rows {
        r := Some(rows[id]);
      } else {
        r := None;
      }
    }

    /** `table.add(m)`: rejects a key that is already stored; otherwise stores the hooked object. */
    method Add(m: Memory, now: int) returns (r: Outcome<Error>)
      modifies this
      ensures m.id in old(rows) ==> r == Fail(KeyExists) && rows == old(rows)
      ensures m.id !in old(rows) ==> r == Pass && rows == old(rows)[m.id := Creating(m, now)]
    {
      if m.id in rows {
        r := Fail(KeyExists);
      } else {
        rows := rows[m.id := Creating(m, now)];
        r := Pass;
      }
    }

    method Update(id: string, mods: Patch)
      modifies this
      ensures rows == UpdateRows(old(rows), id, mods)
    {
      if id in rows && Modifies(rows[id], mods) {
        var stored := rows[id];
        rows := rows[id := Rewrite(stored, ApplyPatch(stored, mods))];
      }
    }

    method Put(m: Memory, now: int)
      modifies this
      ensures rows == PutRows(old(rows), m, now)
    {
      if m.id in rows {
        rows := rows[m.id := Rewrite(rows[m.id], m)];
      } else {
        rows := rows[m.id := Creating(m, now)];
      }
    }

    /** `table.delete(id)`: no hook vetoes it; an absent id is a no-op. */
    method Delete(id: string)
      modifies this
      ensures rows == old(rows) - {id}
    {
      if id in rows {
        rows := rows - {id};
      }
    }
  }
}
