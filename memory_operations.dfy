/**
 * The batch operations of src/lib/hooks/useMemoryOperations.ts: create through the store,
 * tag and delete many records, and export and import the whole table.
 */
module Operations {
  import opened Wrappers
  import opened Types
  import opened Counting
  import opened DbHooks
  import opened Db
  import opened Validation
  import opened Store

  type Records = map<string, Memory>

  // ---------------------------------------------------------------------------------------
  // Tags

  /** `[...new Set(xs)]`: each element once, at the position of its first occurrence. */
  function Dedup(xs: seq<string>): seq<string>
  {
    if xs == [] then []
    else
      var r := Dedup(xs[..|xs| - 1]);
      if xs[|xs| - 1] in r then r else r + [xs[|xs| - 1]]
  }

  /** Deduplication keeps exactly the elements of its input, each once. */
  lemma {:induction false} DedupSpec(xs: seq<string>)
    ensures forall x :: x in Dedup(xs) <==> x in xs
    ensures Distinct(Dedup(xs))
  {
    if xs != [] {
      var init := xs[..|xs| - 1];
      DedupSpec(init);
      assert xs == init + [xs[|xs| - 1]];
      if xs[|xs| - 1] !in Dedup(init) {
        DistinctSnoc(Dedup(init), xs[|xs| - 1]);
      }
    }
  }

  /** Appending elements never reorders what was kept already: first occurrences keep their places. */
  lemma {:induction false} DedupPrefix(xs: seq<string>, ys: seq<string>)
    ensures Dedup(xs) <= Dedup(xs + ys)
  {
    if ys == [] {
      assert xs + ys == xs;
    } else {
      var init := ys[..|ys| - 1];
      DedupPrefix(xs, init);
      assert (xs + ys)[..|xs + ys| - 1] == xs + init;
      assert Dedup(xs + init) <= Dedup(xs + ys);
    }
  }

  /** A list without repeats is its own deduplication. */
  lemma {:induction false} DedupDistinct(xs: seq<string>)
    requires Distinct(xs)
    ensures Dedup(xs) == xs
  {
    if xs != [] {
      var init := xs[..|xs| - 1];
      assert Distinct(init);
      DedupDistinct(init);
      assert xs == init + [xs[|xs| - 1]];
    }
  }

  /** The write `addTags` issues for one stored record: the union of its tags and the new ones. */
  function TagPatch(m: Memory, tags: seq<string>): Patch
  {
    NO_CHANGES.(tags := Some(Dedup(m.tags + tags)))
  }

  /** `addTags` for one id: a stored record gets the merged tags, through the updating hook. */
  function TagOne(rows: Records, id: string, tags: seq<string>): Records
  {
    if id in rows then UpdateRows(rows, id, TagPatch(rows[id], tags)) else rows
  }

  /** `addTags` over the ids, one after the other. */
  function TagAll(rows: Records, ids: seq<string>, tags: seq<string>): Records
  {
    if ids == [] then rows else TagOne(TagAll(rows, ids[..|ids| - 1], tags), ids[|ids| - 1], tags)
  }

  /** One `addTags` write: the listed stored record gets the merged tags and one more version; nothing else changes. */
  lemma TagOneKeys(rows: Records, id: string, tags: seq<string>)
    ensures TagOne(rows, id, tags).Keys == rows.Keys
  {
    if id in rows {
      UpdateRowsSpec(rows, id, TagPatch(rows[id], tags));
    }
  }

  lemma TagOneAt(rows: Records, id: string, tags: seq<string>, k: string)
    requires k in rows
    ensures k != id ==> TagOne(rows, id, tags)[k] == rows[k]
    ensures k == id ==>
      TagOne(rows, id, tags)[k] == rows[k].(tags := Dedup(rows[k].tags + tags), version := rows[k].version + 1)
  {
    if id in rows {
      UpdateRowsSpec(rows, id, TagPatch(rows[id], tags));
    }
  }

  /** `addTags` keeps the set of keys. */
  lemma {:induction false} TagAllKeys(rows: Records, ids: seq<string>, tags: seq<string>)
    ensures TagAll(rows, ids, tags).Keys == rows.Keys
  {
    if ids != [] {
      TagAllKeys(rows, ids[..|ids| - 1], tags);
      TagOneKeys(TagAll(rows, ids[..|ids| - 1], tags), ids[|ids| - 1], tags);
    }
  }

  /** What `addTags` does to one stored record. */
  lemma {:induction false} TagAllAt(rows: Records, ids: seq<string>, tags: seq<string>, k: string)
    requires k in rows
    ensures k in TagAll(rows, ids, tags)
    ensures forall x :: x in TagAll(rows, ids, tags)[k].tags <==> x in rows[k].tags || (k in ids && x in tags)
    ensures k in ids ==> Distinct(TagAll(rows, ids, tags)[k].tags)
    ensures TagAll(rows, ids, tags)[k] ==
      rows[k].(tags := TagAll(rows, ids, tags)[k].tags, version := rows[k].version + Occurrences(ids, k))
    ensures k !in ids ==> TagAll(rows, ids, tags)[k] == rows[k]
  {
    if ids != [] {
      var init := ids[..|ids| - 1];
      var last := ids[|ids| - 1];
      assert ids == init + [last];
      TagAllAt(rows, init, tags, k);
      var prev := TagAll(rows, init, tags);
      OccurrencesSnoc(init, last, k);
      TagOneAt(prev, last, tags, k);
      TagOneKeys(prev, last, tags);
      if k == last {
        DedupSpec(prev[k].tags + tags);
        forall x
          ensures x in Dedup(prev[k].tags + tags) <==> x in rows[k].tags || x in tags
        {
          assert x in prev[k].tags + tags <==> x in prev[k].tags || x in tags;
        }
      }
    }
  }

  /**
   * After `addTags` every listed stored record holds each of its old tags and each new tag,
   * once each, and has gained one version per time it was listed; the other fields, the
   * unlisted records and the set of keys are untouched.
   */
  lemma TagAllSpec(rows: Records, ids: seq<string>, tags: seq<string>)
    ensures var r := TagAll(rows, ids, tags);
      && r.Keys == rows.Keys
      && (forall k, x :: k in rows ==> (x in r[k].tags <==> x in rows[k].tags || (k in ids && x in tags)))
      && (forall k :: k in rows && k in ids ==> Distinct(r[k].tags))
      && (forall k :: k in rows ==>
            r[k] == rows[k].(tags := r[k].tags, version := rows[k].version + Occurrences(ids, k)))
      && (forall k :: k in rows && k !in ids ==> r[k] == rows[k])
  {
    TagAllKeys(rows, ids, tags);
    forall k | k in rows {
      TagAllAt(rows, ids, tags, k);
    }
  }

  // ---------------------------------------------------------------------------------------
  // Deletion

  /** The ids a list names. */
  function Listed(ids: seq<string>): set<string>
  {
    set i | i in ids
  }

  /** `deleteMemories`: the store's removal for each id, one after the other. */
  function RemoveAll(mems: Memories, ids: seq<string>): Memories
  {
    if ids == [] then mems else Remove(RemoveAll(mems, ids[..|ids| - 1]), ids[|ids| - 1])
  }

  /**
   * After `deleteMemories` no listed id is stored and every other key remains; on a
   * symmetric graph no remaining record lists a deleted id, and the graph stays symmetric.
   */
  lemma {:induction false} RemoveAllSpec(mems: Memories, ids: seq<string>)
    ensures RemoveAll(mems, ids).Keys == mems.Keys - Listed(ids)
    ensures Symmetric(mems) ==>
      && Symmetric(RemoveAll(mems, ids))
      && forall k, i :: k in RemoveAll(mems, ids) && i in ids ==> i !in RemoveAll(mems, ids)[k].connections
  {
    if ids != [] {
      var init := ids[..|ids| - 1];
      var last := ids[|ids| - 1];
      RemoveAllSpec(mems, init);
      assert ids == init + [last];
      var prev := RemoveAll(mems, init);
      if last in prev {
        RemoveSpec(prev, last);
      }
      if Symmetric(mems) {
        RemoveClearsReferences(prev, last);
        if last in prev {
          RemoveSpec(prev, last);
          var r := RemoveAll(mems, ids);
          forall k, i | k in r && i in ids ensures i !in r[k].connections {
            if i != last {
              assert i in init;
              assert r[k].connections == prev[k].connections || r[k].connections == Without(prev[k].connections, last);
            }
          }
        }
      }
    }
  }

  // ---------------------------------------------------------------------------------------
  // Export and import

  /** The object `exportMemories` returns. */
  datatype ExportData = ExportData(version: int, timestamp: int, memories: seq<Memory>)

  /** The export format this code writes and accepts. */
  const EXPORT_VERSION: int := 1

  /** No two records of the list share an id. */
  predicate DistinctIds(ms: seq<Memory>)
  {
    forall i, j :: 0 <= i < j < |ms| ==> ms[i].id != ms[j].id
  }

  /** The list holds exactly the table's records. */
  ghost predicate Enumerates(ms: seq<Memory>, rows: Records)
  {
    forall m :: m in ms <==> m in rows.Values
  }

  /** The export loop's progress: `ms` lists the records of the keys in `taken`, once each. */
  ghost predicate Drained(rows: Records, ms: seq<Memory>, taken: set<string>)
  {
    && taken <= rows.Keys
    && (forall m :: m in ms <==> exists k :: k in taken && rows[k] == m)
    && |ms| == |taken|
    && (Keyed(rows) ==> DistinctIds(ms) && forall m :: m in ms ==> m.id in taken)
  }

  lemma DrainStep(rows: Records, ms: seq<Memory>, taken: set<string>, k: string)
    requires Drained(rows, ms, taken) && k in rows && k !in taken
    ensures Drained(rows, ms + [rows[k]], taken + {k})
  {
    var ms' := ms + [rows[k]];
    forall m
      ensures m in ms' <==> exists j :: j in taken + {k} && rows[j] == m
    {
      if m == rows[k] {
        assert k in taken + {k};
      } else if m in ms {
        var j :| j in taken && rows[j] == m;
        assert j in taken + {k};
      }
    }
    if Keyed(rows) {
      forall i, j | 0 <= i < j < |ms'|
        ensures ms'[i].id != ms'[j].id
      {
        if j == |ms| {
          assert ms'[i] in ms;
        }
      }
    }
  }

  lemma DrainDone(rows: Records, ms: seq<Memory>)
    requires Drained(rows, ms, rows.Keys)
    ensures Enumerates(ms, rows) && |ms| == |rows|
    ensures Keyed(rows) ==> DistinctIds(ms)
  {
    forall m
      ensures m in ms <==> m in rows.Values
    {
      if m in rows.Values {
        var k :| k in rows && rows[k] == m;
      }
    }
  }

  /** The import loop: every record that validates is put, in order; the others are skipped. */
  function ImportRows(rows: Records, ms: seq<Memory>, now: int): Records
  {
    if ms == [] then rows
    else
      var prev := ImportRows(rows, ms[..|ms| - 1], now);
      var m := ms[|ms| - 1];
      if ValidateMemory(DraftOf(m)) then PutRows(prev, m, now) else prev
  }

  /** The ids of the records the import loop puts. */
  function ValidIds(ms: seq<Memory>): set<string>
  {
    set m | m in ms && ValidateMemory(DraftOf(m)) :: m.id
  }

  /** The import writes exactly the ids of the records that validate. */
  lemma {:induction false} ImportRowsKeys(rows: Records, ms: seq<Memory>, now: int)
    ensures ImportRows(rows, ms, now).Keys == rows.Keys + ValidIds(ms)
  {
    if ms != [] {
      var init := ms[..|ms| - 1];
      ImportRowsKeys(rows, init, now);
      assert ms == init + [ms[|ms| - 1]];
      assert ValidIds(ms) == ValidIds(init) + if ValidateMemory(DraftOf(ms[|ms| - 1])) then {ms[|ms| - 1].id} else {};
      PutRowsSpec(ImportRows(rows, init, now), ms[|ms| - 1], now);
    }
  }

  /** A key no valid record names keeps its stored record. */
  lemma {:induction false} ImportRowsOther(rows: Records, ms: seq<Memory>, now: int, k: string)
    requires k in rows && k !in ValidIds(ms)
    ensures k in ImportRows(rows, ms, now) && ImportRows(rows, ms, now)[k] == rows[k]
  {
    if ms != [] {
      var init := ms[..|ms| - 1];
      assert ms == init + [ms[|ms| - 1]];
      assert ValidIds(init) <= ValidIds(ms);
      ImportRowsOther(rows, init, now, k);
    }
  }

  /** With distinct ids, each valid record is put on its own: a new id is created (stamped by the creating hook), a stored one replaced. */
  lemma {:induction false} ImportRowsPut(rows: Records, ms: seq<Memory>, now: int, m: Memory)
    requires DistinctIds(ms) && m in ms && ValidateMemory(DraftOf(m))
    ensures m.id in ImportRows(rows, ms, now)
    ensures ImportRows(rows, ms, now)[m.id] == if m.id in rows then Rewrite(rows[m.id], m) else Creating(m, now)
  {
    var init := ms[..|ms| - 1];
    var last := ms[|ms| - 1];
    assert ms == init + [last];
    assert DistinctIds(init);
    if m == last {
      assert m.id !in ValidIds(init) by {
        forall n | n in init ensures n.id != last.id {
          var j :| 0 <= j < |init| && init[j] == n;
          assert ms[j] == n;
        }
      }
      if m.id in rows {
        ImportRowsOther(rows, init, now, m.id);
      } else {
        ImportRowsKeys(rows, init, now);
      }
    } else {
      assert m in init;
      ImportRowsPut(rows, init, now, m);
    }
  }

  /**
   * Importing a table's own export into it leaves every key in place, bumps the version of
   * each record that validates, and leaves the others as they are.
   */
  lemma ImportOwnExport(rows: Records, ms: seq<Memory>, now: int)
    requires Keyed(rows) && Enumerates(ms, rows) && DistinctIds(ms)
    ensures var r := ImportRows(rows, ms, now);
      && r.Keys == rows.Keys
      && forall k :: k in rows ==>
           r[k] == if ValidateMemory(DraftOf(rows[k])) then rows[k].(version := rows[k].version + 1) else rows[k]
  {
    ImportRowsKeys(rows, ms, now);
    var r := ImportRows(rows, ms, now);
    assert ValidIds(ms) <= rows.Keys by {
      forall m | m in ms ensures m.id in rows {
        assert m in rows.Values;
      }
    }
    forall k | k in rows
      ensures r[k] == if ValidateMemory(DraftOf(rows[k])) then rows[k].(version := rows[k].version + 1) else rows[k]
    {
      assert rows[k] in rows.Values;
      assert rows[k] in ms;
      if ValidateMemory(DraftOf(rows[k])) {
        ImportRowsPut(rows, ms, now, rows[k]);
      } else {
        assert k !in ValidIds(ms) by {
          forall m | m in ms && ValidateMemory(DraftOf(m)) ensures m.id != k {
            assert m in rows.Values;
          }
        }
        ImportRowsOther(rows, ms, now, k);
      }
    }
  }

  // ---------------------------------------------------------------------------------------
  // The hook

  class MemoryOperations {
    const store: GraphStore

    constructor (store: GraphStore)
      ensures this.store == store
    {
      this.store := store;
    }

    /** `createMemory`: validates the default draft, then adds through the store. */
    method CreateMemory(mtype: MemoryType, content: string, tags: seq<string>, id: string, now: int)
      returns (r: Result<string, Error>)
      modifies store, store.db
      ensures !ValidateMemory(CreateDraft(mtype, content)) ==>
        r == Err(InvalidMemoryData) && store.memories == old(store.memories) && store.db.rows == old(store.db.rows)
      ensures ValidateMemory(CreateDraft(mtype, content)) && id in old(store.db.rows) ==>
        r == Err(KeyExists) && store.memories == old(store.memories) && store.db.rows == old(store.db.rows)
      ensures ValidateMemory(CreateDraft(mtype, content)) && id !in old(store.db.rows) ==>
        && r == Ok(id)
        && store.memories == old(store.memories)[id := NewMemory(id, mtype, content, tags, now)]
        && store.db.rows == old(store.db.rows)[id := NewMemory(id, mtype, content, tags, now)]
    {
      if !ValidateMemory(CreateDraft(mtype, content)) {
        return Err(InvalidMemoryData);
      }
      r := store.AddMemory(mtype, content, tags, id, now);
    }

    /** `addTags`: reads each record from the table and writes the merged tags back; the store's map is not touched. */
    method AddTags(ids: seq<string>, tags: seq<string>)
      modifies store.db
      ensures store.db.rows == TagAll(old(store.db.rows), ids, tags)
    {
      var i := 0;
      while i < |ids|
        invariant 0 <= i <= |ids|
        invariant store.db.rows == TagAll(old(store.db.rows), ids[..i], tags)
      {
        var memory := store.db.Get(ids[i]);
        if memory.Some? {
          store.db.Update(ids[i], TagPatch(memory.value, tags));
        }
        assert ids[..i + 1][..i] == ids[..i];
        i := i + 1;
      }
      assert ids[..|ids|] == ids;
    }

    /** `deleteMemories`: the store's removal for each id. */
    method DeleteMemories(ids: seq<string>)
      modifies store, store.db
      ensures store.memories == RemoveAll(old(store.memories), ids)
      ensures store.db.rows == old(store.db.rows) - Listed(ids)
    {
      var i := 0;
      while i < |ids|
        invariant 0 <= i <= |ids|
        invariant store.memories == RemoveAll(old(store.memories), ids[..i])
        invariant store.db.rows == old(store.db.rows) - Listed(ids[..i])
      {
        store.RemoveMemory(ids[i]);
        assert ids[..i + 1][..i] == ids[..i];
        assert Listed(ids[..i + 1]) == Listed(ids[..i]) + {ids[i]};
        i := i + 1;
      }
      assert ids[..|ids|] == ids;
    }

    /** `exportMemories`: the format version, the time, and every record of the table once. */
    method ExportMemories(now: int) returns (data: ExportData)
      ensures data.version == EXPORT_VERSION && data.timestamp == now
      ensures Enumerates(data.memories, store.db.rows) && |data.memories| == |store.db.rows|
      ensures Keyed(store.db.rows) ==> DistinctIds(data.memories)
    {
      var rows := store.db.rows;
      var ms: seq<Memory> := [];
      var left := rows.Keys;
      ghost var taken: set<string> := {};
      while left != {}
        invariant left + taken == rows.Keys && left !! taken
        invariant Drained(rows, ms, taken)
        decreases left
      {
        var k :| k in left;
        DrainStep(rows, ms, taken, k);
        ms := ms + [rows[k]];
        left := left - {k};
        taken := taken + {k};
      }
      DrainDone(rows, ms);
      data := ExportData(EXPORT_VERSION, now, ms);
    }

    /** `importMemories`: rejects any other format version; otherwise puts every record that validates. */
    method ImportMemories(version: int, memories: seq<Memory>, now: int) returns (r: Outcome<Error>)
      modifies store.db
      ensures version != EXPORT_VERSION ==> r == Fail(UnsupportedExportVersion) && store.db.rows == old(store.db.rows)
      ensures version == EXPORT_VERSION ==> r == Pass && store.db.rows == ImportRows(old(store.db.rows), memories, now)
    {
      if version != EXPORT_VERSION {
        return Fail(UnsupportedExportVersion);
      }
      r := Pass;
      var i := 0;
      while i < |memories|
        invariant 0 <= i <= |memories|
        invariant store.db.rows == ImportRows(old(store.db.rows), memories[..i], now)
      {
        if ValidateMemory(DraftOf(memories[i])) {
          store.db.Put(memories[i], now);
        }
        assert memories[..i + 1][..i] == memories[..i];
        i := i + 1;
      }
      assert memories[..|memories|] == memories;
    }
  }
}
