/**
 * The persistence-backed manager of src/lib/core/MemoryManager.ts: a record cache in front
 * of the table. Every operation is specified by a step function from the old cache and
 * table to the outcome and the new cache and table.
 */
module Manager {
  import opened Wrappers
  import opened Types
  import opened DbHooks
  import opened Db
  import opened Validation
  import opened Search
  import opened MemoryUtils
  import Store

  type Records = map<string, Memory>

  /** What `getMemory` returns, and the cache and table it leaves behind. */
  datatype Looked = Looked(found: Option<Memory>, cache: Records, rows: Records)

  /** What a mutator reports, and the cache and table it leaves behind. */
  datatype Step = Step(outcome: Outcome<Error>, cache: Records, rows: Records)

  /** Cached records are the records the table holds under the same key. */
  ghost predicate Coherent(cache: Records, rows: Records)
  {
    forall k :: k in cache ==> k in rows && rows[k] == cache[k]
  }

  /** The fields `updateAccessStats` writes: one more access, the access time, one more version. */
  function AccessPatch(m: Memory, now: int): Patch
  {
    NO_CHANGES.(accessCount := Some(OrZero(m.accessCount) + 1), lastAccessed := Some(now), version := Some(m.version + 1))
  }

  /** `updateAccessStats`: re-reads the record and writes its access statistics to table and cache. */
  function AccessStats(cache: Records, rows: Records, id: string, now: int): (r: Looked)
  {
    if id !in rows then Looked(None, cache, rows)
    else
      var p := AccessPatch(rows[id], now);
      Looked(None, cache[id := ApplyPatch(rows[id], p)], UpdateRows(rows, id, p))
  }

  /** `getMemory`: a hit answers from the cache; a miss reads the table, caches, and records the access. */
  function Lookup(cache: Records, rows: Records, id: string, now: int): Looked
  {
    if id in cache then Looked(Some(cache[id]), cache, rows)
    else if id !in rows then Looked(None, cache, rows)
    else
      var stats := AccessStats(cache[id := rows[id]], rows, id, now);
      Looked(Some(rows[id]), stats.cache, stats.rows)
  }

  /** The record `createMemory` stores and caches under the key the table generated. */
  function NewRecord(key: string, mtype: MemoryType, content: string, tags: seq<string>, now: int): Memory
  {
    Memory(key, mtype, content, [], 1.0, 0.5, now, tags, 1, Some(now), Some(0))
  }

  function ConnectStep(cache: Records, rows: Records, s: string, t: string, now: int): Step
  {
    if !ValidateConnection(s, t) then Step(Fail(InvalidConnection), cache, rows)
    else
      var first := Lookup(cache, rows, s, now);
      var second := Lookup(first.cache, first.rows, t, now);
      if first.found.None? || second.found.None? then Step(Fail(MemoryNotFound), second.cache, second.rows)
      else
        var ps := ConnectPatch(first.found.value, t);
        var pt := ConnectPatch(second.found.value, s);
        Step(Pass,
             second.cache[s := ApplyPatch(first.found.value, ps)][t := ApplyPatch(second.found.value, pt)],
             UpdateRows(UpdateRows(second.rows, s, ps), t, pt))
  }

  /** The fields `updateMemoryEnergy` writes: the clamped energy and one more version. */
  function EnergyPatch(m: Memory, delta: real): Patch
  {
    NO_CHANGES.(energy := Some(Store.Clamp(m.energy + delta)), version := Some(m.version + 1))
  }

  /** The fields `updateMemoryResonance` writes: the resonance under the context tags and one more version. */
  function ResonancePatch(m: Memory, contextTags: set<string>): Patch
  {
    NO_CHANGES.(resonance := Some(Resonance(m, contextTags)), version := Some(m.version + 1))
  }

  /** Looks the record up and writes a patch built from it to table and cache. */
  function RewriteStep(l: Looked, id: string, p: Patch): Step
    requires l.found.Some?
  {
    Step(Pass, l.cache[id := ApplyPatch(l.found.value, p)], UpdateRows(l.rows, id, p))
  }

  function UpdateEnergyStep(cache: Records, rows: Records, id: string, delta: real, now: int): Step
  {
    var l := Lookup(cache, rows, id, now);
    if l.found.None? then Step(Fail(MemoryNotFound), l.cache, l.rows)
    else RewriteStep(l, id, EnergyPatch(l.found.value, delta))
  }

  function UpdateResonanceStep(cache: Records, rows: Records, id: string, contextTags: set<string>, now: int): Step
  {
    var l := Lookup(cache, rows, id, now);
    if l.found.None? then Step(Fail(MemoryNotFound), l.cache, l.rows)
    else RewriteStep(l, id, ResonancePatch(l.found.value, contextTags))
  }

  /** `searchMemories`: the stored records of the given type (any type when none is given) that match the query. */
  function SearchMemories(rows: Records, query: string, mtype: Option<MemoryType>): (r: set<Memory>)
    ensures forall m :: m in r <==>
      m in rows.Values && (mtype.None? || m.mtype == mtype.value) && Matches(m, query)
    ensures mtype.None? ==> r == Store.SearchMemories(rows, query)
  {
    set m | m in rows.Values && (mtype.None? || m.mtype == mtype.value) && Matches(m, query)
  }

  // ---------------------------------------------------------------------------------------
  // Properties

  /**
   * An update that carries a version other than the stored one is merged as it is. One that
   * carries the stored version is written, stamped one higher, only when it changes another
   * field, and otherwise writes nothing.
   */
  lemma UpdateRowsVersioned(rows: Records, id: string, p: Patch)
    requires id in rows && p.version.Some?
    ensures p.version.value != rows[id].version ==> UpdateRows(rows, id, p) == rows[id := ApplyPatch(rows[id], p)]
    ensures p.version.value == rows[id].version && Modifies(rows[id], p) ==>
      UpdateRows(rows, id, p) == rows[id := ApplyPatch(rows[id], p).(version := rows[id].version + 1)]
    ensures p.version.value == rows[id].version && !Modifies(rows[id], p) ==> UpdateRows(rows, id, p) == rows
  {
    UpdateRowsSpec(rows, id, p);
  }

  /**
   * `createMemory` validates exactly the non-blank contents; the record it stores has
   * version 1, no accesses, no connections and the default energy and resonance, and the
   * creating hook leaves it as built.
   */
  lemma CreateSpec(key: string, mtype: MemoryType, content: string, tags: seq<string>, now: int)
    ensures ValidateMemory(CreateDraft(mtype, content)) <==> !Text.Blank(content)
    ensures var rec := NewRecord(key, mtype, content, tags, now);
      && Creating(rec, now) == rec
      && rec.version == 1 && rec.accessCount == Some(0) && rec.connections == []
      && rec.energy == 1.0 && rec.resonance == 0.5
  {
    ValidateMemorySpec(CreateDraft(mtype, content));
    assert ParseType(TypeName(mtype)).Some?;
  }

  /** A cache hit returns the cached record and touches nothing. */
  lemma LookupHit(cache: Records, rows: Records, id: string, now: int)
    requires id in cache
    ensures Lookup(cache, rows, id, now) == Looked(Some(cache[id]), cache, rows)
  {
  }

  /**
   * A miss on a stored record returns the record as it was, and leaves table and cache
   * holding it with one more access, the access time and one more version.
   */
  lemma LookupMiss(cache: Records, rows: Records, id: string, now: int)
    requires id !in cache && id in rows
    ensures var l := Lookup(cache, rows, id, now);
      var m := rows[id];
      var after := m.(accessCount := Some(OrZero(m.accessCount) + 1), lastAccessed := Some(now), version := m.version + 1);
      && l.found == Some(m)
      && l.rows == rows[id := after]
      && l.cache == cache[id := after]
  {
  }

  /** An id neither cached nor stored is not found, and nothing changes. */
  lemma LookupAbsent(cache: Records, rows: Records, id: string, now: int)
    requires id !in cache && id !in rows
    ensures Lookup(cache, rows, id, now) == Looked(None, cache, rows)
  {
  }

  /** Lookups keep cache and table coherent. */
  lemma LookupCoherent(cache: Records, rows: Records, id: string, now: int)
    requires Coherent(cache, rows)
    ensures var l := Lookup(cache, rows, id, now);
      && Coherent(l.cache, l.rows)
      && l.rows.Keys == rows.Keys
      && (l.found.Some? <==> id in rows)
      && (l.found.Some? ==> l.found.value == rows[id])
      && (forall k :: k in rows && k != id ==> l.rows[k] == rows[k] && (k in cache <==> k in l.cache))
  {
  }

  /**
   * For any cache and table: the lookup finds the cached record if there is one, else the
   * stored one; it leaves the found id cached, adds no row and drops none, and changes no
   * other id's row or cache entry.
   */
  lemma LookupSpec(cache: Records, rows: Records, id: string, now: int)
    ensures var l := Lookup(cache, rows, id, now);
      && (l.found.Some? <==> id in cache || id in rows)
      && (id in cache ==> l.found == Some(cache[id]) && l.rows == rows)
      && (id !in cache && id in rows ==> l.found == Some(rows[id]))
      && (id !in rows ==> l.rows == rows)
      && (l.found.Some? ==> id in l.cache)
      && (l.found.None? ==> l.cache == cache && l.rows == rows)
      && l.rows.Keys == rows.Keys
      && (forall k :: k in rows && k != id ==> l.rows[k] == rows[k])
      && (forall k :: k != id ==> (k in l.cache <==> k in cache))
      && (forall k :: k != id && k in cache ==> l.cache[k] == cache[k])
  {
  }

  /** A lookup of one id, followed by a lookup of another, finds and writes for the second what a lone lookup would. */
  lemma LookupThenOther(cache: Records, rows: Records, a: string, b: string, now: int)
    requires a != b
    ensures var first := Lookup(cache, rows, a, now);
      var second := Lookup(first.cache, first.rows, b, now);
      var alone := Lookup(cache, rows, b, now);
      && second.found == alone.found
      && (b in rows ==> second.rows[b] == alone.rows[b])
      && (a in rows ==> second.rows[a] == first.rows[a])
      && (a in first.cache ==> a in second.cache && second.cache[a] == first.cache[a])
  {
    var first := Lookup(cache, rows, a, now);
    LookupSpec(cache, rows, a, now);
    LookupSpec(first.cache, first.rows, b, now);
    if b !in cache && b in rows {
      assert first.rows[b] == rows[b];
    }
  }

  /** `connectMemories` rejects empty or equal ids before reading anything. */
  lemma ConnectRejectsInvalid(cache: Records, rows: Records, s: string, t: string, now: int)
    requires s == "" || t == "" || s == t
    ensures ConnectStep(cache, rows, s, t, now) == Step(Fail(InvalidConnection), cache, rows)
  {
  }

  /**
   * For any cache and table, coherent or not: `connectMemories` fails with MemoryNotFound
   * exactly when a lookup of either id finds nothing. Otherwise each side's cache entry is the
   * record the lookup found, with the peer appended (no duplicate check) and one more version,
   * and each stored row keeps the fields the lookup left and takes those connections; its
   * version is that one as stamped over the row's (one more again when the lookup had already
   * raised the row to it). A stale cached list is thus written over the row. No key is added
   * or dropped, and no other row changes.
   */
  lemma ConnectAny(cache: Records, rows: Records, s: string, t: string, now: int)
    requires ValidateConnection(s, t)
    ensures var ls := Lookup(cache, rows, s, now);
      var lt := Lookup(cache, rows, t, now);
      var st := ConnectStep(cache, rows, s, t, now);
      && (st.outcome == Fail(MemoryNotFound) <==> ls.found.None? || lt.found.None?)
      && st.rows.Keys == rows.Keys
      && (forall k :: k in rows && k != s && k != t ==> st.rows[k] == rows[k])
      && (ls.found.Some? && lt.found.Some? ==>
            var ms := ls.found.value;
            var mt := lt.found.value;
            && st.outcome == Pass
            && st.cache[s] == ms.(connections := ms.connections + [t], version := ms.version + 1)
            && st.cache[t] == mt.(connections := mt.connections + [s], version := mt.version + 1)
            && (s in rows ==> st.rows[s] == ls.rows[s].(connections := ms.connections + [t],
                                                        version := Stamped(ls.rows[s].version, ms.version + 1)))
            && (t in rows ==> st.rows[t] == lt.rows[t].(connections := mt.connections + [s],
                                                        version := Stamped(lt.rows[t].version, mt.version + 1))))
  {
    var first := Lookup(cache, rows, s, now);
    var second := Lookup(first.cache, first.rows, t, now);
    var st := ConnectStep(cache, rows, s, t, now);
    LookupSpec(cache, rows, s, now);
    LookupSpec(first.cache, first.rows, t, now);
    LookupThenOther(cache, rows, s, t, now);
    if first.found.Some? && second.found.Some? {
      var ps := ConnectPatch(first.found.value, t);
      var pt := ConnectPatch(second.found.value, s);
      assert st == Step(Pass,
                        second.cache[s := ApplyPatch(first.found.value, ps)][t := ApplyPatch(second.found.value, pt)],
                        UpdateRows(UpdateRows(second.rows, s, ps), t, pt));
      TwoVersionedWrites(second.rows, s, t, ps, pt);
    } else {
      assert st == Step(Fail(MemoryNotFound), second.cache, second.rows);
    }
  }

  /**
   * Two updates of different ids that each write a list and a version merge each patch into
   * its own row, with the version it carries stamped over the row's, and touch nothing else.
   */
  lemma TwoVersionedWrites(rows: Records, s: string, t: string, ps: Patch, pt: Patch)
    requires s != t && ps.version.Some? && pt.version.Some?
    requires ps.connections.Some? && pt.connections.Some?
    ensures var r := UpdateRows(UpdateRows(rows, s, ps), t, pt);
      && r.Keys == rows.Keys
      && (forall k :: k in rows && k != s && k != t ==> r[k] == rows[k])
      && (s in rows ==> r[s] == ApplyPatch(rows[s], ps).(version := Stamped(rows[s].version, ps.version.value)))
      && (t in rows ==> r[t] == ApplyPatch(rows[t], pt).(version := Stamped(rows[t].version, pt.version.value)))
  {
    var mid := UpdateRows(rows, s, ps);
    UpdateRowsSpec(rows, s, ps);
    UpdateRowsSpec(mid, t, pt);
  }

  /**
   * For any cache and table: `updateMemoryEnergy` fails with MemoryNotFound, changing
   * nothing, exactly when the lookup finds nothing. Otherwise the cache holds the found
   * record with clamp(energy + delta, 0, 1) and one more version, and, when the id is
   * stored, the row takes that energy over what the lookup left and that version as stamped
   * over the row's, unless it already holds both, when nothing is written. A cached id whose
   * row is gone passes with the table unchanged.
   */
  lemma UpdateEnergyAny(cache: Records, rows: Records, id: string, delta: real, now: int)
    ensures var l := Lookup(cache, rows, id, now);
      var st := UpdateEnergyStep(cache, rows, id, delta, now);
      && (st.outcome == Fail(MemoryNotFound) <==> l.found.None?)
      && (l.found.None? ==> st.cache == cache && st.rows == rows)
      && (l.found.Some? ==>
            var m := l.found.value;
            var e := Store.Clamp(m.energy + delta);
            && st.outcome == Pass
            && 0.0 <= e <= 1.0
            && st.cache == l.cache[id := m.(energy := e, version := m.version + 1)]
            && st.rows == (if id !in rows || (l.rows[id].energy == e && l.rows[id].version == m.version + 1) then l.rows
                           else l.rows[id := l.rows[id].(energy := e, version := Stamped(l.rows[id].version, m.version + 1))]))
      && (id in cache && id !in rows ==> st.outcome == Pass && st.rows == rows)
  {
    var l := Lookup(cache, rows, id, now);
    LookupSpec(cache, rows, id, now);
    if l.found.Some? {
      UpdateRowsSpec(l.rows, id, EnergyPatch(l.found.value, delta));
    }
  }

  /**
   * For any cache and table: `updateMemoryResonance` fails with MemoryNotFound, changing
   * nothing, exactly when the lookup finds nothing. Otherwise the cache holds the found
   * record with the resonance formula's value under the context tags and one more version,
   * and, when the id is stored, the row takes that resonance and that version as stamped over
   * the row's, unless it already holds both, when nothing is written.
   */
  lemma UpdateResonanceAny(cache: Records, rows: Records, id: string, contextTags: set<string>, now: int)
    ensures var l := Lookup(cache, rows, id, now);
      var st := UpdateResonanceStep(cache, rows, id, contextTags, now);
      && (st.outcome == Fail(MemoryNotFound) <==> l.found.None?)
      && (l.found.None? ==> st.cache == cache && st.rows == rows)
      && (l.found.Some? ==>
            var m := l.found.value;
            var x := Resonance(m, contextTags);
            && st.outcome == Pass
            && st.cache == l.cache[id := m.(resonance := x, version := m.version + 1)]
            && st.rows == (if id !in rows || (l.rows[id].resonance == x && l.rows[id].version == m.version + 1) then l.rows
                           else l.rows[id := l.rows[id].(resonance := x, version := Stamped(l.rows[id].version, m.version + 1))]))
      && (id in cache && id !in rows ==> st.outcome == Pass && st.rows == rows)
  {
    var l := Lookup(cache, rows, id, now);
    LookupSpec(cache, rows, id, now);
    if l.found.Some? {
      UpdateRowsSpec(l.rows, id, ResonancePatch(l.found.value, contextTags));
    }
  }

  /** `connectMemories` reports a missing record when either id is neither cached nor stored. */
  lemma ConnectMissing(cache: Records, rows: Records, s: string, t: string, now: int)
    requires ValidateConnection(s, t)
    requires Coherent(cache, rows)
    requires s !in rows || t !in rows
    ensures ConnectStep(cache, rows, s, t, now).outcome == Fail(MemoryNotFound)
  {
    LookupCoherent(cache, rows, s, now);
  }

  /**
   * With both records cached and coherent, `connectMemories` succeeds, appends each id to
   * the other's list without a duplicate check, sets both versions to old + 1, and leaves
   * cache and table coherent.
   */
  lemma ConnectCached(cache: Records, rows: Records, s: string, t: string, now: int)
    requires ValidateConnection(s, t)
    requires Coherent(cache, rows) && s in cache && t in cache
    ensures var st := ConnectStep(cache, rows, s, t, now);
      && st.outcome == Pass
      && Coherent(st.cache, st.rows)
      && st.rows.Keys == rows.Keys
      && st.rows[s] == rows[s].(connections := rows[s].connections + [t], version := rows[s].version + 1)
      && st.rows[t] == rows[t].(connections := rows[t].connections + [s], version := rows[t].version + 1)
      && (forall k :: k in rows && k != s && k != t ==> st.rows[k] == rows[k])
  {
  }

  /** Connecting the same cached pair twice lists each peer twice. */
  lemma ConnectTwiceDuplicates(cache: Records, rows: Records, s: string, t: string, now: int, later: int)
    requires ValidateConnection(s, t)
    requires Coherent(cache, rows) && s in cache && t in cache
    ensures var once := ConnectStep(cache, rows, s, t, now);
      var twice := ConnectStep(once.cache, once.rows, s, t, later);
      && twice.rows[s].connections == rows[s].connections + [t, t]
      && twice.rows[t].connections == rows[t].connections + [s, s]
      && twice.rows[s].version == rows[s].version + 2
  {
    var once := ConnectStep(cache, rows, s, t, now);
    ConnectCached(cache, rows, s, t, now);
    ConnectCached(once.cache, once.rows, s, t, later);
    assert rows[s].connections + [t] + [t] == rows[s].connections + [t, t];
    assert rows[t].connections + [s] + [s] == rows[t].connections + [s, s];
  }

  /**
   * When the source record is fetched on a miss, the table keeps the access statistics
   * while the cache is overwritten from the record as it was before the access: the two
   * disagree on `accessCount` afterwards. The access write has already raised the row to the
   * version the connect carries, so the row ends two versions up and the cache one.
   */
  lemma ConnectMissLosesAccessStats(cache: Records, rows: Records, s: string, t: string, now: int)
    requires ValidateConnection(s, t)
    requires Coherent(cache, rows) && s !in cache && s in rows && t in cache
    ensures var st := ConnectStep(cache, rows, s, t, now);
      && st.outcome == Pass
      && st.rows[s].accessCount == Some(OrZero(rows[s].accessCount) + 1)
      && st.cache[s].accessCount == rows[s].accessCount
      && st.cache[s].accessCount != st.rows[s].accessCount
      && st.rows[s].version == rows[s].version + 2
      && st.cache[s].version == rows[s].version + 1
      && st.rows[s].connections == rows[s].connections + [t]
  {
    LookupMiss(cache, rows, s, now);
  }

  /**
   * `updateMemoryEnergy` reports a missing record for an unknown id; otherwise the energy
   * becomes clamp(energy + delta, 0, 1) in table and cache. The cache ends one version up; so
   * does the row of a cached record, while the row of one fetched on a miss ends two up, the
   * access write having raised it to the version the update carries, unless the energy is
   * unchanged and the update writes nothing.
   */
  lemma UpdateEnergySpec(cache: Records, rows: Records, id: string, delta: real, now: int)
    requires Coherent(cache, rows)
    ensures var st := UpdateEnergyStep(cache, rows, id, delta, now);
      && (id !in rows ==> st == Step(Fail(MemoryNotFound), cache, rows))
      && (id in rows ==>
            && st.outcome == Pass
            && st.rows[id].energy == Store.Clamp(rows[id].energy + delta)
            && 0.0 <= st.rows[id].energy <= 1.0
            && st.rows[id].version
                 == rows[id].version + (if id in cache || st.rows[id].energy == rows[id].energy then 1 else 2)
            && st.cache[id].version == rows[id].version + 1
            && st.cache[id] == st.rows[id].(accessCount := st.cache[id].accessCount,
                                              lastAccessed := st.cache[id].lastAccessed,
                                              version := st.cache[id].version)
            && (id in cache ==> Coherent(st.cache, st.rows)))
      && (forall k :: k in rows && k != id ==> st.rows[k] == rows[k])
  {
    LookupCoherent(cache, rows, id, now);
  }

  /**
   * `updateMemoryResonance` reports a missing record for an unknown id; otherwise the
   * resonance becomes the resonance formula of the record under the context tags. The row
   * ends one version up for a cached record and two up for one fetched on a miss, unless the
   * resonance is unchanged and the update writes nothing.
   */
  lemma UpdateResonanceSpec(cache: Records, rows: Records, id: string, contextTags: set<string>, now: int)
    requires Coherent(cache, rows)
    ensures var st := UpdateResonanceStep(cache, rows, id, contextTags, now);
      && (id !in rows ==> st == Step(Fail(MemoryNotFound), cache, rows))
      && (id in rows ==>
            && st.outcome == Pass
            && st.rows[id].resonance == Resonance(rows[id], contextTags)
            && st.rows[id].version
                 == rows[id].version + (if id in cache || st.rows[id].resonance == rows[id].resonance then 1 else 2)
            && st.cache[id].version == rows[id].version + 1
            && (0.0 <= rows[id].energy <= 1.0 ==> 0.0 <= st.rows[id].resonance <= 1.0)
            && (id in cache ==> Coherent(st.cache, st.rows)))
      && (forall k :: k in rows && k != id ==> st.rows[k] == rows[k])
  {
    LookupCoherent(cache, rows, id, now);
    if id in rows && 0.0 <= rows[id].energy <= 1.0 {
      ResonanceInUnit(rows[id], contextTags);
    }
  }

  /** Filtering by type narrows the untyped search to the records of that type. */
  lemma SearchByType(rows: Records, query: string, mtype: MemoryType)
    ensures SearchMemories(rows, query, Some(mtype)) ==
      set m | m in SearchMemories(rows, query, None) && m.mtype == mtype
  {
  }

  // ---------------------------------------------------------------------------------------
  // The manager

  class MemoryManager {
    /** `memoryCache`. */
    var cache: Records
    const db: Table

    constructor (db: Table)
      ensures cache == map[] && this.db == db
    {
      cache := map[];
      this.db := db;
    }

    /**
     * `createMemory`: validation first, then the table add (which generates `key`), then the
     * cache entry. The generator hands out fresh keys; a key already stored is rejected by the add.
     */
    method CreateMemory(mtype: MemoryType, content: string, tags: seq<string>, key: string, now: int)
      returns (r: Result<string, Error>)
      modifies this, db
      ensures !ValidateMemory(CreateDraft(mtype, content)) ==>
        r == Err(InvalidMemoryData) && cache == old(cache) && db.rows == old(db.rows)
      ensures ValidateMemory(CreateDraft(mtype, content)) && key in old(db.rows) ==>
        r == Err(KeyExists) && cache == old(cache) && db.rows == old(db.rows)
      ensures ValidateMemory(CreateDraft(mtype, content)) && key !in old(db.rows) ==>
        && r == Ok(key)
        && cache == old(cache)[key := NewRecord(key, mtype, content, tags, now)]
        && db.rows == old(db.rows)[key := NewRecord(key, mtype, content, tags, now)]
    {
      if !ValidateMemory(CreateDraft(mtype, content)) {
        return Err(InvalidMemoryData);
      }
      var memory := NewRecord(key, mtype, content, tags, now);
      var added := db.Add(memory, now);
      if added.Fail? {
        return Err(added.error);
      }
      cache := cache[key := memory];
      r := Ok(key);
    }

    /** `updateAccessStats`. */
    method UpdateAccessStats(id: string, now: int)
      modifies this, db
      ensures var l := AccessStats(old(cache), old(db.rows), id, now);
        cache == l.cache && db.rows == l.rows
    {
      var memory := db.Get(id);
      if memory.None? {
        return;
      }
      var updates := AccessPatch(memory.value, now);
      db.Update(id, updates);
      cache := cache[id := ApplyPatch(memory.value, updates)];
    }

    /** `getMemory`. */
    method GetMemory(id: string, now: int) returns (r: Option<Memory>)
      modifies this, db
      ensures var l := Lookup(old(cache), old(db.rows), id, now);
        r == l.found && cache == l.cache && db.rows == l.rows
    {
      if id in cache {
        return Some(cache[id]);
      }
      var memory := db.Get(id);
      if memory.Some? {
        cache := cache[id := memory.value];
        UpdateAccessStats(id, now);
      }
      r := memory;
    }

    /** `connectMemories`; the two lookups and the two writes of each `Promise.all` are issued in array order. */
    method ConnectMemories(sourceId: string, targetId: string, now: int) returns (r: Outcome<Error>)
      modifies this, db
      ensures var st := ConnectStep(old(cache), old(db.rows), sourceId, targetId, now);
        r == st.outcome && cache == st.cache && db.rows == st.rows
    {
      if !ValidateConnection(sourceId, targetId) {
        return Fail(InvalidConnection);
      }
      var source := GetMemory(sourceId, now);
      var target := GetMemory(targetId, now);
      if source.None? || target.None? {
        return Fail(MemoryNotFound);
      }
      var sourcePatch := ConnectPatch(source.value, targetId);
      var targetPatch := ConnectPatch(target.value, sourceId);
      db.Update(sourceId, sourcePatch);
      db.Update(targetId, targetPatch);
      cache := cache[sourceId := ApplyPatch(source.value, sourcePatch)];
      cache := cache[targetId := ApplyPatch(target.value, targetPatch)];
      r := Pass;
    }

    /** `updateMemoryEnergy`. */
    method UpdateMemoryEnergy(id: string, delta: real, now: int) returns (r: Outcome<Error>)
      modifies this, db
      ensures var st := UpdateEnergyStep(old(cache), old(db.rows), id, delta, now);
        r == st.outcome && cache == st.cache && db.rows == st.rows
    {
      var memory := GetMemory(id, now);
      if memory.None? {
        return Fail(MemoryNotFound);
      }
      var updates := EnergyPatch(memory.value, delta);
      db.Update(id, updates);
      cache := cache[id := ApplyPatch(memory.value, updates)];
      r := Pass;
    }

    /** `updateMemoryResonance`. */
    method UpdateMemoryResonance(id: string, contextTags: set<string>, now: int) returns (r: Outcome<Error>)
      modifies this, db
      ensures var st := UpdateResonanceStep(old(cache), old(db.rows), id, contextTags, now);
        r == st.outcome && cache == st.cache && db.rows == st.rows
    {
      var memory := GetMemory(id, now);
      if memory.None? {
        return Fail(MemoryNotFound);
      }
      var updates := ResonancePatch(memory.value, contextTags);
      db.Update(id, updates);
      cache := cache[id := ApplyPatch(memory.value, updates)];
      r := Pass;
    }

    /** `clearCache`: empties the cache; the table is not touched. */
    method ClearCache()
      modifies this
      ensures cache == map[]
    {
      cache := map[];
    }
  }
}
