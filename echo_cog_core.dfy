/**
 * The orchestration of src/lib/core/EchoCogCore.ts: each operation mutates through the
 * memory manager first and then enqueues a replication event on the sync manager.
 */
module Core {
  import opened Wrappers
  import opened Types
  import opened Db
  import opened Validation
  import opened SyncEvents
  import opened Manager
  import opened Sync
  import Store
  import opened MemoryUtils

  /** The update broadcast after an energy change: only the energy, no version. */
  function EnergyUpdate(energy: real): Patch
  {
    NO_CHANGES.(energy := Some(energy))
  }

  /** The update broadcast after a resonance change: only the resonance, no version. */
  function ResonanceUpdate(resonance: real): Patch
  {
    NO_CHANGES.(resonance := Some(resonance))
  }

  /** A successful energy or resonance update leaves the record in the cache, so the read-back that follows is a hit. */
  lemma RewriteCaches(l: Looked, id: string, p: Patch)
    requires l.found.Some?
    ensures id in RewriteStep(l, id, p).cache
    ensures RewriteStep(l, id, p).cache[id] == ApplyPatch(l.found.value, p)
  {
  }

  /**
   * For any cache and table, the energy the core reads back and broadcasts is the clamped
   * new energy of the record the lookup found: the cached one when the id is cached (even
   * when its row differs or is gone), else the stored one. An id neither cached nor stored
   * fails, so nothing is broadcast.
   */
  lemma BroadcastEnergyIsNewEnergy(cache: Records, rows: Records, id: string, delta: real, now: int)
    ensures var st := UpdateEnergyStep(cache, rows, id, delta, now);
      && (id in cache || id in rows ==>
            var m := if id in cache then cache[id] else rows[id];
            && st.outcome == Pass
            && Lookup(st.cache, st.rows, id, now).found == Some(st.cache[id])
            && st.cache[id].energy == Store.Clamp(m.energy + delta))
      && (id !in cache && id !in rows ==> st.outcome == Fail(MemoryNotFound))
  {
    UpdateEnergyAny(cache, rows, id, delta, now);
    LookupSpec(cache, rows, id, now);
  }

  /** The same for the resonance the core broadcasts after `updateMemoryResonance`. */
  lemma BroadcastResonanceIsNewResonance(cache: Records, rows: Records, id: string, contextTags: set<string>, now: int)
    ensures var st := UpdateResonanceStep(cache, rows, id, contextTags, now);
      && (id in cache || id in rows ==>
            var m := if id in cache then cache[id] else rows[id];
            && st.outcome == Pass
            && Lookup(st.cache, st.rows, id, now).found == Some(st.cache[id])
            && st.cache[id].resonance == Resonance(m, contextTags))
      && (id !in cache && id !in rows ==> st.outcome == Fail(MemoryNotFound))
  {
    UpdateResonanceAny(cache, rows, id, contextTags, now);
    LookupSpec(cache, rows, id, now);
  }

  /**
   * The core's update broadcasts carry no version, so a receiving handler never applies
   * them: the table is left exactly as it was.
   */
  lemma UpdateBroadcastsNeverApply(rows: Records, id: string, value: real, instance: string, time: int)
    ensures ApplyEvent(rows, SyncEvent(Update, Changes(id, EnergyUpdate(value)), instance, time)) == Applied(Pass, rows)
    ensures ApplyEvent(rows, SyncEvent(Update, Changes(id, ResonanceUpdate(value)), instance, time)) == Applied(Pass, rows)
  {
  }

  /**
   * The drain hands this instance's own events to its own handler: a connect of two cached
   * records, followed by the drain of the event it enqueued, lists each peer twice in the
   * table and bumps each version twice.
   */
  lemma OwnConnectAppliedTwice(cache: Records, rows: Records, s: string, t: string, now: int, instance: string, later: int)
    requires ValidateConnection(s, t)
    requires Coherent(cache, rows) && s in cache && t in cache
    ensures var st := ConnectStep(cache, rows, s, t, now);
      var drained := ApplyEvent(st.rows, SyncEvent(Connect, Link(s, t), instance, later)).rows;
      && drained[s].connections == rows[s].connections + [t, t]
      && drained[t].connections == rows[t].connections + [s, s]
      && drained[s].version == rows[s].version + 2
  {
    var st := ConnectStep(cache, rows, s, t, now);
    ConnectCached(cache, rows, s, t, now);
    HandleConnectSpec(st.rows, s, t);
    assert rows[s].connections + [t] + [t] == rows[s].connections + [t, t];
    assert rows[t].connections + [s] + [s] == rows[t].connections + [s, s];
  }

  class EchoCogCore {
    const manager: MemoryManager
    const sync: SyncManager

    constructor (db: Table, instanceId: string)
      ensures manager.db == db && manager.cache == map[]
      ensures sync.handler.db == db && sync.handler.instanceId == instanceId
      ensures sync.eventQueue == [] && sync.instances == map[] && sync.syncStatus && !sync.processingQueue
    {
      manager := new MemoryManager(db);
      sync := new SyncManager(instanceId, db);
    }

    /** `createMemory`: the manager's create, then one 'add' event with payload `{id}`; a failed create enqueues nothing. */
    method CreateMemory(mtype: MemoryType, content: string, tags: seq<string>, key: string, now: int)
      returns (r: Result<string, Error>)
      modifies manager, manager.db, sync
      ensures r.Ok? <==> ValidateMemory(CreateDraft(mtype, content)) && key !in old(manager.db.rows)
      ensures r.Ok? ==>
        && r.value == key
        && manager.cache == old(manager.cache)[key := NewRecord(key, mtype, content, tags, now)]
        && manager.db.rows == old(manager.db.rows)[key := NewRecord(key, mtype, content, tags, now)]
        && sync.eventQueue == Enqueue(old(sync.eventQueue), SyncEvent(Add, Ref(key), sync.handler.instanceId, now))
      ensures r.Err? ==>
        && manager.cache == old(manager.cache) && manager.db.rows == old(manager.db.rows)
        && sync.eventQueue == old(sync.eventQueue)
      ensures sync.instances == old(sync.instances) && sync.syncStatus == old(sync.syncStatus)
    {
      r := manager.CreateMemory(mtype, content, tags, key, now);
      if r.Err? {
        return;
      }
      sync.BroadcastMemoryCreation(r.value, now);
    }

    /** `getMemory`. */
    method GetMemory(id: string, now: int) returns (r: Option<Memory>)
      modifies manager, manager.db
      ensures var l := Lookup(old(manager.cache), old(manager.db.rows), id, now);
        r == l.found && manager.cache == l.cache && manager.db.rows == l.rows
    {
      r := manager.GetMemory(id, now);
    }

    /** `connectMemories`: the manager's connect, then a 'connect' event only if it succeeded. */
    method ConnectMemories(sourceId: string, targetId: string, now: int) returns (r: Outcome<Error>)
      modifies manager, manager.db, sync
      ensures var st := ConnectStep(old(manager.cache), old(manager.db.rows), sourceId, targetId, now);
        r == st.outcome && manager.cache == st.cache && manager.db.rows == st.rows
      ensures sync.eventQueue ==
        if r.Pass? then Enqueue(old(sync.eventQueue), SyncEvent(Connect, Link(sourceId, targetId), sync.handler.instanceId, now))
        else old(sync.eventQueue)
      ensures sync.instances == old(sync.instances) && sync.syncStatus == old(sync.syncStatus)
    {
      r := manager.ConnectMemories(sourceId, targetId, now);
      if r.Fail? {
        return;
      }
      sync.BroadcastConnection(sourceId, targetId, now);
    }

    /** `updateMemoryEnergy`: the manager's update, a read-back, then an 'update' event with the energy read back. */
    method UpdateMemoryEnergy(id: string, delta: real, now: int) returns (r: Outcome<Error>)
      modifies manager, manager.db, sync
      ensures var st := UpdateEnergyStep(old(manager.cache), old(manager.db.rows), id, delta, now);
        r == st.outcome && manager.cache == st.cache && manager.db.rows == st.rows
      ensures r.Pass? ==>
        && id in manager.cache
        && sync.eventQueue == Enqueue(old(sync.eventQueue),
             SyncEvent(Update, Changes(id, EnergyUpdate(manager.cache[id].energy)), sync.handler.instanceId, now))
      ensures r.Fail? ==> sync.eventQueue == old(sync.eventQueue)
      ensures sync.instances == old(sync.instances) && sync.syncStatus == old(sync.syncStatus)
    {
      r := manager.UpdateMemoryEnergy(id, delta, now);
      if r.Fail? {
        return;
      }
      RewriteCaches(Lookup(old(manager.cache), old(manager.db.rows), id, now), id,
                    EnergyPatch(Lookup(old(manager.cache), old(manager.db.rows), id, now).found.value, delta));
      var memory := manager.GetMemory(id, now);
      if memory.Some? {
        sync.BroadcastMemoryUpdate(id, EnergyUpdate(memory.value.energy), now);
      }
    }

    /** `updateMemoryResonance`: the manager's update, a read-back, then an 'update' event with the resonance read back. */
    method UpdateMemoryResonance(id: string, contextTags: set<string>, now: int) returns (r: Outcome<Error>)
      modifies manager, manager.db, sync
      ensures var st := UpdateResonanceStep(old(manager.cache), old(manager.db.rows), id, contextTags, now);
        r == st.outcome && manager.cache == st.cache && manager.db.rows == st.rows
      ensures r.Pass? ==>
        && id in manager.cache
        && sync.eventQueue == Enqueue(old(sync.eventQueue),
             SyncEvent(Update, Changes(id, ResonanceUpdate(manager.cache[id].resonance)), sync.handler.instanceId, now))
      ensures r.Fail? ==> sync.eventQueue == old(sync.eventQueue)
      ensures sync.instances == old(sync.instances) && sync.syncStatus == old(sync.syncStatus)
    {
      r := manager.UpdateMemoryResonance(id, contextTags, now);
      if r.Fail? {
        return;
      }
      RewriteCaches(Lookup(old(manager.cache), old(manager.db.rows), id, now), id,
                    ResonancePatch(Lookup(old(manager.cache), old(manager.db.rows), id, now).found.value, contextTags));
      var memory := manager.GetMemory(id, now);
      if memory.Some? {
        sync.BroadcastMemoryUpdate(id, ResonanceUpdate(memory.value.resonance), now);
      }
    }

    /** `registerInstance`, delegated. */
    method RegisterInstance(id: string, now: int)
      modifies sync
      ensures sync.instances == Prune(old(sync.instances)[id := true], now)
      ensures sync.eventQueue == old(sync.eventQueue)
    {
      sync.RegisterInstance(id, now);
    }

    /** `unregisterInstance`, delegated. */
    method UnregisterInstance(id: string, now: int)
      modifies sync
      ensures sync.instances == Prune(old(sync.instances) - {id}, now)
      ensures sync.eventQueue == old(sync.eventQueue)
    {
      sync.UnregisterInstance(id, now);
    }

    /** `clearMemoryCache`, delegated. */
    method ClearMemoryCache()
      modifies manager
      ensures manager.cache == map[]
    {
      manager.ClearCache();
    }
  }
}
