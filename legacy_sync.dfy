/**
 * The older replication manager of src/lib/sync.ts: events pass through a filter that drops
 * this instance's own events, and the handlers write the table directly.
 */
module LegacySync {
  import opened Wrappers
  import opened Types
  import opened DbHooks
  import opened Db
  import opened SyncEvents

  type Records = map<string, Memory>

  /** `handleAddMemory`: the whole record is added; the creating hook restamps it, and a stored key is rejected. */
  function AddMemory(rows: Records, p: Payload, now: int): Applied
  {
    if !p.Whole? then Applied(Fail(InvalidKey), rows)
    else if p.memory.id in rows then Applied(Fail(KeyExists), rows)
    else Applied(Pass, rows[p.memory.id := Creating(p.memory, now)])
  }

  /** `handleUpdateMemory`: the same last-writer-wins gate as the newer handler. */
  function UpdateMemory(rows: Records, p: Payload): Applied
  {
    ApplyUpdate(rows, p)
  }

  /** `handleConnect`: with an endpoint missing nothing happens and nothing is reported. */
  function ConnectMemories(rows: Records, p: Payload): Applied
  {
    if !p.Link? then Applied(Fail(InvalidKey), rows)
    else if p.sourceId !in rows || p.targetId !in rows then Applied(Pass, rows)
    else
      var ps := ConnectPatch(rows[p.sourceId], p.targetId);
      var pt := ConnectPatch(rows[p.targetId], p.sourceId);
      Applied(Pass, UpdateRows(UpdateRows(rows, p.sourceId, ps), p.targetId, pt))
  }

  /** `handleRemove`. */
  function RemoveMemory(rows: Records, p: Payload): Applied
  {
    ApplyRemove(rows, p)
  }

  /** `handleEvent`. */
  function HandleEvent(rows: Records, e: SyncEvent, now: int): Applied
  {
    match e.etype
    case Add => AddMemory(rows, e.payload, now)
    case Update => UpdateMemory(rows, e.payload)
    case Connect => ConnectMemories(rows, e.payload)
    case Remove => RemoveMemory(rows, e.payload)
  }

  // ---------------------------------------------------------------------------------------
  // Properties

  /** An added record is stored under its id with version 1 and the current time; a stored key is not overwritten. */
  lemma AddMemorySpec(rows: Records, m: Memory, now: int)
    ensures m.id in rows ==> AddMemory(rows, Whole(m), now) == Applied(Fail(KeyExists), rows)
    ensures m.id !in rows ==>
      var a := AddMemory(rows, Whole(m), now);
      && a.outcome == Pass
      && a.rows[m.id] == m.(version := 1, timestamp := now)
      && (forall k :: k in rows ==> a.rows[k] == rows[k])
      && a.rows.Keys == rows.Keys + {m.id}
  {
  }

  /** The update gate writes exactly when the record exists and the payload's version is set and newer. */
  lemma UpdateMemorySpec(rows: Records, id: string, mods: Patch)
    ensures Newer(rows, id, mods) ==> UpdateMemory(rows, Changes(id, mods)).rows == rows[id := ApplyPatch(rows[id], mods)]
    ensures !Newer(rows, id, mods) ==> UpdateMemory(rows, Changes(id, mods)).rows == rows
  {
    SyncEvents.HandleUpdateSpec(rows, id, mods);
  }

  /**
   * A connection whose endpoint is missing is dropped silently; otherwise both sides get
   * the other appended and one more version.
   */
  lemma ConnectMemoriesSpec(rows: Records, s: string, t: string)
    ensures s !in rows || t !in rows ==> ConnectMemories(rows, Link(s, t)) == Applied(Pass, rows)
    ensures s in rows && t in rows && s != t ==>
      var a := ConnectMemories(rows, Link(s, t)).rows;
      && a.Keys == rows.Keys
      && a[s] == rows[s].(connections := rows[s].connections + [t], version := rows[s].version + 1)
      && a[t] == rows[t].(connections := rows[t].connections + [s], version := rows[t].version + 1)
      && (forall k :: k in rows && k != s && k != t ==> a[k] == rows[k])
  {
  }

  /** Removal deletes the id and nothing else. */
  lemma RemoveMemorySpec(rows: Records, id: string)
    ensures RemoveMemory(rows, Key(id)) == Applied(Pass, rows - {id})
  {
  }

  // ---------------------------------------------------------------------------------------
  // The manager

  class LegacySyncManager {
    const instanceId: string
    const db: Table
    /** The registry: each instance's status flag. */
    var instances: map<string, bool>

    constructor (instanceId: string, db: Table)
      ensures this.instanceId == instanceId && this.db == db && instances == map[]
    {
      this.instanceId := instanceId;
      this.db := db;
      instances := map[];
    }

    /** The subscription: events from other instances are handled, this instance's own are dropped. */
    method Deliver(e: SyncEvent, now: int) returns (r: Outcome<Error>)
      modifies db
      ensures e.instanceId == instanceId ==> r == Pass && db.rows == old(db.rows)
      ensures e.instanceId != instanceId ==>
        var a := HandleEvent(old(db.rows), e, now);
        r == a.outcome && db.rows == a.rows
    {
      if e.instanceId == instanceId {
        return Pass;
      }
      r := HandleEventMethod(e, now);
    }

    /** `handleEvent`, with each handler's table reads and writes. */
    method HandleEventMethod(e: SyncEvent, now: int) returns (r: Outcome<Error>)
      modifies db
      ensures var a := HandleEvent(old(db.rows), e, now);
        r == a.outcome && db.rows == a.rows
    {
      match e.etype {
        case Add =>
          if !e.payload.Whole? {
            return Fail(InvalidKey);
          }
          r := db.Add(e.payload.memory, now);
        case Update =>
          var id := PayloadId(e.payload);
          if id.None? {
            return Fail(InvalidKey);
          }
          var existing := db.Get(id.value);
          var mods := PayloadPatch(e.payload);
          if existing.Some? && mods.version.Some? && mods.version.value != 0 && mods.version.value > existing.value.version {
            db.Update(id.value, mods);
          }
          r := Pass;
        case Connect =>
          if !e.payload.Link? {
            return Fail(InvalidKey);
          }
          var source := db.Get(e.payload.sourceId);
          var target := db.Get(e.payload.targetId);
          if source.Some? && target.Some? {
            db.Update(e.payload.sourceId, ConnectPatch(source.value, e.payload.targetId));
            db.Update(e.payload.targetId, ConnectPatch(target.value, e.payload.sourceId));
          }
          r := Pass;
        case Remove =>
          if !e.payload.Key? {
            return Fail(InvalidKey);
          }
          db.Delete(e.payload.key);
          r := Pass;
      }
    }

    /** `broadcast`: stamps the event with this instance and the time and emits it; the filter then drops it, so the table never changes. */
    method Broadcast(etype: EventType, payload: Payload, now: int) returns (e: SyncEvent)
      modifies db
      ensures e == SyncEvent(etype, payload, instanceId, now)
      ensures db.rows == old(db.rows)
    {
      e := SyncEvent(etype, payload, instanceId, now);
      var _ := Deliver(e, now);
    }

    /** `addInstance`. */
    method AddInstance(id: string)
      modifies this
      ensures instances == old(instances)[id := true]
    {
      instances := instances[id := true];
    }

    /** `removeInstance`. */
    method RemoveInstance(id: string)
      modifies this
      ensures instances == old(instances) - {id}
    {
      instances := instances - {id};
    }

    /** `isInstanceActive`. */
    function IsInstanceActive(id: string): bool
      reads this
    {
      ActiveIn(instances, id)
    }
  }

  /** `instances.get(id)?.value ?? false`: the instance's flag, false for an unknown instance. */
  function ActiveIn(instances: map<string, bool>, id: string): bool
  {
    if id in instances then instances[id] else false
  }

  /**
   * An unknown instance is inactive; after `addInstance` the instance is active, after
   * `removeInstance` it is not, and every other instance keeps its flag.
   */
  lemma RegistrySpec(instances: map<string, bool>, id: string, other: string)
    requires other != id
    ensures id !in instances ==> !ActiveIn(instances, id)
    ensures ActiveIn(instances[id := true], id)
    ensures !ActiveIn(instances - {id}, id)
    ensures ActiveIn(instances[id := true], other) == ActiveIn(instances, other)
    ensures ActiveIn(instances - {id}, other) == ActiveIn(instances, other)
  {
  }
}
