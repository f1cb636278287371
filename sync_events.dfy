/**
 * The replication events and the receiving handler of src/lib/utils/sync.ts: the event
 * filter, and the four handlers that apply a remote change to the table.
 */
module SyncEvents {
  import opened Wrappers
  import opened Types
  import opened Config
  import opened Db

  type Records = map<string, Memory>

  /** `SyncEvent['type']`. */
  datatype EventType = Add | Update | Connect | Remove

  /**
   * The payload shapes the senders use: `{id}`, a bare key, `{sourceId, targetId}`,
   * `{id, ...updates}`, and a whole record.
   */
  datatype Payload =
    | Ref(id: string)
    | Key(key: string)
    | Link(sourceId: string, targetId: string)
    | Changes(id: string, changes: Patch)
    | Whole(memory: Memory)

  datatype SyncEvent = SyncEvent(etype: EventType, payload: Payload, instanceId: string, timestamp: int)

  /** What a handler reports, and the table it leaves behind. */
  datatype Applied = Applied(outcome: Outcome<Error>, rows: Records)

  /** `payload.id`, for the shapes that have one. */
  function PayloadId(p: Payload): Option<string>
  {
    match p
    case Ref(id) => Some(id)
    case Changes(id, _) => Some(id)
    case Whole(m) => Some(m.id)
    case _ => None
  }

  /** The payload's fields as table modifications. */
  function PayloadPatch(p: Payload): Patch
  {
    match p
    case Changes(_, changes) => changes
    case Whole(m) => WholePatch(m)
    case _ => NO_CHANGES
  }

  /** `handleAdd`: the referenced record must already be stored; nothing is written. */
  function ApplyAdd(rows: Records, p: Payload): Applied
  {
    match PayloadId(p)
    case None => Applied(Fail(InvalidKey), rows)
    case Some(id) => Applied(if id in rows then Pass else Fail(MemoryNotFound), rows)
  }

  /** `handleConnect`: with both records stored, appends each id to the other's list and bumps both versions. */
  function ApplyConnect(rows: Records, p: Payload): Applied
  {
    if !p.Link? then Applied(Fail(InvalidKey), rows)
    else if p.sourceId !in rows || p.targetId !in rows then Applied(Fail(MemoryNotFound), rows)
    else
      var ps := ConnectPatch(rows[p.sourceId], p.targetId);
      var pt := ConnectPatch(rows[p.targetId], p.sourceId);
      Applied(Pass, UpdateRows(UpdateRows(rows, p.sourceId, ps), p.targetId, pt))
  }

  /** The last-writer-wins gate: `existing && payload.version && payload.version > existing.version`. */
  predicate Newer(rows: Records, id: string, mods: Patch)
  {
    id in rows && mods.version.Some? && mods.version.value != 0 && mods.version.value > rows[id].version
  }

  /** `handleUpdate`: merges the payload only when it carries a newer version than the stored record. */
  function ApplyUpdate(rows: Records, p: Payload): Applied
  {
    match PayloadId(p)
    case None => Applied(Fail(InvalidKey), rows)
    case Some(id) =>
      var mods := PayloadPatch(p);
      Applied(Pass, if Newer(rows, id, mods) then UpdateRows(rows, id, mods) else rows)
  }

  /** `handleRemove(id)`: deletes the key; a payload that is not a key is rejected by the table. */
  function ApplyRemove(rows: Records, p: Payload): Applied
  {
    if p.Key? then Applied(Pass, rows - {p.key}) else Applied(Fail(InvalidKey), rows)
  }

  /** `handleEvent`: dispatch on the event type. */
  function ApplyEvent(rows: Records, e: SyncEvent): Applied
  {
    match e.etype
    case Add => ApplyAdd(rows, e.payload)
    case Connect => ApplyConnect(rows, e.payload)
    case Update => ApplyUpdate(rows, e.payload)
    case Remove => ApplyRemove(rows, e.payload)
  }

  // ---------------------------------------------------------------------------------------
  // Properties

  /** `handleAdd` never writes, and fails exactly when the referenced record is missing. */
  lemma HandleAddSpec(rows: Records, id: string)
    ensures ApplyAdd(rows, Ref(id)).rows == rows
    ensures ApplyAdd(rows, Ref(id)).outcome == Pass <==> id in rows
    ensures ApplyAdd(rows, Ref(id)).outcome.Fail? ==> ApplyAdd(rows, Ref(id)).outcome == Fail(MemoryNotFound)
  {
  }

  /**
   * With both endpoints stored and distinct, `handleConnect` appends each id to the other's
   * list with no duplicate check and sets both versions to old + 1; nothing else changes.
   * With either endpoint missing it fails and writes nothing.
   */
  lemma HandleConnectSpec(rows: Records, s: string, t: string)
    ensures s !in rows || t !in rows ==> ApplyConnect(rows, Link(s, t)) == Applied(Fail(MemoryNotFound), rows)
    ensures s in rows && t in rows && s != t ==>
      var a := ApplyConnect(rows, Link(s, t));
      && a.outcome == Pass
      && a.rows.Keys == rows.Keys
      && a.rows[s] == rows[s].(connections := rows[s].connections + [t], version := rows[s].version + 1)
      && a.rows[t] == rows[t].(connections := rows[t].connections + [s], version := rows[t].version + 1)
      && (forall k :: k in rows && k != s && k != t ==> a.rows[k] == rows[k])
  {
  }

  /** Delivering the same connection twice lists each peer twice. */
  lemma HandleConnectTwice(rows: Records, s: string, t: string)
    requires s in rows && t in rows && s != t
    ensures var twice := ApplyConnect(ApplyConnect(rows, Link(s, t)).rows, Link(s, t)).rows;
      && twice[s].connections == rows[s].connections + [t, t]
      && twice[t].connections == rows[t].connections + [s, s]
  {
    var once := ApplyConnect(rows, Link(s, t)).rows;
    HandleConnectSpec(rows, s, t);
    HandleConnectSpec(once, s, t);
    assert rows[s].connections + [t] + [t] == rows[s].connections + [t, t];
    assert rows[t].connections + [s] + [s] == rows[t].connections + [s, s];
  }

  /**
   * `handleUpdate` writes exactly when the record exists and the payload's version is set
   * and newer; the stored version then becomes the payload's, and the rest of the record
   * takes the payload's fields.
   */
  lemma HandleUpdateSpec(rows: Records, id: string, mods: Patch)
    ensures var a := ApplyUpdate(rows, Changes(id, mods));
      && a.outcome == Pass
      && (a.rows != rows ==> Newer(rows, id, mods))
      && (Newer(rows, id, mods) ==> a.rows == rows[id := ApplyPatch(rows[id], mods)] && a.rows[id].version == mods.version.value)
      && (!Newer(rows, id, mods) ==> a.rows == rows)
  {
  }

  /** Updates without a version (such as the core's energy and resonance broadcasts) are never applied. */
  lemma UnversionedUpdateIgnored(rows: Records, id: string, mods: Patch)
    requires mods.version.None?
    ensures ApplyUpdate(rows, Changes(id, mods)) == Applied(Pass, rows)
  {
  }

  /** A duplicate delivery of an update does nothing more than the first. */
  lemma HandleUpdateIdempotent(rows: Records, id: string, mods: Patch)
    ensures var once := ApplyUpdate(rows, Changes(id, mods)).rows;
      ApplyUpdate(once, Changes(id, mods)).rows == once
  {
    HandleUpdateSpec(rows, id, mods);
  }

  /** An older update delivered after a newer one is discarded. */
  lemma HandleUpdateNewerWins(rows: Records, id: string, older: Patch, newer: Patch)
    requires id in rows
    requires older.version.Some? && newer.version.Some?
    requires rows[id].version < older.version.value < newer.version.value
    requires newer.version.value != 0
    ensures var late := ApplyUpdate(ApplyUpdate(rows, Changes(id, newer)).rows, Changes(id, older)).rows;
      late == ApplyUpdate(rows, Changes(id, newer)).rows
  {
    HandleUpdateSpec(rows, id, newer);
    var first := ApplyUpdate(rows, Changes(id, newer)).rows;
    assert first[id].version == newer.version.value;
    HandleUpdateSpec(first, id, older);
  }

  /** `handleRemove` deletes only the given key, leaves peers' lists alone, and is a no-op for an absent key. */
  lemma HandleRemoveSpec(rows: Records, id: string)
    ensures ApplyRemove(rows, Key(id)).outcome == Pass
    ensures ApplyRemove(rows, Key(id)).rows.Keys == rows.Keys - {id}
    ensures forall k :: k in rows && k != id ==> ApplyRemove(rows, Key(id)).rows[k] == rows[k]
    ensures id !in rows ==> ApplyRemove(rows, Key(id)).rows == rows
  {
  }

  /** A removal sent as `{id}` reaches the table as an object, which is not a key: it is rejected and nothing is deleted. */
  lemma RemoveOfObjectRejected(rows: Records, id: string)
    ensures ApplyRemove(rows, Ref(id)) == Applied(Fail(InvalidKey), rows)
  {
  }

  /** Each event type reaches its own handler. */
  lemma ApplyEventDispatch(rows: Records, e: SyncEvent)
    ensures e.etype == Add ==> ApplyEvent(rows, e).rows == rows
    ensures e.etype == Remove ==> ApplyEvent(rows, e) == ApplyRemove(rows, e.payload)
    ensures e.etype == Connect ==> ApplyEvent(rows, e) == ApplyConnect(rows, e.payload)
    ensures e.etype == Update ==> ApplyEvent(rows, e) == ApplyUpdate(rows, e.payload)
  {
  }

  // ---------------------------------------------------------------------------------------
  // The handler

  class SyncEventHandler {
    const instanceId: string
    const db: Table

    constructor (instanceId: string, db: Table)
      ensures this.instanceId == instanceId && this.db == db
    {
      this.instanceId := instanceId;
      this.db := db;
    }

    /** `createEvent`: the type and payload as given, stamped with this instance and the time. */
    function CreateEvent(etype: EventType, payload: Payload, now: int): (e: SyncEvent)
    {
      SyncEvent(etype, payload, instanceId, now)
    }

    /** `shouldProcessEvent`: events from other instances that are at most INSTANCE_TIMEOUT old. */
    predicate ShouldProcessEvent(e: SyncEvent, now: int)
    {
      if e.instanceId == instanceId then false
      else if now - e.timestamp > INSTANCE_TIMEOUT then false
      else true
    }

    /**
     * The filter accepts exactly the foreign events at most 30000 ms old, so this
     * handler's own events are never accepted, an event exactly 30000 ms old is, and one
     * a millisecond older is not.
     */
    lemma ShouldProcessEventSpec(e: SyncEvent, now: int, etype: EventType, payload: Payload)
      ensures ShouldProcessEvent(e, now) <==> e.instanceId != instanceId && now - e.timestamp <= 30000
      ensures !ShouldProcessEvent(CreateEvent(etype, payload, now), now)
      ensures e.instanceId != instanceId ==> ShouldProcessEvent(e.(timestamp := now - 30000), now)
      ensures !ShouldProcessEvent(e.(timestamp := now - 30001), now)
      ensures var c := CreateEvent(etype, payload, now);
        c.etype == etype && c.payload == payload && c.instanceId == instanceId && c.timestamp == now
    {
    }

    method HandleAdd(p: Payload) returns (r: Outcome<Error>)
      ensures r == ApplyAdd(db.rows, p).outcome
    {
      var id := PayloadId(p);
      if id.None? {
        return Fail(InvalidKey);
      }
      var memory := db.Get(id.value);
      if memory.None? {
        return Fail(MemoryNotFound);
      }
      r := Pass;
    }

    method HandleConnect(p: Payload) returns (r: Outcome<Error>)
      modifies db
      ensures var a := ApplyConnect(old(db.rows), p);
        r == a.outcome && db.rows == a.rows
    {
      if !p.Link? {
        return Fail(InvalidKey);
      }
      var source := db.Get(p.sourceId);
      var target := db.Get(p.targetId);
      if source.None? || target.None? {
        return Fail(MemoryNotFound);
      }
      db.Update(p.sourceId, ConnectPatch(source.value, p.targetId));
      db.Update(p.targetId, ConnectPatch(target.value, p.sourceId));
      r := Pass;
    }

    method HandleUpdate(p: Payload) returns (r: Outcome<Error>)
      modifies db
      ensures var a := ApplyUpdate(old(db.rows), p);
        r == a.outcome && db.rows == a.rows
    {
      var id := PayloadId(p);
      if id.None? {
        return Fail(InvalidKey);
      }
      var existing := db.Get(id.value);
      var mods := PayloadPatch(p);
      if existing.Some? && mods.version.Some? && mods.version.value != 0 && mods.version.value > existing.value.version {
        db.Update(id.value, mods);
      }
      r := Pass;
    }

    method HandleRemove(p: Payload) returns (r: Outcome<Error>)
      modifies db
      ensures var a := ApplyRemove(old(db.rows), p);
        r == a.outcome && db.rows == a.rows
    {
      if !p.Key? {
        return Fail(InvalidKey);
      }
      db.Delete(p.key);
      r := Pass;
    }

    /** `handleEvent`. */
    method HandleEvent(e: SyncEvent) returns (r: Outcome<Error>)
      modifies db
      ensures var a := ApplyEvent(old(db.rows), e);
        r == a.outcome && db.rows == a.rows
    {
      match e.etype
      case Add => r := HandleAdd(e.payload);
      case Connect => r := HandleConnect(e.payload);
      case Update => r := HandleUpdate(e.payload);
      case Remove => r := HandleRemove(e.payload);
    }
  }
}
