/**
 * The in-memory graph store of src/lib/store.ts: a record map whose mutators update
 * records in place and then write the changed fields through to the table.
 */
module Store {
  import opened Wrappers
  import opened Types
  import opened Counting
  import opened DbHooks
  import opened Db
  import opened Search

  type Memories = map<string, Memory>

  /** The record `addMemory` builds: no connections, energy 1.0, resonance 0.5, version 1. */
  function NewMemory(id: string, mtype: MemoryType, content: string, tags: seq<string>, now: int): Memory
  {
    Memory(id, mtype, content, [], 1.0, 0.5, now, tags, 1, None, None)
  }

  /** `connections.filter(c => c !== id)`. */
  function Without(xs: seq<string>, id: string): (r: seq<string>)
    ensures forall x :: x in r <==> x in xs && x != id
    ensures |r| <= |xs|
  {
    if xs == [] then [] else (if xs[0] == id then [] else [xs[0]]) + Without(xs[1..], id)
  }

  lemma {:induction false} WithoutIdempotent(xs: seq<string>, id: string)
    ensures Without(Without(xs, id), id) == Without(xs, id)
  {
    if xs != [] {
      WithoutIdempotent(xs[1..], id);
      var rest := Without(xs[1..], id);
      if xs[0] != id {
        assert Without(xs, id) == [xs[0]] + rest;
        assert ([xs[0]] + rest)[1..] == rest;
      } else {
        assert Without(xs, id) == [] + rest == rest;
      }
    }
  }

  /** One side of `connectMemories`: append b to a's list, and bump a's version, unless b is listed already. */
  function Link(mems: Memories, a: string, b: string): (r: Memories)
    requires a in mems
    ensures r.Keys == mems.Keys
  {
    var m := mems[a];
    if b in m.connections then mems
    else mems[a := m.(connections := m.connections + [b], version := m.version + 1)]
  }

  /** The map after `connectMemories`' in-place step; nothing changes unless both ids are stored. */
  function Connect(mems: Memories, s: string, t: string): Memories
  {
    if s in mems && t in mems then Link(Link(mems, s, t), t, s) else mems
  }

  /** `Math.max(0, Math.min(1, x))`. */
  function Clamp(x: real): (r: real)
    ensures 0.0 <= r <= 1.0
    ensures 0.0 <= x <= 1.0 ==> r == x
  {
    if x < 0.0 then 0.0 else if x > 1.0 then 1.0 else x
  }

  /** The map after `updateMemoryEnergy`' in-place step. */
  function UpdateEnergy(mems: Memories, id: string, delta: real): Memories
  {
    if id in mems then
      mems[id := mems[id].(energy := Clamp(mems[id].energy + delta), version := mems[id].version + 1)]
    else mems
  }

  /** What `removeMemory`' forEach does to a peer listed n times: n filters (one suffices) and n version bumps. */
  function Strip(m: Memory, id: string, n: nat): Memory
  {
    if n == 0 then m else m.(connections := Without(m.connections, id), version := m.version + n)
  }

  /** One iteration of `removeMemory`' forEach: the listed peer, when stored, drops the id and gains a version. */
  function StripPeer(mems: Memories, peer: string, id: string): Memories
  {
    if peer in mems then
      mems[peer := mems[peer].(connections := Without(mems[peer].connections, id), version := mems[peer].version + 1)]
    else mems
  }

  /** The forEach has visited the entries `done`: each record other than id is stripped once per visit. */
  ghost predicate StrippedFor(orig: Memories, cur: Memories, id: string, done: seq<string>)
  {
    && cur.Keys == orig.Keys
    && forall k :: k in cur && k != id ==> cur[k] == Strip(orig[k], id, Occurrences(done, k))
  }

  lemma StripPeerStep(orig: Memories, cur: Memories, id: string, done: seq<string>, peer: string)
    requires StrippedFor(orig, cur, id, done)
    ensures StrippedFor(orig, StripPeer(cur, peer, id), id, done + [peer])
  {
    var next := StripPeer(cur, peer, id);
    forall k | k in next && k != id
      ensures next[k] == Strip(orig[k], id, Occurrences(done + [peer], k))
    {
      OccurrencesSnoc(done, peer, k);
      if k == peer && Occurrences(done, k) > 0 {
        WithoutIdempotent(orig[k].connections, id);
      }
    }
  }

  /** Once the forEach has visited every listed peer, dropping the record itself gives Remove. */
  lemma StrippedForAll(orig: Memories, cur: Memories, id: string)
    requires id in orig && StrippedFor(orig, cur, id, orig[id].connections)
    ensures cur - {id} == Remove(orig, id)
  {
  }

  /** The map after `removeMemory`' in-place step. */
  function Remove(mems: Memories, id: string): Memories
  {
    if id !in mems then mems
    else map k | k in mems && k != id :: Strip(mems[k], id, Occurrences(mems[id].connections, k))
  }

  /** The records present among ids, in the order of ids (`ids.map(get).filter(defined)`). */
  function PresentAmong(rows: Memories, ids: seq<string>): (r: seq<Memory>)
    ensures |r| <= |ids|
    ensures forall m :: m in r <==> exists i :: 0 <= i < |ids| && ids[i] in rows && rows[ids[i]] == m
  {
    if ids == [] then []
    else
      var rest := PresentAmong(rows, ids[1..]);
      assert forall i :: 0 <= i < |ids[1..]| ==> ids[1..][i] == ids[i + 1];
      (if ids[0] in rows then [rows[ids[0]]] else []) + rest
  }

  /** `getConnectedMemories`. */
  function ConnectedMemories(mems: Memories, id: string): seq<Memory>
  {
    if id !in mems then [] else PresentAmong(mems, mems[id].connections)
  }

  /** `searchMemories`, as the set of matching stored records. */
  function SearchMemories(mems: Memories, query: string): (r: set<Memory>)
    ensures forall m :: m in r <==> m in mems.Values && Matches(m, query)
  {
    set m | m in mems.Values && Matches(m, query)
  }

  /** The fields `connectMemories` writes through for one record. */
  function LinkPatch(m: Memory): Patch
  {
    NO_CHANGES.(connections := Some(m.connections), version := Some(m.version))
  }

  /** The fields `updateMemoryEnergy` writes through. */
  function EnergyPatch(m: Memory): Patch
  {
    NO_CHANGES.(energy := Some(m.energy), version := Some(m.version))
  }

  // ---------------------------------------------------------------------------------------
  // Graph invariants

  /** Every listed connection is a stored record that lists the lister back. */
  ghost predicate Symmetric(mems: Memories)
  {
    forall a, b :: a in mems && b in mems[a].connections ==> b in mems && a in mems[b].connections
  }

  /** No connection list names a peer twice. */
  ghost predicate Deduplicated(mems: Memories)
  {
    forall a :: a in mems ==> Distinct(mems[a].connections)
  }

  ghost predicate EnergyInUnit(mems: Memories)
  {
    forall a :: a in mems ==> 0.0 <= mems[a].energy <= 1.0
  }

  // ---------------------------------------------------------------------------------------
  // Properties of the operations

  /** `addMemory` stores fresh defaults under the new id, and an unreferenced new node keeps the graph symmetric. */
  lemma AddMemorySpec(mems: Memories, id: string, mtype: MemoryType, content: string, tags: seq<string>, now: int)
    requires id !in mems
    ensures var r := mems[id := NewMemory(id, mtype, content, tags, now)];
      && r[id].connections == [] && r[id].energy == 1.0 && r[id].resonance == 0.5 && r[id].version == 1
      && (forall k :: k in mems ==> r[k] == mems[k])
      && (Symmetric(mems) ==> Symmetric(r))
      && (Deduplicated(mems) ==> Deduplicated(r))
      && (EnergyInUnit(mems) ==> EnergyInUnit(r))
  {
  }

  /**
   * With both ids stored, each side lists the other afterwards, and each side's version
   * rises by one exactly when its entry was newly appended; no other record changes.
   */
  lemma ConnectSpec(mems: Memories, s: string, t: string)
    requires s in mems && t in mems && s != t
    ensures var r := Connect(mems, s, t);
      && r.Keys == mems.Keys
      && t in r[s].connections && s in r[t].connections
      && r[s].connections == (if t in mems[s].connections then mems[s].connections else mems[s].connections + [t])
      && r[t].connections == (if s in mems[t].connections then mems[t].connections else mems[t].connections + [s])
      && r[s].version == mems[s].version + (if t in mems[s].connections then 0 else 1)
      && r[t].version == mems[t].version + (if s in mems[t].connections then 0 else 1)
      && (forall k :: k in mems && k != s && k != t ==> r[k] == mems[k])
  {
  }

  /** Connecting a record to itself lists it once in its own connections. */
  lemma ConnectSelf(mems: Memories, s: string)
    requires s in mems
    ensures var r := Connect(mems, s, s);
      && r[s].connections == (if s in mems[s].connections then mems[s].connections else mems[s].connections + [s])
      && r[s].version == mems[s].version + (if s in mems[s].connections then 0 else 1)
  {
  }

  /** Connecting an already connected pair again changes nothing. */
  lemma ConnectIdempotent(mems: Memories, s: string, t: string)
    ensures Connect(Connect(mems, s, t), s, t) == Connect(mems, s, t)
  {
  }

  /** With either id missing the map is left as it was. */
  lemma ConnectMissing(mems: Memories, s: string, t: string)
    requires s !in mems || t !in mems
    ensures Connect(mems, s, t) == mems
  {
  }

  /** After connecting, a list holds its old entries plus the new peer, and nothing else. */
  lemma ConnectListsGrow(mems: Memories, s: string, t: string)
    requires s in mems && t in mems
    ensures forall a, x :: a in mems ==>
      (x in Connect(mems, s, t)[a].connections <==>
        x in mems[a].connections || (a == s && x == t) || (a == t && x == s))
  {
  }

  /** Connecting keeps the graph symmetric. */
  lemma ConnectPreservesSymmetry(mems: Memories, s: string, t: string)
    requires Symmetric(mems)
    ensures Symmetric(Connect(mems, s, t))
  {
    if s in mems && t in mems {
      var r := Connect(mems, s, t);
      ConnectListsGrow(mems, s, t);
      forall a, b | a in r && b in r[a].connections ensures b in r && a in r[b].connections {
        if !(a == s && b == t) && !(a == t && b == s) {
          assert b in mems[a].connections;
        }
      }
    }
  }

  /** Connecting keeps every list free of duplicates, and leaves energies alone. */
  lemma ConnectPreservesDeduplication(mems: Memories, s: string, t: string)
    requires Deduplicated(mems)
    ensures Deduplicated(Connect(mems, s, t))
    ensures EnergyInUnit(mems) ==> EnergyInUnit(Connect(mems, s, t))
  {
    if s in mems && t in mems {
      var m1 := Link(mems, s, t);
      if t !in mems[s].connections {
        DistinctSnoc(mems[s].connections, t);
      }
      assert Deduplicated(m1);
      if s !in m1[t].connections {
        DistinctSnoc(m1[t].connections, s);
      }
    }
  }

  /** The energy becomes clamp(energy + delta, 0, 1), the version rises by one, nothing else changes. */
  lemma UpdateEnergySpec(mems: Memories, id: string, delta: real)
    ensures var r := UpdateEnergy(mems, id, delta);
      && r.Keys == mems.Keys
      && (id in mems ==>
            && 0.0 <= r[id].energy <= 1.0 && r[id].version == mems[id].version + 1
            && r[id] == mems[id].(energy := r[id].energy, version := r[id].version)
            && (0.0 <= mems[id].energy + delta <= 1.0 ==> r[id].energy == mems[id].energy + delta))
      && (forall k :: k in mems && k != id ==> r[k] == mems[k])
      && (EnergyInUnit(mems) ==> EnergyInUnit(r))
      && (Symmetric(mems) ==> Symmetric(r))
      && (Deduplicated(mems) ==> Deduplicated(r))
  {
  }

  lemma {:induction false} OccurrencesPositive(s: seq<string>, x: string)
    ensures x in s <==> Occurrences(s, x) > 0
  {
    if s != [] {
      OccurrencesPositive(s[..|s| - 1], x);
      assert s == s[..|s| - 1] + [s[|s| - 1]];
    }
  }

  /**
   * Removal deletes the record; every record it listed (n times) loses the id from its
   * connections and gains n versions; every other record is unchanged.
   */
  lemma RemoveSpec(mems: Memories, id: string)
    requires id in mems
    ensures var r := Remove(mems, id);
      && r.Keys == mems.Keys - {id}
      && (forall k :: k in r && k in mems[id].connections ==>
            id !in r[k].connections
            && r[k] == mems[k].(connections := Without(mems[k].connections, id),
                                version := mems[k].version + Occurrences(mems[id].connections, k)))
      && (forall k :: k in r && k !in mems[id].connections ==> r[k] == mems[k])
  {
    var r := Remove(mems, id);
    forall k | k in r
      ensures k in mems[id].connections ==>
        id !in r[k].connections
        && r[k] == mems[k].(connections := Without(mems[k].connections, id),
                            version := mems[k].version + Occurrences(mems[id].connections, k))
      ensures k !in mems[id].connections ==> r[k] == mems[k]
    {
      OccurrencesPositive(mems[id].connections, k);
    }
  }

  /** What removal does to one remaining record. */
  lemma RemoveAt(mems: Memories, id: string, k: string)
    requires id in mems && k in mems && k != id
    ensures k in Remove(mems, id)
    ensures k in mems[id].connections ==>
      forall x :: x in Remove(mems, id)[k].connections <==> x in mems[k].connections && x != id
    ensures k !in mems[id].connections ==> Remove(mems, id)[k] == mems[k]
    ensures Distinct(mems[k].connections) ==> Distinct(Remove(mems, id)[k].connections)
  {
    OccurrencesPositive(mems[id].connections, k);
    if k in mems[id].connections && Distinct(mems[k].connections) {
      WithoutDistinct(mems[k].connections, id);
    }
  }

  /** On a symmetric graph no remaining record references the removed id, and the graph stays symmetric. */
  lemma RemoveClearsReferences(mems: Memories, id: string)
    requires Symmetric(mems)
    ensures forall k :: k in Remove(mems, id) ==> id !in Remove(mems, id)[k].connections
    ensures Symmetric(Remove(mems, id))
    ensures Deduplicated(mems) ==> Deduplicated(Remove(mems, id))
  {
    if id in mems {
      var r := Remove(mems, id);
      forall k | k in r ensures id !in r[k].connections {
        RemoveAt(mems, id, k);
        if id in mems[k].connections {
          assert k in mems[id].connections;
        }
      }
      forall a, b | a in r && b in r[a].connections ensures b in r && a in r[b].connections {
        RemoveAt(mems, id, a);
        if a !in mems[id].connections {
          assert id !in mems[a].connections;
        }
        assert b in mems[a].connections && b != id;
        RemoveAt(mems, id, b);
      }
      if Deduplicated(mems) {
        forall a | a in r ensures Distinct(r[a].connections) {
          RemoveAt(mems, id, a);
        }
      }
    }
  }

  lemma {:induction false} WithoutDistinct(xs: seq<string>, id: string)
    requires Distinct(xs)
    ensures Distinct(Without(xs, id))
  {
    if xs != [] {
      assert Distinct(xs[1..]) by {
        forall i, j | 0 <= i < j < |xs[1..]| ensures xs[1..][i] != xs[1..][j] {
          assert xs[1..][i] == xs[i + 1] && xs[1..][j] == xs[j + 1];
        }
      }
      WithoutDistinct(xs[1..], id);
      var rest := Without(xs[1..], id);
      if xs[0] != id {
        assert xs[0] !in xs[1..] by {
          forall i | 0 <= i < |xs[1..]| ensures xs[1..][i] != xs[0] {
            assert xs[1..][i] == xs[i + 1];
          }
        }
        var r := [xs[0]] + rest;
        forall i, j | 0 <= i < j < |r| ensures r[i] != r[j] {
          if i == 0 {
            assert r[j] == rest[j - 1];
          } else {
            assert r[i] == rest[i - 1] && r[j] == rest[j - 1];
          }
        }
      }
    }
  }

  /** The present records keep the order of the ids they come from. */
  lemma {:induction false} PresentAmongConcat(rows: Memories, a: seq<string>, b: seq<string>)
    ensures PresentAmong(rows, a + b) == PresentAmong(rows, a) + PresentAmong(rows, b)
  {
    if a == [] {
      assert a + b == b;
    } else {
      assert (a + b)[0] == a[0];
      assert (a + b)[1..] == a[1..] + b;
      PresentAmongConcat(rows, a[1..], b);
    }
  }

  /** When every id is stored, the lookup returns one record per id, position by position. */
  lemma {:induction false} PresentAmongAllStored(rows: Memories, ids: seq<string>)
    requires forall i :: 0 <= i < |ids| ==> ids[i] in rows
    ensures |PresentAmong(rows, ids)| == |ids|
    ensures forall i :: 0 <= i < |ids| ==> PresentAmong(rows, ids)[i] == rows[ids[i]]
  {
    if ids != [] {
      PresentAmongAllStored(rows, ids[1..]);
    }
  }

  /** An unknown id has no connected memories; otherwise they are the stored records among its connections, in order. */
  lemma ConnectedMemoriesSpec(mems: Memories, id: string)
    ensures id !in mems ==> ConnectedMemories(mems, id) == []
    ensures id in mems ==> forall m :: m in ConnectedMemories(mems, id) <==>
      exists i :: 0 <= i < |mems[id].connections| && mems[id].connections[i] in mems && mems[mems[id].connections[i]] == m
    ensures id in mems && Symmetric(mems) ==>
      |ConnectedMemories(mems, id)| == |mems[id].connections|
      && forall i :: 0 <= i < |mems[id].connections| ==>
           ConnectedMemories(mems, id)[i] == mems[mems[id].connections[i]]
  {
    if id in mems && Symmetric(mems) {
      PresentAmongAllStored(mems, mems[id].connections);
    }
  }

  /** The empty query returns every stored memory; the query's letter case does not matter. */
  lemma SearchMemoriesSpec(mems: Memories, query: string)
    ensures SearchMemories(mems, "") == mems.Values
    ensures SearchMemories(mems, Text.ToLower(query)) == SearchMemories(mems, query)
  {
    forall m | m in mems.Values ensures Matches(m, "") {
      EmptyQueryMatches(m);
    }
    forall m | m in mems.Values ensures Matches(m, Text.ToLower(query)) == Matches(m, query) {
      MatchesIgnoresQueryCase(m, query);
    }
  }

  /**
   * What `connectMemories` writes through to the table, whatever the table held: each row
   * takes the map's new connections, and the map's version stamped over the row's. When the
   * rows held the map's records, both rows end one version up; a side that was already
   * linked keeps its version in the map, so its row moves one version ahead of the map.
   */
  lemma ConnectWriteThrough(rows: map<string, Memory>, mems: Memories, s: string, t: string)
    requires s in mems && t in mems && s != t
    ensures var c := Connect(mems, s, t);
      var r := UpdateRows(UpdateRows(rows, s, LinkPatch(c[s])), t, LinkPatch(c[t]));
      && r.Keys == rows.Keys
      && (forall k :: k in rows && k != s && k != t ==> r[k] == rows[k])
      && (s in rows ==> r[s] == rows[s].(connections := c[s].connections, version := Stamped(rows[s].version, c[s].version)))
      && (t in rows ==> r[t] == rows[t].(connections := c[t].connections, version := Stamped(rows[t].version, c[t].version)))
      && (s in rows && rows[s] == mems[s] ==> r[s] == c[s].(version := mems[s].version + 1))
      && (t in rows && rows[t] == mems[t] ==> r[t] == c[t].(version := mems[t].version + 1))
      && (s in rows && rows[s] == mems[s] && t in mems[s].connections ==> r[s].version == c[s].version + 1)
  {
    var c := Connect(mems, s, t);
    ConnectSpec(mems, s, t);
    var mid := UpdateRows(rows, s, LinkPatch(c[s]));
    UpdateRowsSpec(rows, s, LinkPatch(c[s]));
    UpdateRowsSpec(mid, t, LinkPatch(c[t]));
  }

  /**
   * What `updateMemoryEnergy` writes through: the row takes the map's new energy and the
   * map's new version, one above the map's old one, stamped over the row's, unless it holds
   * both already and nothing is written. A row that held the map's record ends equal to the
   * map's new record.
   */
  lemma UpdateEnergyWriteThrough(rows: map<string, Memory>, mems: Memories, id: string, delta: real)
    requires id in mems
    ensures var u := UpdateEnergy(mems, id, delta);
      var r := UpdateRows(rows, id, EnergyPatch(u[id]));
      && r.Keys == rows.Keys
      && (forall k :: k in rows && k != id ==> r[k] == rows[k])
      && (id in rows ==>
            r[id] == (if rows[id].energy == u[id].energy && rows[id].version == u[id].version then rows[id]
                      else rows[id].(energy := u[id].energy, version := Stamped(rows[id].version, u[id].version))))
      && (id in rows && rows[id] == mems[id] ==> r[id] == u[id])
  {
    UpdateRowsSpec(rows, id, EnergyPatch(UpdateEnergy(mems, id, delta)[id]));
  }

  // ---------------------------------------------------------------------------------------
  // The store

  class GraphStore {
    /** `state.memories`. */
    var memories: Memories
    /** The table the store writes through to. */
    const db: Table

    constructor (db: Table)
      ensures memories == map[] && this.db == db
    {
      memories := map[];
      this.db := db;
    }

    /**
     * `addMemory`: writes the new record to the table first; when the table already holds
     * the id, the add rejects and the map is left alone.
     */
    method AddMemory(mtype: MemoryType, content: string, tags: seq<string>, id: string, now: int)
      returns (r: Result<string, Error>)
      modifies this, db
      ensures id in old(db.rows) ==>
        r == Err(KeyExists) && memories == old(memories) && db.rows == old(db.rows)
      ensures id !in old(db.rows) ==>
        && r == Ok(id)
        && memories == old(memories)[id := NewMemory(id, mtype, content, tags, now)]
        && db.rows == old(db.rows)[id := NewMemory(id, mtype, content, tags, now)]
    {
      var memory := NewMemory(id, mtype, content, tags, now);
      var added := db.Add(memory, now);
      if added.Fail? {
        return Err(added.error);
      }
      memories := memories[id := memory];
      r := Ok(id);
    }

    /**
     * `connectMemories`: the in-place step of Connect, then both records' connections and
     * versions are written through, source first. The writes are built in array order: with
     * the source missing, reading it back fails before any write is issued; with only the
     * target missing, the source's write (of its unchanged map record) is already issued
     * when reading the target fails.
     */
    method ConnectMemories(sourceId: string, targetId: string) returns (r: Outcome<Error>)
      modifies this, db
      ensures memories == Connect(old(memories), sourceId, targetId)
      ensures sourceId in old(memories) && targetId in old(memories) ==>
        && r == Pass
        && db.rows == UpdateRows(UpdateRows(old(db.rows), sourceId, LinkPatch(memories[sourceId])),
                                 targetId, LinkPatch(memories[targetId]))
      ensures sourceId in old(memories) && targetId !in old(memories) ==>
        && r == Fail(UndefinedRecord)
        && db.rows == UpdateRows(old(db.rows), sourceId, LinkPatch(old(memories)[sourceId]))
      ensures sourceId !in old(memories) ==> r == Fail(UndefinedRecord) && db.rows == old(db.rows)
    {
      if sourceId in memories && targetId in memories {
        var source := memories[sourceId];
        if targetId !in source.connections {
          memories := memories[sourceId := source.(connections := source.connections + [targetId],
                                                   version := source.version + 1)];
        }
        var target := memories[targetId];
        if sourceId !in target.connections {
          memories := memories[targetId := target.(connections := target.connections + [sourceId],
                                                   version := target.version + 1)];
        }
      }
      if sourceId !in memories {
        return Fail(UndefinedRecord);
      }
      db.Update(sourceId, LinkPatch(memories[sourceId]));
      if targetId !in memories {
        return Fail(UndefinedRecord);
      }
      db.Update(targetId, LinkPatch(memories[targetId]));
      r := Pass;
    }

    /** `updateMemoryEnergy`: the in-place clamp and bump, then energy and version are written through. */
    method UpdateMemoryEnergy(id: string, delta: real) returns (r: Outcome<Error>)
      modifies this, db
      ensures memories == UpdateEnergy(old(memories), id, delta)
      ensures id in old(memories) ==> r == Pass && db.rows == UpdateRows(old(db.rows), id, EnergyPatch(memories[id]))
      ensures id !in old(memories) ==> r == Fail(UndefinedRecord) && db.rows == old(db.rows)
    {
      if id in memories {
        var memory := memories[id];
        memories := memories[id := memory.(energy := Clamp(memory.energy + delta), version := memory.version + 1)];
      }
      if id !in memories {
        return Fail(UndefinedRecord);
      }
      db.Update(id, EnergyPatch(memories[id]));
      r := Pass;
    }

    /**
     * `removeMemory`: the forEach over the record's connections strips the id from each
     * listed peer and bumps its version, then the record is deleted from the map and from
     * the table (the peers' table rows are not rewritten).
     */
    method RemoveMemory(id: string)
      modifies this, db
      ensures memories == Remove(old(memories), id)
      ensures db.rows == old(db.rows) - {id}
    {
      if id in memories {
        var connections := memories[id].connections;
        var i := 0;
        while i < |connections|
          invariant 0 <= i <= |connections|
          invariant StrippedFor(old(memories), memories, id, connections[..i])
          invariant db.rows == old(db.rows)
        {
          var connectedId := connections[i];
          ghost var before := memories;
          StripPeerStep(old(memories), before, id, connections[..i], connectedId);
          if connectedId in memories {
            var connected := memories[connectedId];
            memories := memories[connectedId := connected.(connections := Without(connected.connections, id),
                                                           version := connected.version + 1)];
          }
          assert memories == StripPeer(before, connectedId, id);
          assert connections[..i + 1] == connections[..i] + [connectedId];
          i := i + 1;
        }
        assert connections[..|connections|] == connections;
        StrippedForAll(old(memories), memories, id);
        memories := memories - {id};
      }
      db.Delete(id);
    }
  }
}
