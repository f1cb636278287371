/**
 * The outgoing replication queue of src/lib/core/SyncManager.ts: a bounded FIFO of events
 * drained in batches into the local handler, a sync-status flag, and an instance registry.
 */
module Sync {
  import opened Wrappers
  import opened Types
  import opened Config
  import opened Db
  import opened SyncEvents

  type Records = map<string, Memory>

  /** `broadcast`'s enqueue: the event joins the tail only while the queue has room. */
  function Enqueue(q: seq<SyncEvent>, e: SyncEvent): seq<SyncEvent>
  {
    if |q| < MAX_QUEUE_SIZE then q + [e] else q
  }

  /** `Math.min(BATCH_SIZE, queue.length)`. */
  function BatchSize(n: nat): (r: nat)
    ensures r <= n && r <= SYNC_BATCH_SIZE
    ensures n > 0 ==> r > 0
  {
    if SYNC_BATCH_SIZE < n then SYNC_BATCH_SIZE else n
  }

  /** The number of drains that empty a queue of n events when nothing is enqueued meanwhile. */
  function Drains(n: nat): nat
    decreases n
  {
    if n == 0 then 0 else 1 + Drains(n - BatchSize(n))
  }

  /** The batches successive drains take from q. */
  function Batches(q: seq<SyncEvent>): seq<seq<SyncEvent>>
    decreases |q|
  {
    if q == [] then [] else [q[..BatchSize(|q|)]] + Batches(q[BatchSize(|q|)..])
  }

  function Flatten(bs: seq<seq<SyncEvent>>): seq<SyncEvent>
  {
    if bs == [] then [] else bs[0] + Flatten(bs[1..])
  }

  /** Handling the events one after another; the outcome is the first failure, if any. */
  function ApplyAll(rows: Records, es: seq<SyncEvent>): Applied
    decreases |es|
  {
    if es == [] then Applied(Pass, rows)
    else
      var prev := ApplyAll(rows, es[..|es| - 1]);
      var a := ApplyEvent(prev.rows, es[|es| - 1]);
      Applied(if prev.outcome.Fail? then prev.outcome else a.outcome, a.rows)
  }

  /** The sync status after handling the events: that of the last one, or the old status if there are none. */
  function LastStatus(rows: Records, es: seq<SyncEvent>, status: bool): bool
  {
    if es == [] then status
    else ApplyEvent(ApplyAll(rows, es[..|es| - 1]).rows, es[|es| - 1]).outcome.Pass?
  }

  /** Handling the batches one after another. */
  function ApplyBatches(rows: Records, bs: seq<seq<SyncEvent>>): Records
    decreases |bs|
  {
    if bs == [] then rows else ApplyBatches(ApplyAll(rows, bs[0]).rows, bs[1..])
  }

  /** `checkInstances`' test, as written: the time minus the status flag taken as 0 or 1. */
  predicate Stale(active: bool, now: int)
  {
    now - (if active then 1 else 0) > INSTANCE_TIMEOUT
  }

  /** The registry after `checkInstances`. */
  function Prune(instances: map<string, bool>, now: int): map<string, bool>
  {
    map k | k in instances && !Stale(instances[k], now) :: instances[k]
  }

  // ---------------------------------------------------------------------------------------
  // Properties

  /** The queue never grows past MAX_QUEUE_SIZE; an event is dropped exactly when the queue is full, and the queue keeps its order. */
  lemma EnqueueSpec(q: seq<SyncEvent>, e: SyncEvent)
    ensures |q| <= MAX_QUEUE_SIZE ==> |Enqueue(q, e)| <= MAX_QUEUE_SIZE
    ensures Enqueue(q, e) == q <==> |q| >= MAX_QUEUE_SIZE
    ensures Enqueue(q, e)[..|q|] == q
    ensures |q| < MAX_QUEUE_SIZE ==> Enqueue(q, e)[|q|] == e
  {
  }

  /** n events are flushed in ceil(n / 50) drains. */
  lemma {:induction false} DrainsCount(n: nat)
    ensures Drains(n) == (n + SYNC_BATCH_SIZE - 1) / SYNC_BATCH_SIZE
  {
    if n > 0 {
      DrainsCount(n - BatchSize(n));
    }
  }

  /**
   * Successive drains take batches of at most 50 events, none empty, whose concatenation is
   * the queue in its own order; there are ceil(n / 50) of them.
   */
  lemma {:induction false} BatchesSpec(q: seq<SyncEvent>)
    ensures Flatten(Batches(q)) == q
    ensures |Batches(q)| == Drains(|q|)
    ensures forall i :: 0 <= i < |Batches(q)| ==> 0 < |Batches(q)[i]| <= SYNC_BATCH_SIZE
    decreases |q|
  {
    if q != [] {
      var n := BatchSize(|q|);
      BatchesSpec(q[n..]);
      var bs := Batches(q);
      assert bs[1..] == Batches(q[n..]);
      assert q[..n] + q[n..] == q;
    }
  }

  lemma {:induction false} ApplyAllAppend(rows: Records, a: seq<SyncEvent>, b: seq<SyncEvent>)
    ensures ApplyAll(rows, a + b).rows == ApplyAll(ApplyAll(rows, a).rows, b).rows
    decreases |b|
  {
    if b == [] {
      assert a + b == a;
    } else {
      var init := b[..|b| - 1];
      ApplyAllAppend(rows, a, init);
      assert (a + b)[..|a + b| - 1] == a + init;
      assert (a + b)[|a + b| - 1] == b[|b| - 1];
    }
  }

  lemma {:induction false} ApplyBatchesFlatten(rows: Records, bs: seq<seq<SyncEvent>>)
    ensures ApplyBatches(rows, bs) == ApplyAll(rows, Flatten(bs)).rows
    decreases |bs|
  {
    if bs != [] {
      ApplyBatchesFlatten(ApplyAll(rows, bs[0]).rows, bs[1..]);
      ApplyAllAppend(rows, bs[0], Flatten(bs[1..]));
    }
  }

  /** Draining the whole queue batch by batch handles every event once, in enqueue order. */
  lemma DrainsPreserveOrder(rows: Records, q: seq<SyncEvent>)
    ensures ApplyBatches(rows, Batches(q)) == ApplyAll(rows, q).rows
  {
    ApplyBatchesFlatten(rows, Batches(q));
    BatchesSpec(q);
  }

  /** The i-th event succeeds when handled after the ones before it. */
  predicate StepPasses(rows: Records, es: seq<SyncEvent>, i: nat)
    requires i < |es|
  {
    ApplyEvent(ApplyAll(rows, es[..i]).rows, es[i]).outcome.Pass?
  }

  /** The drain's outcome is a failure exactly when some event of the batch failed at its turn. */
  lemma {:induction false} ApplyAllOutcome(rows: Records, es: seq<SyncEvent>)
    ensures ApplyAll(rows, es).outcome.Pass? <==> forall i :: 0 <= i < |es| ==> StepPasses(rows, es, i)
    decreases |es|
  {
    if es != [] {
      var init := es[..|es| - 1];
      ApplyAllOutcome(rows, init);
      forall i | 0 <= i < |init| ensures StepPasses(rows, es, i) == StepPasses(rows, init, i) {
        assert es[..i] == init[..i];
      }
      assert StepPasses(rows, es, |es| - 1) == ApplyEvent(ApplyAll(rows, init).rows, es[|es| - 1]).outcome.Pass?;
    }
  }

  /**
   * The registry check as written compares the time with a boolean: at any time past
   * 30001 ms it removes every instance, the one just registered included.
   */
  lemma PruneRemovesAll(instances: map<string, bool>, now: int)
    requires now > INSTANCE_TIMEOUT + 1
    ensures Prune(instances, now) == map[]
  {
  }

  /** At times up to 30000 ms nothing is removed. */
  lemma PruneKeepsAllEarly(instances: map<string, bool>, now: int)
    requires now <= INSTANCE_TIMEOUT
    ensures Prune(instances, now) == instances
  {
  }

  // ---------------------------------------------------------------------------------------
  // The manager

  class SyncManager {
    /** The handler, built with this manager's own instance id. */
    const handler: SyncEventHandler
    /** The registry: each instance's status flag. */
    var instances: map<string, bool>
    /** The current value of `syncStatus`. */
    var syncStatus: bool
    var eventQueue: seq<SyncEvent>
    var processingQueue: bool

    /** The manager starts with no instances, status true, an empty queue, and not processing. */
    constructor (instanceId: string, db: Table)
      ensures handler.instanceId == instanceId && handler.db == db
      ensures instances == map[] && syncStatus && eventQueue == [] && !processingQueue
    {
      handler := new SyncEventHandler(instanceId, db);
      instances := map[];
      syncStatus := true;
      eventQueue := [];
      processingQueue := false;
    }

    /** `registerInstance`: records the instance as active, then runs the registry check. */
    method RegisterInstance(id: string, now: int)
      modifies this
      ensures instances == Prune(old(instances)[id := true], now)
      ensures syncStatus == old(syncStatus) && eventQueue == old(eventQueue) && processingQueue == old(processingQueue)
    {
      instances := instances[id := true];
      CheckInstances(now);
    }

    /** `unregisterInstance`: forgets the instance, then runs the registry check. */
    method UnregisterInstance(id: string, now: int)
      modifies this
      ensures instances == Prune(old(instances) - {id}, now)
      ensures id !in instances
      ensures syncStatus == old(syncStatus) && eventQueue == old(eventQueue) && processingQueue == old(processingQueue)
    {
      instances := instances - {id};
      CheckInstances(now);
    }

    /** `checkInstances`: deletes, entry by entry, every instance the test calls stale. */
    method CheckInstances(now: int)
      modifies this
      ensures instances == Prune(old(instances), now)
      ensures syncStatus == old(syncStatus) && eventQueue == old(eventQueue) && processingQueue == old(processingQueue)
    {
      var remaining := instances.Keys;
      while remaining != {}
        invariant remaining <= old(instances).Keys
        invariant instances.Keys <= old(instances).Keys
        invariant forall k :: k in instances ==> instances[k] == old(instances)[k]
        invariant forall k :: k in remaining ==> k in instances
        invariant forall k :: k in old(instances) && k !in remaining ==>
          (k in instances <==> !Stale(old(instances)[k], now))
        invariant syncStatus == old(syncStatus) && eventQueue == old(eventQueue) && processingQueue == old(processingQueue)
        decreases remaining
      {
        var id :| id in remaining;
        if Stale(instances[id], now) {
          instances := instances - {id};
        }
        remaining := remaining - {id};
      }
      assert instances.Keys == Prune(old(instances), now).Keys;
    }

    /** `broadcast`: stamps the event and enqueues it while the queue has room. */
    method Broadcast(etype: EventType, payload: Payload, now: int)
      modifies this
      ensures eventQueue == Enqueue(old(eventQueue), handler.CreateEvent(etype, payload, now))
      ensures instances == old(instances) && syncStatus == old(syncStatus) && processingQueue == old(processingQueue)
    {
      var event := handler.CreateEvent(etype, payload, now);
      if |eventQueue| < MAX_QUEUE_SIZE {
        eventQueue := eventQueue + [event];
      }
    }

    /** `broadcastMemoryCreation`: an 'add' event with payload `{id}`. */
    method BroadcastMemoryCreation(id: string, now: int)
      modifies this
      ensures eventQueue == Enqueue(old(eventQueue), SyncEvent(Add, Ref(id), handler.instanceId, now))
      ensures instances == old(instances) && syncStatus == old(syncStatus) && processingQueue == old(processingQueue)
    {
      Broadcast(Add, Ref(id), now);
    }

    /** `broadcastConnection`: a 'connect' event with payload `{sourceId, targetId}`. */
    method BroadcastConnection(sourceId: string, targetId: string, now: int)
      modifies this
      ensures eventQueue == Enqueue(old(eventQueue), SyncEvent(Connect, Link(sourceId, targetId), handler.instanceId, now))
      ensures instances == old(instances) && syncStatus == old(syncStatus) && processingQueue == old(processingQueue)
    {
      Broadcast(Connect, Link(sourceId, targetId), now);
    }

    /** `broadcastMemoryUpdate`: an 'update' event with payload `{id, ...updates}`. */
    method BroadcastMemoryUpdate(id: string, updates: Patch, now: int)
      modifies this
      ensures eventQueue == Enqueue(old(eventQueue), SyncEvent(Update, Changes(id, updates), handler.instanceId, now))
      ensures instances == old(instances) && syncStatus == old(syncStatus) && processingQueue == old(processingQueue)
    {
      Broadcast(Update, Changes(id, updates), now);
    }

    /** `broadcastMemoryRemoval`: a 'remove' event with payload `{id}` (an object, not the bare key the handler deletes by). */
    method BroadcastMemoryRemoval(id: string, now: int)
      modifies this
      ensures eventQueue == Enqueue(old(eventQueue), SyncEvent(Remove, Ref(id), handler.instanceId, now))
      ensures instances == old(instances) && syncStatus == old(syncStatus) && processingQueue == old(processingQueue)
    {
      Broadcast(Remove, Ref(id), now);
    }

    /** `handleEvent`: runs the handler and sets the status to whether it succeeded; a failure is passed on. */
    method HandleEvent(e: SyncEvent) returns (r: Outcome<Error>)
      modifies this, handler.db
      ensures var a := ApplyEvent(old(handler.db.rows), e);
        r == a.outcome && handler.db.rows == a.rows
      ensures syncStatus == r.Pass?
      ensures instances == old(instances) && eventQueue == old(eventQueue) && processingQueue == old(processingQueue)
    {
      r := handler.HandleEvent(e);
      syncStatus := r.Pass?;
    }

    /**
     * `processEventQueue`: unless a drain is running or the queue is empty, takes the first
     * min(50, n) events off the queue and hands each to `handleEvent`. Here they run one
     * after the other (every one runs even after a failure), a serialisation of the batch's
     * `Promise.all`. The outcome is the first failure; the status is that of the event handled
     * last; and the processing flag is clear again afterwards.
     */
    method ProcessEventQueue() returns (r: Outcome<Error>)
      modifies this, handler.db
      ensures old(processingQueue) || old(eventQueue) == [] ==>
        && r == Pass && eventQueue == old(eventQueue) && handler.db.rows == old(handler.db.rows)
        && syncStatus == old(syncStatus) && processingQueue == old(processingQueue)
      ensures !old(processingQueue) && old(eventQueue) != [] ==>
        var batch := old(eventQueue)[..BatchSize(|old(eventQueue)|)];
        && eventQueue == old(eventQueue)[BatchSize(|old(eventQueue)|)..]
        && handler.db.rows == ApplyAll(old(handler.db.rows), batch).rows
        && r == ApplyAll(old(handler.db.rows), batch).outcome
        && syncStatus == LastStatus(old(handler.db.rows), batch, old(syncStatus))
        && !processingQueue
      ensures instances == old(instances)
    {
      if processingQueue || |eventQueue| == 0 {
        return Pass;
      }
      processingQueue := true;
      var batchSize := BatchSize(|eventQueue|);
      var batch := eventQueue[..batchSize];
      eventQueue := eventQueue[batchSize..];
      ghost var rows0 := handler.db.rows;
      r := Pass;
      var i := 0;
      while i < |batch|
        invariant 0 <= i <= |batch|
        invariant handler.db.rows == ApplyAll(rows0, batch[..i]).rows
        invariant r == ApplyAll(rows0, batch[..i]).outcome
        invariant syncStatus == LastStatus(rows0, batch[..i], old(syncStatus))
        invariant eventQueue == old(eventQueue)[batchSize..] && instances == old(instances) && processingQueue
      {
        assert batch[..i + 1][..i] == batch[..i];
        var outcome := HandleEvent(batch[i]);
        if r.Pass? && outcome.Fail? {
          r := outcome;
        }
        i := i + 1;
      }
      assert batch[..|batch|] == batch;
      processingQueue := false;
    }
  }
}
