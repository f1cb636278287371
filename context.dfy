/**
 * The context service of src/lib/services/context.ts: one state value, replaced as a whole
 * by each operation, holding the focused memory, a memory stack and a set of context tags.
 */
module Context {
  import opened Wrappers
  import opened Types
  import opened Db
  import Store

  type Records = map<string, Memory>

  datatype ContextState = ContextState(
    activeMemories: seq<Memory>,
    focusedMemoryId: Option<string>,
    contextualResonance: real,
    memoryStack: seq<string>,
    contextTags: set<string>)

  /** The state the service starts in. */
  const INITIAL: ContextState := ContextState([], None, 0.5, [], {})

  /**
   * `setFocusedMemory`: a missing or empty id clears the focus; a stored id becomes the
   * focus, with that memory and its stored connections active; an unknown id changes nothing.
   */
  function Focus(s: ContextState, rows: Records, id: Option<string>): ContextState
  {
    if id.None? || id.value == "" then s.(focusedMemoryId := None, activeMemories := [])
    else if id.value !in rows then s
    else
      var memory := rows[id.value];
      s.(focusedMemoryId := id, activeMemories := [memory] + Store.PresentAmong(rows, memory.connections))
  }

  /** `pushMemoryContext`. */
  function Push(s: ContextState, id: string): ContextState
  {
    s.(memoryStack := s.memoryStack + [id])
  }

  /** `popMemoryContext`: `slice(0, -1)`, which leaves an empty stack empty. */
  function Pop(s: ContextState): ContextState
  {
    s.(memoryStack := if s.memoryStack == [] then [] else s.memoryStack[..|s.memoryStack| - 1])
  }

  // ---------------------------------------------------------------------------------------
  // Properties

  /** Clearing the focus empties the active memories and keeps the rest of the state. */
  lemma FocusClear(s: ContextState, rows: Records)
    ensures Focus(s, rows, None) == s.(focusedMemoryId := None, activeMemories := [])
    ensures Focus(s, rows, Some("")) == Focus(s, rows, None)
  {
  }

  /** An unknown id leaves the state as it was. */
  lemma FocusUnknown(s: ContextState, rows: Records, id: string)
    requires id != "" && id !in rows
    ensures Focus(s, rows, Some(id)) == s
  {
  }

  /**
   * Focusing a stored memory makes it the first active memory, followed by exactly the
   * stored records among its connections, in connection order; the stack, tags and
   * resonance are kept.
   */
  lemma FocusStored(s: ContextState, rows: Records, id: string)
    requires id != "" && id in rows
    ensures var f := Focus(s, rows, Some(id));
      && f.focusedMemoryId == Some(id)
      && f.activeMemories[0] == rows[id]
      && f.activeMemories[1..] == Store.PresentAmong(rows, rows[id].connections)
      && (forall m :: m in f.activeMemories[1..] <==>
            exists i :: 0 <= i < |rows[id].connections| && rows[id].connections[i] in rows && rows[rows[id].connections[i]] == m)
      && f.memoryStack == s.memoryStack && f.contextTags == s.contextTags
      && f.contextualResonance == s.contextualResonance
  {
    var f := Focus(s, rows, Some(id));
    assert f.activeMemories[1..] == Store.PresentAmong(rows, rows[id].connections);
  }

  /** When every connection is stored, one active memory follows per connection, position by position. */
  lemma FocusAllConnectionsStored(s: ContextState, rows: Records, id: string)
    requires id != "" && id in rows
    requires forall i :: 0 <= i < |rows[id].connections| ==> rows[id].connections[i] in rows
    ensures var f := Focus(s, rows, Some(id));
      && |f.activeMemories| == 1 + |rows[id].connections|
      && forall i :: 0 <= i < |rows[id].connections| ==> f.activeMemories[i + 1] == rows[rows[id].connections[i]]
  {
    Store.PresentAmongAllStored(rows, rows[id].connections);
  }

  /** Push appends at the top and keeps the rest of the state; pop removes the top; pop after push restores the stack. */
  lemma StackSpec(s: ContextState, id: string)
    ensures Push(s, id).memoryStack[|s.memoryStack|] == id
    ensures Push(s, id).memoryStack[..|s.memoryStack|] == s.memoryStack
    ensures Push(s, id).(memoryStack := s.memoryStack) == s
    ensures Pop(Push(s, id)) == s
    ensures s.memoryStack == [] ==> Pop(s) == s
    ensures s.memoryStack != [] ==> Pop(s).memoryStack + [s.memoryStack[|s.memoryStack| - 1]] == s.memoryStack
  {
    assert (s.memoryStack + [id])[..|s.memoryStack|] == s.memoryStack;
  }

  /** Adding a present tag, or removing an absent one, changes nothing; adding then removing a new tag restores the set. */
  lemma TagsSpec(s: ContextState, tag: string)
    ensures tag in s.contextTags ==> s.(contextTags := s.contextTags + {tag}) == s
    ensures tag !in s.contextTags ==> s.(contextTags := s.contextTags - {tag}) == s
    ensures tag !in s.contextTags ==> (s.contextTags + {tag}) - {tag} == s.contextTags
  {
  }

  // ---------------------------------------------------------------------------------------
  // The service

  class ContextManager {
    var state: ContextState
    const db: Table

    constructor (db: Table)
      ensures state == INITIAL && this.db == db
    {
      state := INITIAL;
      this.db := db;
    }

    /** `setFocusedMemory`. */
    method SetFocusedMemory(id: Option<string>)
      modifies this
      ensures state == Focus(old(state), db.rows, id)
    {
      if id.Some? && id.value != "" {
        var memory := db.Get(id.value);
        if memory.Some? {
          var connected := Store.PresentAmong(db.rows, memory.value.connections);
          state := state.(focusedMemoryId := id, activeMemories := [memory.value] + connected);
        }
      } else {
        state := state.(focusedMemoryId := None, activeMemories := []);
      }
    }

    /** `updateContextualResonance`: sets the value as given, with no clamping. */
    method UpdateContextualResonance(value: real)
      modifies this
      ensures state == old(state).(contextualResonance := value)
    {
      state := state.(contextualResonance := value);
    }

    /** `pushMemoryContext`. */
    method PushMemoryContext(id: string)
      modifies this
      ensures state == Push(old(state), id)
    {
      state := state.(memoryStack := state.memoryStack + [id]);
    }

    /** `popMemoryContext`. */
    method PopMemoryContext()
      modifies this
      ensures state == Pop(old(state))
    {
      if state.memoryStack == [] {
        state := state.(memoryStack := []);
      } else {
        state := state.(memoryStack := state.memoryStack[..|state.memoryStack| - 1]);
      }
    }

    /** `addContextTag`. */
    method AddContextTag(tag: string)
      modifies this
      ensures state == old(state).(contextTags := old(state).contextTags + {tag})
    {
      state := state.(contextTags := state.contextTags + {tag});
    }

    /** `removeContextTag`. */
    method RemoveContextTag(tag: string)
      modifies this
      ensures state == old(state).(contextTags := old(state).contextTags - {tag})
    {
      state := state.(contextTags := state.contextTags - {tag});
    }
  }
}
