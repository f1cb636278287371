/** The record types of src/lib/types.ts and the partial-record updates the table accepts. */
module Types {
  import opened Wrappers

  /** `Memory['type']`, the closed set of memory kinds. */
  datatype MemoryType = Declarative | Procedural | Episodic | Intentional

  /** The spellings that `validateMemory` accepts, in the order the source lists them. */
  const MEMORY_TYPE_NAMES: seq<string> := ["declarative", "procedural", "episodic", "intentional"]

  function TypeName(t: MemoryType): (s: string)
    ensures s in MEMORY_TYPE_NAMES
  {
    match t
    case Declarative => "declarative"
    case Procedural => "procedural"
    case Episodic => "episodic"
    case Intentional => "intentional"
  }

  /** Reads a type name back; exactly the four names of MEMORY_TYPE_NAMES are recognised. */
  function ParseType(s: string): (r: Option<MemoryType>)
    ensures r.Some? <==> s in MEMORY_TYPE_NAMES
    ensures r.Some? ==> TypeName(r.value) == s
    ensures forall t :: TypeName(t) == s ==> r == Some(t)
  {
    if s == "declarative" then Some(Declarative)
    else if s == "procedural" then Some(Procedural)
    else if s == "episodic" then Some(Episodic)
    else if s == "intentional" then Some(Intentional)
    else None
  }

  /**
   * A memory record. `lastAccessed` and `accessCount` are optional, as in the source;
   * the store of src/lib/store.ts never sets them.
   */
  datatype Memory = Memory(
    id: string,
    mtype: MemoryType,
    content: string,
    connections: seq<string>,
    energy: real,
    resonance: real,
    timestamp: int,
    tags: seq<string>,
    version: int,
    lastAccessed: Option<int>,
    accessCount: Option<int>)

  /** `Partial<Memory>` without the primary key: the modifications passed to a table update. */
  datatype Patch = Patch(
    mtype: Option<MemoryType>,
    content: Option<string>,
    connections: Option<seq<string>>,
    energy: Option<real>,
    resonance: Option<real>,
    timestamp: Option<int>,
    tags: Option<seq<string>>,
    version: Option<int>,
    lastAccessed: Option<int>,
    accessCount: Option<int>)

  const NO_CHANGES: Patch := Patch(None, None, None, None, None, None, None, None, None, None)

  function Pick<T>(p: Option<T>, old_: T): T
  {
    if p.Some? then p.value else old_
  }

  /** `{ ...m, ...p }`: every field the patch carries replaces the record's, the rest stay. */
  function ApplyPatch(m: Memory, p: Patch): Memory
  {
    Memory(
      m.id,
      Pick(p.mtype, m.mtype),
      Pick(p.content, m.content),
      Pick(p.connections, m.connections),
      Pick(p.energy, m.energy),
      Pick(p.resonance, m.resonance),
      Pick(p.timestamp, m.timestamp),
      Pick(p.tags, m.tags),
      Pick(p.version, m.version),
      if p.lastAccessed.Some? then p.lastAccessed else m.lastAccessed,
      if p.accessCount.Some? then p.accessCount else m.accessCount)
  }

  /**
   * The write both sides of a non-deduplicating connect issue: the peer appended to the
   * connections read beforehand, and the version read beforehand plus one.
   */
  function ConnectPatch(m: Memory, peer: string): Patch
  {
    NO_CHANGES.(connections := Some(m.connections + [peer]), version := Some(m.version + 1))
  }

  /** A whole record sent as modifications: every field, the optional ones only when set. */
  function WholePatch(m: Memory): Patch
  {
    Patch(Some(m.mtype), Some(m.content), Some(m.connections), Some(m.energy), Some(m.resonance),
          Some(m.timestamp), Some(m.tags), Some(m.version), m.lastAccessed, m.accessCount)
  }

  /** Merging a record's own fields into a record with the same id yields that record. */
  lemma WholePatchReplaces(stored: Memory, m: Memory)
    requires stored.id == m.id
    ensures ApplyPatch(stored, WholePatch(m)) == m.(lastAccessed := if m.lastAccessed.Some? then m.lastAccessed else stored.lastAccessed,
                                                     accessCount := if m.accessCount.Some? then m.accessCount else stored.accessCount)
  {
  }

  /** The exceptions the core throws, one constructor per distinct cause. */
  datatype Error =
    | InvalidMemoryData        // 'Invalid memory data'
    | InvalidConnection        // 'Invalid connection'
    | MemoryNotFound           // 'Memory not found'
    | UnsupportedExportVersion // 'Unsupported export version'
    | KeyExists                // the table's add on a key that is already stored
    | InvalidKey               // the table's delete given something that is not a key
    | UndefinedRecord          // reading a field of a record that is not in the store
}
