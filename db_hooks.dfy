/**
 * The versioning hooks. The table the core uses (src/lib/db.ts) registers its own `creating`
 * and `updating` hooks, which agree field for field with those of src/lib/db/hooks.ts, and no
 * `deleting` hook; `Deleting` models the one of src/lib/db/hooks.ts, which allows every
 * deletion and so behaves as no hook at all.
 */
module DbHooks {
  import opened Wrappers
  import opened Types

  /**
   * `creating`: the stored object gets the current time as timestamp and version 1;
   * nothing else about it changes.
   */
  function Creating(obj: Memory, now: int): (r: Memory)
    ensures r.version == 1 && r.timestamp == now
    ensures r.(version := obj.version, timestamp := obj.timestamp) == obj
  {
    obj.(timestamp := now, version := 1)
  }

  /**
   * `updating`: modifications that do not set the version get version = stored + 1
   * (`obj.version || 0` is the stored version itself, 0 included); modifications that
   * set it are returned as they are.
   */
  function Updating(mods: Patch, obj: Memory): (r: Patch)
    ensures mods.version.Some? ==> r == mods
    ensures mods.version.None? ==> r.version == Some(obj.version + 1)
    ensures r.version.Some?
    ensures r.(version := mods.version) == mods
  {
    if mods.version.None? then mods.(version := Some(obj.version + 1)) else mods
  }

  /** `deleting` always lets the deletion go ahead. */
  function Deleting(obj: Memory): (allowed: bool)
    ensures allowed
  {
    true
  }

  /** Running the updating hook on its own output changes nothing more. */
  lemma UpdatingIdempotent(mods: Patch, obj: Memory)
    ensures Updating(Updating(mods, obj), obj) == Updating(mods, obj)
  {
  }
}
