/** The input checks of src/lib/utils/validation.ts. */
module Validation {
  import opened Wrappers
  import opened Types
  import opened Text
  import opened Config

  /**
   * The fields of a `Partial<Memory>` that `validateMemory` inspects. The type arrives as
   * a string, since callers may hand in any value.
   */
  datatype Draft = Draft(
    mtype: Option<string>,
    content: Option<string>,
    energy: Option<real>,
    resonance: Option<real>)

  /** The draft view of a complete record. */
  function DraftOf(m: Memory): Draft
  {
    Draft(Some(TypeName(m.mtype)), Some(m.content), Some(m.energy), Some(m.resonance))
  }

  /**
   * The draft both create paths validate: the caller's type and content with the default
   * energy and resonance.
   */
  function CreateDraft(mtype: MemoryType, content: string): Draft
  {
    Draft(Some(TypeName(mtype)), Some(content), Some(DEFAULT_ENERGY), Some(DEFAULT_RESONANCE))
  }

  /** An absent value, or one in [0, 1]. */
  predicate InUnitIfPresent(x: Option<real>)
  {
    x.None? || (0.0 <= x.value && x.value <= 1.0)
  }

  function ValidateMemory(d: Draft): bool
  {
    if d.mtype.None? || d.mtype.value == "" || d.mtype.value !in MEMORY_TYPE_NAMES then false
    else if d.content.None? || d.content.value == "" || |Trim(d.content.value)| == 0 then false
    else if d.energy.Some? && (d.energy.value < 0.0 || d.energy.value > 1.0) then false
    else if d.resonance.Some? && (d.resonance.value < 0.0 || d.resonance.value > 1.0) then false
    else true
  }

  /**
   * A draft is valid exactly when its type is one of the four memory types, its content
   * is present and not whitespace-only, and energy and resonance, when present, lie in [0, 1].
   */
  lemma ValidateMemorySpec(d: Draft)
    ensures ValidateMemory(d) <==>
      && d.mtype.Some? && ParseType(d.mtype.value).Some?
      && d.content.Some? && !Blank(d.content.value)
      && InUnitIfPresent(d.energy) && InUnitIfPresent(d.resonance)
  {
    if d.content.Some? {
      TrimEmptyIffBlank(d.content.value);
    }
  }

  /** A complete record validates exactly when its content is not blank and its energy and resonance lie in [0, 1]. */
  lemma ValidateRecordSpec(m: Memory)
    ensures ValidateMemory(DraftOf(m)) <==>
      !Blank(m.content) && 0.0 <= m.energy <= 1.0 && 0.0 <= m.resonance <= 1.0
  {
    ValidateMemorySpec(DraftOf(m));
  }

  function ValidateConnection(sourceId: string, targetId: string): (ok: bool)
    ensures ok <==> sourceId != "" && targetId != "" && sourceId != targetId
  {
    if sourceId == "" || targetId == "" then false
    else if sourceId == targetId then false
    else true
  }

  /** A tag is valid exactly when it holds a character that is not whitespace. */
  function ValidateTag(tag: string): (ok: bool)
    ensures ok <==> !Blank(tag)
    ensures ok ==> tag != ""
  {
    TrimEmptyIffBlank(tag);
    |Trim(tag)| > 0
  }
}
