/** The case-insensitive substring match shared by the store's and the manager's searches. */
module Search {
  import opened Types
  import opened Text

  /** The lowercased content, or some lowercased tag, includes the lowercased query. */
  predicate Matches(m: Memory, query: string)
  {
    var q := ToLower(query);
    Includes(ToLower(m.content), q) || exists i :: 0 <= i < |m.tags| && Includes(ToLower(m.tags[i]), q)
  }

  /** The empty query matches every memory, since every string includes "". */
  lemma EmptyQueryMatches(m: Memory)
    ensures Matches(m, "")
  {
    assert IsPrefix([], ToLower(m.content));
  }

  /** Lower-casing the query first does not change which memories match. */
  lemma MatchesIgnoresQueryCase(m: Memory, query: string)
    ensures Matches(m, ToLower(query)) == Matches(m, query)
  {
    ToLowerIdempotent(query);
  }

  /** A memory whose content contains the query, as typed, matches it. */
  lemma ContentSliceMatches(m: Memory, i: nat, j: nat)
    requires i <= j <= |m.content|
    ensures Matches(m, m.content[i..j])
  {
    var lc := ToLower(m.content);
    var q := ToLower(m.content[i..j]);
    ToLowerLength(m.content);
    ToLowerLength(m.content[i..j]);
    forall k | 0 <= k < j - i ensures q[k] == lc[i..j][k] {
      ToLowerAt(m.content[i..j], k);
      ToLowerAt(m.content, i + k);
    }
    assert q == lc[i..j];
    IncludesSlice(lc, i, j);
  }
}
