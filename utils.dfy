/**
 * The first-match lookups of the utility module: `find_by_id` over a sequence of items
 * with an `id`, and `find_by_id_prefix` over a dictionary iterated in insertion order.
 */
module Utils {
  import opened Wrappers

  /**
   * `find_by_id`: the first item whose id equals `id`, or `None` when no item has it
   * (the function falls off its loop and returns `None`).
   */
  method FindById<T>(items: seq<T>, id: string, idOf: T -> string) returns (r: Option<T>)
    ensures r.None? <==> forall k :: 0 <= k < |items| ==> idOf(items[k]) != id
    ensures r.Some? ==> exists k :: (0 <= k < |items| && items[k] == r.value && idOf(items[k]) == id &&
                                     forall j :: 0 <= j < k ==> idOf(items[j]) != id)
  {
    for k := 0 to |items|
      invariant forall j :: 0 <= j < k ==> idOf(items[j]) != id
    {
      if idOf(items[k]) == id {
        return Some(items[k]);
      }
    }
    return None;
  }

  /**
   * The positions, in iteration order, of the dictionary entries whose key starts with
   * `prefix`.
   */
  function Matching<V>(entries: seq<(string, V)>, prefix: string): (ix: seq<nat>)
    ensures forall i :: 0 <= i < |ix| ==> ix[i] < |entries|
    ensures forall i, j :: 0 <= i < j < |ix| ==> ix[i] < ix[j]
    ensures forall k :: 0 <= k < |entries| ==> (k in ix <==> prefix <= entries[k].0)
    decreases |entries|
  {
    if entries == [] then []
    else
      var front := Matching(entries[..|entries| - 1], prefix);
      if prefix <= entries[|entries| - 1].0 then front + [|entries| - 1] else front
  }

  /** With the empty prefix every key matches: all positions, in order. */
  lemma {:induction false} MatchingEmptyPrefix<V>(entries: seq<(string, V)>)
    ensures Matching(entries, "") == seq(|entries|, i => i)
    decreases |entries|
  {
    if entries != [] {
      MatchingEmptyPrefix(entries[..|entries| - 1]);
    }
  }

  /**
   * `find_by_id_prefix`: the values of exactly the entries whose key starts with `prefix`,
   * in the dictionary's iteration order.
   */
  method FindByIdPrefix<V>(entries: seq<(string, V)>, prefix: string) returns (results: seq<V>)
    ensures |results| == |Matching(entries, prefix)|
    ensures forall i :: 0 <= i < |results| ==> results[i] == entries[Matching(entries, prefix)[i]].1
  {
    results := [];
    for k := 0 to |entries|
      invariant |results| == |Matching(entries[..k], prefix)|
      invariant forall i :: 0 <= i < |results| ==> results[i] == entries[Matching(entries[..k], prefix)[i]].1
    {
      assert entries[..k + 1][..k] == entries[..k];
      if prefix <= entries[k].0 {
        results := results + [entries[k].1];
      }
    }
    assert entries[..|entries|] == entries;
  }

  /** With the empty prefix, `find_by_id_prefix` returns every value, in order. */
  lemma FindByIdPrefixAll<V>(entries: seq<(string, V)>, results: seq<V>)
    requires |results| == |Matching(entries, "")|
    requires forall i :: 0 <= i < |results| ==> results[i] == entries[Matching(entries, "")[i]].1
    ensures results == seq(|entries|, i requires 0 <= i < |entries| => entries[i].1)
  {
    MatchingEmptyPrefix(entries);
  }
}
