/** Character searches over strings shared by the parsers of the model. */
module Strings {
  import opened Wrappers

  /** The position of the first `c` in `s`. */
  function FirstIndex(s: string, c: char): (r: Option<nat>)
    ensures r.None? <==> c !in s
    ensures r.Some? ==> r.value < |s| && s[r.value] == c && c !in s[..r.value]
  {
    if c !in s then None
    else if s[0] == c then Some(0)
    else
      var rest := FirstIndex(s[1..], c);
      assert s[1..][..rest.value] == s[1..rest.value + 1];
      assert s[..rest.value + 1] == [s[0]] + s[1..rest.value + 1];
      Some(rest.value + 1)
  }

  /** The position of the last `c` in `s`. */
  function LastIndex(s: string, c: char): (r: Option<nat>)
    ensures r.None? <==> c !in s
    ensures r.Some? ==> r.value < |s| && s[r.value] == c && c !in s[r.value + 1..]
  {
    if c !in s then None
    else if s[|s| - 1] == c then Some(|s| - 1)
    else
      var front := s[..|s| - 1];
      var k := LastIndex(front, c);
      assert s[k.value + 1..] == front[k.value + 1..] + [s[|s| - 1]];
      k
  }

  lemma FirstIndexUnique(s: string, c: char, k: nat)
    requires k < |s| && s[k] == c && c !in s[..k]
    ensures FirstIndex(s, c) == Some(k)
  {
    assert s[k] in s;
    var r := FirstIndex(s, c);
    forall j | 0 <= j < r.value ensures s[j] != c {
      assert s[j] == s[..r.value][j];
    }
    forall j | 0 <= j < k ensures s[j] != c {
      assert s[j] == s[..k][j];
    }
  }

  lemma LastIndexUnique(s: string, c: char, k: nat)
    requires k < |s| && s[k] == c && c !in s[k + 1..]
    ensures LastIndex(s, c) == Some(k)
  {
    assert s[k] in s;
    var r := LastIndex(s, c);
    forall j | r.value < j < |s| ensures s[j] != c {
      assert s[j] == s[r.value + 1..][j - r.value - 1];
    }
    forall j | k < j < |s| ensures s[j] != c {
      assert s[j] == s[k + 1..][j - k - 1];
    }
  }
}
