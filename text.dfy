/** Searching in character sequences, with the semantics of the C library
    searches the plugin relies on (g_strstr_len and strchr). */
module Text {
  import opened Wrappers

  predicate OccursAt(s: seq<char>, key: string, i: nat) {
    i + |key| <= |s| && s[i..i + |key|] == key
  }

  /** The search of g_strstr_len from position `from`: the first occurrence
      at or after `from` that ends within the first `limit` characters. */
  function FindKey(s: seq<char>, key: string, limit: nat, from: nat): (r: Option<nat>)
    requires limit <= |s|
    decreases limit - from
    ensures r.Some? ==> from <= r.value && r.value + |key| <= limit && OccursAt(s, key, r.value)
                        && forall j :: from <= j < r.value ==> !OccursAt(s, key, j)
    ensures r.None? ==> forall j :: from <= j && j + |key| <= limit ==> !OccursAt(s, key, j)
  {
    if from + |key| > limit then None
    else if s[from..from + |key|] == key then Some(from)
    else FindKey(s, key, limit, from + 1)
  }

  /** The search of strchr from position `from`: the index of the first
      occurrence of `c` at or after `from`. */
  function FindChar(s: seq<char>, c: char, from: nat): (r: Option<nat>)
    decreases |s| - from
    ensures r.Some? ==> from <= r.value < |s| && s[r.value] == c
                        && forall j :: from <= j < r.value ==> s[j] != c
    ensures r.None? ==> forall j :: from <= j < |s| ==> s[j] != c
  {
    if from >= |s| then None
    else if s[from] == c then Some(from)
    else FindChar(s, c, from + 1)
  }
}
