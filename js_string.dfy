/** The JavaScript string built-ins the plugin relies on, on `seq<char>`. */
module JsString {
  import opened Wrappers

  /** `s.endsWith(suffix)`. */
  predicate EndsWith(s: string, suffix: string) {
    |suffix| <= |s| && s[|s| - |suffix|..] == suffix
  }

  /** `pattern` occurs in `s` starting at index `k`. */
  predicate OccursAt(s: string, pattern: string, k: nat) {
    k + |pattern| <= |s| && s[k..k + |pattern|] == pattern
  }

  /** `s.indexOf(pattern)`, with `None` for JavaScript's `-1`. */
  function IndexOf(s: string, pattern: string): (r: Option<nat>)
    ensures r.Some? ==> OccursAt(s, pattern, r.value)
    ensures r.Some? ==> forall k: nat :: k < r.value ==> !OccursAt(s, pattern, k)
    ensures r.None? ==> forall k: nat :: !OccursAt(s, pattern, k)
    decreases |s|
  {
    if OccursAt(s, pattern, 0) then Some(0)
    else if |s| == 0 then None
    else
      match IndexOf(s[1..], pattern)
      case None =>
        assert forall k: nat :: 0 < k && OccursAt(s, pattern, k) ==> OccursAt(s[1..], pattern, k - 1);
        None
      case Some(k) =>
        assert OccursAt(s, pattern, k + 1);
        assert forall j: nat :: 0 < j < k + 1 && OccursAt(s, pattern, j) ==> OccursAt(s[1..], pattern, j - 1);
        Some(k + 1)
  }

  /**
   * `s.replace(pattern, "")` with a string pattern: only the FIRST occurrence
   * is removed, and `s` is returned unchanged when there is none.
   */
  function RemoveFirst(s: string, pattern: string): string {
    match IndexOf(s, pattern)
    case None => s
    case Some(k) => s[..k] + s[k + |pattern|..]
  }

  /** Removing a pattern that starts the string leaves exactly the rest. */
  lemma RemoveFirstOfPrefix(pattern: string, rest: string)
    ensures RemoveFirst(pattern + rest, pattern) == rest
  {
    var s := pattern + rest;
    assert OccursAt(s, pattern, 0);
    assert IndexOf(s, pattern) == Some(0);
    assert s[|pattern|..] == rest;
  }

  /** A string without the pattern is returned unchanged. */
  lemma RemoveFirstAbsent(s: string, pattern: string)
    requires forall k: nat :: !OccursAt(s, pattern, k)
    ensures RemoveFirst(s, pattern) == s
  {
  }

  /** Only one occurrence is removed: the result is shorter by exactly the pattern, or equal. */
  lemma RemoveFirstLength(s: string, pattern: string)
    ensures |RemoveFirst(s, pattern)| == |s| - |pattern| || RemoveFirst(s, pattern) == s
  {
  }
}
