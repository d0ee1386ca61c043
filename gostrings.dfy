/**
 * The few functions of Go's `strings` package that the exchange clients use,
 * on strings as sequences of characters.
 */
module GoStrings {
  import opened Wrappers

  /** `strings.Contains(s, string(c))` for a one-character needle. */
  predicate ContainsChar(s: string, c: char) {
    c in s
  }

  /** `strings.HasSuffix(s, suffix)`. */
  predicate HasSuffix(s: string, suffix: string) {
    |suffix| <= |s| && s[|s| - |suffix|..] == suffix
  }

  /** `pat` occurs in `s` starting at index `i`. */
  predicate OccursAt(s: string, pat: string, i: nat) {
    i + |pat| <= |s| && s[i..i + |pat|] == pat
  }

  /** The first occurrence of `pat` in `s` at or after `i` (`strings.Index` when `i` is 0). */
  function IndexFrom(s: string, pat: string, i: nat): (r: Option<nat>)
    requires i <= |s|
    ensures r.Some? ==> i <= r.value && OccursAt(s, pat, r.value)
    ensures r.Some? ==> forall j :: i <= j < r.value ==> !OccursAt(s, pat, j)
    ensures r.None? ==> forall j :: i <= j <= |s| ==> !OccursAt(s, pat, j)
    decreases |s| - i
  {
    if OccursAt(s, pat, i) then Some(i)
    else if i == |s| then None
    else IndexFrom(s, pat, i + 1)
  }

  /** `strings.Index(s, pat)`, with `None` for Go's -1. */
  function Index(s: string, pat: string): Option<nat> {
    IndexFrom(s, pat, 0)
  }

  /**
   * `strings.Replace(s, pat, rep, 1)`: the first occurrence of `pat` is
   * replaced by `rep`; with no occurrence `s` is returned unchanged.
   */
  function ReplaceFirst(s: string, pat: string, rep: string): (r: string)
    ensures (forall j: nat :: j <= |s| ==> !OccursAt(s, pat, j)) ==> r == s
    ensures Index(s, pat).Some? ==>
      var k := Index(s, pat).value;
      && OccursAt(s, pat, k)
      && (forall j: nat :: j < k ==> !OccursAt(s, pat, j))
      && |r| == |s| - |pat| + |rep|
      && r[..k] == s[..k]
      && OccursAt(r, rep, k)
      && r[k + |rep|..] == s[k + |pat|..]
  {
    match Index(s, pat)
    case None => s
    case Some(k) => s[..k] + rep + s[k + |pat|..]
  }

  /** `strings.ReplaceAll(s, string(c), "")`: every `c` removed, the rest kept in order. */
  function RemoveAll(s: string, c: char): (r: string)
    ensures c !in r
    ensures |r| <= |s|
  {
    if s == [] then []
    else if s[0] == c then RemoveAll(s[1..], c)
    else [s[0]] + RemoveAll(s[1..], c)
  }

  /** Removing a character distributes over concatenation. */
  lemma {:induction false} RemoveAllAppend(a: string, b: string, c: char)
    ensures RemoveAll(a + b, c) == RemoveAll(a, c) + RemoveAll(b, c)
    decreases |a|
  {
    if a == [] {
      assert a + b == b;
    } else {
      assert (a + b)[1..] == a[1..] + b;
      RemoveAllAppend(a[1..], b, c);
    }
  }

  /** A string without `c` is left unchanged by removing `c`. */
  lemma {:induction false} RemoveAllAbsent(s: string, c: char)
    requires c !in s
    ensures RemoveAll(s, c) == s
    decreases |s|
  {
    if s != [] {
      RemoveAllAbsent(s[1..], c);
    }
  }

  /** Removing `c` keeps exactly the characters other than `c`, with their multiplicities. */
  lemma {:induction false} RemoveAllKeeps(s: string, c: char)
    ensures multiset(RemoveAll(s, c)) == multiset(s)[c := 0]
    decreases |s|
  {
    if s != [] {
      RemoveAllKeeps(s[1..], c);
      assert s == [s[0]] + s[1..];
    }
  }
}
