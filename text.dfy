/**
 * Small string utilities used by the decoders of the watcher's text formats.
 * Strings are sequences of characters; every helper is total and reports
 * failure with None.
 */
module Text {
  import opened Options

  /** `s` without its leading `prefix`, or None when `s` does not start with it. */
  function StripPrefix(s: string, prefix: string): (r: Option<string>)
    ensures r.Some? <==> prefix <= s
    ensures r.Some? ==> s == prefix + r.value
  {
    if prefix <= s then Some(s[|prefix|..]) else None
  }

  /** `s` without its trailing `suffix`, or None when `s` does not end with it. */
  function StripSuffix(s: string, suffix: string): (r: Option<string>)
    ensures r.Some? <==> |suffix| <= |s| && s[|s| - |suffix|..] == suffix
    ensures r.Some? ==> s == r.value + suffix
  {
    if |suffix| <= |s| && s[|s| - |suffix|..] == suffix then Some(s[..|s| - |suffix|]) else None
  }

  /** Splits `s` around the last occurrence of `c`. */
  function SplitLast(s: string, c: char): (r: Option<(string, string)>)
    ensures r.Some? <==> c in s
    ensures r.Some? ==> s == r.value.0 + [c] + r.value.1 && c !in r.value.1
  {
    if s == [] then None
    else if s[|s| - 1] == c then Some((s[..|s| - 1], []))
    else
      match SplitLast(s[..|s| - 1], c)
      case None => None
      case Some((before, after)) => Some((before, after + [s[|s| - 1]]))
  }

  /** Splits `s` around the first occurrence of `c`. */
  function SplitFirst(s: string, c: char): (r: Option<(string, string)>)
    ensures r.Some? <==> c in s
    ensures r.Some? ==> s == r.value.0 + [c] + r.value.1 && c !in r.value.0
  {
    if s == [] then None
    else if s[0] == c then Some(([], s[1..]))
    else
      match SplitFirst(s[1..], c)
      case None => None
      case Some((before, after)) => Some(([s[0]] + before, after))
  }

  lemma StripPrefixOf(prefix: string, rest: string)
    ensures StripPrefix(prefix + rest, prefix) == Some(rest)
  {
    assert (prefix + rest)[..|prefix|] == prefix;
  }

  lemma StripSuffixOf(rest: string, suffix: string)
    ensures StripSuffix(rest + suffix, suffix) == Some(rest)
  {
    var s := rest + suffix;
    assert s[|s| - |suffix|..] == suffix;
  }

  /** `prefix` cannot be stripped from a string that disagrees with it at some position. */
  lemma NoPrefixAt(s: string, prefix: string, i: nat)
    requires i < |prefix| && i < |s| && prefix[i] != s[i]
    ensures StripPrefix(s, prefix) == None
  {
  }

  /** Splitting at the last `c` finds the `c` after which no other occurs. */
  lemma {:induction false} SplitLastOf(before: string, c: char, after: string)
    requires c !in after
    ensures SplitLast(before + [c] + after, c) == Some((before, after))
    decreases |after|
  {
    var s := before + [c] + after;
    if after == [] {
      assert s[..|s| - 1] == before;
    } else {
      var init := after[..|after| - 1];
      assert s[..|s| - 1] == before + [c] + init;
      SplitLastOf(before, c, init);
      assert init + [after[|after| - 1]] == after;
    }
  }

  /** Splitting at the first `c` finds the `c` before which no other occurs. */
  lemma {:induction false} SplitFirstOf(before: string, c: char, after: string)
    requires c !in before
    ensures SplitFirst(before + [c] + after, c) == Some((before, after))
    decreases |before|
  {
    var s := before + [c] + after;
    if before == [] {
      assert s[1..] == after;
    } else {
      assert s[1..] == before[1..] + [c] + after;
      SplitFirstOf(before[1..], c, after);
      assert [before[0]] + before[1..] == before;
    }
  }
}
