/** The Python `str` methods the core relies on, on `string` = `seq<char>`. */
module Text {
  import opened Wrappers

  predicate StartsWith(s: string, prefix: string) {
    |prefix| <= |s| && s[..|prefix|] == prefix
  }

  /** `s.endswith(suffix)`. */
  predicate EndsWith(s: string, suffix: string) {
    |suffix| <= |s| && s[|s| - |suffix|..] == suffix
  }

  /** A slice of a slice is a slice of the whole. */
  lemma SliceOfSlice(s: string, i: nat, j: nat, a: nat, b: nat)
    requires i <= j <= |s| && a <= b <= j - i
    ensures s[i..j][a..b] == s[i + a..i + b]
  {
    assert forall k :: 0 <= k < b - a ==> s[i..j][a..b][k] == s[i + a + k];
  }

  predicate OccursAt(s: string, pat: string, k: nat) {
    k + |pat| <= |s| && s[k..k + |pat|] == pat
  }

  /** `s.find(pat, from)`: the first index at or after `from` where `pat` occurs in `s`. */
  function FindFrom(s: string, pat: string, from: nat): (r: Option<nat>)
    ensures r.Some? ==> from <= r.value && OccursAt(s, pat, r.value)
    ensures r.Some? ==> forall k :: from <= k < r.value ==> !OccursAt(s, pat, k)
    ensures r.None? ==> forall k :: from <= k ==> !OccursAt(s, pat, k)
    decreases |s| - from
  {
    if from + |pat| > |s| then None
    else if s[from..from + |pat|] == pat then Some(from)
    else FindFrom(s, pat, from + 1)
  }

  /** `s.replace(target, replacement, 1)`: the leftmost occurrence of `target`
      replaced, or `s` itself when there is none. */
  function ReplaceFirst(s: string, target: string, replacement: string): string
  {
    match FindFrom(s, target, 0)
    case None => s
    case Some(k) => s[..k] + replacement + s[k + |target|..]
  }

  /** The leftmost occurrence: when `pat` starts with a character that does not
      occur in `s` before position `p`, and `pat` occurs at `p`, it is found at `p`. */
  lemma {:induction false} FindFromFirstOccurrence(s: string, pat: string, from: nat, p: nat)
    requires pat != [] && from <= p && p + |pat| <= |s| && s[p..p + |pat|] == pat
    requires forall k :: from <= k < p ==> s[k] != pat[0]
    ensures FindFrom(s, pat, from) == Some(p)
    decreases p - from
  {
    if from < p {
      assert s[from..from + |pat|][0] == s[from];
      FindFromFirstOccurrence(s, pat, from + 1, p);
    }
  }

  /** Replacing a pattern that sits right after a prefix in which its first
      character does not occur. */
  lemma ReplaceFirstAfterPrefix(pre: string, t: string, target: string, replacement: string)
    requires target != [] && target[0] !in pre && |target| <= |t| && t[..|target|] == target
    ensures ReplaceFirst(pre + t, target, replacement) == pre + replacement + t[|target|..]
  {
    var s := pre + t;
    assert s[|pre|..|pre| + |target|] == t[..|target|];
    forall k | 0 <= k < |pre| ensures s[k] != target[0] { assert s[k] == pre[k]; }
    FindFromFirstOccurrence(s, target, 0, |pre|);
    assert s[..|pre|] == pre;
    assert s[|pre| + |target|..] == t[|target|..];
  }

  /** `s.strip(chars)`: drop the leading and trailing characters that are in `chars`. */
  function Strip(s: string, chars: set<char>): (r: string)
    ensures |r| <= |s|
    ensures r != [] ==> r[0] !in chars && r[|r| - 1] !in chars
  {
    StripTrailing(StripLeading(s, chars), chars)
  }

  function StripLeading(s: string, chars: set<char>): (r: string)
    ensures |r| <= |s|
    ensures r != [] ==> r[0] !in chars
    ensures forall k :: 0 <= k < |s| - |r| ==> s[k] in chars
  {
    if s != [] && s[0] in chars then StripLeading(s[1..], chars) else s
  }

  function StripTrailing(s: string, chars: set<char>): (r: string)
    ensures |r| <= |s|
    ensures r != [] ==> r[|r| - 1] !in chars
    ensures r != [] ==> r[0] == s[0]
    ensures forall k :: |r| <= k < |s| ==> s[k] in chars
  {
    if s != [] && s[|s| - 1] in chars then StripTrailing(s[..|s| - 1], chars) else s
  }

  /** Stripping leaves a string that neither starts nor ends with one of `chars` alone. */
  lemma StripNoEdges(s: string, chars: set<char>)
    requires s != [] && s[0] !in chars && s[|s| - 1] !in chars
    ensures Strip(s, chars) == s
  {
  }

  /** Stripping removes exactly the padding around a text that starts and ends
      with characters it keeps. */
  lemma StripPadded(lead: string, core: string, trail: string, chars: set<char>)
    requires forall k :: 0 <= k < |lead| ==> lead[k] in chars
    requires forall k :: 0 <= k < |trail| ==> trail[k] in chars
    requires core != [] && core[0] !in chars && core[|core| - 1] !in chars
    ensures Strip(lead + core + trail, chars) == core
  {
    assert lead + core + trail == lead + (core + trail);
    StripLeadingPadded(lead, core + trail, chars);
    StripTrailingPadded(core, trail, chars);
  }

  lemma {:induction false} StripLeadingPadded(lead: string, t: string, chars: set<char>)
    requires forall k :: 0 <= k < |lead| ==> lead[k] in chars
    requires t != [] && t[0] !in chars
    ensures StripLeading(lead + t, chars) == t
  {
    if lead == [] {
      assert lead + t == t;
    } else {
      assert (lead + t)[0] == lead[0];
      assert (lead + t)[1..] == lead[1..] + t;
      StripLeadingPadded(lead[1..], t, chars);
    }
  }

  lemma {:induction false} StripTrailingPadded(t: string, trail: string, chars: set<char>)
    requires forall k :: 0 <= k < |trail| ==> trail[k] in chars
    requires t != [] && t[|t| - 1] !in chars
    ensures StripTrailing(t + trail, chars) == t
    decreases |trail|
  {
    if trail == [] {
      assert t + trail == t;
    } else {
      var u := t + trail;
      assert u[|u| - 1] == trail[|trail| - 1];
      assert u[..|u| - 1] == t + trail[..|trail| - 1];
      StripTrailingPadded(t, trail[..|trail| - 1], chars);
    }
  }

  /** `s.split(sep)`: never empty; consecutive, leading and trailing separators
      give empty parts. */
  function Split(s: string, sep: char): (parts: seq<string>)
    ensures |parts| >= 1
    ensures forall k :: 0 <= k < |parts| ==> sep !in parts[k]
  {
    SplitFrom(s, sep, 0, 0)
  }

  /** Splitting `s[start..]`, where the part under construction began at `start`
      and `i` is the next character to look at. */
  function SplitFrom(s: string, sep: char, start: nat, i: nat): (parts: seq<string>)
    requires start <= i <= |s|
    requires sep !in s[start..i]
    ensures |parts| >= 1
    ensures forall k :: 0 <= k < |parts| ==> sep !in parts[k]
    decreases |s| - i
  {
    if i == |s| then [s[start..]]
    else if s[i] == sep then [s[start..i]] + SplitFrom(s, sep, i + 1, i + 1)
    else
      assert s[start..i + 1] == s[start..i] + [s[i]];
      SplitFrom(s, sep, start, i + 1)
  }

  /** `sep.join(parts)`. */
  function Join(sep: char, parts: seq<string>): string
    requires |parts| >= 1
  {
    if |parts| == 1 then parts[0] else parts[0] + [sep] + Join(sep, parts[1..])
  }

  /** Splitting loses nothing: joining the parts with the separator gives the text back. */
  lemma {:induction false} JoinSplitFrom(s: string, sep: char, start: nat, i: nat)
    requires start <= i <= |s| && sep !in s[start..i]
    ensures Join(sep, SplitFrom(s, sep, start, i)) == s[start..]
    decreases |s| - i
  {
    if i == |s| {
    } else if s[i] == sep {
      JoinSplitFrom(s, sep, i + 1, i + 1);
      assert s[start..] == s[start..i] + [sep] + s[i + 1..];
    } else {
      assert s[start..i + 1] == s[start..i] + [s[i]];
      JoinSplitFrom(s, sep, start, i + 1);
    }
  }

  lemma JoinSplit(s: string, sep: char)
    ensures Join(sep, Split(s, sep)) == s
  {
    JoinSplitFrom(s, sep, 0, 0);
  }
}
