/**
  The Python string built-ins the core relies on: the whitespace test behind
  `str.strip()`, `str.strip()` itself and the slice `s[:n]`.
 */
module Text {

  /** The characters for which Python's `str.isspace()` holds: these are what `str.strip()` removes. */
  predicate IsSpace(c: char)
  {
    || ('\t' <= c <= '\r')
    || ('\U{1C}' <= c <= '\U{1F}')
    || c == ' '
    || c == '\U{85}'
    || c == '\U{A0}'
    || c == '\U{1680}'
    || ('\U{2000}' <= c <= '\U{200A}')
    || c == '\U{2028}'
    || c == '\U{2029}'
    || c == '\U{202F}'
    || c == '\U{205F}'
    || c == '\U{3000}'
  }

  /** `s[:n]` for a non-negative `n`: the first `n` characters, or all of `s` when it is shorter. */
  function Prefix(s: string, n: nat): (r: string)
    ensures |r| == if n < |s| then n else |s|
    ensures r <= s
  {
    if n < |s| then s[..n] else s
  }

  /** Scanning forward from `from`, the index of the first non-space character, or `|s|` when there is none. */
  function FirstNonSpace(s: string, from: nat): (i: nat)
    requires from <= |s|
    ensures from <= i <= |s|
    ensures forall k :: from <= k < i ==> IsSpace(s[k])
    ensures i == |s| || !IsSpace(s[i])
    decreases |s| - from
  {
    if from < |s| && IsSpace(s[from]) then FirstNonSpace(s, from + 1) else from
  }

  /** Scanning backward from `to` but not below `lo`, the index just past the last non-space character, or `lo`. */
  function EndOfText(s: string, lo: nat, to: nat): (j: nat)
    requires lo <= to <= |s|
    ensures lo <= j <= to
    ensures forall k :: j <= k < to ==> IsSpace(s[k])
    ensures j == lo || !IsSpace(s[j - 1])
  {
    if lo < to && IsSpace(s[to - 1]) then EndOfText(s, lo, to - 1) else to
  }

  /** `s.strip()`: skip whitespace from the front, then from the back of what is left. */
  function Strip(s: string): (r: string)
    ensures |r| <= |s|
    ensures r == [] || (!IsSpace(r[0]) && !IsSpace(r[|r| - 1]))
  {
    var i := FirstNonSpace(s, 0);
    s[i..EndOfText(s, i, |s|)]
  }

  /**
    `s[i..j]` is what stripping leaves: everything before `i` and from `j` on is
    whitespace, and a non-empty remainder starts and ends with a non-space.
   */
  ghost predicate StripsTo(s: string, i: int, j: int)
  {
    && 0 <= i <= j <= |s|
    && (forall k :: 0 <= k < i ==> IsSpace(s[k]))
    && (forall k :: j <= k < |s| ==> IsSpace(s[k]))
    && (i < j ==> !IsSpace(s[i]) && !IsSpace(s[j - 1]))
  }

  /** `Strip` cuts out one contiguous piece of its input, bounded as `StripsTo` says. */
  lemma StripIsSlice(s: string)
    ensures var i := FirstNonSpace(s, 0);
            var j := EndOfText(s, i, |s|);
            StripsTo(s, i, j) && Strip(s) == s[i..j]
  {
  }

  /** Whatever bounds satisfy `StripsTo`, the piece between them is `Strip(s)`: the characterisation is unique. */
  lemma StripUnique(s: string, i: int, j: int)
    requires StripsTo(s, i, j)
    ensures Strip(s) == s[i..j]
  {
    var i' := FirstNonSpace(s, 0);
    var j' := EndOfText(s, i', |s|);
    if i < j {
      // the first non-space character is the one at `i`, the last the one at `j - 1`
      assert i' == i;
      assert j' == j;
    } else {
      // no character survives: the scan forward reaches the end
      assert i' == |s|;
    }
  }

  /** Stripping an already stripped string changes nothing. */
  lemma StripIdempotent(s: string)
    ensures Strip(Strip(s)) == Strip(s)
  {
    var r := Strip(s);
    StripIsSlice(s);
    assert StripsTo(r, 0, |r|);
    StripUnique(r, 0, |r|);
  }
}
