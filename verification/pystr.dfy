/** The handful of Python `str` operations the lockfile parser relies on,
    stated over `string` (a `seq<char>`): `isspace`, `lstrip`, `rstrip`,
    `strip`, `index`, `startswith(" " * n)` and `split(sep, 1)`. */
module PyStr {
  import opened Wrappers

  /** Python's `str.isspace()` for one character: the ASCII whitespace
      characters, the information separators 0x1C-0x1F, and the Unicode
      space and line/paragraph separators. */
  predicate IsSpace(c: char) {
    || c == ' ' || c == '\t' || c == '\n' || c == '\r'
    || c == '\U{0B}' || c == '\U{0C}'
    || ('\U{1C}' <= c <= '\U{1F}')
    || c == '\U{85}' || c == '\U{A0}' || c == '\U{1680}'
    || ('\U{2000}' <= c <= '\U{200A}')
    || c == '\U{2028}' || c == '\U{2029}' || c == '\U{202F}'
    || c == '\U{205F}' || c == '\U{3000}'
  }

  /** Every character of `s` is whitespace (so `s.strip() == ""`). */
  predicate AllSpace(s: string) {
    forall i :: 0 <= i < |s| ==> IsSpace(s[i])
  }

  /** `s.lstrip()`: `s` without its leading whitespace (see `LStripSuffix`). */
  function LStrip(s: string): (r: string)
    ensures |r| <= |s|
    ensures r == [] || !IsSpace(r[0])
    decreases |s|
  {
    if |s| > 0 && IsSpace(s[0]) then LStrip(s[1..]) else s
  }

  /** What `lstrip` drops is a whitespace prefix, and what it keeps is the
      rest of `s`. */
  lemma {:induction false} LStripSuffix(s: string)
    ensures LStrip(s) == s[|s| - |LStrip(s)|..]
    ensures forall i :: 0 <= i < |s| - |LStrip(s)| ==> IsSpace(s[i])
    decreases |s|
  {
    if |s| > 0 && IsSpace(s[0]) {
      LStripSuffix(s[1..]);
      assert s[1..][|s| - 1 - |LStrip(s)|..] == s[|s| - |LStrip(s)|..];
      forall i | 0 <= i < |s| - |LStrip(s)| ensures IsSpace(s[i]) {
        if i > 0 {
          assert s[i] == s[1..][i - 1];
        }
      }
    }
  }

  /** `s.rstrip()`: `s` without its trailing whitespace (see `RStripPrefix`). */
  function RStrip(s: string): (r: string)
    ensures |r| <= |s|
    ensures r == [] || !IsSpace(r[|r| - 1])
    decreases |s|
  {
    if |s| > 0 && IsSpace(s[|s| - 1]) then RStrip(s[..|s| - 1]) else s
  }

  /** What `rstrip` drops is a whitespace suffix, and what it keeps is the
      rest of `s`. */
  lemma {:induction false} RStripPrefix(s: string)
    ensures RStrip(s) == s[..|RStrip(s)|]
    ensures forall i :: |RStrip(s)| <= i < |s| ==> IsSpace(s[i])
    decreases |s|
  {
    if |s| > 0 && IsSpace(s[|s| - 1]) {
      RStripPrefix(s[..|s| - 1]);
      assert s[..|s| - 1][..|RStrip(s)|] == s[..|RStrip(s)|];
      forall i | |RStrip(s)| <= i < |s| ensures IsSpace(s[i]) {
        if i < |s| - 1 {
          assert s[i] == s[..|s| - 1][i];
        }
      }
    }
  }

  /** `s.strip()`: empty exactly when `s` is all whitespace; otherwise it
      begins at the first non-whitespace character of `s`, and neither end
      is whitespace. */
  function Strip(s: string): (r: string)
    ensures |r| <= |LStrip(s)| <= |s|
    ensures r == [] <==> AllSpace(s)
    ensures r != [] ==> r[0] == LStrip(s)[0]
    ensures r != [] ==> !IsSpace(r[0]) && !IsSpace(r[|r| - 1])
  {
    StripFacts(s);
    RStrip(LStrip(s))
  }

  /** The facts `Strip` promises, from those of `LStrip` and `RStrip`. */
  lemma StripFacts(s: string)
    ensures RStrip(LStrip(s)) == [] <==> AllSpace(s)
    ensures RStrip(LStrip(s)) != [] ==> RStrip(LStrip(s))[0] == LStrip(s)[0] && !IsSpace(LStrip(s)[0])
    ensures RStrip(LStrip(s)) != [] ==> !IsSpace(RStrip(LStrip(s))[|RStrip(LStrip(s))| - 1])
    ensures |RStrip(LStrip(s))| <= |s|
  {
    var l := LStrip(s);
    var r := RStrip(l);
    LStripSuffix(s);
    RStripPrefix(l);
    if l == [] {
      assert AllSpace(s) by {
        forall i | 0 <= i < |s| ensures IsSpace(s[i]) {}
      }
      assert r == [];
    } else {
      assert !IsSpace(l[0]);
      assert s[|s| - |l|] == l[0];
      assert !AllSpace(s);
      assert r != [];
      assert r[0] == l[0];
    }
  }

  /** Stripping only removes characters: one absent from `s` is absent from
      `s.strip()`. */
  lemma StripKeeps(s: string, c: char)
    requires c !in s
    ensures c !in Strip(s)
  {
    var l := LStrip(s);
    LStripSuffix(s);
    RStripPrefix(l);
    assert c !in l;
  }

  /** `len(s) - len(s.lstrip())`: the number of leading whitespace
      characters; the character after them, if any, is not whitespace. */
  function LeadingSpace(s: string): (n: nat)
    ensures n <= |s|
    ensures n == |s| || !IsSpace(s[n])
  {
    LStripSuffix(s);
    |s| - |LStrip(s)|
  }

  /** The first `LeadingSpace(s)` characters are whitespace, and they are all
      of `s` exactly when `s` is all whitespace. */
  lemma LeadingSpacePrefix(s: string)
    ensures forall i :: 0 <= i < LeadingSpace(s) ==> IsSpace(s[i])
    ensures LeadingSpace(s) == |s| <==> AllSpace(s)
  {
    LStripSuffix(s);
  }

  /** `s.startswith(" " * n)`: the first `n` characters exist and are spaces. */
  predicate StartsWithSpaces(s: string, n: nat) {
    n <= |s| && forall i :: 0 <= i < n ==> s[i] == ' '
  }

  /** `" " * n`. */
  function Spaces(n: nat): (r: string)
    ensures |r| == n && StartsWithSpaces(r, n)
  {
    seq(n, _ => ' ')
  }

  /** `s.index(c)`: the position of the first `c`, or `None` where Python
      raises `ValueError`. */
  function IndexOf(s: string, c: char): (r: Option<nat>)
    ensures r.None? <==> c !in s
    ensures r.Some? ==> r.value < |s| && s[r.value] == c && c !in s[..r.value]
  {
    if |s| == 0 then None
    else if s[0] == c then Some(0)
    else match IndexOf(s[1..], c)
      case None => None
      case Some(i) =>
        assert s[..i + 1] == [s[0]] + s[1..][..i];
        Some(i + 1)
  }

  /** `s.split(c, 1)` for an `s` that contains `c`: the text before the first
      `c` and everything after it (which may contain further `c`s). */
  function SplitFirst(s: string, c: char): (r: Option<(string, string)>)
    ensures r.None? <==> c !in s
    ensures r.Some? ==> s == r.value.0 + [c] + r.value.1 && c !in r.value.0
  {
    match IndexOf(s, c)
    case None => None
    case Some(i) =>
      assert s == s[..i] + [c] + s[i + 1..];
      Some((s[..i], s[i + 1..]))
  }

  /** Splitting at the first `c` is determined by the text before it: any
      decomposition `k + [c] + v` with no `c` in `k` is the one returned. */
  lemma SplitFirstUnique(k: string, c: char, v: string)
    requires c !in k
    ensures SplitFirst(k + [c] + v, c) == Some((k, v))
  {
    var s := k + [c] + v;
    assert s[|k|] == c;
    assert s[..|k|] == k;
    assert s[|k| + 1..] == v;
  }

  /** Leading spaces that have been checked to be there can be dropped
      without changing what `lstrip` sees. */
  lemma LStripAfterSpaces(s: string, n: nat)
    requires StartsWithSpaces(s, n)
    ensures LStrip(s[n..]) == LStrip(s)
    ensures AllSpace(s[n..]) <==> AllSpace(s)
  {
    if n > 0 {
      assert s[1..][n - 1..] == s[n..];
      LStripAfterSpaces(s[1..], n - 1);
    }
  }

  /** Stripping text that neither starts nor ends with whitespace leaves it
      unchanged, also when a single space precedes it. */
  lemma StripTrimmed(v: string)
    requires v == [] || (!IsSpace(v[0]) && !IsSpace(v[|v| - 1]))
    ensures Strip(v) == v
    ensures Strip([' '] + v) == v
  {
    assert ([' '] + v)[1..] == v;
  }
}
