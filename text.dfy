/**
 * Python string operations the scraper relies on: `str.isspace`, `str.strip()`,
 * `str.split()` with no argument, `str.join`, `str.replace(c, '')`, and the three
 * ways BeautifulSoup turns an element into text (`.text`, `.stripped_strings`,
 * `.get_text(strip=True)`).
 */
module Text {
  import opened Wrappers

  /** The code points for which Python's `str.isspace()` holds. */
  const SpaceCodes: set<int> :=
    {0x09, 0x0A, 0x0B, 0x0C, 0x0D, 0x1C, 0x1D, 0x1E, 0x1F, 0x20, 0x85, 0xA0, 0x1680,
     0x2000, 0x2001, 0x2002, 0x2003, 0x2004, 0x2005, 0x2006, 0x2007, 0x2008, 0x2009, 0x200A,
     0x2028, 0x2029, 0x202F, 0x205F, 0x3000}

  /** Python's `str.isspace()` on one character. */
  predicate IsSpace(c: char) {
    c as int in SpaceCodes
  }

  predicate NoSpace(s: string) {
    forall k | 0 <= k < |s| :: !IsSpace(s[k])
  }

  predicate AllSpace(s: string) {
    forall k | 0 <= k < |s| :: IsSpace(s[k])
  }

  /** No whitespace at either end: what `strip()` returns. */
  predicate Trimmed(s: string) {
    s == [] || (!IsSpace(s[0]) && !IsSpace(s[|s| - 1]))
  }

  /** The first index at or after `i` that is not whitespace, or `|s|`. */
  function SkipSpace(s: string, i: nat): (j: nat)
    requires i <= |s|
    ensures i <= j <= |s|
    ensures forall k | i <= k < j :: IsSpace(s[k])
    ensures j == |s| || !IsSpace(s[j])
    decreases |s| - i
  {
    if i == |s| || !IsSpace(s[i]) then i else SkipSpace(s, i + 1)
  }

  /** The first index at or after `i` that is whitespace, or `|s|`. */
  function SkipWord(s: string, i: nat): (j: nat)
    requires i <= |s|
    ensures i <= j <= |s|
    ensures forall k | i <= k < j :: !IsSpace(s[k])
    ensures j == |s| || IsSpace(s[j])
    decreases |s| - i
  {
    if i == |s| || IsSpace(s[i]) then i else SkipWord(s, i + 1)
  }

  /** The start of the run of whitespace that ends at `j`. */
  function BackSpace(s: string, j: nat): (i: nat)
    requires j <= |s|
    ensures i <= j
    ensures forall k | i <= k < j :: IsSpace(s[k])
    ensures i == 0 || !IsSpace(s[i - 1])
  {
    if j == 0 || !IsSpace(s[j - 1]) then j else BackSpace(s, j - 1)
  }

  /** The start of the run of non-whitespace characters that ends at `j`. */
  function BackWord(s: string, j: nat): (i: nat)
    requires j <= |s|
    ensures i <= j
    ensures forall k | i <= k < j :: !IsSpace(s[k])
    ensures i == 0 || IsSpace(s[i - 1])
  {
    if j == 0 || IsSpace(s[j - 1]) then j else BackWord(s, j - 1)
  }

  /**
   * `s.strip()`: from the first to the last non-whitespace character of `s`;
   * empty exactly when `s` is all whitespace.
   */
  function Strip(s: string): (r: string)
    ensures Trimmed(r)
    ensures r == [] <==> AllSpace(s)
    ensures r != [] ==> r == s[SkipSpace(s, 0)..BackSpace(s, |s|)]
  {
    var b := SkipSpace(s, 0);
    var e := BackSpace(s, |s|);
    if b < e then s[b..e] else []
  }

  /** A string without whitespace at either end is its own strip. */
  lemma StripTrimmed(s: string)
    requires Trimmed(s)
    ensures Strip(s) == s
  {
    if s != [] {
      assert SkipSpace(s, 0) == 0;
      assert BackSpace(s, |s|) == |s|;
      assert s[0..|s|] == s;
    }
  }

  /** The words of `s` from index `i` on: maximal runs of non-whitespace characters, in order. */
  function SplitFrom(s: string, i: nat): (r: seq<string>)
    requires i <= |s|
    ensures forall n | 0 <= n < |r| :: r[n] != [] && NoSpace(r[n])
    ensures r == [] <==> SkipSpace(s, i) == |s|
    decreases |s| - i
  {
    var b := SkipSpace(s, i);
    if b == |s| then []
    else
      var e := SkipWord(s, b);
      assert s[b..e][0] == s[b];
      [s[b..e]] + SplitFrom(s, e)
  }

  /** `s.split()`: the whitespace-separated words of `s`; none exactly when `s` is all whitespace. */
  function Split(s: string): (r: seq<string>)
    ensures forall n | 0 <= n < |r| :: r[n] != [] && NoSpace(r[n])
    ensures r == [] <==> AllSpace(s)
  {
    SplitFrom(s, 0)
  }

  function Max(a: nat, b: nat): nat {
    if a < b then b else a
  }

  /**
   * The last word found from `i` on is the run of non-whitespace characters that
   * ends where the trailing whitespace of `s` begins (cut off at `i`).
   */
  lemma {:induction false} SplitFromLast(s: string, i: nat)
    requires i <= |s| && SplitFrom(s, i) != []
    ensures var r := SplitFrom(s, i); var e := BackSpace(s, |s|);
      i <= e && r[|r| - 1] == s[Max(i, BackWord(s, e))..e]
    decreases |s| - i
  {
    var r := SplitFrom(s, i);
    var e := BackSpace(s, |s|);
    var b := SkipSpace(s, i);
    var w := SkipWord(s, b);
    assert r == [s[b..w]] + SplitFrom(s, w);
    if SplitFrom(s, w) == [] {
      var b2 := SkipSpace(s, w);
      assert b2 == |s|;
      assert b < w && !IsSpace(s[w - 1]);
      assert e == w;
      var bw := BackWord(s, e);
      assert b > i ==> IsSpace(s[b - 1]);
      assert bw <= b;
      assert Max(i, bw) == b;
    } else {
      SplitFromLast(s, w);
      var bw := BackWord(s, e);
      assert w < e;
      assert bw >= w + 1;
    }
  }

  /** `z` is the last word of the stripped string `a`: a whitespace-free suffix with whitespace (or nothing) before it. */
  ghost predicate IsLastWord(a: string, z: string) {
    z != [] && NoSpace(z) && |z| <= |a| && a[|a| - |z|..] == z
    && (|z| == |a| || IsSpace(a[|a| - |z| - 1]))
  }

  /** For a string without trailing whitespace, the last element of `split()` is the run of non-whitespace at its end. */
  lemma SplitLastRun(a: string)
    requires Trimmed(a) && Split(a) != []
    ensures Split(a)[|Split(a)| - 1] == a[BackWord(a, |a|)..]
  {
    assert BackSpace(a, |a|) == |a|;
    SplitFromLast(a, 0);
    assert Max(0, BackWord(a, |a|)) == BackWord(a, |a|);
  }

  /** The last element of `a.split()` for a string without trailing whitespace is its last word. */
  lemma SplitLast(a: string)
    requires Trimmed(a) && Split(a) != []
    ensures IsLastWord(a, Split(a)[|Split(a)| - 1])
  {
    SplitLastRun(a);
    var b := BackWord(a, |a|);
    var z := a[b..];
    assert |a| - |z| == b;
  }

  /** A whitespace-free tail that follows whitespace is the last element of `split()`. */
  lemma LastWordAfterSpace(s: string, b: nat)
    requires 0 < b < |s| && IsSpace(s[b - 1]) && NoSpace(s[b..])
    ensures var w := Split(s); w != [] && w[|w| - 1] == s[b..]
  {
    assert !IsSpace(s[|s| - 1]) by {
      assert s[b..][|s| - 1 - b] == s[|s| - 1];
    }
    assert BackSpace(s, |s|) == |s|;
    BackWordRun(s, |s|, b);
    SplitFromLast(s, 0);
  }

  /** A run of non-whitespace characters after whitespace is found by `BackWord` in full. */
  lemma {:induction false} BackWordRun(s: string, j: nat, b: nat)
    requires 0 < b <= j <= |s| && IsSpace(s[b - 1]) && NoSpace(s[b..])
    ensures BackWord(s, j) == b
    decreases j
  {
    if j > b {
      assert s[b..][j - 1 - b] == s[j - 1];
      BackWordRun(s, j - 1, b);
    }
  }

  /** Only the last word of `a` fits `IsLastWord`. */
  lemma LastWordUnique(a: string, z: string, z': string)
    requires IsLastWord(a, z) && IsLastWord(a, z')
    ensures z == z'
  {
    assert |z| == |z'|;
  }

  /** `sep.join(parts)`. */
  function Join(sep: string, parts: seq<string>): string {
    if parts == [] then []
    else if |parts| == 1 then parts[0]
    else parts[0] + sep + Join(sep, parts[1..])
  }

  /** Joining non-empty parts without whitespace at their ends leaves none at the ends of the result. */
  lemma {:induction false} JoinTrimmed(sep: string, parts: seq<string>)
    requires forall n | 0 <= n < |parts| :: parts[n] != [] && Trimmed(parts[n])
    ensures Trimmed(Join(sep, parts))
    ensures parts != [] ==> Join(sep, parts) != []
  {
    if |parts| > 1 {
      JoinTrimmed(sep, parts[1..]);
      var tail := Join(sep, parts[1..]);
      var r := Join(sep, parts);
      assert r == parts[0] + sep + tail;
      assert r[0] == parts[0][0];
      assert r[|r| - 1] == tail[|tail| - 1];
    }
  }

  /** `s.replace(c, '')`: `s` with every `c` removed and every other character kept as often as before. */
  function Remove(s: string, c: char): (r: string)
    ensures c !in r
    ensures forall x | x != c :: multiset(r)[x] == multiset(s)[x]
    ensures c !in s ==> r == s
    ensures |s| == 1 ==> r == (if s[0] == c then [] else s)
  {
    if s == [] then []
    else
      var rest := Remove(s[1..], c);
      assert s == [s[0]] + s[1..];
      if s[0] == c then rest else [s[0]] + rest
  }

  /** Removing from a concatenation removes from each part: with `Remove`'s one-character case this fixes its value, order included. */
  lemma {:induction false} RemoveAppend(a: string, b: string, c: char)
    ensures Remove(a + b, c) == Remove(a, c) + Remove(b, c)
    decreases |a|
  {
    if a != [] {
      assert (a + b)[0] == a[0];
      assert (a + b)[1..] == a[1..] + b;
      RemoveAppend(a[1..], b, c);
    } else {
      assert a + b == b;
    }
  }

  /** `''.join(parts)`. */
  function Concat(parts: seq<string>): string {
    if parts == [] then [] else parts[0] + Concat(parts[1..])
  }

  /** `''.join` of two lists of parts is the two joins concatenated. */
  lemma {:induction false} ConcatAppend(a: seq<string>, b: seq<string>)
    ensures Concat(a + b) == Concat(a) + Concat(b)
    decreases |a|
  {
    if a != [] {
      assert (a + b)[0] == a[0];
      assert (a + b)[1..] == a[1..] + b;
      ConcatAppend(a[1..], b);
    } else {
      assert a + b == b;
    }
  }

  /** `sep.join` of two non-empty lists of parts is the two joins with `sep` between them. */
  lemma {:induction false} JoinAppend(sep: string, a: seq<string>, b: seq<string>)
    requires a != [] && b != []
    ensures Join(sep, a + b) == Join(sep, a) + sep + Join(sep, b)
    decreases |a|
  {
    assert (a + b)[0] == a[0];
    if |a| > 1 {
      assert (a + b)[1..] == a[1..] + b;
      JoinAppend(sep, a[1..], b);
    }
  }

  /** Concatenating non-empty parts without whitespace at their ends leaves none at the ends of the result. */
  lemma {:induction false} ConcatTrimmed(parts: seq<string>)
    requires forall n | 0 <= n < |parts| :: parts[n] != [] && Trimmed(parts[n])
    ensures Trimmed(Concat(parts))
  {
    if parts != [] {
      ConcatTrimmed(parts[1..]);
      var tail := Concat(parts[1..]);
      var r := Concat(parts);
      assert r == parts[0] + tail;
      assert r[0] == parts[0][0];
      if tail == [] {
        assert r[|r| - 1] == parts[0][|parts[0]| - 1];
      } else {
        assert r[|r| - 1] == tail[|tail| - 1];
      }
    }
  }

  /** The text of an HTML element: the text nodes under it, in document order. */
  type Fragment = seq<string>

  /** BeautifulSoup's `.text`: the text nodes concatenated unchanged. */
  function ElementText(f: Fragment): string {
    Concat(f)
  }

  /** `element.text.strip()`: the element's text without whitespace at either end. */
  function TextStripped(f: Fragment): (r: string)
    ensures Trimmed(r)
    ensures r == [] <==> AllSpace(ElementText(f))
  {
    Strip(ElementText(f))
  }

  /** `text(element) if element else None`, for an element that may be missing. */
  function TextOrNone(f: Option<Fragment>, text: Fragment -> string): (r: Option<string>)
    ensures r.Some? <==> f.Some?
  {
    match f
    case None => None
    case Some(t) => Some(text(t))
  }

  /**
   * BeautifulSoup's `.stripped_strings`: each text node stripped, blank ones dropped.
   * A single node gives its strip unless it is blank, and `StrippedStringsAppend`
   * carries this over to any sequence of nodes.
   */
  function StrippedStrings(f: Fragment): (r: seq<string>)
    ensures forall n | 0 <= n < |r| :: r[n] != [] && Trimmed(r[n])
    ensures |r| <= |f|
    ensures |f| == 1 ==> r == (if AllSpace(f[0]) then [] else [Strip(f[0])])
  {
    if f == [] then []
    else
      var h := Strip(f[0]);
      if h == [] then StrippedStrings(f[1..]) else [h] + StrippedStrings(f[1..])
  }

  /** The stripped strings of two runs of text nodes are those of the first, then those of the second. */
  lemma {:induction false} StrippedStringsAppend(a: Fragment, b: Fragment)
    ensures StrippedStrings(a + b) == StrippedStrings(a) + StrippedStrings(b)
    decreases |a|
  {
    if a != [] {
      assert (a + b)[0] == a[0];
      assert (a + b)[1..] == a[1..] + b;
      StrippedStringsAppend(a[1..], b);
    } else {
      assert a + b == b;
    }
  }

  /** BeautifulSoup's `.get_text(strip=True)`: the stripped strings concatenated; never whitespace at either end. */
  function StrippedText(f: Fragment): (r: string)
    ensures Trimmed(r)
    ensures |f| == 1 ==> r == Strip(f[0])
  {
    ConcatTrimmed(StrippedStrings(f));
    assert |f| == 1 ==> Concat(StrippedStrings(f)) == Strip(f[0]) by {
      if |f| == 1 && Strip(f[0]) != [] {
        assert Concat([Strip(f[0])]) == Strip(f[0]) + Concat([]);
      }
    }
    Concat(StrippedStrings(f))
  }

  /** `.get_text(strip=True)` of two runs of text nodes is that of the first followed by that of the second. */
  lemma StrippedTextAppend(a: Fragment, b: Fragment)
    ensures StrippedText(a + b) == StrippedText(a) + StrippedText(b)
  {
    StrippedStringsAppend(a, b);
    ConcatAppend(StrippedStrings(a), StrippedStrings(b));
  }

  /** `' '.join(element.stripped_strings)`; never whitespace at either end, and empty exactly when there is no non-blank node. */
  function SpacedText(f: Fragment): (r: string)
    ensures Trimmed(r)
    ensures r == [] <==> forall n | 0 <= n < |f| :: AllSpace(f[n])
    ensures |f| == 1 ==> r == Strip(f[0])
  {
    JoinTrimmed(" ", StrippedStrings(f));
    StrippedStringsNone(f);
    Join(" ", StrippedStrings(f))
  }

  /** No node survives `.stripped_strings` exactly when every node is blank. */
  lemma {:induction false} StrippedStringsNone(f: Fragment)
    ensures StrippedStrings(f) == [] <==> forall n | 0 <= n < |f| :: AllSpace(f[n])
    decreases |f|
  {
    if f != [] {
      StrippedStringsNone(f[1..]);
      assert forall n | 1 <= n < |f| :: f[1..][n - 1] == f[n];
    }
  }

  /**
   * `' '.join(stripped_strings)` of two runs of text nodes: the two texts with one space
   * between them, or just one of them when the other is empty.
   */
  lemma SpacedTextAppend(a: Fragment, b: Fragment)
    ensures SpacedText(a + b) ==
      if SpacedText(a) == [] then SpacedText(b)
      else if SpacedText(b) == [] then SpacedText(a)
      else SpacedText(a) + " " + SpacedText(b)
  {
    StrippedStringsAppend(a, b);
    var sa, sb := StrippedStrings(a), StrippedStrings(b);
    JoinTrimmed(" ", sa);
    JoinTrimmed(" ", sb);
    if sa == [] {
      assert sa + sb == sb;
    } else if sb == [] {
      assert sa + sb == sa;
    } else {
      JoinAppend(" ", sa, sb);
    }
  }

  /**
   * An `<a>` element: its text nodes, BeautifulSoup's `.string` of it, and its `href`
   * attribute, if it has one. `.string` is the text of an element whose only child is a
   * text node (or an element that itself has a `.string`), and `None` for an element
   * with no child or several: `<a><svg/>Get Directions</a>` has the text node
   * "Get Directions" but no `.string`.
   */
  datatype Anchor = Anchor(text: Fragment, soleString: Option<string>, href: Option<string>)

  /** `a['href']`: a missing attribute raises `KeyError`. */
  function Href(a: Anchor): Result<string> {
    match a.href
    case None => Err(KeyError)
    case Some(h) => Ok(h)
  }
}
