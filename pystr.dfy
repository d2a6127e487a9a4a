/** The Python `str` operations the dotlink sources rely on: `isspace`,
    `strip`/`lstrip`, `strip(chars)`, `splitlines`, iteration over the lines
    of a text file, `find` and `split`/`join` on one separator. */
module PyStr {
  import opened Wrappers

  /** The characters for which Python's `str.isspace()` is true. */
  const Whitespace: set<char> := {
    '\t', '\n', '\U{0B}', '\U{0C}', '\r', '\U{1C}', '\U{1D}', '\U{1E}', '\U{1F}', ' ',
    '\U{85}', '\U{A0}', '\U{1680}',
    '\U{2000}', '\U{2001}', '\U{2002}', '\U{2003}', '\U{2004}', '\U{2005}',
    '\U{2006}', '\U{2007}', '\U{2008}', '\U{2009}', '\U{200A}',
    '\U{2028}', '\U{2029}', '\U{202F}', '\U{205F}', '\U{3000}'
  }

  /** The line boundaries of `str.splitlines()`. */
  const LineBreaks: set<char> := {
    '\n', '\r', '\U{0B}', '\U{0C}', '\U{1C}', '\U{1D}', '\U{1E}', '\U{85}', '\U{2028}', '\U{2029}'
  }

  /** The line boundaries of a text file read with universal newlines. */
  const FileBreaks: set<char> := {'\n', '\r'}

  predicate AllIn(s: string, cs: set<char>) {
    forall i :: 0 <= i < |s| ==> s[i] in cs
  }

  predicate NoneIn(s: string, cs: set<char>) {
    forall i :: 0 <= i < |s| ==> s[i] !in cs
  }

  /** The index of the first character of `s` that is in `cs`, or `|s|` when
      there is none (`str.find` with `-1` read as `len(s)`). */
  function FirstIn(s: string, cs: set<char>): (i: nat)
    ensures i <= |s|
    ensures i < |s| ==> s[i] in cs
    ensures NoneIn(s[..i], cs)
  {
    if s == [] then 0
    else if s[0] in cs then 0
    else 1 + FirstIn(s[1..], cs)
  }

  /** The first index of a character that is known to be the first of its kind. */
  lemma {:induction false} FirstInAt(x: string, c: char, y: string, cs: set<char>)
    requires NoneIn(x, cs) && c in cs
    ensures FirstIn(x + [c] + y, cs) == |x|
    decreases |x|
  {
    var s := x + [c] + y;
    if x == [] {
      assert s[0] == c;
    } else {
      assert s[0] == x[0];
      assert s[1..] == x[1..] + [c] + y;
      FirstInAt(x[1..], c, y, cs);
    }
  }

  /** `find` skips a prefix holding none of `cs`. */
  lemma {:induction false} FirstInSkip(x: string, y: string, cs: set<char>)
    requires NoneIn(x, cs)
    ensures FirstIn(x + y, cs) == |x| + FirstIn(y, cs)
    decreases |x|
  {
    if x == [] {
      assert x + y == y;
    } else {
      assert (x + y)[0] == x[0] && (x + y)[1..] == x[1..] + y;
      FirstInSkip(x[1..], y, cs);
    }
  }

  /** The index of the last `c` in `s` (`str.rfind`), if any. */
  function LastIn(s: string, c: char): (r: Option<nat>)
    ensures r.Some? ==> r.value < |s| && s[r.value] == c && c !in s[r.value + 1..]
    ensures r.None? ==> c !in s
  {
    if s == [] then None
    else if s[|s| - 1] == c then Some(|s| - 1)
    else
      var r := LastIn(s[..|s| - 1], c);
      assert s == s[..|s| - 1] + [s[|s| - 1]];
      assert r.Some? ==> s[r.value + 1..] == s[..|s| - 1][r.value + 1..] + [s[|s| - 1]];
      r
  }

  /** `rfind` finds an occurrence at `i` or a later one. */
  lemma {:induction false} LastInAtLeast(s: string, c: char, i: nat)
    requires i < |s| && s[i] == c
    ensures LastIn(s, c).Some? && LastIn(s, c).value >= i
    decreases |s|
  {
    if s[|s| - 1] != c {
      LastInAtLeast(s[..|s| - 1], c, i);
    }
  }

  /** `rfind` finds the occurrence after which `c` does not appear. */
  lemma {:induction false} LastInAt(x: string, c: char, y: string)
    requires c !in y
    ensures LastIn(x + [c] + y, c) == Some(|x|)
    decreases |y|
  {
    var s := x + [c] + y;
    if y != [] {
      assert s[|s| - 1] == y[|y| - 1] && s[..|s| - 1] == x + [c] + y[..|y| - 1];
      assert y[|y| - 1] in y;
      LastInAt(x, c, y[..|y| - 1]);
    }
  }

  /** No character of `cs` in `s`: `find` gives `len(s)`. */
  lemma {:induction false} FirstInNone(s: string, cs: set<char>)
    requires NoneIn(s, cs)
    ensures FirstIn(s, cs) == |s|
    decreases |s|
  {
    if s != [] {
      FirstInNone(s[1..], cs);
    }
  }

  lemma NotInNoneIn(x: string, c: char)
    requires c !in x
    ensures NoneIn(x, {c})
  {
    forall i | 0 <= i < |x| ensures x[i] !in {c} {
      assert x[i] in x;
    }
  }

  lemma NoneInNotIn(x: string, c: char)
    requires NoneIn(x, {c})
    ensures c !in x
  {
    assert forall i | 0 <= i < |x| :: x[i] != c;
  }

  /** A text around one of its characters. */
  lemma SplitAround(s: string, i: nat)
    requires i < |s|
    ensures s == s[..i] + [s[i]] + s[i + 1..]
  {
  }

  /** The first `j` characters after the first one, taken from a longer prefix. */
  lemma SliceAfterFirst(v: string, n: nat, j: nat)
    requires j <= n < |v|
    ensures v[..j + 1][1..] == v[1..][..n][..j]
  {
    var a, b := v[..j + 1][1..], v[1..][..n][..j];
    forall k | 0 <= k < j
      ensures a[k] == b[k]
    {
      assert a[k] == v[k + 1] == b[k];
    }
  }

  /** `s.find(c)` is the index of the first occurrence of `c`. */
  lemma FirstOccurrence(s: string, c: char, i: nat)
    requires i < |s| && s[i] == c && c !in s[..i]
    ensures FirstIn(s, {c}) == i
  {
    NotInNoneIn(s[..i], c);
    assert s == s[..i] + [c] + s[i + 1..];
    FirstInAt(s[..i], c, s[i + 1..], {c});
  }

  /** `s.lstrip(chars)`: drops the longest prefix made of `cs`; what it
      drops is described by `LStripParts`. */
  function LStripSet(s: string, cs: set<char>): (r: string)
    ensures |r| <= |s|
    ensures r == [] || r[0] !in cs
  {
    if s != [] && s[0] in cs then LStripSet(s[1..], cs) else s
  }

  /** A prefix made of `cs` in front of a text that does not start with one
      of `cs` is exactly what `lstrip` drops. */
  lemma {:induction false} LStripSkip(w: string, t: string, cs: set<char>)
    requires AllIn(w, cs) && (t == [] || t[0] !in cs)
    ensures LStripSet(w + t, cs) == t
    decreases |w|
  {
    if w != [] {
      assert (w + t)[0] == w[0] && (w + t)[1..] == w[1..] + t;
      LStripSkip(w[1..], t, cs);
    }
  }

  /** Stripping a text made only of `cs` leaves nothing. */
  lemma {:induction false} LStripAllIn(s: string, cs: set<char>)
    requires AllIn(s, cs)
    ensures LStripSet(s, cs) == []
    decreases |s|
  {
    if s != [] {
      assert s[0] in cs;
      LStripAllIn(s[1..], cs);
    }
  }

  /** What `lstrip` drops, in front of what it keeps. */
  lemma {:induction false} LStripParts(s: string, cs: set<char>) returns (lead: string)
    ensures s == lead + LStripSet(s, cs) && AllIn(lead, cs)
    decreases |s|
  {
    if s != [] && s[0] in cs {
      var rest := LStripParts(s[1..], cs);
      lead := [s[0]] + rest;
      assert s == [s[0]] + s[1..];
    } else {
      lead := [];
    }
  }

  /** `s.rstrip(chars)`: drops the longest suffix made of `cs`; what it
      drops is described by `RStripParts`. */
  function RStripSet(s: string, cs: set<char>): (r: string)
    ensures |r| <= |s|
    ensures r == [] || r[|r| - 1] !in cs
  {
    if s != [] && s[|s| - 1] in cs then RStripSet(s[..|s| - 1], cs) else s
  }

  /** What `rstrip` keeps, in front of what it drops. */
  lemma {:induction false} RStripParts(s: string, cs: set<char>) returns (trail: string)
    ensures s == RStripSet(s, cs) + trail && AllIn(trail, cs)
    decreases |s|
  {
    if s != [] && s[|s| - 1] in cs {
      var init := s[..|s| - 1];
      var rest := RStripParts(init, cs);
      trail := rest + [s[|s| - 1]];
      assert s == init + [s[|s| - 1]];
    } else {
      trail := [];
    }
  }

  /** A suffix made of `cs` after a text that does not end with one of
      `cs` is exactly what `rstrip` drops. */
  lemma {:induction false} RStripSkip(t: string, w: string, cs: set<char>)
    requires AllIn(w, cs) && (t == [] || t[|t| - 1] !in cs)
    ensures RStripSet(t + w, cs) == t
    decreases |w|
  {
    if w != [] {
      var s := t + w;
      assert s[|s| - 1] == w[|w| - 1];
      assert s[..|s| - 1] == t + w[..|w| - 1];
      RStripSkip(t, w[..|w| - 1], cs);
    } else {
      assert t + w == t;
    }
  }

  /** `s.strip(chars)`. */
  function StripSet(s: string, cs: set<char>): (r: string)
    ensures r == [] || (r[0] !in cs && r[|r| - 1] !in cs)
  {
    StripEnds(s, cs);
    RStripSet(LStripSet(s, cs), cs)
  }

  /** `strip` leaves nothing exactly when every character is one of `cs`. */
  lemma StripSetEmpty(s: string, cs: set<char>)
    ensures StripSet(s, cs) == [] <==> AllIn(s, cs)
  {
    StripEnds(s, cs);
  }

  /** Both ends stripped: nothing is left exactly when every character is one of `cs`. */
  lemma StripEnds(s: string, cs: set<char>)
    ensures var r := RStripSet(LStripSet(s, cs), cs);
      (r == [] <==> AllIn(s, cs)) && (r != [] ==> r[0] !in cs)
  {
    var l := LStripSet(s, cs);
    var lead := LStripParts(s, cs);
    var trail := RStripParts(l, cs);
    var r := RStripSet(l, cs);
    if r == [] {
      assert l == trail;
      assert l == [];
      assert s == lead;
    } else {
      assert l[0] == r[0];
      assert s[|lead|] == l[0];
    }
  }

  /** `s.lstrip()` with no argument. */
  function LStrip(s: string): string {
    LStripSet(s, Whitespace)
  }

  /** `s.strip()` with no argument. */
  function Strip(s: string): string {
    StripSet(s, Whitespace)
  }

  /** The line following a break at index `i`: `\r\n` counts as one break. */
  function BreakWidth(s: string, i: nat): nat
    requires i < |s|
  {
    if s[i] == '\r' && i + 1 < |s| && s[i + 1] == '\n' then 2 else 1
  }

  /** `s.splitlines()` for the boundaries `breaks` (each line without its
      terminator, no empty last line after a final break). */
  function SplitLines(s: string, breaks: set<char>): seq<string>
    decreases |s|
  {
    if s == [] then []
    else
      var i := FirstIn(s, breaks);
      if i == |s| then [s]
      else [s[..i]] + SplitLines(s[i + BreakWidth(s, i)..], breaks)
  }

  /** No line holds a break, and only the empty text has no lines. */
  lemma {:induction false} SplitLinesNoBreaks(s: string, breaks: set<char>)
    ensures var lines := SplitLines(s, breaks);
      (forall k :: 0 <= k < |lines| ==> NoneIn(lines[k], breaks)) && (s == [] <==> lines == [])
    decreases |s|
  {
    if s != [] {
      var i := FirstIn(s, breaks);
      if i < |s| {
        SplitLinesNoBreaks(s[i + BreakWidth(s, i)..], breaks);
      }
    }
  }

  /** The text of a file whose lines are `ls`, each ended by `\n`. */
  function Terminated(ls: seq<string>): string {
    if ls == [] then "" else ls[0] + "\n" + Terminated(ls[1..])
  }

  /** Splitting such a text into lines gives the lines back. */
  lemma {:induction false} SplitTerminated(ls: seq<string>, breaks: set<char>)
    requires '\n' in breaks
    requires forall k :: 0 <= k < |ls| ==> NoneIn(ls[k], breaks)
    ensures SplitLines(Terminated(ls), breaks) == ls
    decreases |ls|
  {
    if ls != [] {
      var rest := Terminated(ls[1..]);
      var s := Terminated(ls);
      assert s == ls[0] + ['\n'] + rest;
      FirstInAt(ls[0], '\n', rest, breaks);
      assert s[..|ls[0]|] == ls[0] && s[|ls[0]| + 1..] == rest;
      SplitTerminated(ls[1..], breaks);
    }
  }

  /** `s.split(sep)` for a one-character separator. */
  function Split(s: string, sep: char): (parts: seq<string>)
    ensures |parts| >= 1
    ensures forall k :: 0 <= k < |parts| ==> sep !in parts[k]
    decreases |s|
  {
    var i := FirstIn(s, {sep});
    if i == |s| then [s] else [s[..i]] + Split(s[i + 1..], sep)
  }

  /** `sep.join(parts)`. */
  function JoinWith(sep: string, parts: seq<string>): string {
    if parts == [] then ""
    else if |parts| == 1 then parts[0]
    else parts[0] + sep + JoinWith(sep, parts[1..])
  }

  /** Splitting on a separator and joining back with it gives the text back. */
  lemma {:induction false} JoinSplit(s: string, sep: char)
    ensures JoinWith([sep], Split(s, sep)) == s
    decreases |s|
  {
    var i := FirstIn(s, {sep});
    if i < |s| {
      JoinSplit(s[i + 1..], sep);
      assert s == s[..i] + [sep] + s[i + 1..];
    }
  }

  /** Joining one more part appends the separator and the part. */
  lemma {:induction false} JoinWithAppend(sep: string, parts: seq<string>, x: string)
    ensures JoinWith(sep, parts + [x]) == if parts == [] then x else JoinWith(sep, parts) + sep + x
    decreases |parts|
  {
    if |parts| >= 1 {
      var all := parts + [x];
      assert all[0] == parts[0] && all[1..] == parts[1..] + [x];
      JoinWithAppend(sep, parts[1..], x);
      if |parts| > 1 {
        assert JoinWith(sep, all) == parts[0] + sep + (JoinWith(sep, parts[1..]) + sep + x);
      }
    }
  }

  /** A leading separator splits off an empty first part. */
  lemma SplitLeading(x: string, sep: char)
    ensures Split([sep] + x, sep) == [""] + Split(x, sep)
  {
    FirstInAt([], sep, x, {sep});
    assert [] + [sep] + x == [sep] + x;
    assert ([sep] + x)[1..] == x;
  }

  /** Splitting parts joined with the separator, and more text after one
      more separator, gives the parts back first. */
  lemma {:induction false} SplitJoined(parts: seq<string>, x: string, sep: char)
    requires parts != [] && forall k :: 0 <= k < |parts| ==> sep !in parts[k]
    ensures Split(JoinWith([sep], parts) + [sep] + x, sep) == parts + Split(x, sep)
    decreases |parts|
  {
    var p := parts[0];
    var rest := if |parts| == 1 then x else JoinWith([sep], parts[1..]) + [sep] + x;
    var s := JoinWith([sep], parts) + [sep] + x;
    assert s == p + [sep] + rest;
    NotInNoneIn(p, sep);
    FirstInAt(p, sep, rest, {sep});
    assert s[..|p|] == p && s[|p| + 1..] == rest;
    if |parts| > 1 {
      SplitJoined(parts[1..], x, sep);
      assert parts == [p] + parts[1..];
    }
  }
}
