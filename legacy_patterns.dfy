/** The two line patterns of `Dotlink.parse_mapping` in
    `dotlink/dotlink.py`, written out as what they accept: the
    `#include "path"` line and the `source[: target]` line. Each comes with
    a datatype for a line taken apart the way the pattern reads it, a lemma
    that every such line matches with the expected groups, and a lemma that
    whatever matches is such a line. */
module LegacyPatterns {
  import opened Wrappers
  import opened PyStr

  /** The characters `strip("'\"")` removes. */
  const Quotes: set<char> := {'"', '\''}

  // ---------------------------------------------------------------------
  // include_re: ^\s*#include\s+(".+"|'.+')   with re.I

  /** ASCII lower case, as `re.I` compares the letters of `include`. */
  function Lower(c: char): char {
    if 'A' <= c <= 'Z' then (c as int + 32) as char else c
  }

  /** Neither quote is a blank. */
  lemma QuoteNotBlank(c: char)
    requires c in Quotes
    ensures c !in Whitespace
  {
  }

  /** `include`, in any mix of case. */
  predicate IsIncludeWord(w: string) {
    && |w| == 7
    && Lower(w[0]) == 'i' && Lower(w[1]) == 'n' && Lower(w[2]) == 'c' && Lower(w[3]) == 'l'
    && Lower(w[4]) == 'u' && Lower(w[5]) == 'd' && Lower(w[6]) == 'e'
  }

  /** `include_re.match(s)`: the first group, a quoted name. Leading blanks,
      `#include` and at least one blank come first; the greedy `.+` makes the
      group end at the last matching quote before the end of the line. */
  function IncludeMatch(s: string): (g: Option<string>)
    ensures g.Some? ==> |g.value| >= 3 && g.value[0] in Quotes && g.value[|g.value| - 1] == g.value[0]
    ensures g.Some? ==> '\n' !in g.value
  {
    var t := LStrip(s);
    if |t| < 8 || t[0] != '#' || !IsIncludeWord(t[1..8]) then None
    else IncludeAfterWord(t[8..])
  }

  /** `\s+(".+"|'.+')` after `#include`. */
  function IncludeAfterWord(u: string): (g: Option<string>)
    ensures g.Some? ==> |g.value| >= 3 && g.value[0] in Quotes && g.value[|g.value| - 1] == g.value[0]
    ensures g.Some? ==> '\n' !in g.value
  {
    var v := LStrip(u);
    if |v| == |u| || v == [] || v[0] !in Quotes then None
    else QuotedGroup(v)
  }

  /** `".+"` or `'.+'` at the start of `v`, whose first character is the
      quote: up to the last such quote before a newline, at least one
      character between the quotes. */
  function QuotedGroup(v: string): (g: Option<string>)
    requires v != []
    ensures g.Some? ==> |g.value| >= 3 && g.value[0] == v[0] && g.value[|g.value| - 1] == g.value[0]
    ensures g.Some? ==> '\n' !in g.value[1..]
  {
    var n := FirstIn(v[1..], {'\n'});
    var line := v[..1 + n];
    match LastIn(line, v[0])
    case None => None
    case Some(j) =>
      if j < 2 then None
      else
        SliceAfterFirst(v, n, j);
        NoneInNotIn(v[1..][..n][..j], '\n');
        Some(v[..j + 1])
  }

  /** An include line taken apart as the pattern reads it. */
  datatype IncludeLine = IncludeLine(lead: string, word: string, gap: string, quote: char, name: string, rest: string)
  {
    /** The parts the pattern accepts. */
    predicate Valid() {
      && AllIn(lead, Whitespace) && IsIncludeWord(word)
      && |gap| >= 1 && AllIn(gap, Whitespace)
      && quote in Quotes && |name| >= 1 && '\n' !in name
    }

    /** No further closing quote on the same line, so the group ends here. */
    predicate Closed() {
      quote !in rest[..FirstIn(rest, {'\n'})]
    }

    /** The quoted part and what follows it. */
    function Quoted(): string {
      [quote] + name + [quote] + rest
    }

    function Text(): string {
      lead + ['#'] + word + gap + Quoted()
    }

    function Group(): string {
      [quote] + name + [quote]
    }
  }

  /** `QuotedGroup` once the last quote on the line is known. */
  lemma QuotedGroupIs(v: string, j: nat)
    requires v != [] && 2 <= j
    requires LastIn(v[..1 + FirstIn(v[1..], {'\n'})], v[0]) == Some(j)
    ensures QuotedGroup(v) == Some(v[..j + 1])
  {
  }

  /** A group ends at the last quote on the line. */
  lemma QuotedGroupSome(v: string)
    requires v != [] && QuotedGroup(v).Some?
    ensures var line := v[..1 + FirstIn(v[1..], {'\n'})];
      && LastIn(line, v[0]).Some? && LastIn(line, v[0]).value >= 2
      && QuotedGroup(v) == Some(v[..LastIn(line, v[0]).value + 1])
  {
  }

  /** The quoted part of a valid line up to its newline. */
  lemma QuotedLine(m: IncludeLine) returns (line: string)
    requires m.Valid()
    ensures var v := m.Quoted(); line == v[..1 + FirstIn(v[1..], {'\n'})]
    ensures line == [m.quote] + m.name + [m.quote] + m.rest[..FirstIn(m.rest, {'\n'})]
  {
    var q := m.quote;
    var v := m.Quoted();
    NotInNoneIn(m.name, '\n');
    assert v[1..] == m.name + ([q] + m.rest);
    FirstInSkip(m.name, [q] + m.rest, {'\n'});
    FirstInSkip([q], m.rest, {'\n'});
    var n := FirstIn(v[1..], {'\n'});
    var k := FirstIn(m.rest, {'\n'});
    assert n == |m.name| + 1 + k;
    line := v[..1 + n];
    assert line == [q] + m.name + [q] + m.rest[..k];
  }

  /** The quoted part of a valid line gives a group, the quoted name itself
      when the quote does not close again. */
  lemma QuotedGroupOf(m: IncludeLine)
    requires m.Valid()
    ensures QuotedGroup(m.Quoted()).Some?
    ensures m.Closed() ==> QuotedGroup(m.Quoted()) == Some(m.Group())
  {
    var q := m.quote;
    var line := QuotedLine(m);
    var c := |m.name| + 1;
    assert line[c] == q;
    LastInAtLeast(line, q, c);
    QuotedGroupIs(m.Quoted(), LastIn(line, q).value);
    if m.Closed() {
      QuotedGroupClosed(m, line);
    }
  }

  /** With no further quote on the line, the last quote is the one that
      closes the name. */
  lemma QuotedGroupClosed(m: IncludeLine, line: string)
    requires m.Valid() && m.Closed()
    requires line == [m.quote] + m.name + [m.quote] + m.rest[..FirstIn(m.rest, {'\n'})]
    ensures LastIn(line, m.quote) == Some(|m.name| + 1)
    ensures m.Quoted()[..|m.name| + 2] == m.Group()
  {
    LastInAt([m.quote] + m.name, m.quote, m.rest[..FirstIn(m.rest, {'\n'})]);
  }

  /** Blanks and `#include` in front of the rest are passed over. */
  lemma IncludeMatchWord(lead: string, word: string, u: string)
    requires AllIn(lead, Whitespace) && IsIncludeWord(word)
    ensures IncludeMatch(lead + ['#'] + word + u) == IncludeAfterWord(u)
  {
    var t := ['#'] + word + u;
    assert lead + ['#'] + word + u == lead + t;
    LStripSkip(lead, t, Whitespace);
    assert t[1..8] == word && t[8..] == u;
  }

  /** At least one blank before a quote is passed over. */
  lemma IncludeAfterGap(gap: string, v: string)
    requires |gap| >= 1 && AllIn(gap, Whitespace) && v != [] && v[0] in Quotes
    ensures IncludeAfterWord(gap + v) == QuotedGroup(v)
  {
    QuoteNotBlank(v[0]);
    LStripSkip(gap, v, Whitespace);
  }

  /** The blanks and `#include` in front of the quoted part are passed over. */
  lemma IncludeMatchQuoted(m: IncludeLine)
    requires m.Valid()
    ensures IncludeMatch(m.Text()) == QuotedGroup(m.Quoted())
  {
    assert m.Text() == m.lead + ['#'] + m.word + (m.gap + m.Quoted());
    IncludeMatchWord(m.lead, m.word, m.gap + m.Quoted());
    IncludeAfterGap(m.gap, m.Quoted());
  }

  /** Every valid include line matches, with the quoted name as its group
      when the quote does not close again later on the line. */
  lemma IncludeMatchText(m: IncludeLine)
    requires m.Valid()
    ensures IncludeMatch(m.Text()).Some?
    ensures m.Closed() ==> IncludeMatch(m.Text()) == Some(m.Group())
  {
    IncludeMatchQuoted(m);
    QuotedGroupOf(m);
  }

  /** After the last quote before the newline, the quote does not appear
      again before the newline. */
  lemma QuoteClosesAt(v: string, j: nat)
    requires v != [] && j < 1 + FirstIn(v[1..], {'\n'})
    requires v[0] !in v[..1 + FirstIn(v[1..], {'\n'})][j + 1..]
    ensures var rest := v[j + 1..]; v[0] !in rest[..FirstIn(rest, {'\n'})]
  {
    var n := FirstIn(v[1..], {'\n'});
    var rest := v[j + 1..];
    assert v[1..] == v[1..j + 1] + rest;
    assert v[1..j + 1] == v[1..][..n][..j];
    FirstInSkip(v[1..j + 1], rest, {'\n'});
    assert rest[..FirstIn(rest, {'\n'})] == v[..1 + n][j + 1..];
  }

  /** The parts of a quoted group: the quoted name and the rest of the
      line, in which the quote does not close again. */
  lemma QuotedGroupParts(v: string) returns (name: string, rest: string)
    requires v != [] && QuotedGroup(v).Some?
    ensures v == [v[0]] + name + [v[0]] + rest
    ensures QuotedGroup(v) == Some([v[0]] + name + [v[0]])
    ensures |name| >= 1 && '\n' !in name
    ensures v[0] !in rest[..FirstIn(rest, {'\n'})]
  {
    QuotedGroupSome(v);
    var j := LastIn(v[..1 + FirstIn(v[1..], {'\n'})], v[0]).value;
    QuoteClosesAt(v, j);
    name, rest := v[1..j], v[j + 1..];
    assert v[..j + 1] == [v[0]] + name + [v[0]];
    assert v == v[..j + 1] + rest;
    assert name <= v[..j + 1][1..];
  }

  /** Text before a suffix, put back together. */
  lemma SplitAt(s: string, a: nat, t: string)
    requires a <= |s| && t == s[a..]
    ensures s == s[..a] + t
  {
  }

  /** Concatenation regrouped. */
  lemma Regroup(a: string, b: string, c: string, d: string)
    ensures a + (b + c + d) == a + b + c + d
  {
  }

  /** Concatenation regrouped. */
  lemma Append(a: string, b: string, c: string)
    ensures a + (b + c) == a + b + c
  {
  }

  /** A text of at least eight characters: its first character, the next
      seven and the rest. */
  lemma HashWord(t: string)
    requires |t| >= 8 && t[0] == '#'
    ensures t == ['#'] + t[1..8] + t[8..]
  {
  }

  /** What follows the leading blanks of a match: `#include` and the rest. */
  lemma IncludeMatchHead(s: string) returns (t: string)
    requires IncludeMatch(s).Some?
    ensures t == LStrip(s) && |t| >= 8 && t[0] == '#' && IsIncludeWord(t[1..8])
    ensures IncludeMatch(s) == IncludeAfterWord(t[8..])
  {
    t := LStrip(s);
  }

  /** A match starts with blanks and `#include`. */
  lemma IncludeMatchSome(s: string) returns (lead: string, word: string, u: string)
    requires IncludeMatch(s).Some?
    ensures s == lead + ['#'] + word + u
    ensures AllIn(lead, Whitespace) && IsIncludeWord(word)
    ensures IncludeMatch(s) == IncludeAfterWord(u)
  {
    var t := IncludeMatchHead(s);
    lead := LStripParts(s, Whitespace);
    word, u := t[1..8], t[8..];
    HashWord(t);
    Regroup(lead, ['#'], word, u);
  }

  /** The rest of a match starts with at least one blank and a quote. */
  lemma IncludeAfterWordSome(u: string) returns (gap: string, v: string)
    requires IncludeAfterWord(u).Some?
    ensures u == gap + v && |gap| >= 1 && AllIn(gap, Whitespace)
    ensures v != [] && v[0] in Quotes && IncludeAfterWord(u) == QuotedGroup(v)
  {
    v := LStrip(u);
    gap := LStripParts(u, Whitespace);
  }

  /** Whatever matches is a valid include line whose quote closes where the
      group ends. */
  lemma IncludeLineFrom(s: string) returns (m: IncludeLine)
    requires IncludeMatch(s).Some?
    ensures m.Valid() && m.Closed()
    ensures m.Text() == s && m.Group() == IncludeMatch(s).value
  {
    var lead, word, u := IncludeMatchSome(s);
    var gap, v := IncludeAfterWordSome(u);
    var name, rest := QuotedGroupParts(v);
    m := IncludeLine(lead, word, gap, v[0], name, rest);
    Append(lead + ['#'] + word, gap, v);
  }

  /** Whatever matches is a valid include line whose quote closes where the
      group ends. */
  lemma IncludeMatchParts(s: string)
    requires IncludeMatch(s).Some?
    ensures exists m: IncludeLine :: m.Valid() && m.Closed() && m.Text() == s && m.Group() == IncludeMatch(s).value
  {
    var m := IncludeLineFrom(s);
  }

  // ---------------------------------------------------------------------
  // mapping_re: ^("[^"]+"|'[^']+'|[^'":]+)\s*(?::\s*(.*)\s*)?$

  /** The characters the unquoted name cannot hold. */
  const NameStops: set<char> := {'"', '\'', ':'}

  /** Where the first group ends: after the closing quote of a quoted name,
      or after the longest run of characters that are neither quotes nor
      `:` (blanks included). */
  function MappingHead(s: string): (e: Option<nat>)
    ensures e.Some? ==> 1 <= e.value <= |s|
  {
    if s == [] then None
    else if s[0] in Quotes then
      var j := 1 + FirstIn(s[1..], {s[0]});
      if j == 1 || j == |s| then None else Some(j + 1)
    else
      var j := FirstIn(s, NameStops);
      if j == 0 then None else Some(j)
  }

  /** `\s*(?::\s*(.*)\s*)?$` on what follows the first group: `None` when
      it fails, `Some(None)` without the target group, `Some(Some(g))` with
      it. The greedy blanks after `:` are not in the group; the group stops
      at a newline, after which only blanks may follow. */
  function MappingTail(t: string): Option<Option<string>> {
    var u := LStrip(t);
    if u == [] then Some(None)
    else if u[0] != ':' then None
    else
      var g := TargetOf(u[1..]);
      if g.None? then None else Some(g)
  }

  /** `\s*(.*)\s*$` after the `:`: the target runs from the first
      non-blank to the newline, and only blanks may follow it. */
  function TargetOf(w: string): Option<string> {
    var v := LStrip(w);
    var n := FirstIn(v, {'\n'});
    if AllIn(v[n..], Whitespace) then Some(v[..n]) else None
  }

  /** `mapping_re.match(s).groups()`, or `None` when it does not match. */
  function MappingMatch(s: string): Option<(string, Option<string>)> {
    match MappingHead(s)
    case None => None
    case Some(e) =>
      match MappingTail(s[e..])
      case None => None
      case Some(target) => Some((s[..e], target))
  }

  /** A name the first group accepts: quoted without its own quote inside,
      or bare. */
  predicate QuotedName(h: string) {
    |h| >= 3 && h[0] in Quotes && h[|h| - 1] == h[0] && h[0] !in h[1..|h| - 1]
  }

  predicate BareName(h: string) {
    |h| >= 1 && NoneIn(h, NameStops)
  }

  /** `:`, the blanks after it, the target and the blanks that end the
      line: the target starts with a non-blank and runs to the newline. */
  predicate TargetValid(pre: string, text: string, post: string) {
    && AllIn(pre, Whitespace) && '\n' !in text && (text == [] || text[0] !in Whitespace)
    && AllIn(post, Whitespace) && (post == [] || post[0] == '\n')
  }

  /** The text after the name and its blanks. */
  function TailText(target: Option<(string, string, string)>): string {
    match target
    case None => ""
    case Some((pre, text, post)) => [':'] + (pre + text + post)
  }

  /** The second group. */
  function TargetGroup(target: Option<(string, string, string)>): Option<string> {
    match target
    case None => None
    case Some((_, text, _)) => Some(text)
  }

  /** A mapping line taken apart as the pattern reads it: the name, the
      blanks after it, and `:`, blanks, the target and trailing blanks. */
  datatype MappingLine = MappingLine(head: string, gap: string, target: Option<(string, string, string)>)
  {
    predicate Valid() {
      && (QuotedName(head) || BareName(head))
      && AllIn(gap, Whitespace)
      && (target.Some? ==> TargetValid(target.value.0, target.value.1, target.value.2))
    }

    function Text(): string {
      head + gap + TailText(target)
    }

    /** The groups: a bare name keeps the blanks after it, since the
        character class takes them before `\s*` is tried. */
    function Groups(): (string, Option<string>) {
      (if QuotedName(head) then head else head + gap, TargetGroup(target))
    }
  }

  /** Neither `:` nor a quote is a blank. */
  lemma StopsNotBlank(c: char)
    requires c in NameStops
    ensures c !in Whitespace
  {
  }

  /** Blanks hold no quote and no `:`. */
  lemma BlanksNotStops(gap: string)
    requires AllIn(gap, Whitespace)
    ensures NoneIn(gap, NameStops)
  {
    forall i | 0 <= i < |gap| ensures gap[i] !in NameStops {
      if gap[i] in NameStops {
        StopsNotBlank(gap[i]);
      }
    }
  }

  /** Text without a given character, put together. */
  lemma NoneInConcat(a: string, b: string, cs: set<char>)
    requires NoneIn(a, cs) && NoneIn(b, cs)
    ensures NoneIn(a + b, cs)
  {
  }

  /** The two halves of a concatenation. */
  lemma SplitConcat(a: string, b: string)
    ensures (a + b)[..|a|] == a && (a + b)[|a|..] == b
  {
  }

  /** An empty target: only blanks after the `:`. */
  lemma TargetOfBlank(pre: string, post: string)
    requires TargetValid(pre, [], post)
    ensures TargetOf(pre + [] + post) == Some([])
  {
    assert pre + [] + post == pre + post;
    LStripAllIn(pre + post, Whitespace);
  }

  /** The greedy target group keeps the blanks that end a line. */
  lemma TargetTrailingBlanks()
    ensures MappingMatch("a: b  ") == Some(("a", Some("b  ")))
  {
    var s := "a: b  ";
    BareHead("a", ": b  ");
    assert s[..1] == "a" && s[1..] == [':'] + (" " + "b  " + "");
    TargetTail(" ", "b  ", "");
  }

  /** A target after its blanks, up to the newline. */
  lemma TargetOfText(pre: string, text: string, post: string)
    requires TargetValid(pre, text, post) && text != []
    ensures TargetOf(pre + text + post) == Some(text)
  {
    assert pre + text + post == pre + (text + post);
    LStripSkip(pre, text + post, Whitespace);
    NotInNoneIn(text, '\n');
    FirstInSkip(text, post, {'\n'});
    SplitConcat(text, post);
  }

  /** A tail that starts with `:` is read by `TargetOf` after it. */
  lemma ColonTail(w: string)
    ensures MappingTail([':'] + w) == if TargetOf(w).None? then None else Some(TargetOf(w))
  {
    var r := [':'] + w;
    StopsNotBlank(':');
    LStripSkip([], r, Whitespace);
    assert [] + r == r;
    assert r[1..] == w;
  }

  /** The target part of a valid line: what follows `:` and its blanks. */
  lemma TargetTail(pre: string, text: string, post: string)
    requires TargetValid(pre, text, post)
    ensures MappingTail([':'] + (pre + text + post)) == Some(Some(text))
  {
    ColonTail(pre + text + post);
    if text == [] {
      TargetOfBlank(pre, post);
    } else {
      TargetOfText(pre, text, post);
    }
  }

  /** The tail of a valid line matches with the target as its group. */
  lemma MappingTailText(target: Option<(string, string, string)>)
    requires target.Some? ==> TargetValid(target.value.0, target.value.1, target.value.2)
    ensures MappingTail(TailText(target)) == Some(TargetGroup(target))
  {
    if target.Some? {
      TargetTail(target.value.0, target.value.1, target.value.2);
    }
  }

  /** Blanks before the tail are passed over. */
  lemma TailAfterGap(gap: string, target: Option<(string, string, string)>)
    requires AllIn(gap, Whitespace)
    ensures MappingTail(gap + TailText(target)) == MappingTail(TailText(target))
  {
    var tail := TailText(target);
    StopsNotBlank(':');
    assert tail == [] || tail[0] == ':';
    LStripSkip(gap, tail, Whitespace);
    LStripSkip([], tail, Whitespace);
    assert [] + tail == tail;
  }

  /** A quoted name ends at its closing quote. */
  lemma QuotedHead(h: string, x: string)
    requires QuotedName(h)
    ensures MappingHead(h + x) == Some(|h|)
  {
    var q := h[0];
    var s := h + x;
    NotInNoneIn(h[1..|h| - 1], q);
    assert s[1..] == h[1..|h| - 1] + [q] + x;
    FirstInAt(h[1..|h| - 1], q, x, {q});
  }

  /** A bare name runs up to a quote, a `:` or the end. */
  lemma BareHead(h: string, x: string)
    requires BareName(h) && (x == [] || x[0] in NameStops)
    ensures MappingHead(h + x) == Some(|h|)
  {
    if x == [] {
      assert h + x == h;
      FirstInNone(h, NameStops);
    } else {
      assert h + x == h + [x[0]] + x[1..];
      FirstInAt(h, x[0], x[1..], NameStops);
    }
  }

  /** Every valid mapping line matches, with the name and the target as
      its groups. */
  lemma MappingMatchText(m: MappingLine)
    requires m.Valid()
    ensures MappingMatch(m.Text()) == Some(m.Groups())
  {
    var tail := TailText(m.target);
    MappingTailText(m.target);
    if QuotedName(m.head) {
      QuotedHead(m.head, m.gap + tail);
      Append(m.head, m.gap, tail);
      SplitConcat(m.head, m.gap + tail);
      TailAfterGap(m.gap, m.target);
    } else {
      BlanksNotStops(m.gap);
      NoneInConcat(m.head, m.gap, NameStops);
      BareHead(m.head + m.gap, tail);
      SplitConcat(m.head + m.gap, tail);
    }
  }

  /** Where a match's first group ends, and what it holds. */
  lemma MappingHeadSome(s: string) returns (e: nat)
    requires MappingHead(s).Some?
    ensures MappingHead(s) == Some(e) && 1 <= e <= |s|
    ensures s[0] in Quotes ==> QuotedName(s[..e])
    ensures s[0] !in Quotes ==> BareName(s[..e]) && (s[e..] == [] || s[e] in NameStops)
  {
    e := MappingHead(s).value;
    if s[0] in Quotes {
      var j := e - 1;
      assert s[..e][1..e - 1] == s[1..][..j - 1];
      NoneInNotIn(s[1..][..j - 1], s[0]);
    }
  }

  /** The pieces after `:`: blanks, the target up to the newline, and the
      blanks that end the line. */
  lemma TargetParts(w: string) returns (pre: string, text: string, post: string)
    requires TargetOf(w).Some?
    ensures w == pre + text + post && TargetValid(pre, text, post)
    ensures TargetOf(w) == Some(text)
  {
    var v := LStrip(w);
    pre := LStripParts(w, Whitespace);
    var n := FirstIn(v, {'\n'});
    text, post := v[..n], v[n..];
    NoneInNotIn(text, '\n');
    SplitAt(v, n, post);
    Append(pre, text, post);
  }

  /** What follows a match's first group: blanks and an optional target. */
  lemma MappingTailSome(t: string) returns (gap: string, target: Option<(string, string, string)>)
    requires MappingTail(t).Some?
    ensures t == gap + TailText(target) && AllIn(gap, Whitespace)
    ensures target.Some? ==> TargetValid(target.value.0, target.value.1, target.value.2)
    ensures MappingTail(t) == Some(TargetGroup(target))
  {
    var u := LStrip(t);
    gap := LStripParts(t, Whitespace);
    if u == [] {
      target := None;
      assert t == gap + [];
    } else {
      var pre, text, post := TargetParts(u[1..]);
      target := Some((pre, text, post));
      assert u == [':'] + u[1..];
      Append([':'], pre + text, post);
      Append([':'], pre, text);
    }
  }

  /** Blanks cannot stand before a quote or a `:`. */
  lemma NoGapBeforeStop(gap: string, x: string)
    requires AllIn(gap, Whitespace) && (gap + x == [] || (gap + x)[0] in NameStops)
    ensures gap == []
  {
    if gap != [] {
      assert (gap + x)[0] == gap[0];
      StopsNotBlank(gap[0]);
    }
  }

  /** The mapping line a match is read from. */
  lemma MappingLineFrom(s: string) returns (m: MappingLine)
    requires MappingMatch(s).Some?
    ensures m.Valid() && m.Text() == s && m.Groups() == MappingMatch(s).value
  {
    var e := MappingHeadSome(s);
    var t := s[e..];
    var gap, target := MappingTailSome(t);
    SplitAt(s, e, t);
    Append(s[..e], gap, TailText(target));
    if s[0] !in Quotes {
      NoGapBeforeStop(gap, TailText(target));
      assert s[..e] + gap == s[..e];
    }
    m := MappingLine(s[..e], gap, target);
  }

  /** Whatever matches is a valid mapping line with those groups. */
  lemma MappingMatchParts(s: string)
    requires MappingMatch(s).Some?
    ensures exists m: MappingLine :: m.Valid() && m.Text() == s && m.Groups() == MappingMatch(s).value
  {
    var m := MappingLineFrom(s);
  }
}
