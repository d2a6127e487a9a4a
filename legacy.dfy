/** `Dotlink.parse_mapping` of `dotlink/dotlink.py`: the older mapping
    format. Each line holds one `source[: target]` entry, and names may be
    quoted. A `#include "path"` line splices in another mapping. Entries
    accumulate first-wins in one ordered dictionary. The recursive calls for
    includes share that dictionary and update it in place.

    The functions `Parse`, `ParseLines`, `ParseLine`, `IncludeStep` and
    `MapLine` say what a parse yields. The method `ParseMapping` is the
    loop itself, over an `OrderedDict` object, proved to yield exactly that. */
module Legacy {
  import opened Wrappers
  import opened PyStr
  import opened FileSystem
  import opened LegacyPatterns
  import Core

  /** The names a mapping is looked up under in a directory, in order. */
  const MappingNames: seq<string> := [".dotfiles", "dotfiles"]

  /** What the process's surroundings supply: the home directory for `~`
      and the working directory for relative paths. */
  datatype Env = Env(home: Path, cwd: Path)

  // ---------------------------------------------------------------------
  // Paths

  /** A text that `os.path.expanduser` replaces the head of: `~` alone or
      followed by `/`. */
  predicate HomeText(text: string) {
    |text| >= 1 && text[0] == '~' && (|text| == 1 || text[1] == '/')
  }

  /** `os.path.expanduser(text)` made absolute, with `.` and `..`
      collapsed. `~` means the home directory; `~user` is kept as a name. */
  function ExpandUser(env: Env, text: string): Path {
    if HomeText(text) then Walk(env.home, Split(text[1..], '/'))
    else Normalize(env.cwd, text)
  }

  /** `os.path.realpath(os.path.expanduser(text))`. */
  function RealPath(fs: FS, env: Env, text: string): Path {
    Resolve(fs, ExpandUser(env, text))
  }

  /** `~/rest` is `rest` below the home directory. */
  lemma ExpandHome(env: Env, rest: string)
    requires rest == [] || rest[0] != '/'
    ensures ExpandUser(env, ['~', '/'] + rest) == Normalize(env.home, rest)
  {
    var text := ['~', '/'] + rest;
    assert text[1..] == ['/'] + rest;
    SplitLeading(rest, '/');
    var names := Split(rest, '/');
    assert Walk(env.home, [""] + names) == Walk(Step(env.home, ""), names);
  }

  /** `os.path.join(a, b)`: an absolute `b` replaces `a`; otherwise one
      `/` goes between them unless `a` is empty or already ends with one. */
  function JoinPath(a: string, b: string): (r: string)
    ensures |b| > 0 && b[0] == '/' ==> r == b
    ensures !(|b| > 0 && b[0] == '/') && (a == [] || a[|a| - 1] == '/') ==> r == a + b
    ensures !(|b| > 0 && b[0] == '/') && a != [] && a[|a| - 1] != '/' ==> r == a + "/" + b
  {
    if |b| > 0 && b[0] == '/' then b
    else if a == [] || a[|a| - 1] == '/' then a + b
    else a + "/" + b
  }

  /** The mapping file for a resolved path: the path itself when it is a
      file; in a directory, `.dotfiles` and then `dotfiles`. */
  function MappingFile(fs: FS, m: Path): (r: Option<Path>)
    ensures r.Some? ==> IsFile(fs, r.value)
    ensures IsFile(fs, m) ==> r == Some(m)
    ensures !IsFile(fs, m) && IsDir(fs, m) && IsFile(fs, m + [MappingNames[0]]) ==> r == Some(m + [MappingNames[0]])
    ensures !IsFile(fs, m) && IsDir(fs, m) && !IsFile(fs, m + [MappingNames[0]]) ==>
              r == (if IsFile(fs, m + [MappingNames[1]]) then Some(m + [MappingNames[1]]) else None)
    ensures !IsFile(fs, m) && !IsDir(fs, m) ==> r.None?
  {
    if IsFile(fs, m) then Some(m)
    else if IsDir(fs, m) then Core.FirstFile(fs, m, MappingNames)
    else None
  }

  /** Where an include line points, as text: a path starting with `/` or
      `~` is expanded and resolved on its own; any other is joined to the
      directory of the mapping file being read. */
  function IncludeTarget(fs: FS, env: Env, file: Path, incl: string): (r: string)
    ensures |incl| > 0 && incl[0] == '/' ==> r == PathText(Resolve(fs, Normalize([], incl)))
    ensures HomeText(incl) ==> r == PathText(Resolve(fs, Walk(env.home, Split(incl[1..], '/'))))
  {
    if |incl| > 0 && (incl[0] == '/' || incl[0] == '~') then PathText(RealPath(fs, env, incl))
    else JoinPath(PathText(Parent(file)), incl)
  }

  /** `str(p)` never ends with `/` below the root. */
  lemma PathTextEnd(p: Path)
    requires p != [] && Normalized(p)
    ensures var t := PathText(p); t != [] && t[|t| - 1] != '/'
  {
    var last := p[|p| - 1];
    JoinWithAppend("/", p[..|p| - 1], last);
    assert p[..|p| - 1] + [last] == p;
    assert last != "" && '/' !in last;
    assert last[|last| - 1] in last;
  }

  /** A relative include names the path relative to the directory of the
      mapping file that holds it. */
  lemma IncludeRelative(fs: FS, env: Env, file: Path, incl: string)
    requires Normalized(Parent(file))
    requires incl == [] || (incl[0] != '/' && incl[0] != '~')
    ensures Normalize(env.cwd, IncludeTarget(fs, env, file, incl)) == Normalize(Parent(file), incl)
  {
    var dir := Parent(file);
    var names := Split(incl, '/');
    if dir == [] {
      assert PathText(dir) == "/";
      var t := ['/'] + incl;
      assert IncludeTarget(fs, env, file, incl) == t;
      SplitLeading(incl, '/');
      assert Walk([], [""] + names) == Walk(Step([], ""), names);
    } else {
      PathTextEnd(dir);
      var j := JoinWith("/", dir);
      var t := ['/'] + (j + ['/'] + incl);
      assert IncludeTarget(fs, env, file, incl) == t;
      SplitLeading(j + ['/'] + incl, '/');
      SplitJoined(dir, incl, '/');
      assert Walk([], [""] + (dir + names)) == Walk(Step([], ""), dir + names);
      WalkAppend([], dir, names);
      WalkNames([], dir);
      assert [] + dir == dir;
    }
  }

  // ---------------------------------------------------------------------
  // The ordered dictionary

  /** An `OrderedDict` of source paths to target texts, as a value. */
  datatype Dict = Dict(keys: seq<string>, values: map<string, string>)
  {
    /** Each key is listed once, in insertion order, and the listed keys
        are exactly the keys that have values. */
    predicate Valid() {
      && (forall i, j :: 0 <= i < j < |keys| ==> keys[i] != keys[j])
      && (forall k :: k in values ==> k in keys)
      && (forall i :: 0 <= i < |keys| ==> keys[i] in values)
    }

    /** `d[k] = v`: a new key goes last, an existing one keeps its place. */
    function Put(k: string, v: string): (r: Dict)
      ensures r.values == values[k := v]
      ensures k in values ==> r.keys == keys
      ensures k !in values ==> r.keys == keys + [k]
      ensures Valid() ==> r.Valid()
    {
      if k in values then Dict(keys, values[k := v]) else Dict(keys + [k], values[k := v])
    }
  }

  /** `e` is `d` with entries added after its own: its keys come first and
      keep their values. */
  predicate Extends(d: Dict, e: Dict) {
    && d.keys <= e.keys
    && forall k :: k in d.values ==> k in e.values && e.values[k] == d.values[k]
  }

  /** A parse that started from `d` left a well-formed extension of it. */
  predicate Grows(d: Dict, r: Parsed) {
    Extends(d, r.dict) && r.dict.Valid()
  }

  lemma ExtendsRefl(d: Dict)
    ensures Extends(d, d)
  {
  }

  lemma ExtendsTrans(a: Dict, b: Dict, c: Dict)
    requires Extends(a, b) && Extends(b, c)
    ensures Extends(a, c)
  {
  }

  /** The dictionary object that the parse and its includes share. */
  class OrderedDict {
    var keys: seq<string>
    var values: map<string, string>

    function Snapshot(): Dict
      reads this
    {
      Dict(keys, values)
    }

    /** `OrderedDict()`. */
    constructor ()
      ensures Snapshot() == Dict([], map[])
      ensures Snapshot().Valid()
    {
      keys := [];
      values := map[];
    }

    /** `k in d`. */
    method Contains(k: string) returns (b: bool)
      ensures b <==> k in Snapshot().values
    {
      b := k in values;
    }

    /** `d[k] = v`. */
    method Insert(k: string, v: string)
      modifies this
      ensures Snapshot() == old(Snapshot()).Put(k, v)
    {
      if k !in values {
        keys := keys + [k];
      }
      values := values[k := v];
    }
  }

  // ---------------------------------------------------------------------
  // What one line says

  /** An include line's target, and whether it exists when the line is
      read. */
  datatype Include = Include(target: string, found: bool)

  /** What is left of a line once its include is done: nothing (an empty
      or `#` line), a text the mapping pattern rejects, or an entry with
      its joined source path and its target. */
  datatype Body = Skip | Unmatched | Entry(key: string, value: string)

  datatype Line = Line(incl: Option<Include>, body: Body)

  /** The include of a stripped line, with its target resolved. */
  function IncludeOf(fs: FS, env: Env, file: Path, content: string): Option<Include> {
    match IncludeMatch(content)
    case None => None
    case Some(g) =>
      var target := IncludeTarget(fs, env, file, StripSet(g, Quotes));
      Some(Include(target, Exists(fs, Normalize(env.cwd, target))))
  }

  /** The entry of a stripped line: the source name, without its quotes,
      joined to the source directory; a line without a target maps the
      source to itself. */
  function BodyOf(src: string, content: string): Body {
    if content == [] || content[0] == '#' then Skip
    else match MappingMatch(content)
      case None => Unmatched
      case Some((name, target)) =>
        var key := JoinPath(src, StripSet(name, Quotes));
        Entry(key, target.GetOr(key))
  }

  /** One line of mapping file `file`, stripped and read. */
  function Classify(fs: FS, env: Env, file: Path, src: string, line: string): Line {
    var content := Strip(line);
    Line(IncludeOf(fs, env, file, content), BodyOf(src, content))
  }

  /** Every line of mapping file `file`, read. */
  function Lines(fs: FS, env: Env, file: Path, src: string, raw: seq<string>): (ls: seq<Line>)
    ensures |ls| == |raw|
  {
    seq(|raw|, i requires 0 <= i < |raw| => Classify(fs, env, file, src, raw[i]))
  }

  // ---------------------------------------------------------------------
  // What a parse yields

  /** The warnings the parse logs, with the line they are about. */
  datatype Warning =
    | MissingInclude(path: string, lineno: nat)
    | DuplicateSource(lineno: nat)
    | NoMatch(lineno: nat)

  /** `ValueError("No dotfile mapping found in …")`, or running out of the
      include depth the model allows. */
  datatype LegacyError = NoMapping(path: string) | RecursionLimit

  /** The dictionary after the parse, the warnings in order, and the error
      the parse stopped with. */
  datatype Parsed = Parsed(dict: Dict, warnings: seq<Warning>, err: Option<LegacyError>)

  /** Warnings logged before a parse that went on to yield `r`. */
  function Prepend(ws: seq<Warning>, r: Parsed): Parsed {
    Parsed(r.dict, ws + r.warnings, r.err)
  }

  /** `parse_mapping(map_path, source, dotfiles)` with the dictionary as it
      stands. `fuel` bounds how deep includes may nest. */
  function Parse(fs: FS, env: Env, mapText: string, source: Option<string>, d: Dict, fuel: nat): Parsed
    decreases fuel, 3, 0
  {
    var m := RealPath(fs, env, mapText);
    match MappingFile(fs, m)
    case None => Parsed(d, [], Some(NoMapping(PathText(m))))
    case Some(f) =>
      var src := source.GetOr(PathText(Parent(m)));
      ParseLines(fs, env, Lines(fs, env, f, src, SplitLines(ReadText(fs, f), FileBreaks)), 1, d, fuel)
  }

  /** The lines of one mapping file, the first of them numbered `lineno`,
      in order; an error stops the parse. */
  function ParseLines(fs: FS, env: Env, ls: seq<Line>, lineno: nat, d: Dict, fuel: nat): Parsed
    decreases fuel, 2, |ls|
  {
    if ls == [] then Parsed(d, [], None)
    else
      var r := ParseLine(fs, env, ls[0], lineno, d, fuel);
      if r.err.Some? then r
      else Prepend(r.warnings, ParseLines(fs, env, ls[1..], lineno + 1, r.dict, fuel))
  }

  /** One line: its include is followed first, then its entry goes in. */
  function ParseLine(fs: FS, env: Env, l: Line, lineno: nat, d: Dict, fuel: nat): Parsed
    decreases fuel, 1, 0
  {
    var inc := IncludeStep(fs, env, l.incl, lineno, d, fuel);
    if inc.err.Some? then inc
    else
      var (e, ws) := MapLine(l.body, lineno, inc.dict);
      Parsed(e, inc.warnings + ws, None)
  }

  /** An include: a path that does not exist is a warning; one that does
      is parsed into the same dictionary, with the source directory left
      to default. */
  function IncludeStep(fs: FS, env: Env, inc: Option<Include>, lineno: nat, d: Dict, fuel: nat): Parsed
    decreases fuel, 0, 0
  {
    match inc
    case None => Parsed(d, [], None)
    case Some(Include(target, found)) =>
      if !found then Parsed(d, [MissingInclude(target, lineno)], None)
      else if fuel == 0 then Parsed(d, [], Some(RecursionLimit))
      else Parse(fs, env, target, None, d, fuel - 1)
  }

  /** An entry: a source already present is skipped with a warning. */
  function MapLine(b: Body, lineno: nat, d: Dict): (Dict, seq<Warning>) {
    match b
    case Skip => (d, [])
    case Unmatched => (d, [NoMatch(lineno)])
    case Entry(key, value) =>
      if key in d.values then (d, [DuplicateSource(lineno)])
      else (d.Put(key, value), [])
  }

  // ---------------------------------------------------------------------
  // The parse, in place

  /** `parse_mapping`: finds the mapping file, reads its lines and parses
      them into the shared dictionary. */
  method ParseMapping(fs: FS, env: Env, mapText: string, source: Option<string>, d: OrderedDict, fuel: nat)
    returns (warnings: seq<Warning>, err: Option<LegacyError>)
    modifies d
    ensures Parsed(d.Snapshot(), warnings, err) == Parse(fs, env, mapText, source, old(d.Snapshot()), fuel)
    decreases fuel, 2
  {
    var m := RealPath(fs, env, mapText);
    var file := MappingFile(fs, m);
    if file.None? {
      return [], Some(NoMapping(PathText(m)));
    }
    var f := file.value;
    var src := if source.Some? then source.value else PathText(Parent(m));
    var ls := Lines(fs, env, f, src, SplitLines(ReadText(fs, f), FileBreaks));
    warnings, err := ParseLinesInPlace(fs, env, ls, d, fuel);
  }

  /** The loop of `parse_mapping` over the lines, in order. On an error
      the entries inserted so far stay. */
  method ParseLinesInPlace(fs: FS, env: Env, ls: seq<Line>, d: OrderedDict, fuel: nat)
    returns (warnings: seq<Warning>, err: Option<LegacyError>)
    modifies d
    ensures Parsed(d.Snapshot(), warnings, err) == ParseLines(fs, env, ls, 1, old(d.Snapshot()), fuel)
    decreases fuel, 1
  {
    warnings := [];
    var i := 0;
    while i < |ls|
      invariant i <= |ls|
      invariant ParseLines(fs, env, ls, 1, old(d.Snapshot()), fuel)
                == Prepend(warnings, ParseLines(fs, env, ls[i..], i + 1, d.Snapshot(), fuel))
      decreases |ls| - i
    {
      ghost var before := d.Snapshot();
      var ws, e := ParseLineInPlace(fs, env, ls[i], i + 1, d, fuel);
      LinesStep(fs, env, ls, i, before, fuel);
      if e.Some? {
        return warnings + ws, e;
      }
      ghost var rest := ParseLines(fs, env, ls[i + 1..], i + 2, d.Snapshot(), fuel);
      assert warnings + ws + rest.warnings == warnings + (ws + rest.warnings);
      warnings := warnings + ws;
      i := i + 1;
    }
    return warnings, None;
  }

  /** One pass of the loop: an include is followed by calling
      `parse_mapping` on the same dictionary, then the entry is inserted
      into it unless its source is already there. */
  method ParseLineInPlace(fs: FS, env: Env, l: Line, lineno: nat, d: OrderedDict, fuel: nat)
    returns (warnings: seq<Warning>, err: Option<LegacyError>)
    modifies d
    ensures Parsed(d.Snapshot(), warnings, err) == ParseLine(fs, env, l, lineno, old(d.Snapshot()), fuel)
    decreases fuel, 0
  {
    warnings, err := [], None;
    if l.incl.Some? {
      var inc := l.incl.value;
      if !inc.found {
        warnings := [MissingInclude(inc.target, lineno)];
      } else if fuel == 0 {
        return [], Some(RecursionLimit);
      } else {
        warnings, err := ParseMapping(fs, env, inc.target, None, d, fuel - 1);
        if err.Some? {
          return;
        }
      }
    }
    match l.body
    case Skip =>
    case Unmatched =>
      warnings := warnings + [NoMatch(lineno)];
    case Entry(key, value) =>
      var present := d.Contains(key);
      if present {
        warnings := warnings + [DuplicateSource(lineno)];
      } else {
        d.Insert(key, value);
      }
    return warnings, None;
  }

  /** The lines from `i` on are line `i` and then the lines after it. */
  lemma LinesStep(fs: FS, env: Env, ls: seq<Line>, i: nat, d: Dict, fuel: nat)
    requires i < |ls|
    ensures var r := ParseLine(fs, env, ls[i], i + 1, d, fuel);
      ParseLines(fs, env, ls[i..], i + 1, d, fuel)
      == if r.err.Some? then r else Prepend(r.warnings, ParseLines(fs, env, ls[i + 1..], i + 2, r.dict, fuel))
  {
    assert ls[i..][0] == ls[i] && ls[i..][1..] == ls[i + 1..];
  }

  /** `parse_mapping` without a dictionary: a new one is made. */
  method ParseMappingNew(fs: FS, env: Env, mapText: string, source: Option<string>, fuel: nat)
    returns (d: OrderedDict, warnings: seq<Warning>, err: Option<LegacyError>)
    ensures Parsed(d.Snapshot(), warnings, err) == Parse(fs, env, mapText, source, Dict([], map[]), fuel)
    ensures d.Snapshot().Valid()
  {
    d := new OrderedDict();
    warnings, err := ParseMapping(fs, env, mapText, source, d, fuel);
    ParseExtends(fs, env, mapText, source, Dict([], map[]), fuel);
  }

  // ---------------------------------------------------------------------
  // Properties

  /** No mapping file: `ValueError`, and the dictionary is untouched. */
  lemma NoMappingFails(fs: FS, env: Env, mapText: string, source: Option<string>, d: Dict, fuel: nat)
    requires var m := RealPath(fs, env, mapText); !IsFile(fs, m) && (!IsDir(fs, m) || forall k :: 0 <= k < |MappingNames| ==> !IsFile(fs, m + [MappingNames[k]]))
    ensures Parse(fs, env, mapText, source, d, fuel) == Parsed(d, [], Some(NoMapping(PathText(RealPath(fs, env, mapText)))))
  {
    var m := RealPath(fs, env, mapText);
    if IsDir(fs, m) {
      assert !IsFile(fs, m + [MappingNames[0]]) && !IsFile(fs, m + [MappingNames[1]]);
    }
  }

  /** Parsing only ever adds entries after the ones present, and keeps the
      dictionary well formed. */
  lemma {:induction false} ParseExtends(fs: FS, env: Env, mapText: string, source: Option<string>, d: Dict, fuel: nat)
    requires d.Valid()
    ensures Grows(d, Parse(fs, env, mapText, source, d, fuel))
    decreases fuel, 3, 0
  {
    var m := RealPath(fs, env, mapText);
    match MappingFile(fs, m)
    case None =>
    case Some(f) =>
      var src := source.GetOr(PathText(Parent(m)));
      ParseLinesExtends(fs, env, Lines(fs, env, f, src, SplitLines(ReadText(fs, f), FileBreaks)), 1, d, fuel);
  }

  lemma {:induction false} ParseLinesExtends(fs: FS, env: Env, ls: seq<Line>, lineno: nat, d: Dict, fuel: nat)
    requires d.Valid()
    ensures Grows(d, ParseLines(fs, env, ls, lineno, d, fuel))
    decreases fuel, 2, |ls|
  {
    if ls != [] {
      var r := ParseLine(fs, env, ls[0], lineno, d, fuel);
      ParseLineExtends(fs, env, ls[0], lineno, d, fuel);
      if r.err.None? {
        ParseLinesExtends(fs, env, ls[1..], lineno + 1, r.dict, fuel);
        ExtendsTrans(d, r.dict, ParseLines(fs, env, ls[1..], lineno + 1, r.dict, fuel).dict);
      }
    }
  }

  lemma {:induction false} ParseLineExtends(fs: FS, env: Env, l: Line, lineno: nat, d: Dict, fuel: nat)
    requires d.Valid()
    ensures Grows(d, ParseLine(fs, env, l, lineno, d, fuel))
    decreases fuel, 1, 0
  {
    var inc := IncludeStep(fs, env, l.incl, lineno, d, fuel);
    IncludeStepExtends(fs, env, l.incl, lineno, d, fuel);
    if inc.err.None? {
      MapLineExtends(l.body, lineno, inc.dict);
      ExtendsTrans(d, inc.dict, MapLine(l.body, lineno, inc.dict).0);
    }
  }

  lemma {:induction false} IncludeStepExtends(fs: FS, env: Env, inc: Option<Include>, lineno: nat, d: Dict, fuel: nat)
    requires d.Valid()
    ensures Grows(d, IncludeStep(fs, env, inc, lineno, d, fuel))
    decreases fuel, 0, 0
  {
    match inc
    case None =>
      ExtendsRefl(d);
    case Some(Include(target, found)) =>
      if found && fuel > 0 {
        ParseExtends(fs, env, target, None, d, fuel - 1);
      } else {
        ExtendsRefl(d);
      }
  }

  /** An entry adds at most its own key, at the end. */
  lemma MapLineExtends(b: Body, lineno: nat, d: Dict)
    requires d.Valid()
    ensures var e := MapLine(b, lineno, d).0; Extends(d, e) && e.Valid()
  {
    match b
    case Entry(key, value) =>
      if key !in d.values {
        PutExtends(d, key, value);
      } else {
        ExtendsRefl(d);
      }
    case _ =>
      ExtendsRefl(d);
  }

  /** A new key goes after the others, which keep their values. */
  lemma PutExtends(d: Dict, k: string, v: string)
    requires d.Valid() && k !in d.values
    ensures Extends(d, d.Put(k, v)) && d.Put(k, v).Valid()
  {
  }

  /** Running lines one after another: the second part starts from the
      dictionary the first part left and is numbered after it. */
  lemma {:induction false} ParseLinesAppend(fs: FS, env: Env, a: seq<Line>, b: seq<Line>, lineno: nat, d: Dict, fuel: nat)
    ensures var r := ParseLines(fs, env, a, lineno, d, fuel);
      ParseLines(fs, env, a + b, lineno, d, fuel)
      == if r.err.Some? then r else Prepend(r.warnings, ParseLines(fs, env, b, lineno + |a|, r.dict, fuel))
    decreases |a|
  {
    if a == [] {
      assert a + b == b;
    } else {
      assert (a + b)[0] == a[0] && (a + b)[1..] == a[1..] + b;
      var r := ParseLine(fs, env, a[0], lineno, d, fuel);
      if r.err.None? {
        ParseLinesAppend(fs, env, a[1..], b, lineno + 1, r.dict, fuel);
        var s := ParseLines(fs, env, a[1..], lineno + 1, r.dict, fuel);
        if s.err.None? {
          var t := ParseLines(fs, env, b, lineno + |a|, s.dict, fuel);
          assert r.warnings + (s.warnings + t.warnings) == r.warnings + s.warnings + t.warnings;
        }
      }
    }
  }

  /** The entries of an include land where the include line stands: after
      those of the lines above it and before those of the lines below. */
  lemma IncludeInPlace(fs: FS, env: Env, above: seq<Line>, l: Line, below: seq<Line>, d: Dict, fuel: nat)
    requires d.Valid() && l.body == Skip
    requires ParseLines(fs, env, above + [l], 1, d, fuel).err.None?
    ensures var a := ParseLines(fs, env, above, 1, d, fuel);
      var inc := IncludeStep(fs, env, l.incl, |above| + 1, a.dict, fuel);
      var all := ParseLines(fs, env, above + [l] + below, 1, d, fuel);
      && a.err.None? && inc.err.None?
      && Extends(a.dict, inc.dict) && Extends(inc.dict, all.dict)
      && a.warnings + inc.warnings <= all.warnings
  {
    var a := ParseLines(fs, env, above, 1, d, fuel);
    ParseLinesAppend(fs, env, above, [l], 1, d, fuel);
    ParseLinesAppend(fs, env, above + [l], below, 1, d, fuel);
    ParseLinesExtends(fs, env, above, 1, d, fuel);
    var inc := IncludeStep(fs, env, l.incl, |above| + 1, a.dict, fuel);
    assert [l][1..] == [];
    assert ParseLines(fs, env, [l], |above| + 1, a.dict, fuel) == Prepend(inc.warnings, Parsed(inc.dict, [], None));
    IncludeStepExtends(fs, env, l.incl, |above| + 1, a.dict, fuel);
    var mid := ParseLines(fs, env, above + [l], 1, d, fuel);
    assert mid.dict == inc.dict && mid.warnings == a.warnings + (inc.warnings + []);
    ParseLinesExtends(fs, env, below, |above + [l]| + 1, mid.dict, fuel);
  }

  /** A line that `strip` leaves empty adds nothing and logs nothing. */
  lemma BlankLine(fs: FS, env: Env, file: Path, src: string, line: string, lineno: nat, d: Dict, fuel: nat)
    requires Strip(line) == []
    ensures ParseLine(fs, env, Classify(fs, env, file, src, line), lineno, d, fuel) == Parsed(d, [], None)
  {
  }

  /** A comment line adds nothing and logs nothing. */
  lemma CommentLine(fs: FS, env: Env, file: Path, src: string, line: string, lineno: nat, d: Dict, fuel: nat)
    requires Strip(line) != [] && Strip(line)[0] == '#' && IncludeMatch(Strip(line)).None?
    ensures ParseLine(fs, env, Classify(fs, env, file, src, line), lineno, d, fuel) == Parsed(d, [], None)
  {
  }

  /** A stripped include line starts with `#`. */
  lemma IncludeStartsWithHash(content: string)
    requires IncludeMatch(content).Some? && (content == [] || content[0] !in Whitespace)
    ensures content != [] && content[0] == '#'
  {
    var lead, word, u := IncludeMatchSome(content);
    if lead != [] {
      assert content[0] == lead[0];
    }
  }

  /** An include line adds no entry of its own: all it does is its
      include. */
  lemma IncludeLineNoEntry(fs: FS, env: Env, file: Path, src: string, line: string)
    requires IncludeMatch(Strip(line)).Some?
    ensures Classify(fs, env, file, src, line).body == Skip
  {
    IncludeStartsWithHash(Strip(line));
  }

  /** An include of a path that does not exist is a warning, and the
      parse goes on. */
  lemma MissingIncludeWarns(fs: FS, env: Env, file: Path, src: string, line: string, lineno: nat, d: Dict, fuel: nat)
    requires IncludeMatch(Strip(line)).Some?
    requires var target := IncludeTarget(fs, env, file, StripSet(IncludeMatch(Strip(line)).value, Quotes));
      !Exists(fs, Normalize(env.cwd, target))
    ensures ParseLine(fs, env, Classify(fs, env, file, src, line), lineno, d, fuel)
      == Parsed(d, [MissingInclude(IncludeTarget(fs, env, file, StripSet(IncludeMatch(Strip(line)).value, Quotes)), lineno)], None)
  {
    IncludeLineNoEntry(fs, env, file, src, line);
  }

  /** A text that does not start with `#` after its blanks is no include. */
  lemma NoHashNoInclude(content: string)
    requires content != [] && content[0] != '#' && content[0] !in Whitespace
    ensures IncludeMatch(content).None?
  {
    LStripSkip([], content, Whitespace);
    assert [] + content == content;
  }

  /** A line the mapping pattern rejects is a warning, and the parse goes
      on. */
  lemma NoMatchWarns(fs: FS, env: Env, file: Path, src: string, line: string, lineno: nat, d: Dict, fuel: nat)
    requires Strip(line) != [] && Strip(line)[0] != '#' && MappingMatch(Strip(line)).None?
    ensures ParseLine(fs, env, Classify(fs, env, file, src, line), lineno, d, fuel) == Parsed(d, [NoMatch(lineno)], None)
  {
    UnmatchedLine(fs, env, file, src, line);
  }

  lemma UnmatchedLine(fs: FS, env: Env, file: Path, src: string, line: string)
    requires Strip(line) != [] && Strip(line)[0] != '#' && MappingMatch(Strip(line)).None?
    ensures Classify(fs, env, file, src, line) == Line(None, Unmatched)
  {
    NoHashNoInclude(Strip(line));
  }

  /** A mapping line that is no comment has as its entry its source,
      joined to the source directory without quotes, with its target, or
      itself when it has none. */
  lemma MappingEntry(src: string, m: MappingLine)
    requires m.Valid() && m.Text()[0] != '#'
    ensures var key := JoinPath(src, StripSet(m.Groups().0, Quotes));
      BodyOf(src, m.Text()) == Entry(key, TargetGroup(m.target).GetOr(key))
  {
    MappingMatchText(m);
  }

  /** The first entry for a source wins: a later line for it changes
      nothing but logs a warning; a new source goes in with its target. */
  lemma FirstWins(fs: FS, env: Env, key: string, value: string, lineno: nat, d: Dict, fuel: nat)
    ensures ParseLine(fs, env, Line(None, Entry(key, value)), lineno, d, fuel)
      == if key in d.values then Parsed(d, [DuplicateSource(lineno)], None)
         else Parsed(d.Put(key, value), [], None)
  {
  }

  /** Quotes around a name are dropped. */
  lemma UnquotedName(q: char, name: string)
    requires q in Quotes && name != [] && name[0] !in Quotes && name[|name| - 1] !in Quotes
    ensures StripSet([q] + name + [q], Quotes) == name
  {
    LStripSkip([q], name + [q], Quotes);
    assert [q] + name + [q] == [q] + (name + [q]);
    RStripSkip(name, [q], Quotes);
  }

  /** `"name"` alone on a line maps the joined source path to itself. */
  lemma QuotedSourceOnly(src: string, q: char, name: string)
    requires q in Quotes && name != [] && name[0] !in Quotes && name[|name| - 1] !in Quotes && q !in name
    ensures BodyOf(src, [q] + name + [q]) == Entry(JoinPath(src, name), JoinPath(src, name))
  {
    var h := [q] + name + [q];
    assert h[1..|h| - 1] == name;
    var m := MappingLine(h, [], None);
    assert QuotedName(h);
    assert m.Text() == h;
    MappingEntry(src, m);
    UnquotedName(q, name);
  }
}
