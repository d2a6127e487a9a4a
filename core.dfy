/** `dotlink/core.py`: finding a profile's mapping file and resolving it,
    with the directories it includes, into a tree of `Config` values. */
module Core {
  import opened Wrappers
  import opened PyStr
  import opened FileSystem
  import opened Types

  /** The mapping file names, in the order they are tried. */
  const MappingNames: seq<string> := [".dotlink", "dotlink"]

  /** What resolving a profile can raise. `RecursionLimit` stands for the
      interpreter's `RecursionError`, which a directory including itself
      runs into; the model reaches it when its depth bound is spent. */
  datatype CoreError =
    | MappingNotFound(root: Path)
    | IncludeIsFile(line: string)
    | IncludeNotFound(line: string)
    | RecursionLimit

  /** The text of the exception. */
  function Message(e: CoreError): string {
    match e
    case MappingNotFound(root) => "no dotlink mapping found in " + PathText(root)
    case IncludeIsFile(line) => line + " is a file"
    case IncludeNotFound(line) => line + " not found"
    case RecursionLimit => "maximum recursion depth exceeded"
  }

  // ---------------------------------------------------------------------
  // discover_mapping

  /** The first of `names` that is a regular file in `dir`. */
  function FirstFile(fs: FS, dir: Path, names: seq<string>): (r: Option<Path>)
    ensures r.Some? ==> exists k :: 0 <= k < |names| && r.value == dir + [names[k]] && IsFile(fs, r.value)
                                 && (forall j :: 0 <= j < k ==> !IsFile(fs, dir + [names[j]]))
    ensures r.None? <==> forall k :: 0 <= k < |names| ==> !IsFile(fs, dir + [names[k]])
  {
    if names == [] then None
    else if IsFile(fs, dir + [names[0]]) then Some(dir + [names[0]])
    else
      var r := FirstFile(fs, dir, names[1..]);
      if r.Some? then
        var k :| 0 <= k < |names[1..]| && r.value == dir + [names[1..][k]] && IsFile(fs, r.value)
                 && (forall j :: 0 <= j < k ==> !IsFile(fs, dir + [names[1..][j]]));
        assert r.value == dir + [names[k + 1]];
        r
      else r
  }

  /** `discover_mapping(root)`: `.dotlink` when it is a file, else `dotlink`
      when that is, else `FileNotFoundError`. */
  function DiscoverMapping(fs: FS, root: Path): (r: Result<Path, CoreError>)
    ensures r == Ok(root + [".dotlink"]) <==> IsFile(fs, root + [".dotlink"])
    ensures r == Ok(root + ["dotlink"]) <==> !IsFile(fs, root + [".dotlink"]) && IsFile(fs, root + ["dotlink"])
    ensures r.Err? <==> !IsFile(fs, root + [".dotlink"]) && !IsFile(fs, root + ["dotlink"])
    ensures r.Err? ==> r.error == MappingNotFound(root)
  {
    var found := FirstFile(fs, root, MappingNames);
    if found.None? then
      assert !IsFile(fs, root + [MappingNames[0]]) && !IsFile(fs, root + [MappingNames[1]]);
      Err(MappingNotFound(root))
    else
      var a, b := root + [".dotlink"], root + ["dotlink"];
      assert a[|root|] != b[|root|];
      assert IsFile(fs, a) ==> found.value == a;
      assert !IsFile(fs, a) ==> found.value == b;
      Ok(found.value)
  }

  // ---------------------------------------------------------------------
  // generate_plan

  /** What a line of a mapping file stands for. */
  datatype LineKind = Comment | Include(sub: string) | Pair(dest: string, src: string) | Blank

  /** The classification `generate_plan` applies to each line, in its order:
      a comment, then an include, then a `dest = src` pair split at the
      first `=`, then a name mapped to itself, else nothing. */
  function Classify(line: string): LineKind {
    var l := LStrip(line);
    if |l| > 0 && l[0] == '#' then Comment
    else if |line| > 0 && line[0] == '@' then Include(line[1..])
    else
      var i := FirstIn(line, {'='});
      if i < |line| then Pair(Strip(line[..i]), Strip(line[i + 1..]))
      else if Strip(line) != "" then Pair(Strip(line), Strip(line))
      else Blank
  }

  /** The first non-whitespace character of `s` is at `i`. */
  predicate FirstNonSpaceAt(s: string, i: nat) {
    i < |s| && AllIn(s[..i], Whitespace) && s[i] !in Whitespace
  }

  lemma LStripAt(s: string, i: nat)
    requires FirstNonSpaceAt(s, i)
    ensures LStrip(s) == s[i..]
  {
    var lead := LStripParts(s, Whitespace);
    var r := LStrip(s);
    assert s == lead + r;
    assert forall k :: 0 <= k < i ==> s[k] == s[..i][k];
    assert |lead| < |s| ==> s[|lead|] == r[0];
  }

  /** A line is a comment exactly when its first non-whitespace character
      is `#`, whatever follows it (`@` and `=` included). */
  lemma ClassifyComment(line: string)
    ensures Classify(line).Comment? <==> exists i: nat :: FirstNonSpaceAt(line, i) && line[i] == '#'
  {
    var r := LStrip(line);
    var lead := LStripParts(line, Whitespace);
    if Classify(line).Comment? {
      assert line[..|lead|] == lead && line[|lead|] == r[0];
      assert FirstNonSpaceAt(line, |lead|);
    }
    if i: nat :| FirstNonSpaceAt(line, i) && line[i] == '#' {
      LStripAt(line, i);
    }
  }

  /** A line is an include exactly when its very first character is `@`;
      the rest of the line is the sub-path, untrimmed. An indented `@x`
      is not an include. */
  lemma ClassifyInclude(line: string)
    ensures Classify(line).Include? <==> |line| > 0 && line[0] == '@'
    ensures Classify(line).Include? ==> Classify(line).sub == line[1..]
  {
    if |line| > 0 && line[0] == '@' {
      assert FirstNonSpaceAt(line, 0);
      LStripAt(line, 0);
    }
  }

  /** A line adds nothing exactly when it is empty or all whitespace. */
  lemma ClassifyBlank(line: string)
    ensures Classify(line).Blank? <==> AllIn(line, Whitespace)
  {
    if AllIn(line, Whitespace) {
      LStripAllIn(line, Whitespace);
      assert '=' !in Whitespace && '@' !in Whitespace;
      assert forall k | 0 <= k < |line| :: line[k] !in {'='};
      FirstInNone(line, {'='});
      assert Strip(line) == [];
    } else {
      StripSetEmpty(line, Whitespace);
    }
  }

  /** A line with `=` maps the stripped text before its first `=` to the
      stripped text after it. */
  lemma ClassifyAssignment(line: string, i: nat)
    requires i < |line| && line[i] == '=' && '=' !in line[..i]
    requires !Classify(line).Comment? && !(line[0] == '@')
    ensures Classify(line) == Pair(Strip(line[..i]), Strip(line[i + 1..]))
  {
    FirstOccurrence(line, '=', i);
    ClassifySplitAt(line, i);
  }

  lemma ClassifySplitAt(line: string, i: nat)
    requires i < |line| && FirstIn(line, {'='}) == i
    requires !Classify(line).Comment? && !(line[0] == '@')
    ensures Classify(line) == Pair(Strip(line[..i]), Strip(line[i + 1..]))
  {
    var l := LStrip(line);
    assert !(|l| > 0 && l[0] == '#');
  }

  /** Any other non-blank line maps its stripped text to itself. */
  lemma ClassifyShorthand(line: string)
    requires '=' !in line && !AllIn(line, Whitespace)
    requires !Classify(line).Comment? && !(|line| > 0 && line[0] == '@')
    ensures Classify(line) == Pair(Strip(line), Strip(line)) && Strip(line) != ""
  {
    NotInNoneIn(line, '=');
    FirstInNone(line, {'='});
    StripSetEmpty(line, Whitespace);
  }

  /** `generate_plan(root)` with at most `depth` nested calls: the root is
      resolved, its mapping file found and read, and its lines processed
      in order. */
  function Generate(fs: FS, root: Path, depth: nat): (r: Result<Config, CoreError>)
    ensures r.Ok? ==> r.value.root == Resolve(fs, root)
    decreases depth, 1, 0
  {
    if depth == 0 then Err(RecursionLimit)
    else
      var top := Resolve(fs, root);
      match DiscoverMapping(fs, top)
      case Err(e) => Err(e)
      case Ok(path) => GenerateLines(fs, top, SplitLines(ReadText(fs, path), LineBreaks), depth - 1, map[], [])
  }

  /** One include line `@sub`: the sub-path `root / sub` resolved when it is
      a directory, `InvalidPlan` when it is a file or missing. */
  function IncludeOne(fs: FS, root: Path, line: string, depth: nat): (r: Result<Config, CoreError>)
    requires |line| > 0
    ensures r.Ok? ==> IsDir(fs, r.value.root)
    decreases depth, 2, 0
  {
    var sub := Normalize(root, line[1..]);
    if IsDir(fs, sub) then Generate(fs, sub, depth)
    else if IsFile(fs, sub) then Err(IncludeIsFile(line))
    else Err(IncludeNotFound(line))
  }

  /** The loop of `generate_plan` from some line on, with the pairs and the
      included trees gathered so far. */
  function GenerateLines(fs: FS, root: Path, lines: seq<string>, depth: nat,
                         paths: map<string, string>, includes: seq<Config>): (r: Result<Config, CoreError>)
    ensures r.Ok? ==> r.value.root == root
    ensures r.Ok? ==> paths.Keys <= r.value.paths.Keys && includes <= r.value.includes
    ensures r.Ok? ==> forall k :: |includes| <= k < |r.value.includes| ==> IsDir(fs, r.value.includes[k].root)
    decreases depth, 3, |lines|
  {
    if lines == [] then Ok(Config(root, paths, includes))
    else
      var line := lines[0];
      match Classify(line)
      case Comment => GenerateLines(fs, root, lines[1..], depth, paths, includes)
      case Blank => GenerateLines(fs, root, lines[1..], depth, paths, includes)
      case Pair(dest, src) => GenerateLines(fs, root, lines[1..], depth, paths[dest := src], includes)
      case Include(_) =>
        ClassifyInclude(line);
        match IncludeOne(fs, root, line, depth)
        case Err(e) => Err(e)
        case Ok(c) =>
          var r := GenerateLines(fs, root, lines[1..], depth, paths, includes + [c]);
          assert r.Ok? ==> (includes + [c])[|includes|] == c;
          r
  }

  /** What one line does to the dictionary and the list of included trees. */
  function Step(fs: FS, root: Path, line: string, depth: nat,
                paths: map<string, string>, includes: seq<Config>): Result<(map<string, string>, seq<Config>), CoreError>
  {
    match Classify(line)
    case Comment => Ok((paths, includes))
    case Blank => Ok((paths, includes))
    case Pair(dest, src) => Ok((paths[dest := src], includes))
    case Include(_) =>
      ClassifyInclude(line);
      match IncludeOne(fs, root, line, depth)
      case Err(e) => Err(e)
      case Ok(c) => Ok((paths, includes + [c]))
  }

  /** The loop at line `i`: an error in that line's step is the loop's
      error, otherwise the loop goes on from the next line. */
  lemma GenerateLinesAt(fs: FS, root: Path, lines: seq<string>, i: nat, depth: nat,
                        paths: map<string, string>, includes: seq<Config>)
    requires i < |lines|
    ensures Step(fs, root, lines[i], depth, paths, includes).Err? ==>
      GenerateLines(fs, root, lines[i..], depth, paths, includes) == Err(Step(fs, root, lines[i], depth, paths, includes).error)
    ensures Step(fs, root, lines[i], depth, paths, includes).Ok? ==>
      var s := Step(fs, root, lines[i], depth, paths, includes).value;
      GenerateLines(fs, root, lines[i..], depth, paths, includes) == GenerateLines(fs, root, lines[i + 1..], depth, s.0, s.1)
  {
    assert lines[i..][0] == lines[i] && lines[i..][1..] == lines[i + 1..];
    ClassifyInclude(lines[i]);
  }

  /** `generate_plan` as the source writes it: the mapping file found and
      read, then the loop over its lines. */
  method GeneratePlan(fs: FS, root: Path, depth: nat) returns (r: Result<Config, CoreError>)
    ensures r == Generate(fs, root, depth)
    decreases depth, 0
  {
    if depth == 0 {
      return Err(RecursionLimit);
    }
    var top := Resolve(fs, root);
    var found := DiscoverMapping(fs, top);
    if found.Err? {
      assert Generate(fs, root, depth) == Err(found.error);
      return Err(found.error);
    }
    var content := ReadText(fs, found.value);
    var lines := SplitLines(content, LineBreaks);
    assert Generate(fs, root, depth) == GenerateLines(fs, top, lines, depth - 1, map[], []);
    r := PlanLines(fs, top, lines, depth - 1);
  }

  /** The loop of `generate_plan`: it updates `paths` and `includes` line
      by line, calling `generate_plan` for each include. */
  method PlanLines(fs: FS, root: Path, lines: seq<string>, depth: nat) returns (r: Result<Config, CoreError>)
    ensures r == GenerateLines(fs, root, lines, depth, map[], [])
    decreases depth, 2
  {
    var paths: map<string, string> := map[];
    var includes: seq<Config> := [];
    var i := 0;
    assert lines[0..] == lines;
    while i < |lines|
      invariant 0 <= i <= |lines|
      invariant GenerateLines(fs, root, lines[i..], depth, paths, includes) == GenerateLines(fs, root, lines, depth, map[], [])
    {
      var step := PlanLine(fs, root, lines[i], depth, paths, includes);
      GenerateLinesAt(fs, root, lines, i, depth, paths, includes);
      if step.Err? {
        return Err(step.error);
      }
      paths, includes := step.value.0, step.value.1;
      i := i + 1;
    }
    assert lines[i..] == [];
    return Ok(Config(root, paths, includes));
  }

  /** The body of the loop of `generate_plan` for one line. */
  method PlanLine(fs: FS, root: Path, line: string, depth: nat,
                  paths: map<string, string>, includes: seq<Config>)
    returns (r: Result<(map<string, string>, seq<Config>), CoreError>)
    ensures r == Step(fs, root, line, depth, paths, includes)
    decreases depth, 1
  {
    ClassifyInclude(line);
    match Classify(line) {
      case Comment =>
        r := Ok((paths, includes));
      case Blank =>
        r := Ok((paths, includes));
      case Pair(dest, src) =>
        r := Ok((paths[dest := src], includes));
      case Include(sub) =>
        var subpath := Normalize(root, sub);
        if IsDir(fs, subpath) {
          var c := GeneratePlan(fs, subpath, depth);
          if c.Err? {
            return Err(c.error);
          }
          r := Ok((paths, includes + [c.value]));
        } else if IsFile(fs, subpath) {
          r := Err(IncludeIsFile(line));
        } else {
          r := Err(IncludeNotFound(line));
        }
    }
  }

  // ---------------------------------------------------------------------
  // The loop read as two passes: the pairs, and the includes.

  /** The `dest = src` pairs of the lines, in line order. */
  function Pairs(lines: seq<string>): seq<(string, string)> {
    if lines == [] then []
    else
      var rest := Pairs(lines[1..]);
      match Classify(lines[0])
      case Pair(d, s) => [(d, s)] + rest
      case _ => rest
  }

  /** The include lines, in line order. */
  function IncludeLines(lines: seq<string>): (ls: seq<string>)
    ensures forall k :: 0 <= k < |ls| ==> |ls[k]| > 0 && ls[k][0] == '@'
  {
    if lines == [] then []
    else
      var rest := IncludeLines(lines[1..]);
      ClassifyInclude(lines[0]);
      if Classify(lines[0]).Include? then [lines[0]] + rest else rest
  }

  /** The pairs stored one after the other into a dictionary. */
  function Assign(paths: map<string, string>, ps: seq<(string, string)>): map<string, string>
    decreases |ps|
  {
    if ps == [] then paths else Assign(paths[ps[0].0 := ps[0].1], ps[1..])
  }

  /** What each include line gives on its own. */
  function Outcomes(fs: FS, root: Path, ls: seq<string>, depth: nat): (rs: seq<Result<Config, CoreError>>)
    requires forall k :: 0 <= k < |ls| ==> |ls[k]| > 0
    ensures |rs| == |ls|
  {
    if ls == [] then [] else [IncludeOne(fs, root, ls[0], depth)] + Outcomes(fs, root, ls[1..], depth)
  }

  /** The `k`-th outcome is that of the `k`-th include line. */
  lemma {:induction false} OutcomesAt(fs: FS, root: Path, ls: seq<string>, depth: nat, k: nat)
    requires forall k :: 0 <= k < |ls| ==> |ls[k]| > 0
    requires k < |ls|
    ensures Outcomes(fs, root, ls, depth)[k] == IncludeOne(fs, root, ls[k], depth)
    decreases k
  {
    if k > 0 {
      OutcomesAt(fs, root, ls[1..], depth, k - 1);
    }
  }

  /** The outcomes of the include lines taken one after the other; the
      first error stops. */
  function IncludeAll(rs: seq<Result<Config, CoreError>>, acc: seq<Config>): Result<seq<Config>, CoreError> {
    if rs == [] then Ok(acc)
    else match rs[0]
      case Err(e) => Err(e)
      case Ok(c) => IncludeAll(rs[1..], acc + [c])
  }

  /** The loop succeeds exactly when every include does, and then its
      dictionary holds the pairs in line order and its includes list the
      included trees in line order, whatever the interleaving of the two. */
  lemma {:induction false} GenerateLinesSplit(fs: FS, root: Path, lines: seq<string>, depth: nat,
                                              paths: map<string, string>, includes: seq<Config>)
    ensures GenerateLines(fs, root, lines, depth, paths, includes) ==
      match IncludeAll(Outcomes(fs, root, IncludeLines(lines), depth), includes)
      case Ok(cs) => Ok(Config(root, Assign(paths, Pairs(lines)), cs))
      case Err(e) => Err(e)
    decreases |lines|
  {
    if lines != [] {
      var line := lines[0];
      ClassifyInclude(line);
      match Classify(line)
      case Comment =>
        GenerateLinesSplit(fs, root, lines[1..], depth, paths, includes);
      case Blank =>
        GenerateLinesSplit(fs, root, lines[1..], depth, paths, includes);
      case Pair(d, s) =>
        GenerateLinesSplit(fs, root, lines[1..], depth, paths[d := s], includes);
      case Include(_) =>
        OutcomesFirst(fs, root, lines, depth);
        match IncludeOne(fs, root, line, depth)
        case Err(e) =>
        case Ok(c) =>
          GenerateLinesSplit(fs, root, lines[1..], depth, paths, includes + [c]);
    }
  }

  /** The outcomes of a file's include lines: that of its first line, when
      it is one, then those of the others. */
  lemma OutcomesFirst(fs: FS, root: Path, lines: seq<string>, depth: nat)
    requires lines != [] && Classify(lines[0]).Include?
    ensures |lines[0]| > 0
    ensures Outcomes(fs, root, IncludeLines(lines), depth)
         == [IncludeOne(fs, root, lines[0], depth)] + Outcomes(fs, root, IncludeLines(lines[1..]), depth)
  {
    ClassifyInclude(lines[0]);
    var ls := IncludeLines(lines);
    assert ls == [lines[0]] + IncludeLines(lines[1..]);
    assert ls[1..] == IncludeLines(lines[1..]);
  }

  /** A later pair for the same destination overwrites an earlier one. */
  lemma {:induction false} AssignLast(paths: map<string, string>, ps: seq<(string, string)>, k: nat)
    requires k < |ps| && forall j :: k < j < |ps| ==> ps[j].0 != ps[k].0
    ensures ps[k].0 in Assign(paths, ps) && Assign(paths, ps)[ps[k].0] == ps[k].1
    decreases |ps|
  {
    if k == 0 {
      AssignUntouched(paths[ps[0].0 := ps[0].1], ps[1..], ps[0].0);
    } else {
      AssignLast(paths[ps[0].0 := ps[0].1], ps[1..], k - 1);
    }
  }

  /** A destination no pair names keeps what it had. */
  lemma {:induction false} AssignUntouched(paths: map<string, string>, ps: seq<(string, string)>, key: string)
    requires forall j :: 0 <= j < |ps| ==> ps[j].0 != key
    ensures key in Assign(paths, ps) <==> key in paths
    ensures key in paths ==> Assign(paths, ps)[key] == paths[key]
    decreases |ps|
  {
    if ps != [] {
      AssignUntouched(paths[ps[0].0 := ps[0].1], ps[1..], key);
    }
  }

  /** The keys after storing the pairs: the old ones and every destination. */
  lemma {:induction false} AssignKeys(paths: map<string, string>, ps: seq<(string, string)>)
    ensures Assign(paths, ps).Keys == paths.Keys + set j | 0 <= j < |ps| :: ps[j].0
    decreases |ps|
  {
    if ps != [] {
      AssignKeys(paths[ps[0].0 := ps[0].1], ps[1..]);
      var tail := set j | 0 <= j < |ps[1..]| :: ps[1..][j].0;
      var all := set j | 0 <= j < |ps| :: ps[j].0;
      assert all == {ps[0].0} + tail by {
        forall x | x in all ensures x in {ps[0].0} + tail {
          var j :| 0 <= j < |ps| && ps[j].0 == x;
          if j > 0 {
            assert ps[1..][j - 1].0 == x;
          }
        }
      }
    }
  }

  /** The includes succeed exactly when each include line does ... */
  lemma {:induction false} IncludeAllOk(rs: seq<Result<Config, CoreError>>, acc: seq<Config>)
    ensures IncludeAll(rs, acc).Ok? <==> forall k :: 0 <= k < |rs| ==> rs[k].Ok?
    decreases |rs|
  {
    if rs != [] && rs[0].Ok? {
      IncludeAllOk(rs[1..], acc + [rs[0].value]);
      assert forall k :: 0 < k < |rs| ==> rs[k] == rs[1..][k - 1];
    }
  }

  /** ... and then give one included tree per include line, after those
      gathered before ... */
  lemma {:induction false} IncludeAllPrefix(rs: seq<Result<Config, CoreError>>, acc: seq<Config>)
    requires IncludeAll(rs, acc).Ok?
    ensures var cs := IncludeAll(rs, acc).value;
      |cs| == |acc| + |rs| && cs[..|acc|] == acc
    decreases |rs|
  {
    if rs != [] {
      var acc' := acc + [rs[0].value];
      IncludeAllPrefix(rs[1..], acc');
      var cs := IncludeAll(rs[1..], acc').value;
      assert cs[..|acc|] == cs[..|acc'|][..|acc|];
    }
  }

  /** ... in line order: the tree of the `k`-th include line comes
      `k` places after them. */
  lemma {:induction false} IncludeAllAt(rs: seq<Result<Config, CoreError>>, acc: seq<Config>, k: nat)
    requires IncludeAll(rs, acc).Ok? && k < |rs|
    ensures rs[k].Ok?
    ensures var cs := IncludeAll(rs, acc).value;
      |acc| + k < |cs| && cs[|acc| + k] == rs[k].value
    decreases k
  {
    var acc' := acc + [rs[0].value];
    IncludeAllPrefix(rs[1..], acc');
    if k == 0 {
      var cs := IncludeAll(rs[1..], acc').value;
      assert cs[..|acc'|][|acc|] == cs[|acc|];
    } else {
      IncludeAllAt(rs[1..], acc', k - 1);
    }
  }

  /** An include line whose include fails makes the whole loop fail. */
  lemma IncludeFails(fs: FS, root: Path, lines: seq<string>, depth: nat,
                     paths: map<string, string>, includes: seq<Config>, k: nat)
    requires k < |IncludeLines(lines)|
    requires IncludeOne(fs, root, IncludeLines(lines)[k], depth).Err?
    ensures GenerateLines(fs, root, lines, depth, paths, includes).Err?
  {
    GenerateLinesSplit(fs, root, lines, depth, paths, includes);
    var rs := Outcomes(fs, root, IncludeLines(lines), depth);
    IncludeAllOk(rs, includes);
    OutcomesAt(fs, root, IncludeLines(lines), depth, k);
  }

  // ---------------------------------------------------------------------
  // Comments and blank lines

  /** A comment or blank line can be dropped from a mapping file without
      changing its outcome. */
  lemma NeutralLine(fs: FS, root: Path, before: seq<string>, line: string, after: seq<string>,
                    depth: nat, paths: map<string, string>, includes: seq<Config>)
    requires Classify(line) == Comment || Classify(line) == Blank
    ensures GenerateLines(fs, root, before + [line] + after, depth, paths, includes)
         == GenerateLines(fs, root, before + after, depth, paths, includes)
  {
    NeutralParts(before, line, after);
    GenerateLinesSplit(fs, root, before + [line] + after, depth, paths, includes);
    GenerateLinesSplit(fs, root, before + after, depth, paths, includes);
  }

  lemma {:induction false} NeutralParts(before: seq<string>, line: string, after: seq<string>)
    requires Classify(line) == Comment || Classify(line) == Blank
    ensures Pairs(before + [line] + after) == Pairs(before + after)
    ensures IncludeLines(before + [line] + after) == IncludeLines(before + after)
    decreases |before|
  {
    var all := before + [line] + after;
    ClassifyInclude(line);
    if before == [] {
      assert all[0] == line && all[1..] == after;
      assert before + after == after;
    } else {
      assert all[0] == before[0] && (before + after)[0] == before[0];
      assert all[1..] == before[1..] + [line] + after;
      assert (before + after)[1..] == before[1..] + after;
      NeutralParts(before[1..], line, after);
    }
  }

  // ---------------------------------------------------------------------
  // A directory that includes itself

  /** The lines of the mapping file found in `dir`, if there is one. */
  function MappingLines(fs: FS, dir: Path): Option<seq<string>> {
    match DiscoverMapping(fs, dir)
    case Ok(path) => Some(SplitLines(ReadText(fs, path), LineBreaks))
    case Err(_) => None
  }

  /** With a mapping file present, `generate_plan` is its loop over the lines. */
  lemma GenerateFound(fs: FS, root: Path, depth: nat)
    requires depth > 0 && MappingLines(fs, Resolve(fs, root)).Some?
    ensures Generate(fs, root, depth)
         == GenerateLines(fs, Resolve(fs, root), MappingLines(fs, Resolve(fs, root)).value, depth - 1, map[], [])
  {
  }

  /** The include line `@` fails when its directory's own resolution does. */
  lemma SelfLineFails(fs: FS, top: Path, line: string, depth: nat)
    requires line == "@" || line == "@."
    requires !IsDir(fs, top) || Generate(fs, top, depth).Err?
    ensures IncludeOne(fs, top, line, depth).Err?
  {
    NormalizeEmpty(top);
    assert line[1..] == "" || line[1..] == ".";
  }

  /** A mapping file with a line `@` or `@.` includes its own directory, which
      recurses without end: whatever the depth bound, no tree comes out. */
  lemma {:induction false} SelfIncludeFails(fs: FS, root: Path, depth: nat)
    requires !IsSymlink(fs, Resolve(fs, root))
    requires MappingLines(fs, Resolve(fs, root)).Some?
    requires "@" in MappingLines(fs, Resolve(fs, root)).value || "@." in MappingLines(fs, Resolve(fs, root)).value
    ensures Generate(fs, root, depth).Err?
    decreases depth
  {
    if depth > 0 {
      var top := Resolve(fs, root);
      var lines := MappingLines(fs, top).value;
      var line := if "@" in lines then "@" else "@.";
      var k :| 0 <= k < |lines| && lines[k] == line;
      assert lines[..k] + [line] + lines[k + 1..] == lines;
      var inc := IncludeLinesOf(lines[..k], line, lines[k + 1..]);
      assert Resolve(fs, top) == top;
      SelfIncludeFails(fs, top, depth - 1);
      SelfLineFails(fs, top, line, depth - 1);
      IncludeFails(fs, top, lines, depth - 1, map[], [], inc);
      GenerateFound(fs, root, depth);
    }
  }

  /** An include line's place among the include lines. */
  lemma {:induction false} IncludeLinesOf(before: seq<string>, line: string, after: seq<string>) returns (k: nat)
    requires |line| > 0 && line[0] == '@'
    ensures k < |IncludeLines(before + [line] + after)| && IncludeLines(before + [line] + after)[k] == line
    decreases |before|
  {
    var all := before + [line] + after;
    if before == [] {
      assert all[0] == line && all[1..] == after;
      ClassifyInclude(line);
      k := 0;
    } else {
      assert all[0] == before[0] && all[1..] == before[1..] + [line] + after;
      var j := IncludeLinesOf(before[1..], line, after);
      var rest := IncludeLines(before[1..] + [line] + after);
      if Classify(before[0]).Include? {
        assert IncludeLines(all) == [before[0]] + rest;
        k := j + 1;
      } else {
        assert IncludeLines(all) == rest;
        k := j;
      }
    }
  }
}
