/** `dotlink/actions.py`: the actions a deployment is made of, how a plan of
    them prints, and what preparing and executing them does to the
    filesystem. The filesystem operations the actions call (`mkdir`,
    `unlink`, `shutil.copyfile`, `shutil.copytree`, `symlink_to`) are
    spec functions on the filesystem map; the `World` class holds the
    filesystem and the remote commands run so far, and its methods follow
    the source's statements one by one. */
module Actions {
  import opened Wrappers
  import opened PyStr
  import opened FileSystem
  import opened Types

  /** The action classes. The base class keeps its positional and keyword
      arguments only as the text of their `repr`. */
  datatype Action =
    | Base(args: string, kwargs: string)
    | Copy(src: Path, dest: Path)
    | Symlink(src: Path, dest: Path)
    | Deploy(src: Path, target: Target)
    | SSHTarball(src: Path, target: Target)
  {
    /** The class name. */
    function Name(): string {
      match this
      case Base(_, _) => "Action"
      case Copy(_, _) => "Copy"
      case Symlink(_, _) => "Symlink"
      case Deploy(_, _) => "Deploy"
      case SSHTarball(_, _) => "SSHTarball"
    }

    /** `print()`: the arguments, or `src -> dest`, or `src -> target`. */
    function Print(): string {
      match this
      case Base(args, kwargs) => args + ", " + kwargs
      case Copy(src, dest) => PathText(src) + " -> " + PathText(dest)
      case Symlink(src, dest) => PathText(src) + " -> " + PathText(dest)
      case Deploy(src, target) => PathText(src) + " -> " + target.ToString()
      case SSHTarball(src, target) => PathText(src) + " -> " + target.ToString()
    }

    /** `str(action)`. */
    function ToString(): string {
      Name() + ": " + Print()
    }
  }

  /** `str(plan)`: `Plan:` and each action's text, joined by a newline and
      two spaces. */
  function PlanText(actions: seq<Action>): string {
    JoinWith("\n  ", ["Plan:"] + seq(|actions|, i requires 0 <= i < |actions| => actions[i].ToString()))
  }

  /** A plan without actions prints as its heading alone. */
  lemma PlanTextEmpty()
    ensures PlanText([]) == "Plan:"
  {
    assert ["Plan:"] + seq(0, i requires 0 <= i < 0 => "") == ["Plan:"];
  }

  /** Each further action adds one indented line with its text. */
  lemma PlanTextAppend(actions: seq<Action>, a: Action)
    ensures PlanText(actions + [a]) == PlanText(actions) + "\n  " + a.ToString()
  {
    var all := actions + [a];
    var texts := seq(|actions|, i requires 0 <= i < |actions| => actions[i].ToString());
    var texts' := seq(|all|, i requires 0 <= i < |all| => all[i].ToString());
    assert ["Plan:"] + texts' == (["Plan:"] + texts) + [a.ToString()];
    JoinWithAppend("\n  ", ["Plan:"] + texts, a.ToString());
  }

  /** What preparing or executing an action can raise. */
  datatype ActionError =
    | SourceMissing(src: Path)            // FileNotFoundError: the source does not exist
    | TypeMismatch(src: Path, dest: Path) // RuntimeError: file/dir type mismatch
    | DestinationIsDir(dest: Path)        // RuntimeError: symlink destination is a directory
    | NotADirectory(src: Path)            // RuntimeError: the source is not a directory
    | NotRemote(target: Target)           // ValueError: the target is not remote
    | NotImplemented                      // NotImplementedError of the base class
    | OSFailure(path: Path)               // an OSError raised by a filesystem call
    | CopyFailed(dest: Path)              // shutil.Error: some entries could not be copied
    | CommandFailed(status: int)          // the remote command exited with this status

  /** The filesystem after an operation, and the error it raised, if any;
      an operation that raises part-way keeps what it did before. */
  datatype Outcome = Outcome(fs: FS, err: Option<ActionError>)

  /** `p` is `base` or lies below it. */
  predicate Under(p: Path, base: Path) {
    |p| >= |base| && p[..|base|] == base
  }

  /** `fs'` keeps every entry of `fs` and adds only directories. */
  predicate AddsDirs(fs: FS, fs': FS) {
    && (forall x :: x in fs ==> x in fs' && fs'[x] == fs[x])
    && (forall x :: x in fs' && x !in fs ==> fs'[x] == Dir)
  }

  lemma AddsDirsTrans(a: FS, b: FS, c: FS)
    requires AddsDirs(a, b) && AddsDirs(b, c)
    ensures AddsDirs(a, c)
  {
  }

  // ---------------------------------------------------------------------
  // Filesystem operations

  /** `p.mkdir(parents=True, exist_ok=True)` from the prefix of length `k`
      on: each missing prefix is created, an existing one must be a
      directory. */
  function MadeDirsFrom(fs: FS, p: Path, k: nat): (r: Outcome)
    requires 1 <= k
    ensures AddsDirs(fs, r.fs)
    ensures forall x :: x in r.fs && x !in fs ==> Under(p, x) && |x| >= k
    ensures r.err.None? ==> forall j :: k <= j <= |p| ==> IsDir(r.fs, p[..j])
    ensures r.err.Some? ==> r.err == Some(OSFailure(p))
    decreases |p| + 1 - k
  {
    if k > |p| then Outcome(fs, None)
    else
      var q := p[..k];
      if IsDir(fs, q) then
        var r := MadeDirsFrom(fs, p, k + 1);
        assert IsDir(r.fs, q) by { DirStaysDir(fs, r.fs, q); }
        r
      else if q in fs then Outcome(fs, Some(OSFailure(p)))
      else
        var fs1 := fs[q := Dir];
        var r := MadeDirsFrom(fs1, p, k + 1);
        assert IsDir(r.fs, q) by { DirStaysDir(fs1, r.fs, q); }
        r
  }

  /** Adding directories keeps a directory a directory. */
  lemma DirStaysDir(fs: FS, fs': FS, q: Path)
    requires AddsDirs(fs, fs') && IsDir(fs, q)
    ensures IsDir(fs', q)
  {
  }

  /** One prefix of `mkdir -p`: passed over when it is a directory, an
      error when something else is there, created otherwise. */
  lemma MadeDirsStep(fs: FS, p: Path, k: nat)
    requires 1 <= k <= |p|
    ensures MadeDirsFrom(fs, p, k) ==
      if IsDir(fs, p[..k]) then MadeDirsFrom(fs, p, k + 1)
      else if p[..k] in fs then Outcome(fs, Some(OSFailure(p)))
      else MadeDirsFrom(fs[p[..k] := Dir], p, k + 1)
  {
  }

  /** `p.mkdir(parents=True, exist_ok=True)`. */
  function MadeDirs(fs: FS, p: Path): Outcome {
    MadeDirsFrom(fs, p, 1)
  }

  /** `p.unlink(missing_ok=True)`: a missing entry is fine, a real
      directory cannot be unlinked, anything else is removed. */
  function Unlinked(fs: FS, p: Path): (r: Outcome)
    ensures r.err.None? <==> !(p in fs && fs[p] == Dir)
    ensures r.err.None? ==> p !in r.fs && forall x :: x in fs && x != p ==> x in r.fs && r.fs[x] == fs[x]
    ensures r.err.None? ==> r.fs.Keys <= fs.Keys
    ensures r.err.Some? ==> r.fs == fs
  {
    if p !in fs then Outcome(fs, None)
    else if fs[p] == Dir then Outcome(fs, Some(OSFailure(p)))
    else Outcome(fs - {p}, None)
  }

  /** `shutil.copyfile(src, dest)`: the source must be a file and not the
      destination itself; the destination, through a link if it is one,
      must not be a directory and must sit in a directory. */
  function FileCopied(fs: FS, src: Path, dest: Path): (r: Outcome)
    ensures r.err.None? ==> IsFile(fs, src) && r.fs == fs[Resolve(fs, dest) := File(ReadText(fs, src))]
    ensures r.err.Some? ==> r.fs == fs
  {
    if !IsFile(fs, src) then Outcome(fs, Some(OSFailure(src)))
    else if Exists(fs, dest) && Resolve(fs, src) == Resolve(fs, dest) then Outcome(fs, Some(OSFailure(dest)))
    else if IsDir(fs, dest) then Outcome(fs, Some(OSFailure(dest)))
    else
      var target := Resolve(fs, dest);
      if !IsDir(fs, Parent(target)) then Outcome(fs, Some(OSFailure(dest)))
      else Outcome(fs[target := File(ReadText(fs, src))], None)
  }

  /** `dest.symlink_to(target)`: the entry must not exist yet and must sit in a directory. */
  function Linked(fs: FS, dest: Path, target: Path): (r: Outcome)
    ensures r.err.None? <==> dest !in fs && IsDir(fs, Parent(dest))
    ensures r.err.None? ==> r.fs == fs[dest := Link(target)]
    ensures r.err.Some? ==> r.fs == fs
  {
    if dest in fs then Outcome(fs, Some(OSFailure(dest)))
    else if !IsDir(fs, Parent(dest)) then Outcome(fs, Some(OSFailure(dest)))
    else Outcome(fs[dest := Link(target)], None)
  }

  /** The paths of the entries below `src`, relative to it. */
  function Entries(fs: FS, src: Path): set<Path> {
    set x | x in fs && |x| > |src| && x[..|src|] == src :: x[|src|..]
  }

  /** Each entry below `src` is stored at `src` followed by its relative path. */
  lemma EntriesIn(fs: FS, src: Path)
    ensures forall rel :: rel in Entries(fs, src) ==> rel != [] && src + rel in fs
  {
    forall rel | rel in Entries(fs, src) ensures rel != [] && src + rel in fs {
      var x :| x in fs && |x| > |src| && x[..|src|] == src && rel == x[|src|..];
      assert src + rel == x;
    }
  }

  /** The last name of a relative path. */
  function LastName(rel: Path): string {
    if rel == [] then "" else rel[|rel| - 1]
  }

  /** Where `copy2` writes the source file `src + rel`: into the
      destination's counterpart when that is a directory, under the
      file's own name, and otherwise at the counterpart itself. */
  function FileTarget(fs: FS, dest: Path, rel: Path): Path {
    if IsDir(fs, dest + rel) then dest + rel + [LastName(rel)] else dest + rel
  }

  /** An entry of the source tree that `copytree` cannot copy:
      - a dangling link;
      - a directory whose counterpart exists and is not a directory
        (`makedirs` raises);
      - a file whose copy would land on a directory (`IsADirectoryError`)
        or on the source file itself (`SameFileError`), or, in a map that
        holds entries below a file, on the place of another source entry. */
  predicate Conflict(fs: FS, src: Path, dest: Path, rel: Path) {
    match Follow(fs, src + rel)
    case None => true
    case Some(n) =>
      if n == Dir then dest + rel in fs && !IsDir(fs, dest + rel)
      else
        var t := FileTarget(fs, dest, rel);
        || IsDir(fs, t)
        || (Exists(fs, t) && Resolve(fs, src + rel) == Resolve(fs, t))
        || (t != dest + rel && rel + [LastName(rel)] in Entries(fs, src))
  }

  /** An entry that is copied: neither it nor a directory above it in the
      source tree conflicts. */
  predicate Copied(fs: FS, src: Path, dest: Path, rel: Path) {
    && rel in Entries(fs, src)
    && forall j :: 1 <= j <= |rel| ==> rel[..j] in Entries(fs, src) ==> !Conflict(fs, src, dest, rel[..j])
  }

  /** Where a copied entry lands: a directory at its counterpart, a file
      where `copy2` writes it. */
  function Landing(fs: FS, src: Path, dest: Path, rel: Path): Path {
    match Follow(fs, src + rel)
    case Some(File(_)) => FileTarget(fs, dest, rel)
    case _ => dest + rel
  }

  /** The copied entry `rel` lands at `x`. */
  predicate LandsAt(fs: FS, src: Path, dest: Path, rel: Path, x: Path) {
    Copied(fs, src, dest, rel) && Landing(fs, src, dest, rel) == x
  }

  /** The copied entry that lands at `x`, if any: `x` is its counterpart,
      or a file's place inside its counterpart. */
  function LandedFrom(fs: FS, src: Path, dest: Path, x: Path): Option<Path> {
    if !Under(x, dest) || |x| == |dest| then None
    else if LandsAt(fs, src, dest, x[|dest|..], x) then Some(x[|dest|..])
    else if |x| > |dest| + 1 && LandsAt(fs, src, dest, x[|dest|..|x| - 1], x) then Some(x[|dest|..|x| - 1])
    else None
  }

  /** At most one copied entry lands at each place. */
  lemma LandedFromAt(fs: FS, src: Path, dest: Path, rel: Path)
    requires Copied(fs, src, dest, rel)
    ensures LandedFrom(fs, src, dest, Landing(fs, src, dest, rel)) == Some(rel)
  {
    var x := Landing(fs, src, dest, rel);
    EntriesIn(fs, src);
    assert x[|dest|..] == rel || x[|dest|..] == rel + [LastName(rel)];
    if x[|dest|..] != rel {
      assert x == dest + rel + [LastName(rel)];
      assert x[|dest|..|x| - 1] == rel;
      assert rel[..|rel|] == rel;
      assert !Conflict(fs, src, dest, rel);
    }
  }

  /** What the destination holds for a copied entry: the source file's
      content, or a directory (an existing one is kept). */
  function CopiedNode(fs: FS, src: Path, dest: Path, rel: Path): Node {
    match Follow(fs, src + rel)
    case Some(File(c)) => File(c)
    case _ => if dest + rel in fs then fs[dest + rel] else Dir
  }

  /** The merge of `copytree`, once the destination directory exists. */
  function Merged(fs: FS, src: Path, dest: Path): FS {
    var added := set rel | rel in Entries(fs, src) && Copied(fs, src, dest, rel) :: Landing(fs, src, dest, rel);
    assert forall rel | rel in Entries(fs, src) && Copied(fs, src, dest, rel) ::
      LandedFrom(fs, src, dest, Landing(fs, src, dest, rel)).Some? by {
      forall rel | rel in Entries(fs, src) && Copied(fs, src, dest, rel)
        ensures LandedFrom(fs, src, dest, Landing(fs, src, dest, rel)).Some?
      {
        LandedFromAt(fs, src, dest, rel);
      }
    }
    map x | x in fs.Keys + added ::
      match LandedFrom(fs, src, dest, x)
      case Some(rel) => CopiedNode(fs, src, dest, rel)
      case None => fs[x]
  }

  /** `shutil.copytree(src, dest, dirs_exist_ok=True)`: the destination
      directory is made, then every entry that can be copied is, and the
      entries that cannot are reported together at the end. */
  function TreeCopied(fs: FS, src: Path, dest: Path): Outcome {
    var made := MadeDirs(fs, dest);
    if made.err.Some? then made
    else
      var failed := exists rel :: rel in Entries(made.fs, src) && Conflict(made.fs, src, dest, rel);
      Outcome(Merged(made.fs, src, dest), if failed then Some(CopyFailed(dest)) else None)
  }

  /** `mkdir(parents=True, exist_ok=True)` succeeds when every prefix of the
      path is missing or a directory entry. */
  lemma {:induction false} MadeDirsSucceeds(fs: FS, p: Path, k: nat)
    requires 1 <= k
    requires forall j :: k <= j <= |p| ==> p[..j] !in fs || fs[p[..j]] == Dir
    ensures MadeDirsFrom(fs, p, k).err.None?
    decreases |p| + 1 - k
  {
    if k <= |p| {
      var q := p[..k];
      if IsDir(fs, q) {
        MadeDirsSucceeds(fs, p, k + 1);
      } else {
        var fs1 := fs[q := Dir];
        forall j | k + 1 <= j <= |p|
          ensures p[..j] !in fs1 || fs1[p[..j]] == Dir
        {
          assert |p[..j]| != |q|;
        }
        MadeDirsSucceeds(fs1, p, k + 1);
      }
    }
  }

  /** When it fails, some prefix of the path exists and is not a directory. */
  lemma {:induction false} MadeDirsBlocked(fs: FS, p: Path, k: nat)
    requires 1 <= k
    requires MadeDirsFrom(fs, p, k).err.Some?
    ensures exists j :: k <= j <= |p| && p[..j] in fs && !IsDir(MadeDirsFrom(fs, p, k).fs, p[..j])
    decreases |p| + 1 - k
  {
    var q := p[..k];
    var r := MadeDirsFrom(fs, p, k);
    if IsDir(fs, q) {
      MadeDirsBlocked(fs, p, k + 1);
    } else if q in fs {
      assert p[..k] in fs && !IsDir(r.fs, p[..k]);
    } else {
      var fs1 := fs[q := Dir];
      MadeDirsBlocked(fs1, p, k + 1);
      var j :| k + 1 <= j <= |p| && p[..j] in fs1 && !IsDir(r.fs, p[..j]);
      assert |p[..j]| != |q|;
    }
  }

  // ---------------------------------------------------------------------
  // prepare and execute

  /** `Copy.prepare`: the source must exist; a destination that is not a
      link must not be a directory for a file or a file for a directory;
      then the destination's parent directories are made. */
  function CopyPrepared(fs: FS, src: Path, dest: Path): Outcome {
    if !Exists(fs, src) then Outcome(fs, Some(SourceMissing(src)))
    else if !IsSymlink(fs, dest) && ((IsDir(fs, dest) && IsFile(fs, src)) || (IsFile(fs, dest) && IsDir(fs, src)))
    then Outcome(fs, Some(TypeMismatch(src, dest)))
    else MadeDirs(fs, Parent(dest))
  }

  /** `prepare()` of each action class. */
  function Prepared(fs: FS, a: Action): Outcome {
    match a
    case Base(_, _) => Outcome(fs, None)
    case Deploy(_, _) => Outcome(fs, None)
    case Copy(src, dest) => CopyPrepared(fs, src, dest)
    case Symlink(src, dest) =>
      if !IsSymlink(fs, dest) && IsDir(fs, dest) then Outcome(fs, Some(DestinationIsDir(dest)))
      else CopyPrepared(fs, src, dest)
    case SSHTarball(src, target) =>
      if !IsDir(fs, src) then Outcome(fs, Some(NotADirectory(src)))
      else if !target.Remote() then Outcome(fs, Some(NotRemote(target)))
      else Outcome(fs, None)
  }

  /** A remote command: its arguments and the bytes sent to its input,
      here the tree the archive holds. */
  datatype Invocation = Invocation(argv: seq<string>, input: map<Path, Node>)

  /** The tree under `src` as the archive stores it, keyed by the path
      relative to `src` (`.` is the empty path); links are stored as links. */
  function Archive(fs: FS, src: Path): (a: map<Path, Node>)
    ensures [] in a <==> src in fs
    ensures src in fs ==> a[[]] == fs[src]
    ensures forall rel :: rel in Entries(fs, src) ==> src + rel in fs && rel in a && a[rel] == fs[src + rel]
    ensures forall rel :: rel in a ==> rel == [] || rel in Entries(fs, src)
  {
    EntriesIn(fs, src);
    assert src + [] == src;
    map rel | rel in Entries(fs, src) + {[]} && src + rel in fs :: fs[src + rel]
  }

  /** The command `SSHTarball.execute` runs to unpack the archive remotely. */
  function TarArgv(target: Target): seq<string> {
    ["ssh", target.Address(), "tar", "-xz", "-f-", "-C", target.path]
  }

  /** The remote commands `execute()` runs: one for `SSHTarball` once its
      source has been archived. */
  function Commands(fs: FS, a: Action): seq<Invocation> {
    match a
    case SSHTarball(src, target) => if src in fs then [Invocation(TarArgv(target), Archive(fs, src))] else []
    case _ => []
  }

  /** `execute()` of each action class, for a remote side that answers
      every command with exit status `status`. */
  function Executed(fs: FS, a: Action, status: int): Outcome {
    match a
    case Base(_, _) => Outcome(fs, Some(NotImplemented))
    case Deploy(_, _) => Outcome(fs, Some(NotImplemented))
    case Copy(src, dest) =>
      if IsDir(fs, src) then
        var fs1 := if IsSymlink(fs, dest) then Unlinked(fs, dest).fs else fs;
        TreeCopied(fs1, src, dest)
      else
        var u := Unlinked(fs, dest);
        if u.err.Some? then u else FileCopied(u.fs, src, dest)
    case Symlink(src, dest) =>
      var u := Unlinked(fs, dest);
      if u.err.Some? then u else Linked(u.fs, dest, src)
    case SSHTarball(src, _) =>
      if src !in fs then Outcome(fs, Some(OSFailure(src)))
      else Outcome(fs, if status == 0 then None else Some(CommandFailed(status)))
  }

  // ---------------------------------------------------------------------
  // Plan.execute

  /** The first loop: every action prepared in order, the first error stops it. */
  function PreparedAll(fs: FS, actions: seq<Action>): Outcome
    decreases |actions|
  {
    if actions == [] then Outcome(fs, None)
    else
      var r := Prepared(fs, actions[0]);
      if r.err.Some? then r else PreparedAll(r.fs, actions[1..])
  }

  /** The state after running a plan: the filesystem, the remote commands
      run, the actions the generator yielded, and the error it raised. */
  datatype Run = Run(fs: FS, runs: seq<Invocation>, yielded: seq<Action>, err: Option<ActionError>)

  /** The second loop: each action yielded, then executed; an error ends the
      generator after the action that raised it was yielded. */
  function ExecutedAll(fs: FS, runs: seq<Invocation>, actions: seq<Action>, status: int): Run
    decreases |actions|
  {
    if actions == [] then Run(fs, runs, [], None)
    else
      var a := actions[0];
      var r := Executed(fs, a, status);
      var runs' := runs + Commands(fs, a);
      if r.err.Some? then Run(r.fs, runs', [a], r.err)
      else
        var rest := ExecutedAll(r.fs, runs', actions[1..], status);
        Run(rest.fs, rest.runs, [a] + rest.yielded, rest.err)
  }

  /** A run with `ys` yielded before the actions it records. */
  function AfterYielding(ys: seq<Action>, r: Run): Run {
    Run(r.fs, r.runs, ys + r.yielded, r.err)
  }

  lemma AfterYieldingTwice(ys: seq<Action>, a: Action, r: Run)
    ensures AfterYielding(ys, AfterYielding([a], r)) == AfterYielding(ys + [a], r)
  {
    assert ys + ([a] + r.yielded) == (ys + [a]) + r.yielded;
  }

  /** One step of the second loop, at action `j`: its outcome, then the rest. */
  lemma ExecutedAt(fs: FS, runs: seq<Invocation>, actions: seq<Action>, j: nat, status: int)
    requires j < |actions|
    ensures var r := Executed(fs, actions[j], status);
      var runs' := runs + Commands(fs, actions[j]);
      ExecutedAll(fs, runs, actions[j..], status) ==
        if r.err.Some? then Run(r.fs, runs', [actions[j]], r.err)
        else AfterYielding([actions[j]], ExecutedAll(r.fs, runs', actions[j + 1..], status))
  {
    assert actions[j..][0] == actions[j] && actions[j..][1..] == actions[j + 1..];
  }

  /** `Plan.execute()` consumed to the end. */
  function PlanRun(fs: FS, runs: seq<Invocation>, actions: seq<Action>, status: int): Run {
    var p := PreparedAll(fs, actions);
    if p.err.Some? then Run(p.fs, runs, [], p.err)
    else ExecutedAll(p.fs, runs, actions, status)
  }

  // ---------------------------------------------------------------------
  // What preparing and executing promise

  /** `Copy.prepare` raises `FileNotFoundError` exactly for a missing
      source and the type-mismatch error exactly for a non-link destination
      of the other kind; otherwise it leaves every ancestor of the
      destination a directory and the destination itself as it was. */
  lemma CopyPrepare(fs: FS, src: Path, dest: Path)
    ensures var r := CopyPrepared(fs, src, dest);
      && (r.err == Some(SourceMissing(src)) <==> !Exists(fs, src))
      && (r.err == Some(TypeMismatch(src, dest)) <==>
            Exists(fs, src) && !IsSymlink(fs, dest) &&
            ((IsDir(fs, dest) && IsFile(fs, src)) || (IsFile(fs, dest) && IsDir(fs, src))))
      && AddsDirs(fs, r.fs)
      && (dest in r.fs <==> dest in fs)
      && (r.err.None? ==> forall j :: 1 <= j < |dest| ==> IsDir(r.fs, dest[..j]))
  {
    var r := CopyPrepared(fs, src, dest);
    var parent := Parent(dest);
    assert forall x :: x in r.fs && x !in fs ==> |x| <= |parent|;
    if r.err.None? {
      forall j | 1 <= j < |dest| ensures IsDir(r.fs, dest[..j]) {
        assert dest[..j] == parent[..j];
      }
    }
  }

  /** `Symlink.prepare` refuses a destination that is a real directory
      before anything else, and otherwise checks what `Copy.prepare` checks. */
  lemma SymlinkPrepare(fs: FS, src: Path, dest: Path)
    ensures var r := Prepared(fs, Action.Symlink(src, dest));
      && (r.err == Some(DestinationIsDir(dest)) <==> !IsSymlink(fs, dest) && IsDir(fs, dest))
      && (r.err != Some(DestinationIsDir(dest)) ==> r == CopyPrepared(fs, src, dest))
  {
  }

  /** `SSHTarball.prepare` changes nothing; it raises for a source that is
      not a directory, then for a target that is not remote. */
  lemma SSHTarballPrepare(fs: FS, src: Path, target: Target)
    ensures var r := Prepared(fs, SSHTarball(src, target));
      && r.fs == fs
      && (r.err == Some(NotADirectory(src)) <==> !IsDir(fs, src))
      && (r.err == Some(NotRemote(target)) <==> IsDir(fs, src) && target.host.None?)
      && (r.err.None? <==> IsDir(fs, src) && target.Remote())
  {
  }

  /** Preparing an action only ever adds directories. */
  lemma PrepareAddsDirs(fs: FS, a: Action)
    ensures AddsDirs(fs, Prepared(fs, a).fs)
  {
    match a
    case Copy(src, dest) =>
    case Symlink(src, dest) =>
    case _ =>
  }

  /** Preparing a whole plan only ever adds directories. */
  lemma {:induction false} PrepareAllAddsDirs(fs: FS, actions: seq<Action>)
    ensures AddsDirs(fs, PreparedAll(fs, actions).fs)
    decreases |actions|
  {
    if actions != [] {
      var r := Prepared(fs, actions[0]);
      PrepareAddsDirs(fs, actions[0]);
      if r.err.None? {
        PrepareAllAddsDirs(r.fs, actions[1..]);
        AddsDirsTrans(fs, r.fs, PreparedAll(r.fs, actions[1..]).fs);
      }
    }
  }

  /** Executing the base action or a deployment is not implemented. */
  lemma NotImplementedActions(fs: FS, a: Action, status: int)
    requires a.Base? || a.Deploy?
    ensures Executed(fs, a, status) == Outcome(fs, Some(NotImplemented))
    ensures Prepared(fs, a) == Outcome(fs, None) && Commands(fs, a) == []
  {
  }

  /** `Copy.execute` of a file: whatever the destination was (missing, a
      file or a link), it becomes a regular file with the source's text, and
      no other entry changes. */
  lemma CopyFileExecute(fs: FS, src: Path, dest: Path, status: int)
    requires IsFile(fs, src) && src != dest && Resolve(fs, src) != dest
    requires dest != [] && IsDir(fs, Parent(dest)) && Resolve(fs, Parent(dest)) != dest
    requires !(dest in fs && fs[dest] == Dir)
    ensures var r := Executed(fs, Action.Copy(src, dest), status);
      && r.err.None?
      && r.fs == (fs - {dest})[dest := File(ReadText(fs, src))]
  {
    var u := Unlinked(fs, dest);
    assert u.fs == fs - {dest};
    assert Follow(u.fs, src) == Follow(fs, src);
    assert Follow(u.fs, Parent(dest)) == Follow(fs, Parent(dest));
    assert Resolve(u.fs, dest) == dest;
  }

  /** `Symlink.execute`: whatever the destination was (missing, a file or
      a link), it becomes a link to the source, and no other entry changes. */
  lemma SymlinkExecute(fs: FS, src: Path, dest: Path, status: int)
    requires dest != [] && IsDir(fs, Parent(dest)) && Resolve(fs, Parent(dest)) != dest
    requires !(dest in fs && fs[dest] == Dir)
    ensures var r := Executed(fs, Action.Symlink(src, dest), status);
      && r.err.None?
      && r.fs == (fs - {dest})[dest := Link(src)]
  {
    var u := Unlinked(fs, dest);
    assert u.fs == fs - {dest};
    assert Follow(u.fs, Parent(dest)) == Follow(fs, Parent(dest));
  }

  /** A real directory at the destination makes both `Copy.execute` of a
      file and `Symlink.execute` fail without changing anything. */
  lemma ExecuteOverDir(fs: FS, src: Path, dest: Path, status: int)
    requires dest in fs && fs[dest] == Dir
    ensures Executed(fs, Action.Symlink(src, dest), status) == Outcome(fs, Some(OSFailure(dest)))
    ensures !IsDir(fs, src) ==> Executed(fs, Action.Copy(src, dest), status) == Outcome(fs, Some(OSFailure(dest)))
  {
  }

  /** `SSHTarball.execute` sends an archive of the source tree to
      `ssh <address> tar -xz -f- -C <path>`; the filesystem is unchanged and
      a non-zero exit status is an error. */
  lemma SSHTarballExecute(fs: FS, src: Path, target: Target, status: int)
    requires src in fs
    ensures var a := SSHTarball(src, target);
      && Executed(fs, a, status).fs == fs
      && (Executed(fs, a, status).err.None? <==> status == 0)
      && |Commands(fs, a)| == 1
      && Commands(fs, a)[0].argv == ["ssh", target.Address(), "tar", "-xz", "-f-", "-C", target.path]
      && Commands(fs, a)[0].input[[]] == fs[src]
      && (forall rel :: rel in Entries(fs, src) ==> Commands(fs, a)[0].input[rel] == fs[src + rel])
  {
  }

  // ---------------------------------------------------------------------
  // copytree

  /** The merge keeps every entry that no copied entry lands on; in
      particular every entry outside the destination tree. */
  lemma MergeKeeps(fs: FS, src: Path, dest: Path, x: Path)
    requires x in fs && LandedFrom(fs, src, dest, x).None?
    ensures x in Merged(fs, src, dest) && Merged(fs, src, dest)[x] == fs[x]
  {
  }

  /** A copied file lands with the source's text at its counterpart below
      the destination, or, when that counterpart is a directory, inside it
      under the file's own name. */
  lemma MergeCopiesFile(fs: FS, src: Path, dest: Path, rel: Path)
    requires Copied(fs, src, dest, rel) && IsFile(fs, src + rel)
    ensures !IsDir(fs, dest + rel) ==> Landing(fs, src, dest, rel) == dest + rel
    ensures IsDir(fs, dest + rel) ==> Landing(fs, src, dest, rel) == dest + rel + [rel[|rel| - 1]]
    ensures Landing(fs, src, dest, rel) in Merged(fs, src, dest)
    ensures Merged(fs, src, dest)[Landing(fs, src, dest, rel)] == File(ReadText(fs, src + rel))
  {
    EntriesIn(fs, src);
    LandedFromAt(fs, src, dest, rel);
  }

  /** A copied directory lands at its counterpart below the destination: a
      new directory, or the existing entry, which is a directory there. */
  lemma MergeCopiesDir(fs: FS, src: Path, dest: Path, rel: Path)
    requires Copied(fs, src, dest, rel) && IsDir(fs, src + rel)
    ensures dest + rel in Merged(fs, src, dest)
    ensures dest + rel !in fs ==> Merged(fs, src, dest)[dest + rel] == Dir
    ensures dest + rel in fs ==> Merged(fs, src, dest)[dest + rel] == fs[dest + rel] && IsDir(fs, dest + rel)
  {
    LandedFromAt(fs, src, dest, rel);
    assert rel[..|rel|] == rel;
  }

  /** The merge creates nothing outside the destination tree. */
  lemma MergeOnlyBelow(fs: FS, src: Path, dest: Path, x: Path)
    requires x in Merged(fs, src, dest) && x !in fs
    ensures Under(x, dest) && |x| > |dest|
  {
  }

  /** A file of the source tree that the destination already links to (a
      tree an earlier `Symlink` deployed) is the same file: `copy2` raises
      `SameFileError` for it. */
  lemma LinkBackConflicts(fs: FS, src: Path, dest: Path, rel: Path)
    requires rel in Entries(fs, src) && src + rel in fs && fs[src + rel].File?
    requires dest + rel in fs && fs[dest + rel] == Link(src + rel)
    ensures Conflict(fs, src, dest, rel)
  {
  }

  /** `copytree` succeeds when the destination's prefixes are missing or
      directories and no entry of the source tree conflicts; then every
      entry of the source tree is copied. */
  lemma TreeCopiedClean(fs: FS, src: Path, dest: Path)
    requires forall j :: 1 <= j <= |dest| ==> dest[..j] !in fs || fs[dest[..j]] == Dir
    requires forall rel :: rel in Entries(MadeDirs(fs, dest).fs, src) ==> !Conflict(MadeDirs(fs, dest).fs, src, dest, rel)
    ensures TreeCopied(fs, src, dest).err.None?
    ensures forall rel :: rel in Entries(MadeDirs(fs, dest).fs, src) ==> Copied(MadeDirs(fs, dest).fs, src, dest, rel)
  {
    MadeDirsSucceeds(fs, dest, 1);
  }

  /** A conflicting entry makes `copytree` report an error, after copying
      everything else it could. */
  lemma TreeCopiedConflict(fs: FS, src: Path, dest: Path, rel: Path)
    requires MadeDirs(fs, dest).err.None?
    requires rel in Entries(MadeDirs(fs, dest).fs, src) && Conflict(MadeDirs(fs, dest).fs, src, dest, rel)
    ensures TreeCopied(fs, src, dest) == Outcome(Merged(MadeDirs(fs, dest).fs, src, dest), Some(CopyFailed(dest)))
  {
  }

  // ---------------------------------------------------------------------
  // Plan.execute

  /** When some action fails to prepare, nothing is yielded, nothing is
      run remotely and the filesystem has only gained directories. */
  lemma PlanPrepareFails(fs: FS, runs: seq<Invocation>, actions: seq<Action>, status: int)
    requires PreparedAll(fs, actions).err.Some?
    ensures var r := PlanRun(fs, runs, actions, status);
      r.yielded == [] && r.runs == runs && r.err.Some? && AddsDirs(fs, r.fs)
  {
    PrepareAllAddsDirs(fs, actions);
  }

  /** The actions yielded are a prefix of the plan; without an error every
      action is yielded, and with one the failing action is the last yielded.
      Remote commands are only ever appended, one per archive sent. */
  lemma {:induction false} ExecutedYields(fs: FS, runs: seq<Invocation>, actions: seq<Action>, status: int)
    ensures var r := ExecutedAll(fs, runs, actions, status);
      && r.yielded <= actions
      && (r.err.None? ==> r.yielded == actions)
      && (r.err.Some? ==> r.yielded != [])
      && runs <= r.runs
      && |r.runs| - |runs| <= |r.yielded|
    decreases |actions|
  {
    if actions != [] {
      var a := actions[0];
      var r := Executed(fs, a, status);
      var runs' := runs + Commands(fs, a);
      if r.err.None? {
        ExecutedYields(r.fs, runs', actions[1..], status);
        var rest := ExecutedAll(r.fs, runs', actions[1..], status);
        assert actions == [a] + actions[1..];
        assert runs <= runs' <= rest.runs;
      }
    }
  }

  /** The same for the whole of `Plan.execute()`. */
  lemma PlanYields(fs: FS, runs: seq<Invocation>, actions: seq<Action>, status: int)
    ensures var r := PlanRun(fs, runs, actions, status);
      && r.yielded <= actions
      && (r.err.None? ==> r.yielded == actions)
      && runs <= r.runs
  {
    var p := PreparedAll(fs, actions);
    if p.err.None? {
      ExecutedYields(p.fs, runs, actions, status);
    }
  }

  /** The filesystem and the remote side, as the actions see them. */
  class World {
    var fs: FS
    var runs: seq<Invocation>
    const status: int

    constructor (fs: FS, status: int)
      ensures this.fs == fs && runs == [] && this.status == status
    {
      this.fs := fs;
      runs := [];
      this.status := status;
    }

    /** `p.mkdir(parents=True, exist_ok=True)`, prefix by prefix. */
    method MakeDirs(p: Path) returns (err: Option<ActionError>)
      modifies this
      ensures Outcome(fs, err) == MadeDirs(old(fs), p) && runs == old(runs)
    {
      var k := 1;
      while k <= |p|
        invariant 1 <= k <= |p| + 1 || p == []
        invariant MadeDirsFrom(fs, p, k) == MadeDirs(old(fs), p) && runs == old(runs)
        decreases |p| + 1 - k
      {
        var q := p[..k];
        MadeDirsStep(fs, p, k);
        if !IsDir(fs, q) {
          if q in fs {
            return Some(OSFailure(p));
          }
          fs := fs[q := Dir];
        }
        k := k + 1;
      }
      return None;
    }

    method PrepareCopy(src: Path, dest: Path) returns (err: Option<ActionError>)
      modifies this
      ensures Outcome(fs, err) == CopyPrepared(old(fs), src, dest) && runs == old(runs)
    {
      if !Exists(fs, src) {
        return Some(SourceMissing(src));
      }
      if !IsSymlink(fs, dest) && ((IsDir(fs, dest) && IsFile(fs, src)) || (IsFile(fs, dest) && IsDir(fs, src))) {
        return Some(TypeMismatch(src, dest));
      }
      err := MakeDirs(Parent(dest));
    }

    /** `action.prepare()`. */
    method Prepare(a: Action) returns (err: Option<ActionError>)
      modifies this
      ensures Outcome(fs, err) == Prepared(old(fs), a) && runs == old(runs)
    {
      match a {
        case Base(_, _) =>
          err := None;
        case Deploy(_, _) =>
          err := None;
        case Copy(src, dest) =>
          err := PrepareCopy(src, dest);
        case Symlink(src, dest) =>
          if !IsSymlink(fs, dest) && IsDir(fs, dest) {
            return Some(DestinationIsDir(dest));
          }
          err := PrepareCopy(src, dest);
        case SSHTarball(src, target) =>
          if !IsDir(fs, src) {
            return Some(NotADirectory(src));
          }
          if !target.Remote() {
            return Some(NotRemote(target));
          }
          err := None;
      }
    }

    /** `action.execute()`. */
    method Execute(a: Action) returns (err: Option<ActionError>)
      modifies this
      ensures Outcome(fs, err) == Executed(old(fs), a, status)
      ensures runs == old(runs) + Commands(old(fs), a)
    {
      match a {
        case Base(_, _) =>
          err := Some(NotImplemented);
        case Deploy(_, _) =>
          err := Some(NotImplemented);
        case Copy(src, dest) =>
          if IsDir(fs, src) {
            if IsSymlink(fs, dest) {
              fs := Unlinked(fs, dest).fs;
            }
            var r := TreeCopied(fs, src, dest);
            fs, err := r.fs, r.err;
          } else {
            var u := Unlinked(fs, dest);
            fs, err := u.fs, u.err;
            if err.None? {
              var c := FileCopied(fs, src, dest);
              fs, err := c.fs, c.err;
            }
          }
        case Symlink(src, dest) =>
          var u := Unlinked(fs, dest);
          fs, err := u.fs, u.err;
          if err.None? {
            var l := Linked(fs, dest, src);
            fs, err := l.fs, l.err;
          }
        case SSHTarball(src, target) =>
          if src !in fs {
            return Some(OSFailure(src));
          }
          var data := Archive(fs, src);
          runs := runs + [Invocation(TarArgv(target), data)];
          err := if status == 0 then None else Some(CommandFailed(status));
      }
    }

    /** The first loop of `Plan.execute()`: every action prepared in order. */
    method PrepareAll(actions: seq<Action>) returns (err: Option<ActionError>)
      modifies this
      ensures Outcome(fs, err) == PreparedAll(old(fs), actions) && runs == old(runs)
    {
      var i := 0;
      while i < |actions|
        invariant 0 <= i <= |actions| && runs == old(runs)
        invariant PreparedAll(fs, actions[i..]) == PreparedAll(old(fs), actions)
      {
        assert actions[i..][1..] == actions[i + 1..];
        err := Prepare(actions[i]);
        if err.Some? {
          return;
        }
        i := i + 1;
      }
      return None;
    }

    /** The second loop of `Plan.execute()`: each action yielded, then executed. */
    method ExecuteAll(actions: seq<Action>) returns (yielded: seq<Action>, err: Option<ActionError>)
      modifies this
      ensures Run(fs, runs, yielded, err) == ExecutedAll(old(fs), old(runs), actions, status)
    {
      yielded := [];
      var j := 0;
      while j < |actions|
        invariant 0 <= j <= |actions| && yielded == actions[..j]
        invariant ExecutedAll(old(fs), old(runs), actions, status) == AfterYielding(yielded, ExecutedAll(fs, runs, actions[j..], status))
      {
        ExecutedAt(fs, runs, actions, j, status);
        ghost var r := Executed(fs, actions[j], status);
        ghost var runs' := runs + Commands(fs, actions[j]);
        yielded := yielded + [actions[j]];
        err := Execute(actions[j]);
        assert fs == r.fs && err == r.err && runs == runs';
        if err.Some? {
          return;
        }
        AfterYieldingTwice(yielded[..j], actions[j], ExecutedAll(fs, runs, actions[j + 1..], status));
        j := j + 1;
      }
      err := None;
    }

    /** `for action in plan.execute(): ...`: every action prepared, then
        each one yielded and executed. */
    method ExecutePlan(actions: seq<Action>) returns (yielded: seq<Action>, err: Option<ActionError>)
      modifies this
      ensures Run(fs, runs, yielded, err) == PlanRun(old(fs), old(runs), actions, status)
    {
      err := PrepareAll(actions);
      if err.Some? {
        return [], err;
      }
      yielded, err := ExecuteAll(actions);
    }
  }
}
