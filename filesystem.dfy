/** The filesystem the dotlink code reads and changes, as a map from an
    absolute path (its sequence of names below `/`) to what is stored there.
    A symbolic link is followed one hop, and only when it is the last
    component of the path being looked up. */
module FileSystem {
  import opened Wrappers
  import opened PyStr

  type Path = seq<string>

  datatype Node = File(content: string) | Dir | Link(target: Path)

  type FS = map<Path, Node>

  /** `Path.parent`; the root is its own parent. */
  function Parent(p: Path): (q: Path)
    ensures p == [] ==> q == []
    ensures p != [] ==> p == q + [p[|p| - 1]]
  {
    if p == [] then [] else p[..|p| - 1]
  }

  /** What `stat` sees at `p`: the entry itself, or the entry a link points at. */
  function Follow(fs: FS, p: Path): (n: Option<Node>)
    ensures n.Some? ==> !n.value.Link?
    ensures p !in fs ==> n.None?
    ensures p in fs && !fs[p].Link? ==> n == Some(fs[p])
  {
    if p !in fs then None
    else match fs[p]
      case Link(t) => if t in fs && !fs[t].Link? then Some(fs[t]) else None
      case n => Some(n)
  }

  /** `Path.exists()`. */
  predicate Exists(fs: FS, p: Path) {
    Follow(fs, p).Some?
  }

  /** `Path.is_dir()`. */
  predicate IsDir(fs: FS, p: Path) {
    Follow(fs, p) == Some(Dir)
  }

  /** `Path.is_file()`. */
  predicate IsFile(fs: FS, p: Path) {
    Follow(fs, p).Some? && Follow(fs, p).value.File?
  }

  /** `Path.is_symlink()`: looks at the entry itself, not at what it points to. */
  predicate IsSymlink(fs: FS, p: Path) {
    p in fs && fs[p].Link?
  }

  /** `Path.read_text()` of a path that is a file. */
  function ReadText(fs: FS, p: Path): string
    requires IsFile(fs, p)
  {
    Follow(fs, p).value.content
  }

  /** `Path.resolve()` / `os.path.realpath()` of an already normalised path:
      a link is replaced by its target. */
  function Resolve(fs: FS, p: Path): (r: Path)
    ensures IsSymlink(fs, p) ==> r == fs[p].target
    ensures !IsSymlink(fs, p) ==> r == p
  {
    if p in fs && fs[p].Link? then fs[p].target else p
  }

  /** `str(path)` of an absolute path. */
  function PathText(p: Path): string {
    "/" + JoinWith("/", p)
  }

  /** A path made only of real names: none empty, `.` or `..`, none holding `/`. */
  predicate Normalized(p: Path) {
    forall k :: 0 <= k < |p| ==> p[k] != "" && p[k] != "." && p[k] != ".." && '/' !in p[k]
  }

  /** One component of a path text applied to a path. */
  function Step(p: Path, name: string): (q: Path)
    requires '/' !in name
    ensures Normalized(p) ==> Normalized(q)
  {
    if name == "" || name == "." then p
    else if name == ".." then Parent(p)
    else p + [name]
  }

  function Walk(p: Path, names: seq<string>): (q: Path)
    requires forall k :: 0 <= k < |names| ==> '/' !in names[k]
    ensures Normalized(p) ==> Normalized(q)
    decreases |names|
  {
    if names == [] then p else Walk(Step(p, names[0]), names[1..])
  }

  /** `base / text` followed by collapsing `.` and `..`: an absolute text
      replaces `base`. */
  function Normalize(base: Path, text: string): (q: Path)
    ensures Normalized(base) ==> Normalized(q)
  {
    var start := if |text| > 0 && text[0] == '/' then [] else base;
    Walk(start, Split(text, '/'))
  }

  /** `base / ""` and `base / "."` are `base`. */
  lemma NormalizeEmpty(base: Path)
    ensures Normalize(base, "") == base
    ensures Normalize(base, ".") == base
  {
    assert Split("", '/') == [""];
    assert Walk(base, [""]) == Walk(Step(base, ""), []);
    assert Split(".", '/') == ["."];
    assert Walk(base, ["."]) == Walk(Step(base, "."), []);
  }

  /** Walking two lists of names is walking the first, then the second. */
  lemma {:induction false} WalkAppend(p: Path, a: seq<string>, b: seq<string>)
    requires forall k :: 0 <= k < |a| ==> '/' !in a[k]
    requires forall k :: 0 <= k < |b| ==> '/' !in b[k]
    ensures Walk(p, a + b) == Walk(Walk(p, a), b)
    decreases |a|
  {
    if a != [] {
      assert (a + b)[0] == a[0] && (a + b)[1..] == a[1..] + b;
      WalkAppend(Step(p, a[0]), a[1..], b);
    } else {
      assert a + b == b;
    }
  }

  /** Real names are appended as they are. */
  lemma {:induction false} WalkNames(p: Path, names: seq<string>)
    requires Normalized(names)
    ensures Walk(p, names) == p + names
    decreases |names|
  {
    if names != [] {
      WalkNames(p + [names[0]], names[1..]);
      assert p + [names[0]] + names[1..] == p + names;
    }
  }
}
