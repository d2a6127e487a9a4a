/** The value types of `dotlink/types.py`: the resolved mapping tree
    (`Config`), the deployment method, and the source and target
    descriptors with their parsers. */
module Types {
  import opened Wrappers
  import opened PyStr
  import opened FileSystem

  /** How local targets receive their files. */
  datatype Method = Symlink | Copy

  /** One resolved mapping file: the directory it lives in, its
      destination-to-source pairs (both relative), and the trees of the
      directories it includes, in line order. A datatype value cannot be
      changed after it is built, which is what the frozen dataclass gives. */
  datatype Config = Config(root: Path, paths: map<string, string> := map[], includes: seq<Config> := [])

  /** A `Config` built from its root alone has no pairs and no includes. */
  lemma ConfigDefaults(root: Path)
    ensures Config(root) == Config(root, map[], [])
    ensures Config(root).paths == map[] && Config(root).includes == []
  {
  }

  // ---------------------------------------------------------------------
  // Target: `[user@]host:path`

  /** What `USER_HOST_REGEX` captures: the optional `user`, `host` and `path` groups. */
  datatype UserHost = UserHost(user: Option<string>, host: string, path: string)

  function UserPrefix(user: Option<string>): string {
    if user.Some? then user.value + "@" else ""
  }

  /** `host:path`, with a final newline when `nl` holds. */
  function Tail(host: string, path: string, nl: bool): string {
    host + ([':'] + (path + if nl then "\n" else ""))
  }

  /** The text a capture stands for. */
  function Render(m: UserHost, nl: bool): string {
    UserPrefix(m.user) + Tail(m.host, m.path, nl)
  }

  /** The language of `^(?:([^@]+)@)?([^:]+):(.*)$` stated as a grammar: a
      non-empty user without `@`, a non-empty host without `:`, a path
      without a newline (`.` does not match one), and `$` also accepting a
      single newline at the very end. */
  predicate Accepts(s: string, m: UserHost) {
    && (m.user.Some? ==> m.user.value != "" && '@' !in m.user.value)
    && m.host != "" && ':' !in m.host && '\n' !in m.path
    && (s == Render(m, false) || s == Render(m, true))
  }

  /** `([^:]+):(.*)$` anchored at the start of `t`: the host runs to the
      first `:`, the path to the end, less one final newline. */
  function HostPath(t: string): (r: Option<(string, string)>)
    ensures r.Some? ==>
      && r.value.0 != "" && ':' !in r.value.0 && '\n' !in r.value.1
      && (t == Tail(r.value.0, r.value.1, false) || t == Tail(r.value.0, r.value.1, true))
  {
    var c := FirstIn(t, {':'});
    if c == 0 || c == |t| then None
    else
      var rest := t[c + 1..];
      var n := FirstIn(rest, {'\n'});
      assert t == t[..c] + ([':'] + rest);
      if n == |rest| then
        assert rest[..n] == rest;
        Some((t[..c], rest))
      else if n + 1 == |rest| then
        assert rest == rest[..n] + "\n";
        Some((t[..c], rest[..n]))
      else None
  }

  /** `USER_HOST_REGEX.match(s)`: the optional user group is tried first
      (the user runs to the first `@`); when the rest then fails, the
      match is retried without a user. */
  function MatchUserHost(s: string): Option<UserHost> {
    var a := FirstIn(s, {'@'});
    if 0 < a < |s| && HostPath(s[a + 1..]).Some? then
      var hp := HostPath(s[a + 1..]).value;
      Some(UserHost(Some(s[..a]), hp.0, hp.1))
    else match HostPath(s)
      case Some(hp) => Some(UserHost(None, hp.0, hp.1))
      case None => None
  }

  /** Every string in the grammar's form is matched by `HostPath`, with these parts. */
  lemma HostPathComplete(h: string, p: string, nl: bool)
    requires h != "" && ':' !in h && '\n' !in p
    ensures HostPath(Tail(h, p, nl)) == Some((h, p))
  {
    var end := if nl then "\n" else "";
    var t := Tail(h, p, nl);
    NotInNoneIn(h, ':');
    assert t == h + [':'] + (p + end);
    FirstInAt(h, ':', p + end, {':'});
    var rest := t[|h| + 1..];
    assert rest == p + end;
    assert t[..|h|] == h;
    NotInNoneIn(p, '\n');
    if nl {
      assert rest == p + ['\n'] + "";
      FirstInAt(p, '\n', "", {'\n'});
      assert rest[..|p|] == p;
    } else {
      assert rest == p;
      FirstInNone(p, {'\n'});
      assert FirstIn(rest, {'\n'}) == |rest|;
      assert HostPath(t) == Some((t[..|h|], rest));
    }
  }

  /** What the regex captures is in the grammar. */
  lemma MatchSound(s: string)
    requires MatchUserHost(s).Some?
    ensures Accepts(s, MatchUserHost(s).value)
  {
    var a := FirstIn(s, {'@'});
    if 0 < a < |s| && HostPath(s[a + 1..]).Some? {
      MatchSoundUser(s, a);
    } else {
      var hp := HostPath(s).value;
      assert MatchUserHost(s) == Some(UserHost(None, hp.0, hp.1));
      assert UserPrefix(None) == "";
    }
  }

  /** The capture with a user: the text before the first `@`, then what
      `HostPath` captures after it. */
  lemma MatchSoundUser(s: string, a: nat)
    requires a == FirstIn(s, {'@'}) && 0 < a < |s| && HostPath(s[a + 1..]).Some?
    ensures Accepts(s, MatchUserHost(s).value)
  {
    var u, t := s[..a], s[a + 1..];
    var hp := HostPath(t).value;
    var m := UserHost(Some(u), hp.0, hp.1);
    assert MatchUserHost(s) == Some(m);
    NoneInNotIn(u, '@');
    var nl := t != Tail(hp.0, hp.1, false);
    assert t == Tail(hp.0, hp.1, nl);
    SplitAround(s, a);
    assert Render(m, nl) == (u + "@") + t;
  }

  /** A capture with a user is the one the regex returns. */
  lemma MatchWithUser(u: string, h: string, p: string, nl: bool)
    requires u != "" && '@' !in u && h != "" && ':' !in h && '\n' !in p
    ensures MatchUserHost(Render(UserHost(Some(u), h, p), nl)) == Some(UserHost(Some(u), h, p))
  {
    var tail := Tail(h, p, nl);
    var s := Render(UserHost(Some(u), h, p), nl);
    assert s == u + ['@'] + tail;
    NotInNoneIn(u, '@');
    FirstInAt(u, '@', tail, {'@'});
    assert s[|u| + 1..] == tail;
    assert s[..|u|] == u;
    HostPathComplete(h, p, nl);
  }

  /** Without a user, the regex either takes a user group or returns this capture. */
  lemma MatchWithoutUser(h: string, p: string, nl: bool)
    requires h != "" && ':' !in h && '\n' !in p
    ensures MatchUserHost(Tail(h, p, nl)).Some?
    ensures MatchUserHost(Tail(h, p, nl)).value.user.None? ==>
      MatchUserHost(Tail(h, p, nl)) == Some(UserHost(None, h, p))
  {
    HostPathComplete(h, p, nl);
  }

  /** Everything in the grammar is matched; a capture with a user is the
      one the regex returns, and when the regex returns no user the
      capture it returns is the only one. */
  lemma MatchComplete(s: string, m: UserHost)
    requires Accepts(s, m)
    ensures MatchUserHost(s).Some?
    ensures m.user.Some? ==> MatchUserHost(s) == Some(m)
    ensures MatchUserHost(s).value.user.None? ==> MatchUserHost(s) == Some(m)
  {
    var nl := s != Render(m, false);
    assert s == Render(m, nl);
    if m.user.Some? {
      MatchWithUser(m.user.value, m.host, m.path, nl);
    } else {
      assert s == Tail(m.host, m.path, nl);
      MatchWithoutUser(m.host, m.path, nl);
    }
  }

  /** A parsed target and how it renders (`__str__`). */
  datatype Target = Target(path: string, host: Option<string> := None, user: Option<string> := None) {

    /** `Target.remote`. */
    predicate Remote() {
      host.Some?
    }

    /** `Target.address`: `user@host` when the user is non-empty (an absent
        host then prints as `None`), otherwise the host, otherwise "". */
    function Address(): string {
      if user.Some? && user.value != "" then
        user.value + "@" + (if host.Some? then host.value else "None")
      else if host.Some? then host.value
      else ""
    }

    /** `Target.__str__`: empty strings count as absent. */
    function ToString(): string {
      if host.Some? && host.value != "" then
        if user.Some? && user.value != "" then user.value + "@" + host.value + ":" + path
        else host.value + ":" + path
      else path
    }

    /** `Target.parse`: the regex's groups, or the whole text as a local path. */
    static function Parse(value: string): Target {
      match MatchUserHost(value)
      case Some(m) => Target(m.path, Some(m.host), m.user)
      case None => Target(value)
    }
  }

  /** A target is remote exactly when its descriptor is in the
      `[user@]host:path` grammar. */
  lemma ParseRemoteIff(s: string)
    ensures Target.Parse(s).Remote() <==> exists m :: Accepts(s, m)
  {
    if Target.Parse(s).Remote() {
      MatchSound(s);
    }
    if m :| Accepts(s, m) {
      MatchComplete(s, m);
    }
  }

  /** A descriptor without `:` is a local path, kept whole. */
  lemma ParseLocal(s: string)
    requires ':' !in s
    ensures Target.Parse(s) == Target(s, None, None)
  {
    NotInNoneIn(s, ':');
    FirstInNone(s, {':'});
    var a := FirstIn(s, {'@'});
    if 0 < a < |s| {
      NotInNoneIn(s[a + 1..], ':');
      FirstInNone(s[a + 1..], {':'});
    }
  }

  /** How `__str__` renders a target with a non-empty host. */
  lemma ToStringRemote(t: Target)
    requires t.host.Some? && t.host.value != ""
    ensures var user := if t.user.Some? && t.user.value != "" then t.user else None;
      t.ToString() == Render(UserHost(user, t.host.value, t.path), false)
  {
    if t.user.Some? && t.user.value != "" {
      assert t.ToString() == (t.user.value + "@") + Tail(t.host.value, t.path, false);
    } else {
      assert t.ToString() == Tail(t.host.value, t.path, false);
    }
  }

  /** Parsing `host:path` and `user@host:path` gives exactly those parts,
      the path possibly empty, when the host has no `:` or `@`, the user
      no `@`, the path no newline, and a path without a user no `@`. */
  lemma ParseRemoteParts(user: Option<string>, host: string, path: string)
    requires user.Some? ==> user.value != "" && '@' !in user.value
    requires host != "" && ':' !in host && '@' !in host && '\n' !in path
    requires user.None? ==> '@' !in path
    ensures Target.Parse(Render(UserHost(user, host, path), false)) == Target(path, Some(host), user)
  {
    var s := Render(UserHost(user, host, path), false);
    if user.Some? {
      MatchWithUser(user.value, host, path, false);
    } else {
      assert s == host + ([':'] + (path + ""));
      assert '@' !in s;
      NotInNoneIn(s, '@');
      FirstInNone(s, {'@'});
      HostPathComplete(host, path, false);
    }
  }

  /** The targets `__str__` renders so that `parse` gives them back. Besides
      what the grammar needs, a target without a user must not have an `@`
      in its path: the user group would then match up to it. */
  predicate RoundTrips(t: Target) {
    if t.host.None? then t.user.None? && ':' !in t.path
    else
      && t.host.value != "" && ':' !in t.host.value && '@' !in t.host.value && '\n' !in t.path
      && (t.user.Some? ==> t.user.value != "" && '@' !in t.user.value)
      && (t.user.None? ==> '@' !in t.path)
  }

  /** `parse(str(t)) == t`. */
  lemma ParseToString(t: Target)
    requires RoundTrips(t)
    ensures Target.Parse(t.ToString()) == t
  {
    if t.host.None? {
      ParseLocal(t.path);
    } else {
      ToStringRemote(t);
      ParseRemoteParts(t.user, t.host.value, t.path);
    }
  }

  /** Without the extra condition the round trip fails: `h:x@y:z` reads as
      user `h:x` on host `y`. */
  lemma UserGroupTakesPathAt()
    ensures Target.Parse(Target("x@y:z", Some("h")).ToString()) == Target("z", Some("y"), Some("h:x"))
  {
    var t := Target("x@y:z", Some("h"));
    ToStringRemote(t);
    assert t.ToString() == "h:x@y:z";
    MatchWithUser("h:x", "y", "z", false);
    assert Render(UserHost(Some("h:x"), "y", "z"), false) == "h:x@y:z";
  }

  /** The newline variant of a rendering is the plain one plus `\n`. */
  lemma RenderNewline(m: UserHost)
    ensures Render(m, true) == Render(m, false) + "\n"
  {
    var u := UserPrefix(m.user);
    assert Tail(m.host, m.path, true) == Tail(m.host, m.path, false) + "\n";
    assert u + (Tail(m.host, m.path, false) + "\n") == (u + Tail(m.host, m.path, false)) + "\n";
  }

  /** `str(parse(s))` gives `s` back, less a final newline the regex's `$` skipped. */
  lemma ToStringParse(s: string)
    ensures Target.Parse(s).ToString() == s || Target.Parse(s).ToString() + "\n" == s
  {
    if MatchUserHost(s).Some? {
      var m := MatchUserHost(s).value;
      var t := Target(m.path, Some(m.host), m.user);
      assert Target.Parse(s) == t;
      MatchSound(s);
      ToStringRemote(t);
      assert UserHost(m.user, m.host, m.path) == m;
      RenderNewline(m);
    }
  }

  /** A remote target's descriptor is its address, `:`, and its path. */
  lemma RemoteAddress(s: string)
    requires Target.Parse(s).Remote()
    ensures var t := Target.Parse(s);
      t.Address() + ":" + t.path == s || t.Address() + ":" + t.path + "\n" == s
  {
    var t := Target.Parse(s);
    var m := MatchUserHost(s).value;
    MatchSound(s);
    ToStringParse(s);
    ToStringRemote(t);
    if m.user.Some? {
      assert t.ToString() == (t.Address() + ":") + t.path;
    } else {
      assert t.ToString() == (t.Address() + ":") + t.path;
    }
  }

  /** A local target without a user has an empty address. */
  lemma LocalAddress(t: Target)
    requires !t.Remote() && (t.user.None? || t.user.value == "")
    ensures t.Address() == ""
  {
  }

  // ---------------------------------------------------------------------
  // Source: a local path or a URL

  /** Where a profile comes from: exactly one of the two is set. */
  datatype Source = Source(path: Option<string> := None, url: Option<string> := None) {

    /** `Source.parse`: a URL when `urlparse` finds both a scheme and a
        network location, otherwise a local path. */
    static function Parse(value: string): Source {
      if HasSchemeAndNetloc(value) then Source(url := Some(value)) else Source(path := Some(value))
    }
  }

  predicate AsciiLetter(c: char) {
    'a' <= c <= 'z' || 'A' <= c <= 'Z'
  }

  /** The characters `urlsplit` accepts in a scheme. */
  predicate SchemeChar(c: char) {
    AsciiLetter(c) || '0' <= c <= '9' || c == '+' || c == '-' || c == '.'
  }

  /** `urlsplit`'s clean-up: leading C0 controls and spaces are dropped, and
      tab, carriage return and line feed are removed everywhere. */
  function Sanitize(s: string): string {
    RemoveTabNewlines(LStripControl(s))
  }

  function LStripControl(s: string): string {
    if s != [] && s[0] <= ' ' then LStripControl(s[1..]) else s
  }

  function RemoveTabNewlines(s: string): (r: string)
    ensures NoneIn(r, {'\t', '\r', '\n'})
  {
    if s == [] then ""
    else (if s[0] in {'\t', '\r', '\n'} then "" else [s[0]]) + RemoveTabNewlines(s[1..])
  }

  /** The index of the `:` that ends a scheme, when the text has one: the
      first `:`, not at the start, after an ASCII letter and scheme characters. */
  function SchemeEnd(t: string): Option<nat> {
    var i := FirstIn(t, {':'});
    if 0 < i < |t| && AsciiLetter(t[0]) && forall j :: 0 <= j < i ==> SchemeChar(t[j]) then Some(i)
    else None
  }

  /** The network location `urlsplit` finds after the scheme, when the rest
      starts with `//`: up to the first `/`, `?` or `#`. */
  function Netloc(rest: string): string {
    if |rest| >= 2 && rest[..2] == "//" then
      var after := rest[2..];
      after[..FirstIn(after, {'/', '?', '#'})]
    else ""
  }

  predicate HasSchemeAndNetloc(s: string) {
    var t := Sanitize(s);
    match SchemeEnd(t)
    case Some(i) => Netloc(t[i + 1..]) != ""
    case None => false
  }

  /** The shape of a URL with a scheme and a network location, written out. */
  predicate UrlShape(t: string, i: nat) {
    && 0 < i && i + 3 < |t|
    && AsciiLetter(t[0])
    && (forall j :: 0 <= j < i ==> SchemeChar(t[j]))
    && t[i] == ':' && t[i + 1] == '/' && t[i + 2] == '/'
    && t[i + 3] !in {'/', '?', '#'}
  }

  /** A text of the URL shape has a scheme and a network location. */
  lemma ShapeIsUrl(t: string, i: nat)
    requires UrlShape(t, i)
    ensures SchemeEnd(t) == Some(i)
    ensures Netloc(t[i + 1..]) != ""
  {
    assert t == t[..i] + [':'] + t[i + 1..];
    assert NoneIn(t[..i], {':'}) by {
      forall j | 0 <= j < i ensures t[..i][j] !in {':'} {
        assert SchemeChar(t[j]);
      }
    }
    FirstInAt(t[..i], ':', t[i + 1..], {':'});
    var rest := t[i + 1..];
    assert rest[..2] == "//";
    var after := rest[2..];
    assert after[0] == t[i + 3];
  }

  /** A text with a scheme and a network location has the URL shape. */
  lemma UrlIsShape(t: string)
    requires SchemeEnd(t).Some? && Netloc(t[SchemeEnd(t).value + 1..]) != ""
    ensures UrlShape(t, SchemeEnd(t).value)
  {
    var i := SchemeEnd(t).value;
    var rest := t[i + 1..];
    assert |rest| >= 2 && rest[..2] == "//";
    var after := rest[2..];
    assert after != [] && after[0] !in {'/', '?', '#'};
    assert t[i + 1] == rest[0] && t[i + 2] == rest[1] && t[i + 3] == after[0];
  }

  /** `Source.parse` sets exactly one field, to the whole text, and picks
      `url` exactly when the cleaned text has the URL shape. */
  lemma SourceParseIff(s: string)
    ensures var src := Source.Parse(s);
      && (src.path.Some? != src.url.Some?)
      && (src.url.Some? ==> src.url.value == s)
      && (src.path.Some? ==> src.path.value == s)
      && (src.url.Some? <==> exists i :: UrlShape(Sanitize(s), i))
  {
    var t := Sanitize(s);
    if i :| UrlShape(t, i) {
      ShapeIsUrl(t, i);
    }
    if Source.Parse(s).url.Some? {
      UrlIsShape(t);
    }
  }

  /** A text without control characters is left as it is by the clean-up. */
  lemma {:induction false} SanitizePrintable(s: string)
    requires forall i :: 0 <= i < |s| ==> s[i] > ' '
    ensures Sanitize(s) == s
  {
    RemovePrintable(s);
  }

  lemma {:induction false} RemovePrintable(s: string)
    requires forall i :: 0 <= i < |s| ==> s[i] > ' '
    ensures RemoveTabNewlines(s) == s
    decreases |s|
  {
    if s != [] {
      RemovePrintable(s[1..]);
    }
  }

  /** A printable text of the URL shape is parsed as a URL. */
  lemma PrintableUrl(s: string, i: nat)
    requires forall j :: 0 <= j < |s| ==> s[j] > ' '
    requires UrlShape(s, i)
    ensures Source.Parse(s) == Source(url := Some(s))
  {
    SanitizePrintable(s);
    ShapeIsUrl(s, i);
  }

  /** The examples of dotlink's tests: the empty text and an absolute
      path are local, ... */
  lemma SourceExampleEmpty()
    ensures Source.Parse("") == Source(path := Some(""))
  {
  }

  lemma SourceExampleAbsolute()
    ensures Source.Parse("/foo/bar") == Source(path := Some("/foo/bar"))
  {
    var local := "/foo/bar";
    assert LStripControl(local) == local;
    var t := Sanitize(local);
    assert t == [local[0]] + RemoveTabNewlines(local[1..]);
    assert !AsciiLetter(t[0]);
    assert SchemeEnd(t).None?;
  }

  /** ... and `git://` and `https://` repository addresses are URLs. */
  lemma SourceExampleGit()
    ensures Source.Parse("git://github.com/a/b") == Source(url := Some("git://github.com/a/b"))
  {
    var git := "git://github.com/a/b";
    assert forall i | 0 <= i < |git| :: git[i] > ' ';
    assert git[0] == 'g' && git[1] == 'i' && git[2] == 't';
    assert git[3] == ':' && git[4] == '/' && git[5] == '/' && git[6] == 'g';
    assert UrlShape(git, 3);
    PrintableUrl(git, 3);
  }

  lemma SourceExampleHttps()
    ensures Source.Parse("https://github.com/a/b.git") == Source(url := Some("https://github.com/a/b.git"))
  {
    var https := "https://github.com/a/b.git";
    assert forall i | 0 <= i < |https| :: https[i] > ' ';
    assert https[0] == 'h' && https[1] == 't' && https[2] == 't' && https[3] == 'p' && https[4] == 's';
    assert https[5] == ':' && https[6] == '/' && https[7] == '/' && https[8] == 'g';
    assert UrlShape(https, 5);
    PrintableUrl(https, 5);
  }
}
