# dotlink, modelled in Dafny

dotlink deploys a directory of dotfiles. A mapping file in the profile
directory says which file goes where, and a plan of actions copies or links
the files into place, or ships them to a remote host over ssh. This project
models four pieces of it and proves properties about them:

- **The mapping-file resolver** (`discover_mapping` and `generate_plan` in
  `dotlink/core.py`, in `core.dfy`). It finds `.dotlink` or else `dotlink`
  and classifies each line as a comment, an `@` include, a `dest = src`
  pair, a name mapped to itself, or blank. Includes recurse into a tree of
  `Config` values. `Core.Generate` is the specification. `Core.GeneratePlan`
  is the imperative loop proved equal to it.
- **The descriptors** (`Config`, `Target`, `Source` in `dotlink/types.py`,
  in `types.dfy`). `USER_HOST_REGEX` is modelled by hand, in the order the
  regex engine tries its alternatives. It is proved equal to a declarative
  grammar (`Types.Accepts`), and `parse`/`__str__` are proved to round-trip.
- **The action engine** (`dotlink/actions.py`, in `actions.dfy`). This
  covers the rendering of a plan and each action's `prepare` and `execute`
  over a filesystem. It also covers the two-phase `Plan.execute`: every
  action is prepared, then each is yielded and executed. Each operation is
  a specification function. The class `Actions.World`, holding the
  filesystem and the remote commands run, has methods proved equal to
  those functions.
- **The legacy parser** (`Dotlink.parse_mapping` in `dotlink/dotlink.py`, in
  `legacy_patterns.dfy` and `legacy.dfy`). It handles `#include "path"`
  lines and `src[: target]` lines with quoted names. Entries are first-wins
  in an ordered dictionary that recursive includes share. Both regexes are
  modelled by hand. Each regex is proved to accept exactly the lines built
  from its grammar parts (`LegacyPatterns.IncludeLine`,
  `LegacyPatterns.MappingLine`). The dictionary is the class
  `Legacy.OrderedDict`, which the method `Legacy.ParseMapping` mutates in
  place.

The support modules are as follows:

- `filesystem.dfy` models the filesystem as a map from absolute paths
  (sequences of names) to `File(text) | Dir | Link(target)`.
- `pystr.dfy` models the Python string methods the code relies on: `strip`,
  `lstrip`, `splitlines`, `split`, `join` and `find`.
- `wrappers.dfy` holds `Option` and `Result`.

Notes where the model follows the code rather than its surroundings:

- `core.py` builds a `Plan` imported from `types.py`, but `types.py`
  defines none. The result is modelled as the `Config` tree that
  `types.py` does define, with the same three fields.
- `generate_plan` on a directory whose mapping file includes that
  directory (`@` or `@.`) recurses until Python gives up. The model
  threads a depth bound, and running out of it is the error
  `RecursionLimit`. `Core.SelfIncludeFails` proves that such a file
  fails at every bound.
- The legacy parser reads each line's include target and whether that
  target exists up front, in `Legacy.Classify`. The parse itself does not
  write to the filesystem, so this gives the same result as reading them
  while the parse runs.
- The legacy parser defaults the source directory to `dirname` of the
  resolved mapping path. For a directory argument, that is the
  directory's parent. The model keeps this.

## Model

| member | source | states |
|---|---|---|
| FileSystem.Parent | dotlink/actions.py:73 | A path below the root is its parent plus one last name; the root is its own parent. |
| FileSystem.Follow | dotlink/actions.py:64 | Following a path never ends on a link; a missing path gives nothing; an entry that is no link is itself. |
| FileSystem.Resolve | dotlink/core.py:32 | A link resolves to its target; anything else resolves to itself. |
| FileSystem.Normalize | dotlink/core.py:44 | Joining a text to a normalised directory gives a normalised path (no `.`, `..` or empty names). |
| FileSystem.NormalizeEmpty | dotlink/core.py:44 | `root / ""` and `root / "."` are `root`. |
| FileSystem.WalkAppend | dotlink/core.py:44 | Applying two lists of names is applying the first and then the second. |
| FileSystem.WalkNames | dotlink/core.py:44 | Plain names are appended to the path as they are. |
| PyStr.FirstIn | dotlink/core.py:53 | The index found holds a searched character, and none comes before it; no index means none occurs. |
| PyStr.FirstInAt | dotlink/core.py:53 | A character preceded by none of its kind is the one found. |
| PyStr.FirstInSkip | dotlink/core.py:53 | A prefix holding no searched character is skipped by the search. |
| PyStr.FirstInNone | dotlink/core.py:53 | A text with no searched character gives its own length. |
| PyStr.FirstOccurrence | dotlink/types.py:18 | The first occurrence of a character is the index `find` gives. |
| PyStr.LastIn | dotlink/types.py:18 | The index found holds the character, and it does not occur after it; nothing found means it does not occur. |
| PyStr.LastInAtLeast | dotlink/types.py:18 | An occurrence at `i` means the last occurrence is at `i` or later. |
| PyStr.LastInAt | dotlink/types.py:18 | The occurrence followed by no other is the last one. |
| PyStr.LStripSet | dotlink/core.py:40 | `lstrip` never lengthens a text, and what it leaves does not start with a stripped character. |
| PyStr.LStripParts | dotlink/core.py:40 | The text is what `lstrip` drops, all stripped characters, followed by what it keeps. |
| PyStr.LStripSkip | dotlink/core.py:40 | A run of stripped characters before a text that starts with none is exactly what `lstrip` drops. |
| PyStr.LStripAllIn | dotlink/core.py:40 | A text made only of stripped characters `lstrip`s to nothing. |
| PyStr.RStripSet | dotlink/dotlink.py:61 | `rstrip` never lengthens a text, and what it leaves does not end with a stripped character. |
| PyStr.RStripParts | dotlink/dotlink.py:61 | The text is what `rstrip` keeps followed by what it drops, all stripped characters. |
| PyStr.RStripSkip | dotlink/dotlink.py:61 | A run of stripped characters after a text that ends with none is exactly what `rstrip` drops. |
| PyStr.StripSet | dotlink/dotlink.py:92 | What `strip` leaves neither starts nor ends with a stripped character. |
| PyStr.StripSetEmpty | dotlink/core.py:56 | `strip` leaves nothing exactly when every character is a stripped one. |
| PyStr.StripEnds | dotlink/core.py:56 | Stripping both ends leaves nothing exactly when every character is stripped, and otherwise leaves a text starting with a kept character. |
| PyStr.Strip | dotlink/dotlink.py:61 | `str.strip()` with Python's whitespace characters. |
| PyStr.SplitLinesNoBreaks | dotlink/core.py:39 | No line from `splitlines` holds a line break, and only the empty text has no lines. |
| PyStr.SplitLines | dotlink/core.py:39 | `splitlines()`: the text cut at each of the given line breaks, with `\r\n` as one break and no empty last line after a final break. |
| PyStr.SplitTerminated | dotlink/dotlink.py:59 | The text of `\n`-terminated lines without breaks splits back into those lines. |
| PyStr.Split | dotlink/dotlink.py:34 | `split` gives at least one part, and no part holds the separator. |
| PyStr.JoinSplit | dotlink/dotlink.py:34 | Joining the parts of `split` with the separator gives the text back. |
| PyStr.JoinWithAppend | dotlink/actions.py:26 | Joining one more part appends the separator and that part. |
| PyStr.SplitLeading | dotlink/dotlink.py:34 | A leading separator splits off an empty first part. |
| PyStr.SplitJoined | dotlink/dotlink.py:69 | Splitting parts joined by the separator, then more text, gives those parts back first. |
| Types.ConfigDefaults | dotlink/types.py:39-43 | A `Config` built from its root alone has empty `paths` and `includes`. |
| Types.HostPath | dotlink/types.py:19-21 | On a match, the host is non-empty and holds no `:`; the text is host, `:` and path, optionally with a final newline, and the path has no newline. |
| Types.HostPathComplete | dotlink/types.py:19-21 | Every `host:path` in that grammar is matched with exactly those parts. |
| Types.MatchSound | dotlink/types.py:15-24 | What the regex captures is in the `[user@]host:path` grammar. |
| Types.MatchSoundUser | dotlink/types.py:18 | A capture that takes the user group is in the grammar. |
| Types.MatchWithUser | dotlink/types.py:15-24 | `user@host:path` is captured as exactly that user, host and path. |
| Types.MatchWithoutUser | dotlink/types.py:15-24 | `host:path` always matches, and a capture without a user is exactly that host and path. |
| Types.MatchComplete | dotlink/types.py:15-24 | Every text in the grammar matches; a form with a user is captured as given; a capture without a user is the only form the text has. |
| Types.MatchUserHost | dotlink/types.py:15-24 | `USER_HOST_REGEX.match`, with its alternatives tried in the regex engine's order. The user runs to the first `@`, and the match falls back to no user when the rest fails. The host runs to the first `:`, and the path is the rest less a final newline. |
| Types.Target.Remote | dotlink/types.py:66-68 | A target is remote exactly when it has a host. |
| Types.Target.Address | dotlink/types.py:70-72 | `user@host` when the user is non-empty; otherwise the host, or the empty text. |
| Types.Target.ToString | dotlink/types.py:74-81 | `user@host:path` or `host:path` when the host is non-empty, with an empty user treated as absent; otherwise the path alone. |
| Types.Target.Parse | dotlink/types.py:84-92 | The regex's groups as path, host and user, or the whole text as a local path. |
| Types.ParseRemoteIff | dotlink/types.py:66-68 | A parsed target is remote exactly when its text is in the `[user@]host:path` grammar. |
| Types.ParseLocal | dotlink/types.py:84-92 | A text with no `:` parses as a local target whose path is the whole text, with no host or user. |
| Types.ToStringRemote | dotlink/types.py:74-79 | A target with a host renders as `user@host:path` when it has a user, else `host:path`. |
| Types.ParseRemoteParts | dotlink/types.py:84-90 | `host:path` and `user@host:path` parse into exactly those parts; the path may be empty. |
| Types.ParseToString | dotlink/types.py:74-92 | Parsing the rendering gives the target back under these conditions. A local target has no user and no `:` in its path. A remote target has a non-empty host with no `:` or `@`, and a path with no newline. A user, when present, is non-empty and has no `@`. Without a user, the path has no `@`. |
| Types.UserGroupTakesPathAt | dotlink/types.py:18 | An `@` in the path of a user-less target is read back as the user separator, so that target does not round-trip. |
| Types.RenderNewline | dotlink/types.py:20-21 | The form with a final newline is the plain form followed by `\n`. |
| Types.ToStringParse | dotlink/types.py:74-92 | Rendering a parsed text gives the text back, less a final newline that `$` let through. |
| Types.RemoteAddress | dotlink/types.py:70-72 | A parsed remote target's descriptor is its address, `:` and its path. |
| Types.LocalAddress | dotlink/types.py:70-72 | A target with neither host nor user has the empty address. |
| Types.RemoveTabNewlines | dotlink/types.py:53 | The text `urlparse` works on holds no tab, carriage return or newline. |
| Types.ShapeIsUrl | dotlink/types.py:53-54 | A text of the form `scheme://netloc…` has that scheme end and a non-empty network location. |
| Types.UrlIsShape | dotlink/types.py:53-54 | A text with a scheme and a non-empty network location has that form. |
| Types.Source.Parse | dotlink/types.py:51-57 | A URL source when `urlparse` finds both a scheme and a network location, otherwise a path source. |
| Types.SourceParseIff | dotlink/types.py:51-57 | `Source.parse` sets exactly one of `path` and `url`, to the whole text; it is `url` exactly when the cleaned text has a scheme and a network location. |
| Types.SanitizePrintable | dotlink/types.py:53 | Cleaning a text without control characters or spaces leaves it unchanged. |
| Types.RemovePrintable | dotlink/types.py:53 | Dropping tabs and newlines from such a text leaves it unchanged. |
| Types.PrintableUrl | dotlink/types.py:51-55 | A printable `scheme://netloc…` text parses as a URL source. |
| Types.SourceExampleEmpty | dotlink/types.py:56-57 | The empty text is a path source. |
| Types.SourceExampleAbsolute | dotlink/types.py:56-57 | `/foo/bar` is a path source. |
| Types.SourceExampleGit | dotlink/types.py:54-55 | `git://github.com/a/b` is a URL source. |
| Types.SourceExampleHttps | dotlink/types.py:54-55 | `https://github.com/a/b.git` is a URL source. |
| Core.FirstFile | dotlink/core.py:24-27 | A file found is a regular file named by one of the candidates; nothing is found exactly when no candidate is a regular file. |
| Core.DiscoverMapping | dotlink/core.py:17 | `.dotlink` is chosen whenever it is a file, `dotlink` only when `.dotlink` is not, and "no dotlink mapping found" exactly when neither is. |
| Core.LStripAt | dotlink/core.py:40 | `lstrip` starts the text at its first non-blank character. |
| Core.Classify | dotlink/core.py:39-57 | The kind of one mapping line, tested in the source's order: a comment after leading blanks, an `@` include, a `dest = src` pair split at the first `=`, a non-blank name, or blank. |
| Core.ClassifyComment | dotlink/core.py:40-41 | A line is a comment exactly when its first non-blank character is `#`, whatever else it holds. |
| Core.ClassifyInclude | dotlink/core.py:43-44 | A line is an include exactly when its first character is `@`, and the sub-path is the rest of the line untrimmed. |
| Core.ClassifyBlank | dotlink/core.py:56 | A line adds nothing exactly when it is blank or whitespace only. |
| Core.ClassifyAssignment | dotlink/core.py:52-54 | Any other line with `=` is the pair of its stripped text before and after the first `=`. |
| Core.ClassifySplitAt | dotlink/core.py:52-54 | The same, with the first `=` located by `find`. |
| Core.ClassifyShorthand | dotlink/core.py:56-57 | Any other non-blank line without `=` maps its stripped text, which is non-empty, to itself. |
| Core.Generate | dotlink/core.py:31-34 | A tree that comes out has the resolved root as its root. |
| Core.IncludeOne | dotlink/core.py:44-50 | An include that succeeds is rooted at a directory. |
| Core.GenerateLines | dotlink/core.py:39-63 | The loop keeps the root, only adds keys and appends includes, and every tree it appends is rooted at a directory. |
| Core.GenerateLinesAt | dotlink/core.py:39-57 | At line `i`, an error in that line's step is the loop's error; otherwise the loop goes on from line `i + 1` with the updated dictionary and list. |
| Core.GeneratePlan | dotlink/core.py:31-63 | The imperative `generate_plan` gives exactly `Generate`. |
| Core.PlanLines | dotlink/core.py:36-63 | The imperative line loop, started from an empty dictionary and list, gives exactly `GenerateLines`. |
| Core.PlanLine | dotlink/core.py:40-57 | One pass of the loop body does exactly what `Step` says. |
| Core.IncludeLines | dotlink/core.py:43 | Every include line gathered starts with `@`. |
| Core.Outcomes | dotlink/core.py:44-50 | There is one include outcome per include line. |
| Core.OutcomesAt | dotlink/core.py:44-50 | The `k`-th outcome is that of the `k`-th include line. |
| Core.GenerateLinesSplit | dotlink/core.py:39-63 | The loop succeeds exactly when every include does. Its dictionary then stores every pair in line order, so later keys overwrite earlier ones. Its includes are the included trees in line order, however pairs and includes interleave. |
| Core.OutcomesFirst | dotlink/core.py:43-46 | An include first line contributes its outcome first. |
| Core.AssignLast | dotlink/core.py:54 | The last pair for a key decides its value. |
| Core.AssignUntouched | dotlink/core.py:54 | A key no pair mentions keeps its presence and value. |
| Core.AssignKeys | dotlink/core.py:54 | The keys are the previous keys plus the destinations of the pairs. |
| Core.IncludeAllOk | dotlink/core.py:45-50 | Gathering includes succeeds exactly when every include succeeds. |
| Core.IncludeAllPrefix | dotlink/core.py:46 | The trees gathered so far stay first, followed by one tree per include. |
| Core.IncludeAllAt | dotlink/core.py:46 | The tree of the `k`-th include sits `k` places after those gathered before. |
| Core.IncludeFails | dotlink/core.py:47-50 | An include that is a file, is missing or fails makes the whole mapping fail. |
| Core.NeutralLine | dotlink/core.py:40-41 | Dropping a comment or blank line from a mapping file changes nothing. |
| Core.NeutralParts | dotlink/core.py:40-41 | A comment or blank line contributes no pair and no include. |
| Core.GenerateFound | dotlink/core.py:31-39 | With a mapping file present, `generate_plan` is its loop over that file's lines from the resolved root. |
| Core.SelfLineFails | dotlink/core.py:44-46 | The line `@` or `@.` fails when its own directory's resolution fails. |
| Core.SelfIncludeFails | dotlink/core.py:43-46 | A mapping file containing the line `@` or `@.` fails at every depth bound: self-inclusion never yields a tree. |
| Core.IncludeLinesOf | dotlink/core.py:43 | An `@` line has a place among the include lines. |
| Actions.PlanTextEmpty | dotlink/actions.py:24-26 | An empty plan renders as `Plan:`. |
| Actions.PlanTextAppend | dotlink/actions.py:24-26 | Adding an action appends `"\n  "` and that action's string. |
| Actions.Action.Print | dotlink/actions.py:45-46 | `print()`: the base action's arguments, or `src -> dest` for copies and links, or `src -> target` for deployments. |
| Actions.Action.ToString | dotlink/actions.py:42-43 | `str(action)`: the class name, `: `, and the printed arguments. |
| Actions.PlanText | dotlink/actions.py:24-26 | `str(plan)`: `Plan:` and each action's text, joined by a newline and two spaces. |
| Actions.MadeDirsFrom | dotlink/actions.py:73 | `mkdir(parents=True, exist_ok=True)` only adds directories, all of them ancestors of the path. On success every ancestor from the given depth on is a directory; otherwise the error names the path. |
| Actions.MadeDirsStep | dotlink/actions.py:73 | Making directories from depth `k` makes that level and then goes on from `k + 1`. |
| Actions.MadeDirsSucceeds | dotlink/actions.py:73 | When nothing on the way is a file or a link, making the directories succeeds. |
| Actions.MadeDirsBlocked | dotlink/actions.py:73 | A failure is caused by an ancestor that exists and is no directory. |
| Actions.Unlinked | dotlink/actions.py:78 | `unlink(missing_ok=True)` succeeds exactly when the path is no directory, then removes only that path; on failure nothing changes. |
| Actions.FileCopied | dotlink/actions.py:82 | `copyfile` writes the source's text at the destination, following a link there, or fails and changes nothing. |
| Actions.Linked | dotlink/actions.py:93 | `symlink_to` succeeds exactly when the destination is free and its parent is a directory, and then adds only that link. |
| Actions.CopyPrepared | dotlink/actions.py:63-73 | `Copy.prepare`: a missing source, then a non-link destination of the other kind, raise. Otherwise the parent directories are made. |
| Actions.Prepared | dotlink/actions.py:48-111 | `prepare()` of each action class: nothing for the base and `Deploy`, the `Copy` checks, the `Symlink` directory check before them, and the `SSHTarball` directory and remote checks. |
| Actions.Executed | dotlink/actions.py:51-132 | `execute()` of each action class. The base and `Deploy` raise. `Copy` copies a tree, after unlinking a link destination, or unlinks and copies a file. `Symlink` unlinks and links. `SSHTarball` fails for a missing source or a non-zero remote status. |
| Actions.EntriesIn | dotlink/actions.py:79 | Every entry of a tree is a non-empty relative path naming an existing entry. |
| Actions.TreeCopied | dotlink/actions.py:79 | `shutil.copytree(src, dest, dirs_exist_ok=True)`: the destination directory is made, every entry not below a conflict is merged, and one error is reported when any entry conflicts. |
| Actions.LandedFromAt | dotlink/actions.py:79 | Each place below the destination receives at most one copied entry, so the merge is well defined whatever order `copytree` visits entries in. |
| Actions.Archive | dotlink/actions.py:114-116 | The archive holds the source at `.` and every entry below it with its content, and nothing else. |
| Actions.ExecutedAt | dotlink/actions.py:32-34 | At action `j`, the action is yielded and executed; an error stops there; otherwise the loop goes on from `j + 1`. |
| Actions.CopyPrepare | dotlink/actions.py:63-73 | `Copy.prepare` raises "does not exist" exactly for a missing source. It raises "file/dir type mismatch" exactly when the destination is no link and its kind is the opposite of the source's. It only adds directories and leaves the destination as it was. On success every ancestor of the destination is a directory. |
| Actions.SymlinkPrepare | dotlink/actions.py:86-89 | `Symlink.prepare` raises first, and exactly, for a destination that is a real directory; otherwise it is `Copy.prepare`. |
| Actions.SSHTarballPrepare | dotlink/actions.py:106-111 | `SSHTarball.prepare` changes nothing. It raises "is not a directory" exactly for a source that is no directory, then "is not remote" exactly for a local target. It succeeds exactly for a directory source and a remote target. |
| Actions.PrepareAddsDirs | dotlink/actions.py:48-49 | Preparing any action only ever adds directories. |
| Actions.PrepareAllAddsDirs | dotlink/actions.py:29-30 | Preparing a whole plan only ever adds directories. |
| Actions.NotImplementedActions | dotlink/actions.py:48-52 | A base action prepares as a no-op and executes as `NotImplementedError`, running no command. |
| Actions.CopyFileExecute | dotlink/actions.py:80-82 | `Copy.execute` of a file makes the destination, whatever it was, a regular file with the source's text, and changes nothing else. |
| Actions.SymlinkExecute | dotlink/actions.py:91-93 | `Symlink.execute` makes the destination, whatever it was, a link to the source, and changes nothing else. |
| Actions.ExecuteOverDir | dotlink/actions.py:80-93 | Over a real directory, `Symlink.execute` and `Copy.execute` of a file fail and change nothing. |
| Actions.SSHTarballExecute | dotlink/actions.py:113-132 | `SSHTarball.execute` runs exactly `ssh <address> tar -xz -f- -C <path>` once, with the source tree on its input. The filesystem is unchanged, and a non-zero exit status is an error. |
| Actions.MergeKeeps | dotlink/actions.py:79 | The merge keeps every entry that no copied entry lands on, in particular everything outside the destination tree. |
| Actions.MergeCopiesFile | dotlink/actions.py:79 | A copied file lands with the source's text at its counterpart below the destination; when that counterpart is a directory, `copy2` puts it inside under the file's own name. |
| Actions.MergeCopiesDir | dotlink/actions.py:79 | Every directory copied exists at its counterpart below the destination, and an existing directory there survives. |
| Actions.MergeOnlyBelow | dotlink/actions.py:79 | Anything new lies strictly below the destination. |
| Actions.LinkBackConflicts | dotlink/actions.py:79 | A source file that the destination already links back to, as an earlier `Symlink` deployment leaves it, is the same file: `copy2` raises `SameFileError` and the entry conflicts. |
| Actions.TreeCopiedClean | dotlink/actions.py:76-79 | `copytree(dirs_exist_ok=True)` succeeds and copies every entry of the source when none conflicts. The conflicts are a dangling link, a directory over a non-directory, and a file whose copy would land on a directory or on itself. A file over a directory is no conflict. |
| Actions.TreeCopiedConflict | dotlink/actions.py:76-79 | One conflicting entry makes `copytree` report its collected error at the end, after merging every entry that no conflict lies above. |
| Actions.PlanPrepareFails | dotlink/actions.py:28-34 | A failing `prepare` means no action is yielded or executed, no command runs, and only directories were added. |
| Actions.ExecutedYields | dotlink/actions.py:32-34 | The actions yielded are a prefix of the plan, all of it without an error; an error comes after its action was yielded; commands are only appended, at most one per action yielded. |
| Actions.PlanRun | dotlink/actions.py:28-34 | `Plan.execute()` run to the end: the first loop prepares every action, and an error there yields nothing. Otherwise the second loop yields and executes each action until one fails. |
| Actions.PlanYields | dotlink/actions.py:28-34 | `Plan.execute` yields a prefix of the plan, all of it when no error is raised, and only appends commands. |
| Actions.World.constructor | dotlink/actions.py:20-22 | A world starts with the given filesystem and no remote commands run. |
| Actions.World.MakeDirs | dotlink/actions.py:73 | The in-place `mkdir` loop leaves exactly the filesystem and error of `MadeDirs`. |
| Actions.World.PrepareCopy | dotlink/actions.py:63-73 | The in-place `Copy.prepare` does exactly what `CopyPrepared` says. |
| Actions.World.Prepare | dotlink/actions.py:48-111 | `prepare()` of any action, in place, does exactly what `Prepared` says. |
| Actions.World.Execute | dotlink/actions.py:51-132 | `execute()` of any action, in place, does exactly what `Executed` says and appends its remote commands. |
| Actions.World.PrepareAll | dotlink/actions.py:29-30 | The first loop of `Plan.execute` does exactly what `PreparedAll` says. |
| Actions.World.ExecuteAll | dotlink/actions.py:32-34 | The second loop yields and executes exactly as `ExecutedAll` says. |
| Actions.World.ExecutePlan | dotlink/actions.py:28-34 | `Plan.execute` in place does exactly what `PlanRun` says: every prepare, then each yield and execute. |
| LegacyPatterns.IncludeMatch | dotlink/dotlink.py:28-29 | A captured include group is a quote, at least one character and the same quote, within one line. |
| LegacyPatterns.IncludeAfterWord | dotlink/dotlink.py:28 | After `#include`, the group is quoted the same way, within one line. |
| LegacyPatterns.QuotedGroup | dotlink/dotlink.py:28 | The greedy `".+"` group runs from the opening quote to its last repeat on the line. |
| LegacyPatterns.QuotedGroupIs | dotlink/dotlink.py:28 | The group ends at the last quote of the line. |
| LegacyPatterns.QuotedGroupSome | dotlink/dotlink.py:28 | A matched group ends at that last quote. |
| LegacyPatterns.QuotedLine | dotlink/dotlink.py:28 | The line part of a quoted include is its quote, name, quote and the rest up to a newline. |
| LegacyPatterns.QuotedGroupOf | dotlink/dotlink.py:28 | Every well-formed include matches, and a closed one with exactly its quoted name. |
| LegacyPatterns.QuotedGroupClosed | dotlink/dotlink.py:28 | With no quote after the name's closing one, that quote is the last. |
| LegacyPatterns.IncludeMatchWord | dotlink/dotlink.py:28-29 | Leading blanks and `#include` in any case lead straight to the rest of the pattern. |
| LegacyPatterns.IncludeAfterGap | dotlink/dotlink.py:28 | Blanks followed by a quote lead to the quoted group. |
| LegacyPatterns.IncludeMatchQuoted | dotlink/dotlink.py:28-29 | A well-formed include line matches as its quoted part does. |
| LegacyPatterns.IncludeMatchText | dotlink/dotlink.py:28-29 | Every well-formed include line matches, and a closed one captures exactly its quoted name. |
| LegacyPatterns.QuotedGroupParts | dotlink/dotlink.py:28 | A matched group is quote, non-empty name without newline, quote, with no repeat of the quote later on the line. |
| LegacyPatterns.IncludeMatchHead | dotlink/dotlink.py:28-29 | A match starts, after blanks, with `#include` in some case. |
| LegacyPatterns.IncludeMatchSome | dotlink/dotlink.py:28-29 | A matched line is blanks, `#`, the word and the rest the pattern reads. |
| LegacyPatterns.IncludeAfterWordSome | dotlink/dotlink.py:28 | After the word come at least one blank and a quoted group. |
| LegacyPatterns.IncludeLineFrom | dotlink/dotlink.py:28-29 | Every matched line is a closed well-formed include line whose quoted name is the group. |
| LegacyPatterns.IncludeMatchParts | dotlink/dotlink.py:28-29 | The include pattern accepts exactly the well-formed include lines; with `IncludeMatchText` this is both directions. |
| LegacyPatterns.MappingHead | dotlink/dotlink.py:30 | The source group, when there is one, is a non-empty prefix of the line. |
| LegacyPatterns.TargetOfBlank | dotlink/dotlink.py:30 | A target of only blanks is captured as empty. |
| LegacyPatterns.TargetOfText | dotlink/dotlink.py:30 | The target's leading blanks are skipped, and the greedy group runs to the newline with its trailing blanks kept. |
| LegacyPatterns.TargetTrailingBlanks | dotlink/dotlink.py:30 | The line `a: b  ` maps `a` to the target `b  `, trailing blanks kept. |
| LegacyPatterns.ColonTail | dotlink/dotlink.py:30 | After `:` the target group is what the target pattern captures. |
| LegacyPatterns.TargetTail | dotlink/dotlink.py:30 | `:` and a target between blanks captures that target. |
| LegacyPatterns.MappingTailText | dotlink/dotlink.py:30 | A tail built from its parts is read back as them. |
| LegacyPatterns.TailAfterGap | dotlink/dotlink.py:30 | Blanks before the tail do not change it. |
| LegacyPatterns.QuotedHead | dotlink/dotlink.py:30 | A quoted source name is taken as the source group. |
| LegacyPatterns.BareHead | dotlink/dotlink.py:30 | A bare source name up to a stop character is taken as the source group. |
| LegacyPatterns.MappingMatchText | dotlink/dotlink.py:30-31 | Every well-formed mapping line matches with exactly its source and target groups. |
| LegacyPatterns.MappingHeadSome | dotlink/dotlink.py:30 | A source group found is a quoted name or a bare name ending at a stop character. |
| LegacyPatterns.TargetParts | dotlink/dotlink.py:30 | A captured target is blanks, the target, blanks. |
| LegacyPatterns.MappingTailSome | dotlink/dotlink.py:30 | A tail read is blanks followed by a tail built from parts. |
| LegacyPatterns.MappingLineFrom | dotlink/dotlink.py:30-31 | Every matched line is a well-formed mapping line with those groups. |
| LegacyPatterns.MappingMatchParts | dotlink/dotlink.py:30-31 | The mapping pattern accepts exactly the well-formed mapping lines; with `MappingMatchText` this is both directions. |
| LegacyPatterns.MappingTail | dotlink/dotlink.py:30 | What may follow the source name: blanks alone give no target group; blanks, `:` and a target give that target; anything else is no match. |
| LegacyPatterns.TargetOf | dotlink/dotlink.py:30 | The target group after `:`. Its leading blanks are skipped, it runs to the first newline, and only blanks may follow; otherwise no match. |
| LegacyPatterns.MappingMatch | dotlink/dotlink.py:30-31 | `mapping_re.match`: a quoted or bare source name, then the optional target group, up to the end of the line. |
| Legacy.ExpandHome | dotlink/dotlink.py:34 | `~/rest` expands to `rest` below the home directory. |
| Legacy.JoinPath | dotlink/dotlink.py:92 | `os.path.join` keeps an absolute second part. Otherwise it puts the parts together unchanged when the first part is empty or ends with `/`, and with one `/` between them otherwise. |
| Legacy.MappingFile | dotlink/dotlink.py:36-48 | A file argument is used as it is. In a directory, `.dotfiles` is used before `dotfiles`. Otherwise there is no mapping. |
| Legacy.IncludeTarget | dotlink/dotlink.py:66-67 | An include starting with `/` or `~` is expanded and resolved on its own. |
| Legacy.PathTextEnd | dotlink/dotlink.py:69 | A directory below the root prints without a trailing `/`. |
| Legacy.IncludeRelative | dotlink/dotlink.py:68-69 | Any other include names a path relative to the directory of the mapping file that holds it. |
| Legacy.IncludeOf | dotlink/dotlink.py:63-71 | The include of one stripped line, when the include pattern matches: its target with quotes removed and resolved, and whether that path exists. |
| Legacy.BodyOf | dotlink/dotlink.py:85-103 | What a stripped line adds: nothing for a blank or `#` line, otherwise the mapping pattern's source and target, or unmatched. |
| Legacy.Dict.Put | dotlink/dotlink.py:103 | Storing a key sets its value; a new key goes last in order, while an existing key keeps its place. |
| Legacy.OrderedDict.constructor | dotlink/dotlink.py:53-54 | A new dictionary is empty. |
| Legacy.OrderedDict.Contains | dotlink/dotlink.py:94 | Membership is exactly presence of the key. |
| Legacy.OrderedDict.Insert | dotlink/dotlink.py:103 | Inserting in place does what `Put` says. |
| Legacy.Lines | dotlink/dotlink.py:58-61 | One read line per line of the file. |
| Legacy.ParseMapping | dotlink/dotlink.py:24-110 | `parse_mapping`, mutating the shared dictionary, ends with exactly the dictionary, warnings and error of `Parse`. |
| Legacy.ParseLinesInPlace | dotlink/dotlink.py:56-108 | The imperative line loop, numbering lines from 1, does exactly what `ParseLines` says. |
| Legacy.ParseLineInPlace | dotlink/dotlink.py:60-108 | One pass of the loop body does exactly what `ParseLine` says. |
| Legacy.LinesStep | dotlink/dotlink.py:59-60 | Line `i` is handled, numbered `i + 1`, and the loop goes on from the next line unless it failed. |
| Legacy.ParseMappingNew | dotlink/dotlink.py:53-54 | Without a dictionary a new one is made and filled as `Parse` says, and it stays well formed. |
| Legacy.Parse | dotlink/dotlink.py:25-110 | `parse_mapping`: find the mapping file or fail, default the source directory to the mapping path's parent, then parse the file's lines from line 1 into the shared dictionary. |
| Legacy.ParseLine | dotlink/dotlink.py:60-108 | One line: first its include, whose error stops the parse, then its entry or warning. |
| Legacy.IncludeStep | dotlink/dotlink.py:63-83 | An include of an existing path parses it into the same dictionary. A missing one logs a warning. |
| Legacy.MapLine | dotlink/dotlink.py:85-108 | An entry is stored only if its source is new, and a repeated source logs a warning. An unmatched line logs a warning. |
| Legacy.NoMappingFails | dotlink/dotlink.py:47-48 | Without a mapping file the parse fails with "No dotfile mapping found" and leaves the dictionary alone. |
| Legacy.ParseExtends | dotlink/dotlink.py:75 | Parsing only adds entries after those present, keeps their values, and keeps the dictionary well formed. |
| Legacy.ParseLinesExtends | dotlink/dotlink.py:59-108 | The same for the lines of one file. |
| Legacy.ParseLineExtends | dotlink/dotlink.py:60-108 | The same for one line. |
| Legacy.IncludeStepExtends | dotlink/dotlink.py:71-83 | The same for an include. |
| Legacy.MapLineExtends | dotlink/dotlink.py:89-108 | An entry adds at most its own key, at the end. |
| Legacy.PutExtends | dotlink/dotlink.py:103 | A new key goes after the others, which keep their values. |
| Legacy.ParseLinesAppend | dotlink/dotlink.py:59-60 | Parsing two runs of lines is parsing the first and then the second from where it left off, numbered after it. |
| Legacy.IncludeInPlace | dotlink/dotlink.py:75 | The entries of an include land where the include line stands: after those above it, before those below it, with its warnings between theirs. |
| Legacy.BlankLine | dotlink/dotlink.py:85-87 | An empty line adds nothing and logs nothing. |
| Legacy.CommentLine | dotlink/dotlink.py:85-87 | A `#` line that is no include adds nothing and logs nothing. |
| Legacy.IncludeStartsWithHash | dotlink/dotlink.py:63-85 | A stripped include line starts with `#`. |
| Legacy.IncludeLineNoEntry | dotlink/dotlink.py:85-87 | An include line adds no entry of its own. |
| Legacy.MissingIncludeWarns | dotlink/dotlink.py:71-83 | An include of a missing path logs a warning with the path and line number and adds nothing; parsing goes on. |
| Legacy.NoHashNoInclude | dotlink/dotlink.py:28 | A text not starting with `#` after its blanks is no include. |
| Legacy.NoMatchWarns | dotlink/dotlink.py:105-108 | A line the mapping pattern rejects logs a warning with its line number and adds nothing; parsing goes on. |
| Legacy.UnmatchedLine | dotlink/dotlink.py:89-108 | Such a line reads as unmatched and without an include. |
| Legacy.MappingEntry | dotlink/dotlink.py:89-103 | A mapping line's entry is its source name, unquoted and joined to the source directory, with its target, or itself when it has none. |
| Legacy.FirstWins | dotlink/dotlink.py:94-103 | A source already present changes nothing and logs a duplicate warning; a new one goes in with its target. |
| Legacy.UnquotedName | dotlink/dotlink.py:92 | Quotes around a name are dropped. |
| Legacy.QuotedSourceOnly | dotlink/dotlink.py:91-103 | A quoted name alone on a line maps the joined source path to itself. |

## Left out

- `prepare_source` (`git clone` into a temporary directory), `cli.py`,
  `util.py` and logging output: these are process, network and console I/O.
  Warnings are kept as values (`Legacy.Warning`), but not their text.
- The duplicate-source warning of the legacy parser passes one argument to
  a format with two placeholders, so Python's logging reports a formatting
  error. The model records the warning with its line number only.
- `SSHTarball.execute`: the gzip'd tar bytes and the ssh transport. The
  archive is the map of the source tree, and the remote side is an exit
  status given as a parameter. `self.data` is not kept.
- The rest of `dotlink.py` (`sh`, `ssh`, `scp`, `run`, `clone_repo`,
  `cleanup_repo`, the `deploy_*` methods): these are subprocess plumbing.
- Operating-system path semantics:
  - A link is followed one hop, and only when it is the last component of a path.
  - `..` is collapsed lexically.
  - Permissions, `Path("")` versus `Path(".")`, and encodings are not modelled.
  - `~user` is kept as a literal name rather than looked up.
- `urlparse`: only the question "does the text have a scheme and a network
  location" is modelled (`Types.HasSchemeAndNetloc`), not its other fields.
  `urlparse` raises `ValueError` for a network location with an unbalanced
  `[` or `]`, so `Source.parse("http://[::1")` raises in Python, while the
  model returns a URL source.
- The legacy include pattern's `re.I` is modelled for ASCII letters only.
- Reading a file that is not valid UTF-8, or that cannot be read, raises an
  error that the model does not have. A mapping file is read as its text.
- Core.Generate: the depth bound replaces Python's `RecursionError`, so
  a deeply nested but finite include tree that Python accepts may exceed a
  small bound.
- Legacy.Parse: the same depth bound (`fuel`) stands for Python's recursion limit.
- Actions.TreeCopied: `copytree` is modelled as a merge of the whole
  source tree, and it reports one error at the end when any entry
  conflicts. Links inside the source are followed one hop. A link to a
  file is copied as that file's text, and a dangling link is a conflict.
  A link to a directory is copied as an empty directory, while `copytree`
  recurses into its target. The order in which `shutil` visits entries
  matters only in a map that holds entries below a file, which the model
  treats as a conflict. A source and destination that overlap are not
  modelled.
- Actions.MergeKeeps: `copy2` writes through a link that already sits where
  a file lands, so the link's target changes, possibly outside the
  destination tree. The model instead replaces the link with the file. The
  one exception is a link back to the source file itself: that is the
  same file, and the model treats it as a conflict.
- Actions.MergeCopiesFile: the same write-through is not modelled. A file
  that lands on a link is stored at the link's own place, not at its target.
- Actions.MergeOnlyBelow: a file that lands on a dangling link creates the
  link's target in Python, possibly outside the destination tree. In the
  model the file replaces the link below the destination. Likewise, a
  directory of the destination that is a link to a directory is merged
  into at its own place, not at its target.
- Actions.FileCopied: `copyfile` writes through a link at the destination
  one hop only; `Copy.execute` has removed such a link before, so this only
  matters for a link in a parent directory, which is not modelled.
- The worked example of the test suite (an outer and an inner mapping
  file) is not restated as a concrete lemma. `Core.GenerateLinesSplit`
  states the shape of every result.
- Types.ToStringParse: paths are kept as the raw text of the line.
  `pathlib` normalises them: `a/` is `a`, and `a//b` is `a/b`. So
  `str(Target.parse("h:a/"))` is `h:a` in Python, while the model gives
  back `h:a/`.
- Core.GenerateLinesSplit: for the same reason, the lines `a/ = x` and
  `a = y` write one key in Python and two keys in the model.
- Actions.Action.Print: paths are absolute in the model (sequences of names
  below the root), so the printed form of a plan built from relative
  paths, such as `Copy: a -> b`, is not expressed.
- The process exit status and the command-line flow that drives a plan
  are not modelled.
