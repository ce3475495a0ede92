# Squads todo workflow, modelled in Dafny

This project models three helper scripts that manage a todo workflow kept as markdown
files under `squads/` and recorded in git:

- **create** (`hacks/squads/todo.py`): writes `squads/todo/<marker><name>.md` from a fixed
  four-section template unless that name is taken, then stages the file and commits it;
- **complete** (`hacks/squads/done.py`): creates `squads/todo/done/`, finds the one todo
  file directly in `squads/todo/` whose name contains the argument, moves it into `done/`
  under the same name, then stages the old and the new path and commits;
- **init** (`hacks/squads_init.py`): creates `squads/`, `squads/todo/`,
  `squads/todo/backlogs/` and `squads/todo/done/`, touches `squads/next.md`, and
  overwrites `squads/endgame.md` with three onboarding questions.

The file system is an in-memory table (`FileSystem.Tree`, a map from a path to a file
with its text or to a directory; the project root is the empty path) with the invariant
that every entry lies inside an existing directory. Git is a log of requests
(`Git.Request`): nothing is run, and the outcome of a request the script branches on is
an input. The mutable state is the class `Table.FileTable` (the table plus the request
log). Each call of the scripts that changes the table or asks git for something
(`mkdir`, `touch`, `write_text`, `shutil.move`, `git_add`, `git_commit`), and the
`exists` test, is one of its methods; the directory listing and its name filter
(`iterdir`, `is_file`, `startswith`, `endswith`) are the pure function `Done.Candidates`
of the table. Each
script is a method on that table (`Todo.Create`, `Done.Complete`, `Init.Initialize`)
that follows the script line by line and is proved equal to a pure function of the
starting table (`Todo.Creation`, `Done.Completion`, `Init.Scaffolded`). The properties
are lemmas about those functions.

**The two markers differ.** The create script puts the two characters U+0E22 U+0E07
(`ยง`) in front of a todo's name, while the complete script filters on the single
character U+00A7 (`§`). Both are kept exactly as written (`Todo.Marker`, `Done.Marker`).
The specification functions take the marker as a parameter. The create-then-complete
round trip (`Workflow.CreateThenComplete`) is proved for any one marker that both
scripts share. With the shipped pair of markers, `Workflow.ShippedCreateThenCompleteFindsNothing`
shows that completing a freshly created todo by its name finds no match, provided no
todo already in the open directory has a file name containing that name (such a todo
would be matched instead).

Modules, one per file: `Strings` (string tests), `FileSystem` (the table and the effect
of each call on it), `Git`, `Scripts` (outcomes and exit status), `Table` (the mutable
table), `Todo`, `Done`, `Init`, `Workflow` (the two todo scripts together).

## Model

| member | source | states |
|---|---|---|
| Strings.StartsWith | hacks/squads/done.py:23 | `str.startswith`: true exactly when the prefix is no longer than the string and agrees with it character by character |
| Strings.EndsWith | hacks/squads/done.py:23 | `str.endswith`: true exactly when the suffix is no longer than the string and agrees with its last characters one by one |
| Strings.Contains | hacks/squads/done.py:24 | Python's `arg in name`: an empty argument is contained in every name, and a contained argument is never longer than the name |
| Strings.ContainsMeansOccurs | hacks/squads/done.py:24 | the scanning test holds exactly when the argument occurs at some offset of the name (both directions) |
| FileSystem.AfterMkDir | hacks/squads/done.py:19 | `mkdir(exist_ok=True)`: afterwards the path is a directory, only that key may be added, every existing entry is unchanged, and the tree stays well formed |
| FileSystem.AfterTouch | hacks/squads_init.py:11 | `touch`: an existing entry keeps its content, a missing one becomes an empty file, nothing else changes |
| FileSystem.AfterWrite | hacks/squads/todo.py:34 | `write_text`: the file holds exactly the text, every other entry is unchanged |
| FileSystem.AfterMove | hacks/squads/done.py:43 | `shutil.move`: the source key is gone, the destination holds the source's content, every other entry is unchanged, the tree stays well formed |
| Git.AddAndCommit | hacks/squads/git_utils.py:79-81 | the add is always requested first, and the commit is requested exactly when the add succeeded |
| Scripts.ExitCode | hacks/squads/done.py:27-53 | the exit status is 0 exactly for a created or moved todo and 1 for every error |
| Table.FileTable.Exists | hacks/squads/todo.py:19 | true exactly when the path is in the table, as a file or a directory |
| Table.FileTable.MkDir | hacks/squads/done.py:19 | the table becomes `AfterMkDir` of the old table; the log is untouched |
| Table.FileTable.Touch | hacks/squads_init.py:11 | the table becomes `AfterTouch` of the old table |
| Table.FileTable.WriteText | hacks/squads/todo.py:34 | the table becomes `AfterWrite` of the old table |
| Table.FileTable.Move | hacks/squads/done.py:43 | the table becomes `AfterMove` of the old table |
| Table.FileTable.RequestAdd | hacks/squads/done.py:48 | one `add` request is appended to the log |
| Table.FileTable.RequestCommit | hacks/squads/done.py:50 | one `commit` request is appended to the log |
| Table.FileTable.AddAndCommit | hacks/squads/git_utils.py:68-81 | the log gains exactly the requests `Git.AddAndCommit` lists |
| Done.IsTodoFileName | hacks/squads/done.py:23 | the name filter of the listing: starts with the marker and ends with `.md` |
| Done.ShippedTodoFileName | hacks/squads/done.py:23 | with the shipped `§` marker, a name passes the filter exactly when it is the marker, a stem and `.md`, the marker and the extension never overlapping |
| Done.Candidates | hacks/squads/done.py:23 | a name is a candidate exactly when it is a regular file directly in the open directory, starts with the marker and ends with `.md` |
| Done.Matches | hacks/squads/done.py:24 | the matches are candidates, and an empty argument matches every candidate |
| Done.MatchedIffOccurs | hacks/squads/done.py:24 | a candidate is matched exactly when the argument occurs in its whole file name, marker and extension included |
| Done.Select | hacks/squads/done.py:27-39 | no match, exactly one match (and which), or several (carrying all of them) |
| Done.MkDirKeepsCandidates | hacks/squads/done.py:19-23 | creating the done directory before the listing adds or removes no candidate |
| Done.OnlyDirectEntriesAreCandidates | hacks/squads/done.py:23 | adding or removing an entry anywhere but directly in the open directory, e.g. in `backlogs/` or `done/`, leaves the candidates unchanged |
| Done.DirectEntryCandidates | hacks/squads/done.py:23 | writing an entry directly into the open directory makes its name a candidate exactly when it is a regular file with a todo file name |
| Done.LookupNothing | hacks/squads/done.py:27-29 | with no match the lookup ends in `NoMatch`, with no change and no git request |
| Done.LookupSeveral | hacks/squads/done.py:32-36 | with several matches the lookup reports all of them, with no change and no git request |
| Done.LookupUnique | hacks/squads/done.py:39-53 | with one match the file is moved and add(old), add(new), commit("squads::done " + argument) are requested in that order, or, if the move fails, nothing changes and nothing is requested |
| Done.Lookup | hacks/squads/done.py:23-53 | the lines after the `mkdir`: the lookup, and for a unique match the move and git requests, keep the table well formed |
| Done.Completion | hacks/squads/done.py:7-53 | one run of the script keeps the table well formed |
| Done.NoArgumentIsUsageError | hacks/squads/done.py:7-10 | without an argument, on every well-formed tree (with or without `squads/todo`): usage error, table unchanged, no git request |
| Done.CompletionOutcome | hacks/squads/done.py:7-53 | each outcome in both directions, decided by the matches among the candidates of the starting table; an ambiguous outcome lists exactly the matches |
| Done.FailedCompletionChangesNothing | hacks/squads/done.py:19-36 | a run that moves nothing makes no git request, keeps every existing entry, and adds at most the done directory |
| Done.UniqueMatchIsMoved | hacks/squads/done.py:39-50 | a unique match leaves the open directory and appears with identical content under the same name in done; nothing else changes; the log gains add(old), add(new), commit with the argument, not the file name |
| Done.DoneDirectoryExists | hacks/squads/done.py:19 | with an argument, the done directory exists afterwards whatever the lookup found |
| Done.Complete | hacks/squads/done.py:7-53 | the script on the table: its new table, appended requests and outcome are those of `Completion` |
| Done.LookUpAndMove | hacks/squads/done.py:23-53 | the lookup and move on the table: new table, appended requests and outcome are those of `Lookup` |
| Done.MoveToDone | hacks/squads/done.py:42-53 | a successful move takes the file from the open directory into done and appends add(old), add(new), commit with the argument; a failed one changes nothing and requests nothing |
| Todo.FileName | hacks/squads/todo.py:15 | the file name starts with the marker, ends with `.md`, and the name is what lies between |
| Todo.FileNameInjective | hacks/squads/todo.py:15 | different todo names give different file names |
| Todo.TemplateLines | hacks/squads/todo.py:24-31 | seven lines: the marker and the name, then `## overview`, `## user journey`, `## tech spec`, each after an empty line |
| Todo.Template | hacks/squads/todo.py:24-31 | the content is those seven lines, each ended by a newline, so it starts with the title line |
| Todo.Creation | hacks/squads/todo.py:6-38 | one run of the script keeps the table well formed and every existing entry as it was |
| Todo.NoArgumentIsUsageError | hacks/squads/todo.py:6-9 | without an argument, on every well-formed tree (with or without `squads/todo`): usage error, table unchanged, no git request |
| Todo.ExistingNameIsRefused | hacks/squads/todo.py:19-21 | an existing file or directory of that name: `AlreadyExists`, table unchanged, no git request |
| Todo.FreshNameIsCreated | hacks/squads/todo.py:24-38 | a fresh name adds exactly one key, the templated file, and changes no other entry; add is requested first, and the commit "squads::todo " + name exactly when the add succeeded |
| Todo.CreationOutcome | hacks/squads/todo.py:6-38 | usage error, refusal and creation each in both directions; every non-creating run changes nothing |
| Todo.SecondCreationIsRefused | hacks/squads/todo.py:19-34 | creating the same name twice: the second run is refused, changes nothing and leaves the first run's file content in place |
| Todo.Create | hacks/squads/todo.py:6-38 | the script on the table: its new table, appended requests and outcome are those of `Creation` |
| Init.WithDirectories | hacks/squads_init.py:5-8 | afterwards the four directories exist; only they may be added; existing entries (directories included) are kept |
| Init.WithFiles | hacks/squads_init.py:11-22 | afterwards `endgame.md` holds the template, a missing `next.md` is empty, every other entry is unchanged |
| Init.ScaffoldIsComplete | hacks/squads_init.py:5-22 | the four directories and `next.md` exist, and `endgame.md` holds the template whatever it held before |
| Init.NextMdIsTouched | hacks/squads_init.py:11 | an existing `next.md` keeps its content; a missing one becomes empty |
| Init.ScaffoldTouchesOnlyItsPaths | hacks/squads_init.py:5-22 | the keys afterwards are the old keys plus the six scaffold paths, and every entry but `endgame.md` keeps its content |
| Init.ExistingDirectoriesAreKept | hacks/squads_init.py:5-8 | when the four directories exist, the `mkdir` calls change nothing |
| Init.FilesAreIdempotent | hacks/squads_init.py:11-22 | touching and writing twice gives the same table as once |
| Init.ScaffoldIsIdempotent | hacks/squads_init.py:5-22 | running the initializer twice gives the same table as running it once |
| Init.Scaffolded | hacks/squads_init.py:5-22 | the whole initializer as the directory stage followed by the file stage; the result again meets the initializer's needs, so it can run again |
| Init.MakeDirectories | hacks/squads_init.py:5-8 | the four `mkdir` calls on the table give `WithDirectories` of the old table; the git log is untouched |
| Init.MakeFiles | hacks/squads_init.py:11-22 | the two `touch` calls and the write on the table give `WithFiles` of the old table; the git log is untouched |
| Init.Initialize | hacks/squads_init.py:5-22 | the script on the table: the new table is `Scaffolded` of the old one and the git log is untouched |
| Workflow.CreateThenComplete | hacks/squads/done.py:23-50 | with one marker shared by both scripts and no other candidate containing the name: create, then complete with a move that succeeds, moves the templated file, under the same name, from the open directory into done |
| Workflow.CreatedNameIsNeverCandidate | hacks/squads/todo.py:15 | with the markers as shipped, a file name made by the create script never passes the complete script's filter |
| Workflow.ShippedCreateThenCompleteFindsNothing | hacks/squads/done.py:23-29 | with the markers as shipped and no todo already in the open directory whose file name contains the name: completing a just-created todo by its name ends in `NoMatch`, with no git request, and the file stays in the open directory |

## Left out

- Printed messages and their exact text: outcomes are the `Scripts.Outcome` datatype, and `Scripts.ExitCode` gives the exit status.
- Path resolution: the todo scripts find `squads/todo` from their own file location, the initializer from the current directory; the model takes one abstract project root for both.
- Running git: `hacks/squads/git_utils.py` is not part of this model beyond its add-then-commit short circuit. The warnings it prints, including the "nothing to commit" check, and the boolean results the scripts ignore are not modelled. Only the add outcome in the create script is an input, because only it changes what is requested.
- Done.CanComplete: without an argument nothing is required. With one, the complete script needs `squads/todo` to be a directory and `squads/todo/done` not to be a regular file; otherwise its `mkdir` raises an uncaught exception, which is not modelled.
- Done.DestinationFree: when exactly one todo matches, `squads/todo/done/<its name>` must not be a directory. `shutil.move` onto a directory moves the file into it (or fails if a same-named entry is already inside), and that path is not modelled. Directories in `done/` named after other candidates are allowed. An existing regular file at the destination is overwritten, as a plain map update.
- Done.Completion: a failed move is the input `moveSucceeds = false`. It is assumed to leave the table as it was after the done directory was created. Partial copies by `shutil.move` and the exception text are not modelled.
- Todo.CanCreate: without an argument nothing is required. With one, the create script needs `squads/todo` to be a directory; otherwise `write_text` raises an uncaught exception, which is not modelled. Other write errors are not modelled either.
- Init.CanInit: the initializer needs none of its four directory paths to be a regular file and `endgame.md` not to be a directory. Otherwise it crashes partway through, which is not modelled. `mkdir(parents=True)` is modelled as a plain create because each call's parent is already there when it runs.
- `touch` updating modification times: the model has no timestamps.
- Directory listing order: ambiguous matches are a set.
- Unusual names: a name is an opaque string, so separators inside it and Unicode normalisation are not modelled. Symbolic links are not modelled.
- Concurrent runs of the scripts are out of scope.
