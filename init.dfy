/** The scaffold initializer: create the four directories, touch `next.md`, and write the
    fixed onboarding questions into `endgame.md`, overwriting whatever it held. */
module Init {
  import opened FileSystem
  import opened Table

  /** The text written into `endgame.md` (held in the script by a variable misleadingly
      named after `next.md`). */
  const EndgameTemplate: string :=
    "_who are using this project?_\n"
    + "\n"
    + "_what are the users trying to achieve with this project?_\n"
    + "\n"
    + "_how does this project help them better with achieving their goal compared to other similar projects?_\n"

  /** The six paths the initializer creates or updates. */
  const ScaffoldPaths: set<Path> := {SquadsDir, TodoDir, BacklogsDir, DoneDir, NextMd, EndgameMd}

  /** What the calls need: none of the four directory paths is a regular file, and
      `endgame.md` is not a directory. */
  ghost predicate CanInit(t: Tree) {
    WellFormed(t)
    && !IsFile(t, SquadsDir) && !IsFile(t, TodoDir) && !IsFile(t, BacklogsDir) && !IsFile(t, DoneDir)
    && !IsDir(t, EndgameMd)
  }

  const ScaffoldDirs: set<Path> := {SquadsDir, TodoDir, BacklogsDir, DoneDir}

  /** The four `mkdir(parents=True, exist_ok=True)` calls, in order: afterwards each
      directory exists, and every entry that was there is kept as it was. */
  function WithDirectories(t: Tree): (r: Tree)
    requires CanInit(t)
    ensures CanInit(r)
    ensures r.Keys == t.Keys + ScaffoldDirs
    ensures IsDir(r, SquadsDir) && IsDir(r, TodoDir) && IsDir(r, BacklogsDir) && IsDir(r, DoneDir)
    ensures forall q :: q in t ==> r[q] == t[q]
  {
    assert Parent(SquadsDir) == [] && Parent(TodoDir) == SquadsDir;
    assert Parent(BacklogsDir) == TodoDir && Parent(DoneDir) == TodoDir;
    var t1 := AfterMkDir(t, SquadsDir);
    var t2 := AfterMkDir(t1, TodoDir);
    var t3 := AfterMkDir(t2, BacklogsDir);
    AfterMkDir(t3, DoneDir)
  }

  /** `touch` of both files, then the write of the template into `endgame.md`. */
  function WithFiles(t: Tree): (r: Tree)
    requires CanInit(t) && IsDir(t, SquadsDir)
    ensures CanInit(r)
    ensures r.Keys == t.Keys + {NextMd, EndgameMd}
    ensures r[EndgameMd] == File(EndgameTemplate)
    ensures NextMd !in t ==> r[NextMd] == File("")
    ensures forall q :: q in t && q != EndgameMd ==> r[q] == t[q]
  {
    assert Parent(NextMd) == SquadsDir && Parent(EndgameMd) == SquadsDir;
    var t5 := AfterTouch(t, NextMd);
    var t6 := AfterTouch(t5, EndgameMd);
    AfterWrite(t6, EndgameMd, EndgameTemplate)
  }

  /** The tree after the whole script. */
  function Scaffolded(t: Tree): (r: Tree)
    requires CanInit(t)
    ensures CanInit(r)
  {
    WithFiles(WithDirectories(t))
  }

  /** Afterwards the four directories exist and so do both files; `endgame.md` holds the
      template whatever it held before. */
  lemma ScaffoldIsComplete(t: Tree)
    requires CanInit(t)
    ensures var r := Scaffolded(t);
      && IsDir(r, SquadsDir) && IsDir(r, TodoDir) && IsDir(r, BacklogsDir) && IsDir(r, DoneDir)
      && NextMd in r
      && r[EndgameMd] == File(EndgameTemplate)
  {
  }

  /** `next.md` keeps what it had, and is empty when it was missing. */
  lemma NextMdIsTouched(t: Tree)
    requires CanInit(t)
    ensures var r := Scaffolded(t);
      && (NextMd in t ==> r[NextMd] == t[NextMd])
      && (NextMd !in t ==> r[NextMd] == File(""))
  {
  }

  /** Nothing outside the six scaffold paths is created, removed or changed, and of those
      only `endgame.md` can change if it was already there. */
  lemma ScaffoldTouchesOnlyItsPaths(t: Tree)
    requires CanInit(t)
    ensures var r := Scaffolded(t);
      && r.Keys == t.Keys + ScaffoldPaths
      && (forall p :: p in t && p != EndgameMd ==> r[p] == t[p])
  {
  }

  /** Directories that are already there make the `mkdir` calls change nothing. */
  lemma ExistingDirectoriesAreKept(t: Tree)
    requires CanInit(t)
    requires IsDir(t, SquadsDir) && IsDir(t, TodoDir) && IsDir(t, BacklogsDir) && IsDir(t, DoneDir)
    ensures WithDirectories(t) == t
  {
    var r := WithDirectories(t);
    assert r.Keys == t.Keys;
  }

  /** Touching and writing a second time gives the same files as the first time. */
  lemma FilesAreIdempotent(t: Tree)
    requires CanInit(t) && IsDir(t, SquadsDir)
    ensures WithFiles(WithFiles(t)) == WithFiles(t)
  {
    var once := WithFiles(t);
    var twice := WithFiles(once);
    assert twice.Keys == once.Keys;
    forall p | p in once ensures twice[p] == once[p] {
    }
  }

  /** Running the initializer twice leaves the same tree as running it once. */
  lemma ScaffoldIsIdempotent(t: Tree)
    requires CanInit(t)
    ensures Scaffolded(Scaffolded(t)) == Scaffolded(t)
  {
    var dirs := WithDirectories(t);
    var once := WithFiles(dirs);
    ExistingDirectoriesAreKept(once);
    FilesAreIdempotent(dirs);
  }

  /** The script itself, on the file table; it makes no git request. */
  method Initialize(fs: FileTable)
    requires fs.Valid() && CanInit(fs.tree)
    modifies fs
    ensures fs.Valid()
    ensures fs.tree == Scaffolded(old(fs.tree)) && fs.log == old(fs.log)
  {
    MakeDirectories(fs);
    MakeFiles(fs);
  }

  /** Lines creating the directories. */
  method MakeDirectories(fs: FileTable)
    requires fs.Valid() && CanInit(fs.tree)
    modifies fs
    ensures fs.Valid()
    ensures fs.tree == WithDirectories(old(fs.tree)) && fs.log == old(fs.log)
  {
    assert Parent(SquadsDir) == [] && Parent(TodoDir) == SquadsDir;
    assert Parent(BacklogsDir) == TodoDir && Parent(DoneDir) == TodoDir;
    fs.MkDir(SquadsDir);
    fs.MkDir(TodoDir);
    fs.MkDir(BacklogsDir);
    fs.MkDir(DoneDir);
  }

  /** Lines creating the files. */
  method MakeFiles(fs: FileTable)
    requires fs.Valid() && CanInit(fs.tree) && IsDir(fs.tree, SquadsDir)
    modifies fs
    ensures fs.Valid()
    ensures fs.tree == WithFiles(old(fs.tree)) && fs.log == old(fs.log)
  {
    assert Parent(NextMd) == SquadsDir && Parent(EndgameMd) == SquadsDir;
    fs.Touch(NextMd);
    fs.Touch(EndgameMd);
    fs.WriteText(EndgameMd, EndgameTemplate);
  }
}
