/** The project's files as an in-memory table: every path below the project root
    maps to a regular file (with its text) or a directory. The project root itself
    is the empty path; it always exists and is never an entry of the table. */
module FileSystem {

  type Name = string
  type Path = seq<Name>

  datatype Node = File(content: string) | Directory

  type Tree = map<Path, Node>

  /** The layout shared by the scripts, relative to the project root. */
  const SquadsDir: Path := ["squads"]
  const TodoDir: Path := ["squads", "todo"]
  const BacklogsDir: Path := ["squads", "todo", "backlogs"]
  const DoneDir: Path := ["squads", "todo", "done"]
  const NextMd: Path := ["squads", "next.md"]
  const EndgameMd: Path := ["squads", "endgame.md"]

  /** The extension every todo file name carries. */
  const TodoExtension: string := ".md"

  function Parent(p: Path): Path
    requires p != []
  {
    p[..|p| - 1]
  }

  predicate IsFile(t: Tree, p: Path) {
    p in t && t[p].File?
  }

  predicate IsDir(t: Tree, p: Path) {
    p == [] || (p in t && t[p].Directory?)
  }

  /** Every entry sits inside a directory that exists. (The quantifier is triggered on
      `Parent(p)` rather than on `p in t`, which would chain from an entry to its parent,
      grandparent, and so on.) */
  ghost predicate WellFormed(t: Tree) {
    [] !in t && forall p {:trigger Parent(p)} :: p in t ==> IsDir(t, Parent(p))
  }

  /** `Path(p).mkdir(exist_ok=True)`: an existing directory is kept, a missing one is
      created. The caller guarantees that `p` is not a regular file. */
  function AfterMkDir(t: Tree, p: Path): (r: Tree)
    requires p != [] && !IsFile(t, p)
    ensures IsDir(r, p)
    ensures r.Keys == t.Keys + {p}
    ensures forall q :: q in t ==> r[q] == t[q]
    ensures WellFormed(t) && IsDir(t, Parent(p)) ==> WellFormed(r)
  {
    if p in t then t else t[p := Directory]
  }

  /** `Path(p).touch()`: an existing entry keeps its content, a missing one becomes an
      empty file. */
  function AfterTouch(t: Tree, p: Path): (r: Tree)
    requires p != []
    ensures r.Keys == t.Keys + {p}
    ensures forall q :: q in t ==> r[q] == t[q]
    ensures p !in t ==> r[p] == File("")
    ensures WellFormed(t) && IsDir(t, Parent(p)) ==> WellFormed(r)
  {
    if p in t then t else t[p := File("")]
  }

  /** `Path(p).write_text(text)`: the file ends up holding exactly `text`, whatever it
      held before. The caller guarantees that `p` is not a directory. */
  function AfterWrite(t: Tree, p: Path, text: string): (r: Tree)
    requires p != [] && !IsDir(t, p)
    ensures r.Keys == t.Keys + {p}
    ensures r[p] == File(text)
    ensures forall q :: q in t && q != p ==> r[q] == t[q]
    ensures WellFormed(t) && IsDir(t, Parent(p)) ==> WellFormed(r)
  {
    t[p := File(text)]
  }

  /** `shutil.move(src, dst)` of a regular file onto a path that is not a directory:
      the entry leaves `src` and appears, with the same content, at `dst`. */
  function AfterMove(t: Tree, src: Path, dst: Path): (r: Tree)
    requires IsFile(t, src) && dst != [] && !IsDir(t, dst) && src != dst
    ensures r.Keys == t.Keys - {src} + {dst}
    ensures src !in r && r[dst] == t[src]
    ensures forall q :: q in t && q != src && q != dst ==> r[q] == t[q]
    ensures WellFormed(t) && IsDir(t, Parent(dst)) ==> WellFormed(r)
  {
    (t - {src})[dst := t[src]]
  }
}
