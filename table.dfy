/** The mutable state the scripts work on: the file table and the log of git requests.
    Each method is one filesystem or git call of the scripts. */
module Table {
  import opened FileSystem
  import opened Git

  class FileTable {
    var tree: Tree
    var log: seq<Request>

    ghost predicate Valid()
      reads this
    {
      WellFormed(tree)
    }

    constructor (initial: Tree)
      requires WellFormed(initial)
      ensures Valid() && tree == initial && log == []
    {
      tree := initial;
      log := [];
    }

    /** `Path(p).exists()`: true for a file or a directory. */
    method Exists(p: Path) returns (b: bool)
      ensures b <==> p in tree
    {
      b := p in tree;
    }

    /** `Path(p).mkdir(exist_ok=True)` where the parent directory is already there. */
    method MkDir(p: Path)
      requires Valid() && p != [] && IsDir(tree, Parent(p)) && !IsFile(tree, p)
      modifies this`tree
      ensures Valid() && tree == AfterMkDir(old(tree), p)
    {
      if p !in tree {
        tree := tree[p := Directory];
      }
    }

    /** `Path(p).touch()` where the parent directory is already there. */
    method Touch(p: Path)
      requires Valid() && p != [] && IsDir(tree, Parent(p))
      modifies this`tree
      ensures Valid() && tree == AfterTouch(old(tree), p)
    {
      if p !in tree {
        tree := tree[p := File("")];
      }
    }

    /** `Path(p).write_text(text)` where the parent directory is already there. */
    method WriteText(p: Path, text: string)
      requires Valid() && p != [] && IsDir(tree, Parent(p)) && !IsDir(tree, p)
      modifies this`tree
      ensures Valid() && tree == AfterWrite(old(tree), p, text)
    {
      tree := tree[p := File(text)];
    }

    /** `shutil.move(src, dst)` of a regular file to a path that is not a directory. */
    method Move(src: Path, dst: Path)
      requires Valid() && IsFile(tree, src) && dst != [] && IsDir(tree, Parent(dst))
      requires !IsDir(tree, dst) && src != dst
      modifies this`tree
      ensures Valid() && tree == AfterMove(old(tree), src, dst)
    {
      var node := tree[src];
      tree := (tree - {src})[dst := node];
    }

    /** `git_add(p)` */
    method RequestAdd(p: Path)
      modifies this`log
      ensures log == old(log) + [Add(p)]
    {
      log := log + [Add(p)];
    }

    /** `git_commit(message)` */
    method RequestCommit(message: string)
      modifies this`log
      ensures log == old(log) + [Commit(message)]
    {
      log := log + [Commit(message)];
    }

    /** `git_add_and_commit(p, message)`: the commit is asked for only when the add,
        whose outcome is `addSucceeds`, went through. */
    method AddAndCommit(p: Path, message: string, addSucceeds: bool)
      modifies this`log
      ensures log == old(log) + Git.AddAndCommit(p, message, addSucceeds)
    {
      RequestAdd(p);
      if addSucceeds {
        RequestCommit(message);
      }
    }
  }
}
