/** The "create todo" script: write a new todo file from the fixed template into the open
    todo directory, unless the name is taken, then stage and commit it. */
module Todo {
  import opened Strings
  import opened FileSystem
  import opened Git
  import opened Scripts
  import opened Table

  /** The marker the script puts in front of a todo's name, as written in the script. */
  const Marker: string := "\U{0E22}\U{0E07}"

  const CommitPrefix: string := "squads::todo "

  /** The file name of the todo called `name`: the marker, the name, the extension. */
  function FileName(name: string, marker: string): (r: Name)
    ensures StartsWith(r, marker) && EndsWith(r, TodoExtension)
    ensures |r| == |marker| + |name| + |TodoExtension|
    ensures r[|marker|..|r| - |TodoExtension|] == name
  {
    marker + name + TodoExtension
  }

  /** Distinct names give distinct file names. */
  lemma FileNameInjective(a: string, b: string, marker: string)
    requires FileName(a, marker) == FileName(b, marker)
    ensures a == b
  {
    var f := FileName(a, marker);
    assert a == f[|marker|..|f| - |TodoExtension|];
  }

  /** The lines of a new todo: a title (the marker and the name), then the overview, user
      journey and tech spec headings, each after a blank line. */
  function TemplateLines(name: string, marker: string): (r: seq<string>)
    ensures |r| == 7 && r[0] == marker + name
    ensures r[2] == "## overview" && r[4] == "## user journey" && r[6] == "## tech spec"
    ensures r[1] == r[3] == r[5] == ""
  {
    [marker + name, "", "## overview", "", "## user journey", "", "## tech spec"]
  }

  /** The content of a new todo file: the script's triple-quoted template, one line
      break after each line. */
  function Template(name: string, marker: string): (r: string)
    ensures r == Unlines(TemplateLines(name, marker))
    ensures StartsWith(r, marker + name + "\n")
  {
    TemplateIsLines(name, marker);
    marker + name + "\n"
    + "\n"
    + "## overview" + "\n"
    + "\n"
    + "## user journey" + "\n"
    + "\n"
    + "## tech spec" + "\n"
  }

  lemma TemplateIsLines(name: string, marker: string)
    ensures marker + name + "\n" + "\n" + "## overview" + "\n" + "\n" + "## user journey" + "\n"
            + "\n" + "## tech spec" + "\n"
         == Unlines(TemplateLines(name, marker))
  {
    var lines := TemplateLines(name, marker);
    assert lines[..0] == [];
    assert lines[..1][..0] == lines[..0];
    assert lines[..2][..1] == lines[..1];
    assert lines[..3][..2] == lines[..2];
    assert lines[..4][..3] == lines[..3];
    assert lines[..5][..4] == lines[..4];
    assert lines[..6][..5] == lines[..5];
    assert lines[..7] == lines;
    assert Unlines(lines[..1]) == marker + name + "\n";
    assert Unlines(lines[..2]) == marker + name + "\n" + "\n";
    assert Unlines(lines[..3]) == marker + name + "\n" + "\n" + "## overview" + "\n";
    assert Unlines(lines[..4]) == marker + name + "\n" + "\n" + "## overview" + "\n" + "\n";
    assert Unlines(lines[..5]) == marker + name + "\n" + "\n" + "## overview" + "\n" + "\n"
                                  + "## user journey" + "\n";
    assert Unlines(lines[..6]) == marker + name + "\n" + "\n" + "## overview" + "\n" + "\n"
                                  + "## user journey" + "\n" + "\n";
  }

  /** What one run with arguments `argv` needs: without an argument nothing at all; with
      one, the open directory, since `write_text` cannot create it. */
  ghost predicate CanCreate(t: Tree, argv: seq<string>) {
    WellFormed(t) && (|argv| > 0 ==> IsDir(t, TodoDir))
  }

  /** One invocation of the script with arguments `argv`; `addSucceeds` is whether git
      accepts the staging request. */
  function Creation(t: Tree, argv: seq<string>, addSucceeds: bool, marker: string): (r: Run)
    requires CanCreate(t, argv)
    ensures WellFormed(r.tree)
    ensures forall p :: p in t ==> p in r.tree && r.tree[p] == t[p]
  {
    if |argv| == 0 then Run(t, [], UsageError)
    else
      var name := argv[0];
      var path := TodoDir + [FileName(name, marker)];
      if path in t then Run(t, [], AlreadyExists(FileName(name, marker)))
      else
        assert Parent(path) == TodoDir;
        Run(AfterWrite(t, path, Template(name, marker)),
            AddAndCommit(path, CommitPrefix + name, addSucceeds), Created(path))
  }

  /** Without an argument the script stops before touching anything, whatever the tree. */
  lemma NoArgumentIsUsageError(t: Tree, addSucceeds: bool, marker: string)
    requires WellFormed(t)
    ensures CanCreate(t, [])
    ensures Creation(t, [], addSucceeds, marker) == Run(t, [], UsageError)
  {
  }

  /** A name whose file (or directory) already exists is refused; the table and the git
      log stay as they were. */
  lemma ExistingNameIsRefused(t: Tree, argv: seq<string>, addSucceeds: bool, marker: string)
    requires CanCreate(t, argv) && |argv| > 0 && TodoDir + [FileName(argv[0], marker)] in t
    ensures Creation(t, argv, addSucceeds, marker)
         == Run(t, [], AlreadyExists(FileName(argv[0], marker)))
  {
  }

  /** A fresh name adds exactly one entry, the templated file, and changes no other; git is
      asked to stage it and, only if that succeeds, to commit with the todo's name. */
  lemma FreshNameIsCreated(t: Tree, argv: seq<string>, addSucceeds: bool, marker: string)
    requires CanCreate(t, argv) && |argv| > 0 && TodoDir + [FileName(argv[0], marker)] !in t
    ensures var r := Creation(t, argv, addSucceeds, marker);
      var path := TodoDir + [FileName(argv[0], marker)];
      && r.outcome == Created(path)
      && r.tree.Keys == t.Keys + {path}
      && r.tree[path] == File(Template(argv[0], marker))
      && (forall p :: p in t ==> r.tree[p] == t[p])
      && r.requests[0] == Add(path)
      && (Commit(CommitPrefix + argv[0]) in r.requests <==> addSucceeds)
      && |r.requests| == (if addSucceeds then 2 else 1)
  {
  }

  /** Outcome of the script, in both directions. */
  lemma CreationOutcome(t: Tree, argv: seq<string>, addSucceeds: bool, marker: string)
    requires CanCreate(t, argv)
    ensures var r := Creation(t, argv, addSucceeds, marker);
      && (r.outcome == UsageError <==> |argv| == 0)
      && (r.outcome.AlreadyExists? <==> |argv| > 0 && TodoDir + [FileName(argv[0], marker)] in t)
      && (r.outcome.Created? <==> |argv| > 0 && TodoDir + [FileName(argv[0], marker)] !in t)
      && (!r.outcome.Created? ==> r.tree == t && r.requests == [])
  {
  }

  /** Creating the same todo twice: the second run is refused and the file the first run
      left (new or pre-existing) keeps its content. */
  lemma SecondCreationIsRefused(t: Tree, argv: seq<string>, add1: bool, add2: bool, marker: string)
    requires CanCreate(t, argv) && |argv| > 0
    ensures CanCreate(Creation(t, argv, add1, marker).tree, argv)
    ensures var first := Creation(t, argv, add1, marker);
      var second := Creation(first.tree, argv, add2, marker);
      var path := TodoDir + [FileName(argv[0], marker)];
      && second.outcome == AlreadyExists(FileName(argv[0], marker))
      && second.tree == first.tree && second.requests == []
      && path in first.tree
      && (first.outcome.Created? ==> second.tree[path] == File(Template(argv[0], marker)))
  {
    var path := TodoDir + [FileName(argv[0], marker)];
    if path !in t {
      FreshNameIsCreated(t, argv, add1, marker);
    }
  }

  /** The script itself, on the file table. */
  method Create(fs: FileTable, argv: seq<string>, addSucceeds: bool) returns (outcome: Outcome)
    requires fs.Valid() && CanCreate(fs.tree, argv)
    modifies fs
    ensures fs.Valid()
    ensures var r := Creation(old(fs.tree), argv, addSucceeds, Marker);
      fs.tree == r.tree && fs.log == old(fs.log) + r.requests && outcome == r.outcome
  {
    assert fs.log + [] == fs.log;
    if |argv| == 0 {
      return UsageError;
    }
    var name := argv[0];
    var fileName := FileName(name, Marker);
    var path := TodoDir + [fileName];
    var taken := fs.Exists(path);
    if taken {
      return AlreadyExists(fileName);
    }
    assert Parent(path) == TodoDir;
    fs.WriteText(path, Template(name, Marker));
    fs.AddAndCommit(path, CommitPrefix + name, addSucceeds);
    return Created(path);
  }
}
