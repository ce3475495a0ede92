/** The "complete todo" script: pick the one open todo whose file name contains the
    argument and move it into the done directory, then stage both paths and commit. */
module Done {
  import opened Strings
  import opened FileSystem
  import opened Git
  import opened Scripts
  import opened Table

  /** The marker the completion filter looks for, as written in the script. */
  const Marker: string := "\U{00A7}"

  const CommitPrefix: string := "squads::done "

  /** A todo file name: the marker, anything, then the extension. */
  predicate IsTodoFileName(n: Name, marker: string) {
    StartsWith(n, marker) && EndsWith(n, TodoExtension)
  }

  /** With the marker as shipped, a todo file name is exactly the marker, a stem and the
      extension: the marker and the extension never overlap. */
  lemma ShippedTodoFileName(n: Name)
    ensures IsTodoFileName(n, Marker)
        <==> |n| >= |Marker| + |TodoExtension| && n == Marker + n[1..|n| - 3] + TodoExtension
  {
    if IsTodoFileName(n, Marker) {
      assert n[0] == Marker[0];
      assert n[|n| - 3] == TodoExtension[0];
      assert |n| != 3;
      assert n == n[..1] + n[1..|n| - 3] + n[|n| - 3..];
    }
  }

  /** The names of the regular files directly inside the open todo directory that look
      like todo files. */
  function Candidates(t: Tree, marker: string): (r: set<Name>)
    ensures forall n :: n in r <==> IsFile(t, TodoDir + [n]) && IsTodoFileName(n, marker)
  {
    var r := set p | p in t && |p| == |TodoDir| + 1 && p[..|TodoDir|] == TodoDir
                     && t[p].File? && IsTodoFileName(p[|TodoDir|], marker)
                  :: p[|TodoDir|];
    assert forall p :: |p| == |TodoDir| + 1 && p[..|TodoDir|] == TodoDir ==> p == TodoDir + [p[|TodoDir|]];
    r
  }

  /** The candidates whose whole file name contains `arg`. */
  function Matches(candidates: set<Name>, arg: string): (r: set<Name>)
    ensures r <= candidates
    ensures arg == "" ==> r == candidates
  {
    set n | n in candidates && Contains(n, arg)
  }

  /** A candidate is matched exactly when `arg` occurs somewhere in its name, marker and
      extension included. */
  lemma MatchedIffOccurs(candidates: set<Name>, arg: string, n: Name)
    ensures n in Matches(candidates, arg) <==> n in candidates && Occurs(n, arg)
  {
    ContainsMeansOccurs(n, arg);
  }

  /** The three ways a lookup can end. */
  datatype Selection = NothingFound | Unique(name: Name) | Several(names: set<Name>)

  /** Zero matches, exactly one, or more than one. */
  function Select(matches: set<Name>): (r: Selection)
    ensures r.NothingFound? <==> matches == {}
    ensures r.Unique? <==> |matches| == 1
    ensures r.Unique? ==> matches == {r.name}
    ensures r.Several? ==> r.names == matches
  {
    if |matches| == 0 then NothingFound
    else if |matches| > 1 then Several(matches)
    else
      var n :| n in matches;
      assert matches == {n} by {
        SingletonHasOneElement(matches, n);
      }
      Unique(n)
  }

  lemma SingletonHasOneElement(s: set<Name>, x: Name)
    requires |s| == 1 && x in s
    ensures s == {x}
  {
    var rest := s - {x};
    assert |rest| == 0;
  }

  /** What the lines past the argument check need from the tree: the open directory
      exists and the done path is not a regular file (otherwise `mkdir` raises). */
  ghost predicate HasOpenDirectory(t: Tree) {
    WellFormed(t) && IsDir(t, TodoDir) && !IsFile(t, DoneDir)
  }

  /** The destination of a unique match is not a directory (`shutil.move` would move the
      file into it). Nothing is asked of the other candidates. */
  ghost predicate DestinationFree(t: Tree, arg: string, marker: string) {
    forall n :: Matches(Candidates(t, marker), arg) == {n} ==> !IsDir(t, DoneDir + [n])
  }

  /** What one run with arguments `argv` needs: without an argument nothing at all; with
      one, the open directory and a free destination for a unique match. */
  ghost predicate CanComplete(t: Tree, argv: seq<string>, marker: string) {
    WellFormed(t)
    && (|argv| > 0 ==> HasOpenDirectory(t) && DestinationFree(t, argv[0], marker))
  }

  /** Creating the done directory adds no candidate and removes none. */
  lemma MkDirKeepsCandidates(t: Tree, marker: string)
    requires !IsFile(t, DoneDir)
    ensures Candidates(AfterMkDir(t, DoneDir), marker) == Candidates(t, marker)
  {
    var r := AfterMkDir(t, DoneDir);
    forall n ensures IsFile(r, TodoDir + [n]) <==> IsFile(t, TodoDir + [n]) {
      if TodoDir + [n] == DoneDir {
        assert !IsFile(r, TodoDir + [n]);
      }
    }
  }

  /** The state in which the lookup starts: both directories exist. */
  ghost predicate Prepared(t: Tree) {
    WellFormed(t) && IsDir(t, TodoDir) && IsDir(t, DoneDir)
  }

  /** Creating the done directory prepares the lookup and keeps the destination free. */
  lemma MkDirPrepares(t: Tree, arg: string, marker: string)
    requires HasOpenDirectory(t) && DestinationFree(t, arg, marker)
    ensures Prepared(AfterMkDir(t, DoneDir))
    ensures DestinationFree(AfterMkDir(t, DoneDir), arg, marker)
  {
    MkDirKeepsCandidates(t, marker);
    var prepared := AfterMkDir(t, DoneDir);
    assert Parent(DoneDir) == TodoDir;
    forall n | Matches(Candidates(prepared, marker), arg) == {n}
      ensures !IsDir(prepared, DoneDir + [n])
    {
      var dst := DoneDir + [n];
      assert dst != DoneDir;
    }
  }

  /** Lines past the creation of the done directory: the lookup, and for a unique match
      the move and the git requests. */
  function Lookup(t: Tree, arg: string, moveSucceeds: bool, marker: string): (r: Run)
    requires Prepared(t) && DestinationFree(t, arg, marker)
    ensures WellFormed(r.tree)
  {
    match Select(Matches(Candidates(t, marker), arg))
    case NothingFound => Run(t, [], NoMatch)
    case Several(names) => Run(t, [], Ambiguous(names))
    case Unique(n) =>
      if !moveSucceeds then Run(t, [], MoveFailed)
      else
        var src, dst := TodoDir + [n], DoneDir + [n];
        assert Parent(dst) == DoneDir;
        Run(AfterMove(t, src, dst), [Add(src), Add(dst), Commit(CommitPrefix + arg)], Moved(n))
  }

  /** No match: nothing is moved and git is not called. */
  lemma LookupNothing(t: Tree, arg: string, moveSucceeds: bool, marker: string)
    requires Prepared(t) && Matches(Candidates(t, marker), arg) == {}
    ensures DestinationFree(t, arg, marker)
    ensures Lookup(t, arg, moveSucceeds, marker) == Run(t, [], NoMatch)
  {
    forall n ensures Matches(Candidates(t, marker), arg) != {n} {
      assert n in {n};
    }
  }

  /** Several matches: all of them are reported, nothing is moved and git is not called. */
  lemma LookupSeveral(t: Tree, arg: string, moveSucceeds: bool, marker: string)
    requires Prepared(t) && |Matches(Candidates(t, marker), arg)| > 1
    ensures DestinationFree(t, arg, marker)
    ensures Lookup(t, arg, moveSucceeds, marker) == Run(t, [], Ambiguous(Matches(Candidates(t, marker), arg)))
  {
    forall n ensures Matches(Candidates(t, marker), arg) != {n} {
      assert |{n}| == 1;
    }
  }

  /** A unique match is moved into the done directory, and the two paths are staged
      before the commit, whose message carries the argument. */
  lemma LookupUnique(t: Tree, arg: string, moveSucceeds: bool, marker: string, n: Name)
    requires Prepared(t) && DestinationFree(t, arg, marker)
    requires Matches(Candidates(t, marker), arg) == {n}
    ensures var src, dst := TodoDir + [n], DoneDir + [n];
      Parent(dst) == DoneDir && IsFile(t, src) && !IsDir(t, dst)
      && Lookup(t, arg, moveSucceeds, marker)
         == if moveSucceeds
            then Run(AfterMove(t, src, dst), [Add(src), Add(dst), Commit(CommitPrefix + arg)], Moved(n))
            else Run(t, [], MoveFailed)
  {
    assert Parent(DoneDir + [n]) == DoneDir;
  }

  /** One invocation of the script with arguments `argv`; `moveSucceeds` is whether the
      file system lets the move through. */
  function Completion(t: Tree, argv: seq<string>, moveSucceeds: bool, marker: string): (r: Run)
    requires CanComplete(t, argv, marker)
    ensures WellFormed(r.tree)
  {
    if |argv| == 0 then Run(t, [], UsageError)
    else
      MkDirPrepares(t, argv[0], marker);
      Lookup(AfterMkDir(t, DoneDir), argv[0], moveSucceeds, marker)
  }

  /** Files and directories anywhere but directly in the open directory, such as those
      under `backlogs/` or `done/`, never change which names are candidates. */
  lemma OnlyDirectEntriesAreCandidates(t: Tree, p: Path, node: Node, marker: string)
    requires |p| != |TodoDir| + 1 || p[..|TodoDir|] != TodoDir
    ensures Candidates(t[p := node], marker) == Candidates(t, marker)
    ensures Candidates(t - {p}, marker) == Candidates(t, marker)
  {
    forall n ensures TodoDir + [n] != p {
      assert (TodoDir + [n])[..|TodoDir|] == TodoDir;
    }
  }

  /** Writing an entry directly into the open directory makes its name a candidate exactly
      when it is a regular file with a todo file name. */
  lemma DirectEntryCandidates(t: Tree, n: Name, node: Node, marker: string)
    ensures Candidates(t[TodoDir + [n] := node], marker)
         == if node.File? && IsTodoFileName(n, marker) then Candidates(t, marker) + {n}
            else Candidates(t, marker) - {n}
  {
    var p := TodoDir + [n];
    forall m | m != n ensures TodoDir + [m] != p {
      assert (TodoDir + [m])[|TodoDir|] == m;
    }
  }

  /** Without an argument the script stops before touching anything, whatever the tree. */
  lemma NoArgumentIsUsageError(t: Tree, moveSucceeds: bool, marker: string)
    requires WellFormed(t)
    ensures CanComplete(t, [], marker)
    ensures Completion(t, [], moveSucceeds, marker) == Run(t, [], UsageError)
  {
  }

  /** How the script ends, decided by the matches among the candidates of the tree it
      starts from. */
  lemma CompletionOutcome(t: Tree, argv: seq<string>, moveSucceeds: bool, marker: string)
    requires CanComplete(t, argv, marker)
    ensures var r := Completion(t, argv, moveSucceeds, marker);
      var m := Matches(Candidates(t, marker), if |argv| == 0 then "" else argv[0]);
      && (r.outcome == UsageError <==> |argv| == 0)
      && (r.outcome == NoMatch <==> |argv| > 0 && m == {})
      && (r.outcome.Ambiguous? <==> |argv| > 0 && |m| > 1)
      && (r.outcome.Ambiguous? ==> r.outcome.names == m)
      && (r.outcome == MoveFailed <==> |argv| > 0 && |m| == 1 && !moveSucceeds)
      && (r.outcome.Moved? <==> |argv| > 0 && |m| == 1 && moveSucceeds)
      && (r.outcome.Moved? ==> m == {r.outcome.name})
  {
    if |argv| > 0 {
      var arg := argv[0];
      var prepared := AfterMkDir(t, DoneDir);
      MkDirKeepsCandidates(t, marker);
      MkDirPrepares(t, arg, marker);
      var m := Matches(Candidates(t, marker), arg);
      if |m| == 0 {
        LookupNothing(prepared, arg, moveSucceeds, marker);
      } else if |m| > 1 {
        LookupSeveral(prepared, arg, moveSucceeds, marker);
      } else {
        var n :| n in m;
        SingletonHasOneElement(m, n);
        LookupUnique(prepared, arg, moveSucceeds, marker, n);
      }
    }
  }

  /** A completion that moves nothing keeps every existing entry as it was, adds at most
      the done directory, and makes no git request. */
  lemma FailedCompletionChangesNothing(t: Tree, argv: seq<string>, moveSucceeds: bool, marker: string)
    requires CanComplete(t, argv, marker)
    ensures var r := Completion(t, argv, moveSucceeds, marker);
      !r.outcome.Moved? ==>
        && r.requests == []
        && r.tree.Keys <= t.Keys + {DoneDir}
        && (forall p :: p in t ==> p in r.tree && r.tree[p] == t[p])
        && (|argv| == 0 ==> r.tree == t)
  {
    if |argv| > 0 {
      var arg := argv[0];
      var prepared := AfterMkDir(t, DoneDir);
      MkDirPrepares(t, arg, marker);
      var m := Matches(Candidates(prepared, marker), arg);
      if |m| == 0 {
        LookupNothing(prepared, arg, moveSucceeds, marker);
      } else if |m| > 1 {
        LookupSeveral(prepared, arg, moveSucceeds, marker);
      } else {
        var n :| n in m;
        SingletonHasOneElement(m, n);
        LookupUnique(prepared, arg, moveSucceeds, marker, n);
      }
    }
  }

  /** A unique match whose move goes through: the file leaves the open directory and
      appears with the same content, under the same name, in the done directory; nothing
      else changes but the done directory's creation; git is asked to stage the old path,
      then the new one, then to commit with the argument (not the file name). */
  lemma UniqueMatchIsMoved(t: Tree, argv: seq<string>, marker: string, n: Name)
    requires CanComplete(t, argv, marker) && |argv| > 0
    requires Matches(Candidates(t, marker), argv[0]) == {n}
    ensures var r := Completion(t, argv, true, marker);
      var src, dst := TodoDir + [n], DoneDir + [n];
      && r.outcome == Moved(n)
      && IsFile(t, src) && src !in r.tree && dst in r.tree && r.tree[dst] == t[src]
      && r.tree.Keys == t.Keys - {src} + {DoneDir, dst}
      && (forall p :: p in t && p != src && p != dst ==> r.tree[p] == t[p])
      && r.requests == [Add(src), Add(dst), Commit(CommitPrefix + argv[0])]
  {
    var prepared := AfterMkDir(t, DoneDir);
    MkDirKeepsCandidates(t, marker);
    MkDirPrepares(t, argv[0], marker);
    LookupUnique(prepared, argv[0], true, marker, n);
  }

  /** Once an argument is given the done directory exists afterwards, whatever the lookup
      found. */
  lemma DoneDirectoryExists(t: Tree, argv: seq<string>, moveSucceeds: bool, marker: string)
    requires CanComplete(t, argv, marker) && |argv| > 0
    ensures IsDir(Completion(t, argv, moveSucceeds, marker).tree, DoneDir)
  {
    var prepared := AfterMkDir(t, DoneDir);
    MkDirPrepares(t, argv[0], marker);
    var m := Matches(Candidates(prepared, marker), argv[0]);
    if |m| == 1 {
      var n :| n in m;
      SingletonHasOneElement(m, n);
      LookupUnique(prepared, argv[0], moveSucceeds, marker, n);
    }
  }

  /** The script itself, on the file table. */
  method Complete(fs: FileTable, argv: seq<string>, moveSucceeds: bool) returns (outcome: Outcome)
    requires fs.Valid() && CanComplete(fs.tree, argv, Marker)
    modifies fs
    ensures fs.Valid()
    ensures var r := Completion(old(fs.tree), argv, moveSucceeds, Marker);
      fs.tree == r.tree && fs.log == old(fs.log) + r.requests && outcome == r.outcome
  {
    if |argv| == 0 {
      assert fs.log + [] == fs.log;
      return UsageError;
    }
    MkDirPrepares(fs.tree, argv[0], Marker);
    assert Parent(DoneDir) == TodoDir;
    fs.MkDir(DoneDir);
    outcome := LookUpAndMove(fs, argv[0], moveSucceeds);
  }

  /** The lookup and the move, on the file table. */
  method LookUpAndMove(fs: FileTable, arg: string, moveSucceeds: bool) returns (outcome: Outcome)
    requires fs.Valid() && Prepared(fs.tree) && DestinationFree(fs.tree, arg, Marker)
    modifies fs
    ensures fs.Valid()
    ensures var r := Lookup(old(fs.tree), arg, moveSucceeds, Marker);
      fs.tree == r.tree && fs.log == old(fs.log) + r.requests && outcome == r.outcome
  {
    var matched := Matches(Candidates(fs.tree, Marker), arg);
    if |matched| == 0 {
      LookupNothing(fs.tree, arg, moveSucceeds, Marker);
      assert fs.log + [] == fs.log;
      return NoMatch;
    }
    if |matched| > 1 {
      LookupSeveral(fs.tree, arg, moveSucceeds, Marker);
      assert fs.log + [] == fs.log;
      return Ambiguous(matched);
    }
    var file :| file in matched;
    SingletonHasOneElement(matched, file);
    LookupUnique(fs.tree, arg, moveSucceeds, Marker, file);
    outcome := MoveToDone(fs, file, arg, moveSucceeds);
  }

  /** The move of the unique match and the git requests after it, on the file table. */
  method MoveToDone(fs: FileTable, n: Name, arg: string, moveSucceeds: bool) returns (outcome: Outcome)
    requires fs.Valid() && IsDir(fs.tree, DoneDir)
    requires IsFile(fs.tree, TodoDir + [n]) && !IsDir(fs.tree, DoneDir + [n])
    modifies fs
    ensures fs.Valid()
    ensures var src, dst := TodoDir + [n], DoneDir + [n];
      if moveSucceeds then
        && fs.tree == AfterMove(old(fs.tree), src, dst)
        && fs.log == old(fs.log) + [Add(src), Add(dst), Commit(CommitPrefix + arg)]
        && outcome == Moved(n)
      else
        fs.tree == old(fs.tree) && fs.log == old(fs.log) && outcome == MoveFailed
  {
    if !moveSucceeds {
      return MoveFailed;
    }
    var src, dst := TodoDir + [n], DoneDir + [n];
    assert Parent(dst) == DoneDir;
    fs.Move(src, dst);
    ghost var log0 := fs.log;
    fs.RequestAdd(src);
    fs.RequestAdd(dst);
    fs.RequestCommit(CommitPrefix + arg);
    assert log0 + [Add(src)] + [Add(dst)] + [Commit(CommitPrefix + arg)]
        == log0 + [Add(src), Add(dst), Commit(CommitPrefix + arg)];
    return Moved(n);
  }
}
