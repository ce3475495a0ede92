/** How the create and complete scripts work together. The two scripts spell their marker
    differently; the round trip is proved for any one marker shared by both, and the
    shipped pair of markers is shown to make a created todo invisible to completion. */
module Workflow {
  import opened Strings
  import opened FileSystem
  import opened Git
  import opened Scripts
  import Done
  import Todo

  /** A file name ending in the todo extension is never the done directory's name. */
  lemma TodoFileIsNotDoneDir(f: Name)
    requires EndsWith(f, TodoExtension)
    ensures TodoDir + [f] != DoneDir
  {
    assert "done"[1] != TodoExtension[0];
    assert f != "done";
    assert (TodoDir + [f])[2] == f;
  }

  /** With one marker for both scripts: creating the todo `name` and then completing with
      `name`, when no other candidate's name contains `name`, moves the freshly templated
      file under the same name into the done directory and out of the open one. */
  lemma CreateThenComplete(t: Tree, name: string, addSucceeds: bool, marker: string)
    requires Done.HasOpenDirectory(t)
    requires TodoDir + [Todo.FileName(name, marker)] !in t
    requires !IsDir(t, DoneDir + [Todo.FileName(name, marker)])
    requires forall n :: n in Done.Candidates(t, marker) ==> !Contains(n, name)
    ensures var created := Todo.Creation(t, [name], addSucceeds, marker);
      var f := Todo.FileName(name, marker);
      && created.outcome == Created(TodoDir + [f])
      && Done.CanComplete(created.tree, [name], marker)
      && (var completed := Done.Completion(created.tree, [name], true, marker);
          && completed.outcome == Moved(f)
          && TodoDir + [f] !in completed.tree
          && DoneDir + [f] in completed.tree
          && completed.tree[DoneDir + [f]] == File(Todo.Template(name, marker))
          && completed.requests == [Add(TodoDir + [f]), Add(DoneDir + [f]), Commit(Done.CommitPrefix + name)])
  {
    var f := Todo.FileName(name, marker);
    var path := TodoDir + [f];
    var content := File(Todo.Template(name, marker));
    var created := Todo.Creation(t, [name], addSucceeds, marker);
    Todo.FreshNameIsCreated(t, [name], addSucceeds, marker);
    assert created.tree == t[path := content];
    Done.DirectEntryCandidates(t, f, content, marker);
    assert Done.Candidates(created.tree, marker) == Done.Candidates(t, marker) + {f};
    TodoFileIsNotDoneDir(f);
    ContainsInfix(marker, name, TodoExtension);
    assert Done.Matches(Done.Candidates(created.tree, marker), name) == {f};
    assert !IsDir(created.tree, DoneDir + [f]) by {
      assert DoneDir + [f] != path;
    }
    assert Done.CanComplete(created.tree, [name], marker);
    Done.UniqueMatchIsMoved(created.tree, [name], marker, f);
  }

  /** With the markers as the two scripts spell them, a file name built by the create
      script never starts with the marker the complete script filters on. */
  lemma CreatedNameIsNeverCandidate(name: string)
    ensures !Done.IsTodoFileName(Todo.FileName(name, Todo.Marker), Done.Marker)
  {
    var f := Todo.FileName(name, Todo.Marker);
    assert f[0] == Todo.Marker[0];
  }

  /** As shipped: creating `name` and then completing with `name`, when no earlier
      candidate contains `name`, ends in "no match", and the created file stays in the
      open directory. */
  lemma ShippedCreateThenCompleteFindsNothing(t: Tree, name: string, addSucceeds: bool, moveSucceeds: bool)
    requires Done.HasOpenDirectory(t)
    requires forall n :: n in Done.Candidates(t, Done.Marker) ==> !Contains(n, name)
    ensures var created := Todo.Creation(t, [name], addSucceeds, Todo.Marker);
      var f := Todo.FileName(name, Todo.Marker);
      && Done.CanComplete(created.tree, [name], Done.Marker)
      && (var completed := Done.Completion(created.tree, [name], moveSucceeds, Done.Marker);
          && completed.outcome == NoMatch
          && completed.requests == []
          && TodoDir + [f] in completed.tree
          && completed.tree[TodoDir + [f]] == created.tree[TodoDir + [f]])
  {
    var f := Todo.FileName(name, Todo.Marker);
    var path := TodoDir + [f];
    var created := Todo.Creation(t, [name], addSucceeds, Todo.Marker);
    CreatedNameIsNeverCandidate(name);
    TodoFileIsNotDoneDir(f);
    if path !in t {
      var content := File(Todo.Template(name, Todo.Marker));
      Todo.FreshNameIsCreated(t, [name], addSucceeds, Todo.Marker);
      assert created.tree == t[path := content];
      Done.DirectEntryCandidates(t, f, content, Done.Marker);
    }
    assert Done.Candidates(created.tree, Done.Marker) <= Done.Candidates(t, Done.Marker);
    assert Done.Matches(Done.Candidates(created.tree, Done.Marker), name) == {};
    forall m ensures Done.Matches(Done.Candidates(created.tree, Done.Marker), name) != {m} {
      assert m in {m};
    }
    assert Done.CanComplete(created.tree, [name], Done.Marker);
    Done.CompletionOutcome(created.tree, [name], moveSucceeds, Done.Marker);
    Done.FailedCompletionChangesNothing(created.tree, [name], moveSucceeds, Done.Marker);
  }
}
