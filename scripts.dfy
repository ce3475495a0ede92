/** What one invocation of a todo script reports and leaves behind. */
module Scripts {
  import opened FileSystem
  import opened Git

  /** How an invocation ends. Matched names are a set, since directory listing order
      is unspecified. */
  datatype Outcome =
    | Created(path: Path)
    | Moved(name: Name)
    | UsageError
    | AlreadyExists(name: Name)
    | NoMatch
    | Ambiguous(names: set<Name>)
    | MoveFailed

  /** The tree after the invocation, the git requests it made (in order) and how it ended. */
  datatype Run = Run(tree: Tree, requests: seq<Request>, outcome: Outcome)

  /** The process exit status: zero exactly on success. */
  function ExitCode(o: Outcome): (code: int)
    ensures code == 0 || code == 1
    ensures code == 0 <==> o.Created? || o.Moved?
  {
    match o
    case Created(_) => 0
    case Moved(_) => 0
    case _ => 1
  }
}
