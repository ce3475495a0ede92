/** Version control as a log of requests. No git process is run: each request is
    recorded, and the outcome of a request the caller branches on is an input. */
module Git {
  import opened FileSystem

  /** `git add <path>` and `git commit -m <message>`. */
  datatype Request = Add(path: Path) | Commit(message: string)

  /** The requests `git_add_and_commit` makes: it always asks to stage `p`, and asks
      for the commit only when staging succeeded. */
  function AddAndCommit(p: Path, message: string, addSucceeds: bool): (r: seq<Request>)
    ensures |r| == (if addSucceeds then 2 else 1)
    ensures r[0] == Add(p)
    ensures Commit(message) in r <==> addSucceeds
  {
    if addSucceeds then [Add(p), Commit(message)] else [Add(p)]
  }
}
