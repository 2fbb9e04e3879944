/**
 The shapes of the GitHub webhook records and REST requests that the checker
 reads and sends. Only the fields the checker touches are kept; every record
 is assumed to be fully present (no nil pointers).
 */
module GitHub {

  datatype Option<+T> = None | Some(value: T)

  /** An error value as returned by a Go call; `message` is its `Error()` text. */
  datatype Error = Error(message: string)

  datatype User = User(login: string)

  datatype Repository = Repository(owner: User, name: string)

  datatype Issue = Issue(number: int, body: string)

  /** An `issues` webhook event: what happened, to which issue, by whom. */
  datatype IssuesEvent = IssuesEvent(action: string, issue: Issue, repo: Repository, sender: User)

  /** The fields of an issue edit request; a field left `None` is not changed
      by the edit. */
  datatype IssueRequest = IssueRequest(
    title: Option<string>,
    body: Option<string>,
    assignee: Option<string>,
    state: Option<string>,
    milestone: Option<int>)

  /** One call made against the issues API, in the order it was issued. */
  datatype Call =
    | CreateComment(owner: string, repo: string, number: int, comment: string)
    | Edit(owner: string, repo: string, number: int, request: IssueRequest)
  {
    /** The (owner, repository, number) triple the call is addressed to. */
    function Target(): (string, string, int)
    {
      (owner, repo, number)
    }
  }

  /** The outcome the API returns for each call the checker can make:
      `None` is success, `Some(e)` the error `e`. */
  datatype CallOutcomes = CallOutcomes(commentErr: Option<Error>, editErr: Option<Error>)
}
