/** The records of the issue tracker: issues, their locations and
    comments (the shapes of the `Issue` and `Comment` types and of their
    Mongoose schemas). */
module IssueTypes {
  import opened Common

  /** Store-assigned identities; user ids come from the session. */
  type IssueId = nat
  type CommentId = nat
  type UserId = string

  /** The lifecycle states. */
  datatype Status = Open | InProgress | Resolved | Closed

  datatype Location = Location(latitude: real, longitude: real, address: string)

  /** An issue document. `upvotes` and `upvotedBy` are optional in the
      record type (older documents may lack them); readers default them to
      0 and []. `resolutionUploadUrls` carries its schema default []. */
  datatype Issue = Issue(
    id: IssueId,
    status: Status,
    userId: UserId,
    title: string,
    description: string,
    uploadUrls: seq<string>,
    category: string,
    location: Location,
    upvotes: Option<int>,
    upvotedBy: Option<seq<UserId>>,
    resolutionMessage: Option<string>,
    resolutionUploadUrls: seq<string>,
    resolvedAt: Option<int>,
    createdAt: int,
    updatedAt: int)

  /** What a report submission hands to the store. */
  datatype IssueData = IssueData(
    status: Status,
    userId: UserId,
    title: string,
    description: string,
    uploadUrls: seq<string>,
    category: string,
    location: Location)

  datatype Comment = Comment(
    id: CommentId,
    issueId: IssueId,
    userId: UserId,
    comment: string,
    uploadUrls: seq<string>,
    isAdmin: bool,
    createdAt: int)

  /** What a comment submission hands to the store. */
  datatype CommentData = CommentData(
    issueId: IssueId,
    userId: UserId,
    comment: string,
    uploadUrls: seq<string>,
    isAdmin: bool)

  /** `issue.upvotes || 0`. */
  function Upvotes(i: Issue): int {
    i.upvotes.GetOr(0)
  }

  /** `issue.upvotedBy || []`. */
  function Voters(i: Issue): seq<UserId> {
    i.upvotedBy.GetOr([])
  }

  /** The store's invariant on votes: each voter appears once and the
      count equals the number of voters. */
  predicate VotesConsistent(i: Issue) {
    NoDup(Voters(i)) && Upvotes(i) == |Voters(i)|
  }
}
