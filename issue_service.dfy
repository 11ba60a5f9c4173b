/** The issue mutations of the service layer: create, look up, comment,
    change status, delete with cascade, and the upvote toggle. The issue
    and comment collections become an in-memory store object whose fields
    the operations update in place. */
module IssueService {
  import opened Common
  import opened IssueTypes
  import Sorting

  const IssueNotFound := "Issue not found"
  const UpdateDenied := "You don't have permission to update this issue"
  const DeleteDenied := "You don't have permission to delete this issue"

  /** Only an admin or the issue's owner may change or delete it. */
  predicate MayModify(i: Issue, userId: UserId, isAdmin: bool) {
    isAdmin || i.userId == userId
  }

  /** The record `createIssue` stores: the submitted fields, the schema
      defaults, and both timestamps equal to `now`. */
  function NewIssue(id: IssueId, data: IssueData, now: int): (r: Issue)
    ensures r.id == id && r.status == data.status && r.userId == data.userId
    ensures r.title == data.title && r.description == data.description
    ensures r.category == data.category && r.location == data.location && r.uploadUrls == data.uploadUrls
    ensures r.createdAt == now && r.updatedAt == now
    ensures Upvotes(r) == 0 && Voters(r) == [] && VotesConsistent(r)
    ensures r.resolutionMessage.None? && r.resolvedAt.None? && r.resolutionUploadUrls == []
  {
    Issue(id, data.status, data.userId, data.title, data.description, data.uploadUrls,
          data.category, data.location, Some(0), Some([]), None, [], None, now, now)
  }

  /** The upvote toggle on one record: a voter already present is removed
      (every occurrence) and the count drops, floored at 0; otherwise the
      voter is appended and the count rises. Nothing else but `updatedAt`
      changes. */
  function ToggleUpvote(i: Issue, u: UserId, now: int): (r: Issue)
    ensures r == i.(upvotedBy := r.upvotedBy, upvotes := r.upvotes, updatedAt := now)
    ensures u in Voters(i) ==>
              && Voters(r) == RemoveAll(Voters(i), u)
              && u !in Voters(r)
              && (forall v :: v != u ==> (v in Voters(r) <==> v in Voters(i)))
              && Upvotes(r) == (if Upvotes(i) >= 1 then Upvotes(i) - 1 else 0)
    ensures u !in Voters(i) ==> Voters(r) == Voters(i) + [u] && Upvotes(r) == Upvotes(i) + 1
  {
    var voters := Voters(i);
    if u in voters then
      var count := Upvotes(i) - 1;
      i.(upvotedBy := Some(RemoveAll(voters, u)),
         upvotes := Some(if count < 0 then 0 else count),
         updatedAt := now)
    else
      i.(upvotedBy := Some(voters + [u]), upvotes := Some(Upvotes(i) + 1), updatedAt := now)
  }

  /** Toggling twice from a state without the voter restores the voter list
      and the count. */
  lemma ToggleTwiceRestores(i: Issue, u: UserId, t1: int, t2: int)
    requires u !in Voters(i) && Upvotes(i) >= 0
    ensures Voters(ToggleUpvote(ToggleUpvote(i, u, t1), u, t2)) == Voters(i)
    ensures Upvotes(ToggleUpvote(ToggleUpvote(i, u, t1), u, t2)) == Upvotes(i)
  {
    var once := ToggleUpvote(i, u, t1);
    assert Voters(once) == Voters(i) + [u];
    RemoveAllAppended(Voters(i), u);
  }

  lemma {:induction false} RemoveAllAppended(s: seq<UserId>, u: UserId)
    requires u !in s
    ensures RemoveAll(s + [u], u) == s
  {
    if s == [] {
      assert [] + [u] == [u];
      assert [u][1..] == [];
    } else {
      assert (s + [u])[1..] == s[1..] + [u];
      RemoveAllAppended(s[1..], u);
      assert s == [s[0]] + s[1..];
    }
  }

  /** The toggle keeps the store's vote invariant: voters stay unique and
      the count stays equal to their number. */
  lemma ToggleKeepsVotesConsistent(i: Issue, u: UserId, now: int)
    requires VotesConsistent(i)
    ensures VotesConsistent(ToggleUpvote(i, u, now))
  {
    var voters := Voters(i);
    if u in voters {
      RemoveAllNoDup(voters, u);
      RemoveAllPresentLength(voters, u);
    } else {
      var r := voters + [u];
      forall a, b | 0 <= a < b < |r| ensures r[a] != r[b] {
        if b == |voters| {
          assert r[a] == voters[a];
        } else {
          assert r[a] == voters[a] && r[b] == voters[b];
        }
      }
    }
  }

  /** The record after `updateIssueStatus` succeeds. */
  function ApplyStatus(i: Issue, status: Status, message: Option<string>,
                       urls: Option<seq<string>>, now: int): (r: Issue)
    ensures r.status == status && r.updatedAt == now
    ensures status == Resolved ==> r.resolvedAt == Some(now)
    ensures status == Resolved ==>
              r.resolutionMessage == (if Truthy(message) then message else i.resolutionMessage)
    ensures status == Resolved ==>
              r.resolutionUploadUrls == (if urls.Some? then urls.value else i.resolutionUploadUrls)
    ensures status != Resolved ==>
              r == i.(status := status, updatedAt := now)
    ensures r == i.(status := status, updatedAt := now, resolvedAt := r.resolvedAt,
                    resolutionMessage := r.resolutionMessage,
                    resolutionUploadUrls := r.resolutionUploadUrls)
  {
    var changed := i.(status := status, updatedAt := now);
    if status == Resolved then
      changed.(resolvedAt := Some(now),
               resolutionMessage := if Truthy(message) then message else i.resolutionMessage,
               resolutionUploadUrls := if urls.Some? then urls.value else i.resolutionUploadUrls)
    else changed
  }

  /** The comments `updateIssueStatus` creates: exactly one when the new
      status is resolved and a non-empty resolution message is given,
      authored by the caller with the caller's admin flag. */
  function ResolutionComments(commentId: CommentId, issueId: IssueId, userId: UserId, isAdmin: bool,
                              status: Status, message: Option<string>, urls: Option<seq<string>>,
                              now: int): (r: seq<Comment>)
    ensures |r| <= 1
    ensures |r| == 1 <==> status == Resolved && Truthy(message)
    ensures |r| == 1 ==>
              && r[0].id == commentId && r[0].issueId == issueId
              && r[0].userId == userId && r[0].isAdmin == isAdmin
              && r[0].comment == message.value && r[0].uploadUrls == urls.GetOr([])
              && r[0].createdAt == now
  {
    if status == Resolved && Truthy(message) then
      [Comment(commentId, issueId, userId, message.value, urls.GetOr([]), isAdmin, now)]
    else []
  }

  /** The comment collection after the cascade of a delete. */
  function CommentsWithout(cs: seq<Comment>, issueId: IssueId): (r: seq<Comment>)
    ensures forall k :: 0 <= k < |r| ==> r[k].issueId != issueId
    ensures forall c :: c in r <==> c in cs && c.issueId != issueId
  {
    Filter(cs, (c: Comment) => c.issueId != issueId)
  }

  /** The documents of `m` listed in the order `ids` gives. */
  function DocsOf(ids: seq<IssueId>, m: map<IssueId, Issue>): (docs: seq<Issue>)
    requires forall k :: 0 <= k < |ids| ==> ids[k] in m
    ensures |docs| == |ids|
    ensures forall k :: 0 <= k < |ids| ==> docs[k] == m[ids[k]]
  {
    seq(|ids|, k requires 0 <= k < |ids| => m[ids[k]])
  }

  /** `getCommentsByIssueId`'s ordering: newest first. */
  function NewestFirst(a: Comment, b: Comment): bool {
    b.createdAt <= a.createdAt
  }

  /** Sorting one issue's comments counts each of them as often as it is
      stored and no other comment at all. */
  lemma ThreadCounts(comments: seq<Comment>, issueId: IssueId)
    ensures var r := Sorting.SortBy(Filter(comments, (c: Comment) => c.issueId == issueId), NewestFirst);
            forall c :: multiset(r)[c] == if c.issueId == issueId then multiset(comments)[c] else 0
  {
    forall c ensures multiset(Filter(comments, (c: Comment) => c.issueId == issueId))[c] ==
                       if c.issueId == issueId then multiset(comments)[c] else 0 {
      FilterCounts(comments, (c: Comment) => c.issueId == issueId, c);
    }
  }

  lemma NewestFirstIsPreorder()
    ensures Sorting.TotalPreorder(NewestFirst)
  {
  }

  /** Every stored issue is listed once in `order` under its own id, ids
      are below the next fresh id, votes are consistent, and every comment
      refers to a stored issue. */
  ghost predicate StoreInvariant(issues: map<IssueId, Issue>, order: seq<IssueId>,
                                 comments: seq<Comment>, nextIssueId: nat, nextCommentId: nat)
  {
    && NoDup(order)
    && (forall id :: id in issues <==> id in order)
    && (forall id :: id in issues ==>
          issues[id].id == id && id < nextIssueId && VotesConsistent(issues[id]))
    && (forall k :: 0 <= k < |comments| ==>
          comments[k].issueId in issues && comments[k].id < nextCommentId)
  }

  /** Deleting an issue together with its comments keeps the invariant. */
  lemma DeleteKeepsInvariant(issues: map<IssueId, Issue>, order: seq<IssueId>,
                             comments: seq<Comment>, nextIssueId: nat, nextCommentId: nat,
                             id: IssueId)
    requires StoreInvariant(issues, order, comments, nextIssueId, nextCommentId)
    ensures StoreInvariant(issues - {id}, RemoveAll(order, id), CommentsWithout(comments, id),
                           nextIssueId, nextCommentId)
  {
    RemoveAllNoDup(order, id);
    var kept := CommentsWithout(comments, id);
    forall k | 0 <= k < |kept| ensures kept[k].issueId in issues - {id} && kept[k].id < nextCommentId {
      assert kept[k] in kept;
      assert kept[k] in comments;
      var j :| 0 <= j < |comments| && comments[j] == kept[k];
    }
  }

  /** The issue and comment collections. `order` is the natural (insertion)
      order in which an unsorted scan returns the issues. */
  class IssueStore {
    var issues: map<IssueId, Issue>
    var order: seq<IssueId>
    var comments: seq<Comment>
    var nextIssueId: nat
    var nextCommentId: nat

    /** The store invariant over the current fields. */
    ghost predicate Valid()
      reads this
    {
      StoreInvariant(issues, order, comments, nextIssueId, nextCommentId)
    }

    constructor ()
      ensures Valid()
      ensures issues == map[] && order == [] && comments == []
      ensures nextIssueId == 0 && nextCommentId == 0
    {
      issues, order, comments := map[], [], [];
      nextIssueId, nextCommentId := 0, 0;
    }

    /** The issues in scan order. */
    function Documents(): (docs: seq<Issue>)
      requires Valid()
      reads this
      ensures |docs| == |order|
      ensures forall k :: 0 <= k < |docs| ==> docs[k] == issues[order[k]]
      ensures forall i: Issue :: i in docs <==> i.id in issues && issues[i.id] == i
    {
      var docs := DocsOf(order, issues);
      assert forall i: Issue :: i in docs ==> i.id in issues && issues[i.id] == i by {
        forall i: Issue | i in docs ensures i.id in issues && issues[i.id] == i {
          var k :| 0 <= k < |docs| && docs[k] == i;
          assert order[k] in issues;
        }
      }
      assert forall i: Issue :: i.id in issues && issues[i.id] == i ==> i in docs by {
        forall i: Issue | i.id in issues && issues[i.id] == i ensures i in docs {
          var k :| 0 <= k < |order| && order[k] == i.id;
          assert docs[k] == i;
        }
      }
      docs
    }

    /** `getIssue`: the stored record, or NotFound. */
    function GetIssue(id: IssueId): (r: Result<Issue>)
      reads this
      ensures r.Ok? <==> id in issues
      ensures r.Ok? ==> r.value == issues[id]
      ensures r.Err? ==> r.error == NotFound(IssueNotFound)
    {
      if id in issues then Ok(issues[id]) else Err(NotFound(IssueNotFound))
    }

    /** `getCommentsByIssueId` without the name join: the issue's comments,
        newest first. */
    function CommentsOf(issueId: IssueId): (r: seq<Comment>)
      reads this
      ensures forall k :: 0 <= k < |r| ==> r[k].issueId == issueId
      ensures forall c :: c in r <==> c in comments && c.issueId == issueId
      ensures forall a, b :: 0 <= a < b < |r| ==> r[b].createdAt <= r[a].createdAt
      ensures forall c :: multiset(r)[c] == if c.issueId == issueId then multiset(comments)[c] else 0
    {
      var mine := Filter(comments, (c: Comment) => c.issueId == issueId);
      var r := Sorting.SortBy(mine, NewestFirst);
      ThreadCounts(comments, issueId);
      NewestFirstIsPreorder();
      Sorting.SortBySorted(mine, NewestFirst);
      Sorting.SameMembers(r, mine);
      forall k | 0 <= k < |r| ensures r[k].issueId == issueId {
        assert r[k] in r;
        assert r[k] in mine;
      }
      assert forall a, b :: 0 <= a < b < |r| ==> NewestFirst(r[a], r[b]);
      r
    }

    /** `createIssue`: stores a new record under a fresh id. */
    method CreateIssue(data: IssueData, now: int) returns (issue: Issue)
      requires Valid()
      modifies this
      ensures Valid()
      ensures issue == NewIssue(old(nextIssueId), data, now) && issue.id !in old(issues)
      ensures issues == old(issues)[issue.id := issue] && order == old(order) + [issue.id]
      ensures comments == old(comments) && nextCommentId == old(nextCommentId)
      ensures nextIssueId == old(nextIssueId) + 1
    {
      issue := NewIssue(nextIssueId, data, now);
      assert issue.id !in order;
      forall a, b | 0 <= a < b < |order + [issue.id]|
        ensures (order + [issue.id])[a] != (order + [issue.id])[b]
      {
        if b == |order| { assert (order + [issue.id])[a] == order[a]; }
        else { assert (order + [issue.id])[a] == order[a] && (order + [issue.id])[b] == order[b]; }
      }
      issues := issues[issue.id := issue];
      order := order + [issue.id];
      nextIssueId := nextIssueId + 1;
    }

    /** `addComment`: NotFound when the issue is missing, otherwise the
        comment is appended with a fresh id and the current time. */
    method AddComment(data: CommentData, now: int) returns (r: Result<Comment>)
      requires Valid()
      modifies this
      ensures Valid()
      ensures issues == old(issues) && order == old(order) && nextIssueId == old(nextIssueId)
      ensures data.issueId !in old(issues) ==>
                r == Err(NotFound(IssueNotFound))
                && comments == old(comments) && nextCommentId == old(nextCommentId)
      ensures data.issueId in old(issues) ==>
                && r == Ok(Comment(old(nextCommentId), data.issueId, data.userId, data.comment,
                                   data.uploadUrls, data.isAdmin, now))
                && comments == old(comments) + [r.value]
                && nextCommentId == old(nextCommentId) + 1
    {
      var found := GetIssue(data.issueId);
      if found.Err? {
        return Err(found.error);
      }
      var c := Comment(nextCommentId, data.issueId, data.userId, data.comment,
                       data.uploadUrls, data.isAdmin, now);
      comments := comments + [c];
      nextCommentId := nextCommentId + 1;
      r := Ok(c);
    }

    /** `updateIssueStatus`: NotFound, then Unauthorized unless admin or
        owner, both before any change; on success the record gets the new
        status and timestamps and, for a resolution with a message, one
        comment is appended. */
    method UpdateIssueStatus(id: IssueId, status: Status, userId: UserId, isAdmin: bool,
                             message: Option<string>, urls: Option<seq<string>>, now: int)
      returns (r: Result<Issue>)
      requires Valid()
      modifies this
      ensures Valid()
      ensures order == old(order) && nextIssueId == old(nextIssueId)
      ensures id !in old(issues) ==> r == Err(NotFound(IssueNotFound)) && unchanged(this)
      ensures id in old(issues) && !MayModify(old(issues)[id], userId, isAdmin) ==>
                r == Err(Unauthorized(UpdateDenied)) && unchanged(this)
      ensures id in old(issues) && MayModify(old(issues)[id], userId, isAdmin) ==>
                var added := ResolutionComments(old(nextCommentId), id, userId, isAdmin,
                                                status, message, urls, now);
                && r == Ok(ApplyStatus(old(issues)[id], status, message, urls, now))
                && issues == old(issues)[id := r.value]
                && comments == old(comments) + added
                && nextCommentId == old(nextCommentId) + |added|
    {
      var found := GetIssue(id);
      if found.Err? {
        return Err(found.error);
      }
      var issue := found.value;
      if !MayModify(issue, userId, isAdmin) {
        return Err(Unauthorized(UpdateDenied));
      }
      var updated := ApplyStatus(issue, status, message, urls, now);
      var added := ResolutionComments(nextCommentId, id, userId, isAdmin, status, message, urls, now);
      comments := comments + added;
      nextCommentId := nextCommentId + |added|;
      issues := issues[id := updated];
      r := Ok(updated);
    }

    /** `deleteIssue`: NotFound, then Unauthorized unless admin or owner;
        on success the issue and every comment on it are removed and
        nothing else changes. */
    method DeleteIssue(id: IssueId, userId: UserId, isAdmin: bool) returns (r: Result<()>)
      requires Valid()
      modifies this
      ensures Valid()
      ensures nextIssueId == old(nextIssueId) && nextCommentId == old(nextCommentId)
      ensures id !in old(issues) ==> r == Err(NotFound(IssueNotFound)) && unchanged(this)
      ensures id in old(issues) && !MayModify(old(issues)[id], userId, isAdmin) ==>
                r == Err(Unauthorized(DeleteDenied)) && unchanged(this)
      ensures id in old(issues) && MayModify(old(issues)[id], userId, isAdmin) ==>
                && r == Ok(())
                && issues == old(issues) - {id}
                && order == RemoveAll(old(order), id)
                && comments == CommentsWithout(old(comments), id)
    {
      var found := GetIssue(id);
      if found.Err? {
        return Err(found.error);
      }
      if !MayModify(found.value, userId, isAdmin) {
        return Err(Unauthorized(DeleteDenied));
      }
      DeleteKeepsInvariant(issues, order, comments, nextIssueId, nextCommentId, id);
      issues, order, comments := issues - {id}, RemoveAll(order, id), CommentsWithout(comments, id);
      r := Ok(());
    }

    /** `upvoteIssue`: NotFound leaves the store unchanged; otherwise the
        record is replaced by its toggled version. */
    method UpvoteIssue(id: IssueId, userId: UserId, now: int) returns (r: Result<Issue>)
      requires Valid()
      modifies this
      ensures Valid()
      ensures order == old(order) && comments == old(comments)
      ensures nextIssueId == old(nextIssueId) && nextCommentId == old(nextCommentId)
      ensures id !in old(issues) ==> r == Err(NotFound(IssueNotFound)) && issues == old(issues)
      ensures id in old(issues) ==>
                && r == Ok(ToggleUpvote(old(issues)[id], userId, now))
                && issues == old(issues)[id := r.value]
    {
      var found := GetIssue(id);
      if found.Err? {
        return Err(found.error);
      }
      ToggleKeepsVotesConsistent(found.value, userId, now);
      var toggled := ToggleUpvote(found.value, userId, now);
      issues := issues[id := toggled];
      r := Ok(toggled);
    }
  }

  /** Scenario: a user upvotes an issue nobody voted for (0 to 1, voters
      [u]) and then again (back to 0, no voters). */
  lemma UpvoteScenario(i: Issue, u: UserId, t1: int, t2: int)
    requires Voters(i) == [] && Upvotes(i) == 0
    ensures Upvotes(ToggleUpvote(i, u, t1)) == 1 && Voters(ToggleUpvote(i, u, t1)) == [u]
    ensures Upvotes(ToggleUpvote(ToggleUpvote(i, u, t1), u, t2)) == 0
    ensures Voters(ToggleUpvote(ToggleUpvote(i, u, t1), u, t2)) == []
  {
    ToggleTwiceRestores(i, u, t1, t2);
  }
}
