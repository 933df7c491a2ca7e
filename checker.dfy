/**
 * The four scans as the checker runs them: nested loops over the configured
 * repositories and the fetched items, sending one notification at a time. A
 * notification sent is appended to `sent`, so `sent` is the sequence of
 * messages handed to the webhook, in delivery order. Each method is proved to
 * send exactly the events of the matching rule in module Detectors.
 */
module Checker {
  import opened Seqs
  import opened Text
  import opened Records
  import opened Detectors

  /** The pull-request loop of one repository. */
  method NotifyReviewRequests(pulls: seq<PullWithDetail>, repo: string, boundary: Time, user: string)
    returns (sent: seq<Event>)
    ensures sent == FlatMap(pulls, ReviewRequestStep(repo, boundary, user))
  {
    sent := [];
    for j := 0 to |pulls|
      invariant sent == FlatMap(pulls[..j], ReviewRequestStep(repo, boundary, user))
    {
      var p := pulls[j];
      var requestedForMe := IsRequestedFor(p, user);
      if requestedForMe && p.pr.updatedAt > boundary {
        sent := sent + [ReviewRequestEvent(repo, p)];
      }
      FlatMapTake(pulls, j, ReviewRequestStep(repo, boundary, user));
    }
    assert pulls[..|pulls|] == pulls;
  }

  /** `checkForReviewRequests`. */
  method CheckForReviewRequests(repos: seq<RepoSnapshot>, boundary: Time, user: string) returns (sent: seq<Event>)
    ensures sent == ReviewRequestEvents(repos, boundary, user)
  {
    sent := [];
    for k := 0 to |repos|
      invariant sent == FlatMap(repos[..k], RepoReviewRequests(boundary, user))
    {
      var r := repos[k];
      var repoSent := NotifyReviewRequests(r.openPulls, RepoLabel(r.fullName), boundary, user);
      sent := sent + repoSent;
      FlatMapTake(repos, k, RepoReviewRequests(boundary, user));
    }
    assert repos[..|repos|] == repos;
  }

  /** The loop over the new reviews of one pull request. */
  method NotifyReviews(newReviews: seq<Review>, repo: string, pr: PullRequest) returns (sent: seq<Event>)
    ensures sent == Map(newReviews, ReviewEventOf(repo, pr))
  {
    sent := [];
    for i := 0 to |newReviews|
      invariant sent == Map(newReviews[..i], ReviewEventOf(repo, pr))
    {
      sent := sent + [ReviewEvent(repo, pr, newReviews[i])];
      MapTake(newReviews, i, ReviewEventOf(repo, pr));
    }
    assert newReviews[..|newReviews|] == newReviews;
  }

  /** The loop over my open pull requests in one repository. */
  method NotifyPullReviews(pulls: seq<PullWithReviews>, repo: string, boundary: Time) returns (sent: seq<Event>)
    ensures sent == FlatMap(pulls, PullReviewEvents(repo, boundary))
  {
    sent := [];
    for j := 0 to |pulls|
      invariant sent == FlatMap(pulls[..j], PullReviewEvents(repo, boundary))
    {
      var p := pulls[j];
      var newReviews := NewReviews(p.reviews, boundary);
      var pullSent := NotifyReviews(newReviews, repo, p.pr);
      sent := sent + pullSent;
      FlatMapTake(pulls, j, PullReviewEvents(repo, boundary));
    }
    assert pulls[..|pulls|] == pulls;
  }

  /** `checkForNewReviews`. */
  method CheckForNewReviews(repos: seq<RepoSnapshot>, boundary: Time) returns (sent: seq<Event>)
    ensures sent == NewReviewEvents(repos, boundary)
  {
    sent := [];
    for k := 0 to |repos|
      invariant sent == FlatMap(repos[..k], RepoNewReviews(boundary))
    {
      var r := repos[k];
      var repoSent := NotifyPullReviews(r.myOpenPulls, RepoLabel(r.fullName), boundary);
      sent := sent + repoSent;
      FlatMapTake(repos, k, RepoNewReviews(boundary));
    }
    assert repos[..|repos|] == repos;
  }

  /** The first and third sub-scans: one notification per listed item that is not a pull request. */
  method NotifyListedIssues(issues: seq<Issue>, category: Category, repo: string) returns (sent: seq<Event>)
    ensures sent == FlatMap(issues, ListedIssueStep(category, repo))
  {
    sent := [];
    for j := 0 to |issues|
      invariant sent == FlatMap(issues[..j], ListedIssueStep(category, repo))
    {
      var issue := issues[j];
      if !issue.isPullRequest {
        sent := sent + [Event(category, "이슈: " + issue.title, issue.htmlUrl, issue.author, repo)];
      }
      FlatMapTake(issues, j, ListedIssueStep(category, repo));
    }
    assert issues[..|issues|] == issues;
  }

  /** The loop over the new comments by others on one of my issues. */
  method NotifyComments(newComments: seq<IssueComment>, repo: string, issue: Issue) returns (sent: seq<Event>)
    ensures sent == Map(newComments, IssueCommentEventOf(repo, issue))
  {
    sent := [];
    for i := 0 to |newComments|
      invariant sent == Map(newComments[..i], IssueCommentEventOf(repo, issue))
    {
      sent := sent + [IssueCommentEvent(repo, issue, newComments[i])];
      MapTake(newComments, i, IssueCommentEventOf(repo, issue));
    }
    assert newComments[..|newComments|] == newComments;
  }

  /** The second sub-scan: new comments by others on my issues. */
  method NotifyIssueComments(myIssues: seq<IssueWithComments>, repo: string, boundary: Time, user: string)
    returns (sent: seq<Event>)
    ensures sent == FlatMap(myIssues, MyIssueStep(repo, boundary, user))
  {
    sent := [];
    for j := 0 to |myIssues|
      invariant sent == FlatMap(myIssues[..j], MyIssueStep(repo, boundary, user))
    {
      var w := myIssues[j];
      var issueSent: seq<Event> := [];
      if !w.issue.isPullRequest {
        var newComments := Filter(w.comments, NewForeignCommentTest(boundary, user));
        issueSent := NotifyComments(newComments, repo, w.issue);
      }
      assert issueSent == MyIssueStep(repo, boundary, user)(w);
      sent := sent + issueSent;
      FlatMapTake(myIssues, j, MyIssueStep(repo, boundary, user));
    }
    assert myIssues[..|myIssues|] == myIssues;
  }

  /** The three sub-scans of one repository: assigned, then comments on mine, then mentioned. */
  method NotifyRepoIssues(r: RepoSnapshot, boundary: Time, user: string) returns (sent: seq<Event>)
    ensures sent == RepoIssueEvents(boundary, user)(r)
  {
    var repo := RepoLabel(r.fullName);
    var assignedSent := NotifyListedIssues(r.assignedIssues, IssueAssigned, repo);
    var commentSent := NotifyIssueComments(r.myIssues, repo, boundary, user);
    var mentionSent := NotifyListedIssues(r.mentionedIssues, Mentioned, repo);
    sent := assignedSent + commentSent + mentionSent;
  }

  /** `checkForNewIssuesAndComments`. */
  method CheckForNewIssuesAndComments(repos: seq<RepoSnapshot>, boundary: Time, user: string) returns (sent: seq<Event>)
    ensures sent == IssueEvents(repos, boundary, user)
  {
    sent := [];
    for k := 0 to |repos|
      invariant sent == FlatMap(repos[..k], RepoIssueEvents(boundary, user))
    {
      var r := repos[k];
      var repoSent := NotifyRepoIssues(r, boundary, user);
      sent := sent + repoSent;
      FlatMapTake(repos, k, RepoIssueEvents(boundary, user));
    }
    assert repos[..|repos|] == repos;
  }

  /** The comment loop of one discussion. */
  method NotifyDiscussionComments(d: Discussion, repo: string, boundary: Time, user: string) returns (sent: seq<Event>)
    ensures sent == FlatMap(Comments(d), DiscussionCommentStep(repo, d, boundary, user))
  {
    var comments := Comments(d);
    sent := [];
    for i := 0 to |comments|
      invariant sent == FlatMap(comments[..i], DiscussionCommentStep(repo, d, boundary, user))
    {
      var c := comments[i];
      if c.createdAt > boundary && !SameLogin(c.author, user) {
        if SameLogin(d.author, user) {
          sent := sent + [DiscussionCommentEvent(CommentOnMyDiscussion, repo, d, c)];
        } else {
          var userCommented := UserCommentedBefore(comments, user, c.createdAt);
          if userCommented {
            sent := sent + [DiscussionCommentEvent(CommentOnParticipatedDiscussion, repo, d, c)];
          }
        }
      }
      FlatMapTake(comments, i, DiscussionCommentStep(repo, d, boundary, user));
    }
    assert comments[..|comments|] == comments;
  }

  /** The discussion loop of one repository. */
  method NotifyDiscussions(discussions: seq<Discussion>, repo: string, boundary: Time, user: string)
    returns (sent: seq<Event>)
    ensures sent == FlatMap(discussions, DiscussionStep(repo, boundary, user))
  {
    sent := [];
    for j := 0 to |discussions|
      invariant sent == FlatMap(discussions[..j], DiscussionStep(repo, boundary, user))
    {
      var d := discussions[j];
      var announced: seq<Event> := [];
      if d.createdAt > boundary {
        if !SameLogin(d.author, user) {
          announced := [Event(DiscussionCreated, "디스커션: " + d.title, d.url, d.author, repo)];
        }
      }
      var commentSent := NotifyDiscussionComments(d, repo, boundary, user);
      sent := sent + (announced + commentSent);
      FlatMapTake(discussions, j, DiscussionStep(repo, boundary, user));
    }
    assert discussions[..|discussions|] == discussions;
  }

  /** `checkForNewDiscussions`. */
  method CheckForNewDiscussions(repos: seq<RepoSnapshot>, boundary: Time, user: string) returns (sent: seq<Event>)
    ensures sent == DiscussionEvents(repos, boundary, user)
  {
    sent := [];
    for k := 0 to |repos|
      invariant sent == FlatMap(repos[..k], RepoDiscussionEvents(boundary, user))
    {
      var r := repos[k];
      var repoSent := NotifyDiscussions(Discussions(r), RepoLabel(r.fullName), boundary, user);
      sent := sent + repoSent;
      FlatMapTake(repos, k, RepoDiscussionEvents(boundary, user));
    }
    assert repos[..|repos|] == repos;
  }

  /** `main`: the four scans one after the other, all against the same boundary. */
  method RunChecks(repos: seq<RepoSnapshot>, boundary: Time, user: string) returns (sent: seq<Event>)
    ensures sent == RunEvents(repos, boundary, user)
  {
    var requests := CheckForReviewRequests(repos, boundary, user);
    var reviews := CheckForNewReviews(repos, boundary);
    var issues := CheckForNewIssuesAndComments(repos, boundary, user);
    var discussions := CheckForNewDiscussions(repos, boundary, user);
    sent := requests + reviews + issues + discussions;
  }
}
