/**
 * The notification rules of the four scans, as functions of the fetched data,
 * the look-back boundary and the configured user. Each scan walks the
 * configured repositories in order and emits, per repository, the events of
 * that repository in fetch order; the run emits the four scans one after the
 * other, all with the same boundary.
 */
module Detectors {
  import opened Wrappers
  import opened Seqs
  import opened Text
  import opened Records

  /** The length `truncateText` is called with. */
  const BodyPreviewLength: nat := 100

  // ---------------------------------------------------------------------
  // Review requests

  /** `prDetail.data.requested_reviewers || []`. */
  function Reviewers(p: PullWithDetail): seq<string> {
    p.requestedReviewers.GetOr([])
  }

  /** Some requested reviewer's login is the user's, ignoring case. */
  predicate IsRequestedFor(p: PullWithDetail, user: string) {
    exists login :: login in Reviewers(p) && SameLogin(login, user)
  }

  predicate NotifiesReviewRequest(p: PullWithDetail, boundary: Time, user: string) {
    IsRequestedFor(p, user) && p.pr.updatedAt > boundary
  }

  function ReviewRequestEvent(repo: string, p: PullWithDetail): Event {
    Event(ReviewRequested, "PR: " + p.pr.title, p.pr.htmlUrl, p.pr.author, repo)
  }

  function ReviewRequestTest(boundary: Time, user: string): PullWithDetail -> bool {
    (p: PullWithDetail) => NotifiesReviewRequest(p, boundary, user)
  }

  function ReviewRequestEventOf(repo: string): PullWithDetail -> Event {
    (p: PullWithDetail) => ReviewRequestEvent(repo, p)
  }

  /** What the loop body does with one pull request. */
  function ReviewRequestStep(repo: string, boundary: Time, user: string): PullWithDetail -> seq<Event> {
    (p: PullWithDetail) => if NotifiesReviewRequest(p, boundary, user) then [ReviewRequestEvent(repo, p)] else []
  }

  function RepoReviewRequests(boundary: Time, user: string): RepoSnapshot -> seq<Event> {
    (r: RepoSnapshot) => FlatMap(r.openPulls, ReviewRequestStep(RepoLabel(r.fullName), boundary, user))
  }

  /** `checkForReviewRequests`. */
  function ReviewRequestEvents(repos: seq<RepoSnapshot>, boundary: Time, user: string): seq<Event> {
    FlatMap(repos, RepoReviewRequests(boundary, user))
  }

  // ---------------------------------------------------------------------
  // New reviews on my pull requests

  /** `new Date(review.submitted_at) > lastCheckedTime`; a missing time compares false. */
  predicate IsNewReview(r: Review, boundary: Time) {
    r.submittedAt.Some? && r.submittedAt.value > boundary
  }

  function NewReviewTest(boundary: Time): Review -> bool {
    (r: Review) => IsNewReview(r, boundary)
  }

  /** `reviews.data.filter(...)`. */
  function NewReviews(reviews: seq<Review>, boundary: Time): seq<Review> {
    Filter(reviews, NewReviewTest(boundary))
  }

  function ReviewEvent(repo: string, pr: PullRequest, r: Review): Event {
    Event(ReviewSubmitted, "PR: " + pr.title + " - " + ReviewStateEmoji(r.state) + " " + r.state,
          r.htmlUrl, r.author, repo)
  }

  function ReviewEventOf(repo: string, pr: PullRequest): Review -> Event {
    (r: Review) => ReviewEvent(repo, pr, r)
  }

  function PullReviewEvents(repo: string, boundary: Time): PullWithReviews -> seq<Event> {
    (p: PullWithReviews) => Map(NewReviews(p.reviews, boundary), ReviewEventOf(repo, p.pr))
  }

  function RepoNewReviews(boundary: Time): RepoSnapshot -> seq<Event> {
    (r: RepoSnapshot) => FlatMap(r.myOpenPulls, PullReviewEvents(RepoLabel(r.fullName), boundary))
  }

  /** `checkForNewReviews`. */
  function NewReviewEvents(repos: seq<RepoSnapshot>, boundary: Time): seq<Event> {
    FlatMap(repos, RepoNewReviews(boundary))
  }

  // ---------------------------------------------------------------------
  // Issues: assigned, comments on mine, mentioned

  /** `!issue.pull_request`. */
  function PlainIssueTest(): Issue -> bool {
    (i: Issue) => !i.isPullRequest
  }

  /** The notification of an assigned (`IssueAssigned`) or mentioning (`Mentioned`) issue. */
  function ListedIssueEvent(category: Category, repo: string, i: Issue): Event {
    Event(category, "이슈: " + i.title, i.htmlUrl, i.author, repo)
  }

  function ListedIssueEventOf(category: Category, repo: string): Issue -> Event {
    (i: Issue) => ListedIssueEvent(category, repo, i)
  }

  /** What the assigned and the mentioned loops do with one listed item. */
  function ListedIssueStep(category: Category, repo: string): Issue -> seq<Event> {
    (i: Issue) => if !i.isPullRequest then [ListedIssueEvent(category, repo, i)] else []
  }

  /** Created after the boundary by someone other than the user. */
  predicate IsNewForeignComment(c: IssueComment, boundary: Time, user: string) {
    c.createdAt > boundary && !SameLogin(c.author, user)
  }

  function NewForeignCommentTest(boundary: Time, user: string): IssueComment -> bool {
    (c: IssueComment) => IsNewForeignComment(c, boundary, user)
  }

  function IssueCommentEvent(repo: string, i: Issue, c: IssueComment): Event {
    Event(IssueCommented, "이슈: " + i.title + "\n" + TruncateText(c.body, BodyPreviewLength),
          c.htmlUrl, c.author, repo)
  }

  function IssueCommentEventOf(repo: string, i: Issue): IssueComment -> Event {
    (c: IssueComment) => IssueCommentEvent(repo, i, c)
  }

  /** One of my issues: nothing for a pull request, else one event per new foreign comment. */
  function MyIssueStep(repo: string, boundary: Time, user: string): IssueWithComments -> seq<Event> {
    (w: IssueWithComments) => if !w.issue.isPullRequest
                                 then Map(Filter(w.comments, NewForeignCommentTest(boundary, user)), IssueCommentEventOf(repo, w.issue))
                                 else []
  }

  function RepoIssueEvents(boundary: Time, user: string): RepoSnapshot -> seq<Event> {
    (r: RepoSnapshot) =>
      var repo := RepoLabel(r.fullName);
      FlatMap(r.assignedIssues, ListedIssueStep(IssueAssigned, repo))
        + FlatMap(r.myIssues, MyIssueStep(repo, boundary, user))
        + FlatMap(r.mentionedIssues, ListedIssueStep(Mentioned, repo))
  }

  /** `checkForNewIssuesAndComments`. */
  function IssueEvents(repos: seq<RepoSnapshot>, boundary: Time, user: string): seq<Event> {
    FlatMap(repos, RepoIssueEvents(boundary, user))
  }

  // ---------------------------------------------------------------------
  // Discussions

  /** `discussionsResponse.data.data.repository?.discussions?.nodes || []`. */
  function Discussions(r: RepoSnapshot): seq<Discussion> {
    r.discussions.GetOr([])
  }

  /** `discussion.comments.nodes || []`. */
  function Comments(d: Discussion): seq<DiscussionComment> {
    d.comments.GetOr([])
  }

  /** `comments.some(...)`: the user wrote a comment of the page strictly before time `t`. */
  predicate UserCommentedBefore(comments: seq<DiscussionComment>, user: string, t: Time) {
    exists c :: c in comments && SameLogin(c.author, user) && c.createdAt < t
  }

  function DiscussionCommentEvent(category: Category, repo: string, d: Discussion, c: DiscussionComment): Event {
    Event(category, "디스커션: " + d.title + "\n" + TruncateText(Some(c.bodyText), BodyPreviewLength),
          c.url, c.author, repo)
  }

  /** What the inner loop does with one comment of discussion `d`. */
  function DiscussionCommentStep(repo: string, d: Discussion, boundary: Time, user: string): DiscussionComment -> seq<Event> {
    (c: DiscussionComment) =>
      if c.createdAt > boundary && !SameLogin(c.author, user) then
        if SameLogin(d.author, user) then [DiscussionCommentEvent(CommentOnMyDiscussion, repo, d, c)]
        else if UserCommentedBefore(Comments(d), user, c.createdAt) then
          [DiscussionCommentEvent(CommentOnParticipatedDiscussion, repo, d, c)]
        else []
      else []
  }

  function NewDiscussionEvents(repo: string, d: Discussion, boundary: Time, user: string): seq<Event> {
    if d.createdAt > boundary && !SameLogin(d.author, user) then
      [Event(DiscussionCreated, "디스커션: " + d.title, d.url, d.author, repo)]
    else []
  }

  /** One discussion: possibly its own event, then the events of its comments in page order. */
  function DiscussionStep(repo: string, boundary: Time, user: string): Discussion -> seq<Event> {
    (d: Discussion) => NewDiscussionEvents(repo, d, boundary, user) + FlatMap(Comments(d), DiscussionCommentStep(repo, d, boundary, user))
  }

  function RepoDiscussionEvents(boundary: Time, user: string): RepoSnapshot -> seq<Event> {
    (r: RepoSnapshot) => FlatMap(Discussions(r), DiscussionStep(RepoLabel(r.fullName), boundary, user))
  }

  /** `checkForNewDiscussions`. */
  function DiscussionEvents(repos: seq<RepoSnapshot>, boundary: Time, user: string): seq<Event> {
    FlatMap(repos, RepoDiscussionEvents(boundary, user))
  }

  // ---------------------------------------------------------------------
  // The whole run

  /** `main`: the four scans in order, sharing one boundary. */
  function RunEvents(repos: seq<RepoSnapshot>, boundary: Time, user: string): seq<Event> {
    ReviewRequestEvents(repos, boundary, user)
      + NewReviewEvents(repos, boundary)
      + IssueEvents(repos, boundary, user)
      + DiscussionEvents(repos, boundary, user)
  }
}
