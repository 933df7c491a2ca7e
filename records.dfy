/**
 * The records the hosting API returns, reduced to the fields the detectors
 * read, and the notification events the detectors emit. Timestamps are
 * integers on one clock; the look-back boundary is one of them.
 */
module Records {
  import opened Wrappers

  type Time = int

  /** An entry of the open pull-request list: `number`, `title`, `html_url`, `user.login`, `updated_at`. */
  datatype PullRequest = PullRequest(number: nat, title: string, htmlUrl: string, author: string, updatedAt: Time)

  /**
   * A pull request together with the logins in `requested_reviewers` of its
   * detail record; `None` when the detail has no such field.
   */
  datatype PullWithDetail = PullWithDetail(pr: PullRequest, requestedReviewers: Option<seq<string>>)

  /**
   * A submitted review; `submittedAt` is `None` when `submitted_at` is missing
   * or unparsable (an invalid date). A `null` `submitted_at` parses as the
   * epoch, so it is `Some(0)`: it counts only when the boundary is negative.
   */
  datatype Review = Review(author: string, state: string, submittedAt: Option<Time>, htmlUrl: string)

  /** An entry of the open-pull-request list fetched with the user as `creator`, and the list of its reviews. */
  datatype PullWithReviews = PullWithReviews(pr: PullRequest, reviews: seq<Review>)

  /** An issue-list entry; `isPullRequest` records whether it carries a `pull_request` marker. */
  datatype Issue = Issue(title: string, htmlUrl: string, author: string, isPullRequest: bool)

  /** A comment of an issue; `body` is `None` when the body is null. */
  datatype IssueComment = IssueComment(author: string, body: Option<string>, createdAt: Time, htmlUrl: string)

  /** One of my issues and the comment list fetched from its `comments_url`. */
  datatype IssueWithComments = IssueWithComments(issue: Issue, comments: seq<IssueComment>)

  datatype DiscussionComment = DiscussionComment(author: string, bodyText: string, createdAt: Time, url: string)

  /** A discussion and its fetched page of comments; `comments` is `None` when `comments.nodes` is null. */
  datatype Discussion = Discussion(title: string, url: string, author: string, createdAt: Time,
                                   comments: Option<seq<DiscussionComment>>)

  /**
   * Everything one run fetches for one configured repository `fullName`:
   * - `openPulls`: the open pull requests, each with its detail;
   * - `myOpenPulls`: the open pull requests the call with `creator` set to the user returned, each with its reviews;
   * - `assignedIssues`: open issues assigned to the user, updated since the boundary;
   * - `myIssues`: all issues created by the user, each with its comments;
   * - `mentionedIssues`: all issues mentioning the user, updated since the boundary;
   * - `discussions`: `repository.discussions.nodes` of the query answer, `None` when
   *   the repository, its discussions or the node list is missing.
   */
  datatype RepoSnapshot = RepoSnapshot(
    fullName: string,
    openPulls: seq<PullWithDetail>,
    myOpenPulls: seq<PullWithReviews>,
    assignedIssues: seq<Issue>,
    myIssues: seq<IssueWithComments>,
    mentionedIssues: seq<Issue>,
    discussions: Option<seq<Discussion>>)

  /** The kinds of notification, one per notification site of the checker. */
  datatype Category =
    | ReviewRequested
    | ReviewSubmitted
    | IssueAssigned
    | IssueCommented
    | Mentioned
    | DiscussionCreated
    | CommentOnMyDiscussion
    | CommentOnParticipatedDiscussion
  {
    /** The fixed notification title of each kind. */
    function Title(): string {
      match this
      case ReviewRequested => "🔍 새 PR 리뷰 요청이 왔습니다"
      case ReviewSubmitted => "⚠️ PR에 새 리뷰가 등록되었습니다"
      case IssueAssigned => "📌 새 이슈가 할당되었습니다"
      case IssueCommented => "💬 이슈에 새 댓글이 등록되었습니다"
      case Mentioned => "🔔 이슈에서 언급되었습니다"
      case DiscussionCreated => "📣 새 디스커션이 생성되었습니다"
      case CommentOnMyDiscussion => "💬 내 디스커션에 새 댓글이 등록되었습니다"
      case CommentOnParticipatedDiscussion => "💬 내가 참여한 디스커션에 새 댓글이 등록되었습니다"
    }
  }

  /** The data handed to the notification sink: title (by category), description, link, author, repository label. */
  datatype Event = Event(category: Category, description: string, url: string, author: string, repo: string) {
    function Title(): string {
      category.Title()
    }
  }

  /** The categories whose rules suppress items authored by the user. */
  predicate IsSelfSuppressed(c: Category) {
    c == IssueCommented || c == DiscussionCreated || c == CommentOnMyDiscussion || c == CommentOnParticipatedDiscussion
  }
}
