/**
 * What the notification rules guarantee: for every scan, exactly which fetched
 * items are notified and with what event, the boundary being exclusive, the
 * user's own items being suppressed where the rules say so, and items that are
 * really pull requests never reaching the issue notifications.
 */
module Properties {
  import opened Wrappers
  import opened Seqs
  import opened Text
  import opened Records
  import opened Detectors

  // ---------------------------------------------------------------------
  // Review requests

  /** One repository's review-request events are the notified pull requests, in list order, one event each. */
  lemma RepoReviewRequestsExact(r: RepoSnapshot, boundary: Time, user: string)
    ensures RepoReviewRequests(boundary, user)(r)
         == Map(Filter(r.openPulls, ReviewRequestTest(boundary, user)), ReviewRequestEventOf(RepoLabel(r.fullName)))
  {
    var repo := RepoLabel(r.fullName);
    FlatMapGuarded(r.openPulls, ReviewRequestStep(repo, boundary, user), ReviewRequestTest(boundary, user),
                   ReviewRequestEventOf(repo));
  }

  /**
   * A review-request event is emitted exactly for the pull requests that list
   * the user (in any letter case) among the requested reviewers and were
   * updated strictly after the boundary.
   */
  lemma RepoReviewRequestsIff(r: RepoSnapshot, boundary: Time, user: string, e: Event)
    ensures e in RepoReviewRequests(boundary, user)(r) <==>
      exists p :: p in r.openPulls
        && (exists login :: login in Reviewers(p) && SameLogin(login, user))
        && p.pr.updatedAt > boundary
        && e == Event(ReviewRequested, "PR: " + p.pr.title, p.pr.htmlUrl, p.pr.author, RepoLabel(r.fullName))
  {
    var notified := Filter(r.openPulls, ReviewRequestTest(boundary, user));
    RepoReviewRequestsExact(r, boundary, user);
    MapMember(notified, ReviewRequestEventOf(RepoLabel(r.fullName)), e);
    forall p ensures p in notified <==> p in r.openPulls && NotifiesReviewRequest(p, boundary, user) {
      FilterMember(r.openPulls, ReviewRequestTest(boundary, user), p);
    }
  }

  /** A missing or empty reviewer list, or an update at or before the boundary, gives no event. */
  lemma ReviewRequestNeedsReviewerAndUpdate(repo: string, p: PullWithDetail, boundary: Time, user: string)
    requires p.requestedReviewers == None || p.requestedReviewers == Some([]) || p.pr.updatedAt <= boundary
    ensures ReviewRequestStep(repo, boundary, user)(p) == []
  {
  }

  /** With every pull request updated at or before the boundary the whole scan is silent. */
  lemma ReviewRequestsStale(repos: seq<RepoSnapshot>, boundary: Time, user: string)
    requires forall r, p :: r in repos && p in r.openPulls ==> p.pr.updatedAt <= boundary
    ensures ReviewRequestEvents(repos, boundary, user) == []
  {
    forall r | r in repos ensures RepoReviewRequests(boundary, user)(r) == [] {
      FlatMapNone(r.openPulls, ReviewRequestStep(RepoLabel(r.fullName), boundary, user));
    }
    FlatMapNone(repos, RepoReviewRequests(boundary, user));
  }

  // ---------------------------------------------------------------------
  // New reviews

  /**
   * The reviews reported for one of my pull requests are exactly those
   * submitted strictly after the boundary, whoever wrote them.
   */
  lemma PullReviewEventsIff(repo: string, p: PullWithReviews, boundary: Time, e: Event)
    ensures e in PullReviewEvents(repo, boundary)(p) <==>
      exists rv :: rv in p.reviews && rv.submittedAt.Some? && rv.submittedAt.value > boundary
        && e == Event(ReviewSubmitted, "PR: " + p.pr.title + " - " + ReviewStateEmoji(rv.state) + " " + rv.state,
                      rv.htmlUrl, rv.author, repo)
  {
    MapMember(NewReviews(p.reviews, boundary), ReviewEventOf(repo, p.pr), e);
    forall rv ensures rv in NewReviews(p.reviews, boundary) <==> rv in p.reviews && IsNewReview(rv, boundary) {
      FilterMember(p.reviews, NewReviewTest(boundary), rv);
    }
  }

  /**
   * The new reviews keep the list order: filtering a concatenation filters
   * each part, and a single review is kept exactly when it is new.
   */
  lemma NewReviewsInOrder(a: seq<Review>, b: seq<Review>, rv: Review, boundary: Time)
    ensures NewReviews(a + b, boundary) == NewReviews(a, boundary) + NewReviews(b, boundary)
    ensures NewReviews([rv], boundary) == if IsNewReview(rv, boundary) then [rv] else []
  {
    FilterAppend(a, b, NewReviewTest(boundary));
    FilterSnoc([], rv, NewReviewTest(boundary));
  }

  /** With no review submitted after the boundary the whole scan is silent. */
  lemma NewReviewsStale(repos: seq<RepoSnapshot>, boundary: Time)
    requires forall r, p, rv :: r in repos && p in r.myOpenPulls && rv in p.reviews && rv.submittedAt.Some?
               ==> rv.submittedAt.value <= boundary
    ensures NewReviewEvents(repos, boundary) == []
  {
    forall r | r in repos ensures RepoNewReviews(boundary)(r) == [] {
      var repo := RepoLabel(r.fullName);
      forall p | p in r.myOpenPulls ensures PullReviewEvents(repo, boundary)(p) == [] {
        FilterNone(p.reviews, NewReviewTest(boundary));
      }
      FlatMapNone(r.myOpenPulls, PullReviewEvents(repo, boundary));
    }
    FlatMapNone(repos, RepoNewReviews(boundary));
  }

  // ---------------------------------------------------------------------
  // Issues

  function PlainMyIssueTest(): IssueWithComments -> bool {
    (w: IssueWithComments) => !w.issue.isPullRequest
  }

  /**
   * Every assigned (or mentioning) item that is not a pull request gives
   * exactly one event, in list order.
   */
  lemma ListedIssueEventsExact(category: Category, repo: string, issues: seq<Issue>)
    ensures FlatMap(issues, ListedIssueStep(category, repo))
         == Map(Filter(issues, PlainIssueTest()), ListedIssueEventOf(category, repo))
    ensures |FlatMap(issues, ListedIssueStep(category, repo))| == |Filter(issues, PlainIssueTest())|
  {
    FlatMapGuarded(issues, ListedIssueStep(category, repo), PlainIssueTest(), ListedIssueEventOf(category, repo));
  }

  /**
   * Pull-request exclusion: removing every item with a `pull_request` marker
   * from the three issue lists does not change the issue events.
   */
  lemma IssueEventsIgnorePullRequests(r: RepoSnapshot, boundary: Time, user: string)
    ensures RepoIssueEvents(boundary, user)(r)
         == RepoIssueEvents(boundary, user)(r.(assignedIssues := Filter(r.assignedIssues, PlainIssueTest()),
                                               myIssues := Filter(r.myIssues, PlainMyIssueTest()),
                                               mentionedIssues := Filter(r.mentionedIssues, PlainIssueTest())))
  {
    var repo := RepoLabel(r.fullName);
    FlatMapSkipsEmpty(r.assignedIssues, PlainIssueTest(), ListedIssueStep(IssueAssigned, repo));
    FlatMapSkipsEmpty(r.myIssues, PlainMyIssueTest(), MyIssueStep(repo, boundary, user));
    FlatMapSkipsEmpty(r.mentionedIssues, PlainIssueTest(), ListedIssueStep(Mentioned, repo));
  }

  /** In particular, lists made only of pull requests give no issue event at all. */
  lemma OnlyPullRequestsNoIssueEvents(r: RepoSnapshot, boundary: Time, user: string)
    requires forall i :: i in r.assignedIssues ==> i.isPullRequest
    requires forall w :: w in r.myIssues ==> w.issue.isPullRequest
    requires forall i :: i in r.mentionedIssues ==> i.isPullRequest
    ensures RepoIssueEvents(boundary, user)(r) == []
  {
    var repo := RepoLabel(r.fullName);
    FlatMapNone(r.assignedIssues, ListedIssueStep(IssueAssigned, repo));
    FlatMapNone(r.myIssues, MyIssueStep(repo, boundary, user));
    FlatMapNone(r.mentionedIssues, ListedIssueStep(Mentioned, repo));
  }

  /**
   * A comment on one of my issues is notified exactly when the issue is not a
   * pull request, the comment was created strictly after the boundary and its
   * author is not the user in any letter case; the description carries the
   * body truncated to 100 characters.
   */
  lemma IssueCommentEventsIff(repo: string, w: IssueWithComments, boundary: Time, user: string, e: Event)
    ensures e in MyIssueStep(repo, boundary, user)(w) <==>
      !w.issue.isPullRequest
        && exists c :: c in w.comments && c.createdAt > boundary && !SameLogin(c.author, user)
             && e == Event(IssueCommented, "이슈: " + w.issue.title + "\n" + TruncateText(c.body, 100),
                           c.htmlUrl, c.author, repo)
  {
    if !w.issue.isPullRequest {
      var kept := Filter(w.comments, NewForeignCommentTest(boundary, user));
      MapMember(kept, IssueCommentEventOf(repo, w.issue), e);
      forall c ensures c in kept <==> c in w.comments && IsNewForeignComment(c, boundary, user) {
        FilterMember(w.comments, NewForeignCommentTest(boundary, user), c);
      }
    }
  }

  // ---------------------------------------------------------------------
  // Discussions

  /** A discussion of its own is announced iff it is new and not the user's. */
  lemma NewDiscussionIff(repo: string, d: Discussion, boundary: Time, user: string)
    ensures |NewDiscussionEvents(repo, d, boundary, user)| <= 1
    ensures NewDiscussionEvents(repo, d, boundary, user) != [] <==> d.createdAt > boundary && !SameLogin(d.author, user)
  {
  }

  /**
   * A comment gives at most one event. A comment that is old or the user's
   * gives none; otherwise it is "on my discussion" when the discussion is the
   * user's, and else "participated" exactly when the user has an earlier
   * comment on the same page.
   */
  lemma DiscussionCommentOutcome(repo: string, d: Discussion, boundary: Time, user: string, c: DiscussionComment)
    ensures |DiscussionCommentStep(repo, d, boundary, user)(c)| <= 1
    ensures c.createdAt <= boundary || SameLogin(c.author, user) ==> DiscussionCommentStep(repo, d, boundary, user)(c) == []
    ensures c.createdAt > boundary && !SameLogin(c.author, user) && SameLogin(d.author, user) ==>
              DiscussionCommentStep(repo, d, boundary, user)(c) == [DiscussionCommentEvent(CommentOnMyDiscussion, repo, d, c)]
    ensures c.createdAt > boundary && !SameLogin(c.author, user) && !SameLogin(d.author, user) ==>
              DiscussionCommentStep(repo, d, boundary, user)(c)
                == if UserCommentedBefore(Comments(d), user, c.createdAt)
                   then [DiscussionCommentEvent(CommentOnParticipatedDiscussion, repo, d, c)] else []
  {
  }

  /** The events of one discussion: its own announcement and the qualifying comments of its page. */
  lemma DiscussionStepIff(repo: string, d: Discussion, boundary: Time, user: string, e: Event)
    ensures e in DiscussionStep(repo, boundary, user)(d) <==>
      (d.createdAt > boundary && !SameLogin(d.author, user)
         && e == Event(DiscussionCreated, "디스커션: " + d.title, d.url, d.author, repo))
      || exists c :: c in Comments(d) && c.createdAt > boundary && !SameLogin(c.author, user)
           && (SameLogin(d.author, user) || UserCommentedBefore(Comments(d), user, c.createdAt))
           && e == Event(if SameLogin(d.author, user) then CommentOnMyDiscussion else CommentOnParticipatedDiscussion,
                         "디스커션: " + d.title + "\n" + TruncateText(Some(c.bodyText), 100), c.url, c.author, repo)
  {
    FlatMapMember(Comments(d), DiscussionCommentStep(repo, d, boundary, user), e);
  }

  /** Missing discussion data is an empty list: no discussion event for that repository. */
  lemma MissingDiscussionsNoEvents(r: RepoSnapshot, boundary: Time, user: string)
    requires r.discussions.None?
    ensures RepoDiscussionEvents(boundary, user)(r) == []
  {
  }

  // ---------------------------------------------------------------------
  // The whole run

  /** The rules that suppress the user's own items: an event of such a kind never has the user as author. */
  ghost predicate RespectsSelfSuppression(e: Event, user: string) {
    IsSelfSuppressed(e.category) ==> !SameLogin(e.author, user)
  }

  lemma ReviewRequestEventsKind(repos: seq<RepoSnapshot>, boundary: Time, user: string, e: Event)
    requires e in ReviewRequestEvents(repos, boundary, user)
    ensures e.category == ReviewRequested
  {
    FlatMapMember(repos, RepoReviewRequests(boundary, user), e);
    var r :| r in repos && e in RepoReviewRequests(boundary, user)(r);
    RepoReviewRequestsIff(r, boundary, user, e);
  }

  lemma NewReviewEventsKind(repos: seq<RepoSnapshot>, boundary: Time, e: Event)
    requires e in NewReviewEvents(repos, boundary)
    ensures e.category == ReviewSubmitted
  {
    FlatMapMember(repos, RepoNewReviews(boundary), e);
    var r :| r in repos && e in RepoNewReviews(boundary)(r);
    var repo := RepoLabel(r.fullName);
    FlatMapMember(r.myOpenPulls, PullReviewEvents(repo, boundary), e);
    var p :| p in r.myOpenPulls && e in PullReviewEvents(repo, boundary)(p);
    PullReviewEventsIff(repo, p, boundary, e);
  }

  lemma IssueEventsKind(repos: seq<RepoSnapshot>, boundary: Time, user: string, e: Event)
    requires e in IssueEvents(repos, boundary, user)
    ensures e.category == IssueAssigned || e.category == Mentioned
         || (e.category == IssueCommented && !SameLogin(e.author, user))
  {
    FlatMapMember(repos, RepoIssueEvents(boundary, user), e);
    var r :| r in repos && e in RepoIssueEvents(boundary, user)(r);
    var repo := RepoLabel(r.fullName);
    if e in FlatMap(r.assignedIssues, ListedIssueStep(IssueAssigned, repo)) {
      ListedIssueEventsExact(IssueAssigned, repo, r.assignedIssues);
      MapMember(Filter(r.assignedIssues, PlainIssueTest()), ListedIssueEventOf(IssueAssigned, repo), e);
    } else if e in FlatMap(r.myIssues, MyIssueStep(repo, boundary, user)) {
      FlatMapMember(r.myIssues, MyIssueStep(repo, boundary, user), e);
      var w :| w in r.myIssues && e in MyIssueStep(repo, boundary, user)(w);
      IssueCommentEventsIff(repo, w, boundary, user, e);
    } else {
      assert e in FlatMap(r.mentionedIssues, ListedIssueStep(Mentioned, repo));
      ListedIssueEventsExact(Mentioned, repo, r.mentionedIssues);
      MapMember(Filter(r.mentionedIssues, PlainIssueTest()), ListedIssueEventOf(Mentioned, repo), e);
    }
  }

  lemma DiscussionEventsKind(repos: seq<RepoSnapshot>, boundary: Time, user: string, e: Event)
    requires e in DiscussionEvents(repos, boundary, user)
    ensures e.category == DiscussionCreated || e.category == CommentOnMyDiscussion
         || e.category == CommentOnParticipatedDiscussion
    ensures !SameLogin(e.author, user)
  {
    FlatMapMember(repos, RepoDiscussionEvents(boundary, user), e);
    var r :| r in repos && e in RepoDiscussionEvents(boundary, user)(r);
    var repo := RepoLabel(r.fullName);
    FlatMapMember(Discussions(r), DiscussionStep(repo, boundary, user), e);
    var d :| d in Discussions(r) && e in DiscussionStep(repo, boundary, user)(d);
    DiscussionStepIff(repo, d, boundary, user, e);
  }

  /**
   * Self-suppression over a whole run: no issue-comment, discussion or
   * discussion-comment notification names the user (in any letter case) as
   * its author.
   */
  lemma RunSelfSuppression(repos: seq<RepoSnapshot>, boundary: Time, user: string, e: Event)
    requires e in RunEvents(repos, boundary, user)
    ensures RespectsSelfSuppression(e, user)
  {
    if e in ReviewRequestEvents(repos, boundary, user) {
      ReviewRequestEventsKind(repos, boundary, user, e);
    } else if e in NewReviewEvents(repos, boundary) {
      NewReviewEventsKind(repos, boundary, e);
    } else if e in IssueEvents(repos, boundary, user) {
      IssueEventsKind(repos, boundary, user, e);
    } else {
      DiscussionEventsKind(repos, boundary, user, e);
    }
  }

  /** No timestamp the run compares itself is after the boundary. */
  ghost predicate NothingNewSince(repos: seq<RepoSnapshot>, boundary: Time) {
    (forall r, p :: r in repos && p in r.openPulls ==> p.pr.updatedAt <= boundary)
    && (forall r, p, rv :: r in repos && p in r.myOpenPulls && rv in p.reviews && rv.submittedAt.Some?
          ==> rv.submittedAt.value <= boundary)
    && (forall r, w, c :: r in repos && w in r.myIssues && c in w.comments ==> c.createdAt <= boundary)
    && (forall r, d :: r in repos && d in Discussions(r) ==> d.createdAt <= boundary)
    && (forall r, d, c :: r in repos && d in Discussions(r) && c in Comments(d) ==> c.createdAt <= boundary)
  }

  /**
   * Boundary exclusivity over a whole run: when nothing is strictly after the
   * boundary, the only notifications left are the assigned and mentioned
   * issues, whose lists the hosting API already restricts by time.
   */
  lemma RunWithNothingNew(repos: seq<RepoSnapshot>, boundary: Time, user: string, e: Event)
    requires NothingNewSince(repos, boundary)
    requires e in RunEvents(repos, boundary, user)
    ensures e.category == IssueAssigned || e.category == Mentioned
  {
    ReviewRequestsStale(repos, boundary, user);
    NewReviewsStale(repos, boundary);
    if e in DiscussionEvents(repos, boundary, user) {
      FlatMapMember(repos, RepoDiscussionEvents(boundary, user), e);
      var r :| r in repos && e in RepoDiscussionEvents(boundary, user)(r);
      var repo := RepoLabel(r.fullName);
      FlatMapMember(Discussions(r), DiscussionStep(repo, boundary, user), e);
      var d :| d in Discussions(r) && e in DiscussionStep(repo, boundary, user)(d);
      DiscussionStepIff(repo, d, boundary, user, e);
      assert false;
    }
    assert e in IssueEvents(repos, boundary, user);
    IssueEventsKind(repos, boundary, user, e);
    if e.category == IssueCommented {
      FlatMapMember(repos, RepoIssueEvents(boundary, user), e);
      var r :| r in repos && e in RepoIssueEvents(boundary, user)(r);
      var repo := RepoLabel(r.fullName);
      ListedIssueEventsExact(IssueAssigned, repo, r.assignedIssues);
      ListedIssueEventsExact(Mentioned, repo, r.mentionedIssues);
      MapMember(Filter(r.assignedIssues, PlainIssueTest()), ListedIssueEventOf(IssueAssigned, repo), e);
      MapMember(Filter(r.mentionedIssues, PlainIssueTest()), ListedIssueEventOf(Mentioned, repo), e);
      assert e in FlatMap(r.myIssues, MyIssueStep(repo, boundary, user));
      FlatMapMember(r.myIssues, MyIssueStep(repo, boundary, user), e);
      var w :| w in r.myIssues && e in MyIssueStep(repo, boundary, user)(w);
      IssueCommentEventsIff(repo, w, boundary, user, e);
      assert false;
    }
  }
}
