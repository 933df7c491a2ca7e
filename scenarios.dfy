/** Two worked scenarios of the checker's rules, on concrete data. */
module Scenarios {
  import opened Wrappers
  import opened Seqs
  import opened Text
  import opened Records
  import opened Detectors

  // ---------------------------------------------------------------------
  // Repository `a/b` with two pull requests requesting `me`

  function FreshPull(t: Time): PullWithDetail {
    PullWithDetail(PullRequest(5, "Five", "u5", "alice", t + 10), Some(["me"]))
  }

  function StalePull(t: Time): PullWithDetail {
    PullWithDetail(PullRequest(6, "Six", "u6", "alice", t - 10), Some(["me"]))
  }

  function RepoAB(t: Time): RepoSnapshot {
    RepoSnapshot("a/b", [FreshPull(t), StalePull(t)], [], [], [], [], None)
  }

  lemma RepoABLabel()
    ensures RepoLabel("a/b") == "a/b"
  {
    RepoLabelOfOwnerName("a", "b");
    assert "a" + "/" + "b" == "a/b";
  }

  lemma RepoABReviewRequests(t: Time)
    ensures RepoReviewRequests(t, "me")(RepoAB(t)) == [ReviewRequestEvent("a/b", FreshPull(t))]
  {
    RepoABLabel();
    var step := ReviewRequestStep("a/b", t, "me");
    assert "me" in Reviewers(FreshPull(t)) && SameLogin("me", "me");
    assert step(FreshPull(t)) == [ReviewRequestEvent("a/b", FreshPull(t))];
    assert step(StalePull(t)) == [];
    FlatMapSnoc([], FreshPull(t), step);
    FlatMapSnoc([FreshPull(t)], StalePull(t), step);
    assert [] + [FreshPull(t)] == [FreshPull(t)];
    assert [FreshPull(t)] + [StalePull(t)] == RepoAB(t).openPulls;
  }

  /**
   * Boundary `t`: pull request #5 updated ten units after `t` and #6 ten
   * units before, both requesting `me`, give exactly one notification of the
   * whole run, the review request for #5.
   */
  lemma ReviewRequestScenario(t: Time)
    ensures RunEvents([RepoAB(t)], t, "me") == [Event(ReviewRequested, "PR: Five", "u5", "alice", "a/b")]
  {
    var repo := RepoAB(t);
    RepoABReviewRequests(t);
    FlatMapSnoc([], repo, RepoReviewRequests(t, "me"));
    FlatMapSnoc([], repo, RepoNewReviews(t));
    FlatMapSnoc([], repo, RepoIssueEvents(t, "me"));
    FlatMapSnoc([], repo, RepoDiscussionEvents(t, "me"));
    assert [] + [repo] == [repo];
    assert "PR: " + "Five" == "PR: Five";
  }

  lemma FlatMapOfThree<T, U>(x: T, y: T, z: T, f: T -> seq<U>)
    ensures FlatMap([x, y, z], f) == f(x) + f(y) + f(z)
  {
    FlatMapSnoc([], x, f);
    assert [] + [x] == [x];
    FlatMapSnoc([x], y, f);
    assert [x] + [y] == [x, y];
    FlatMapSnoc([x, y], z, f);
    assert [x, y] + [z] == [x, y, z];
  }

  // ---------------------------------------------------------------------
  // A discussion by dave with the page [A at 1 by alice, B at 2 by me, C at 3 by carol]

  function CommentA(): DiscussionComment { DiscussionComment("alice", "first", 1, "ua") }
  function CommentB(): DiscussionComment { DiscussionComment("me", "second", 2, "ub") }
  function CommentC(): DiscussionComment { DiscussionComment("carol", "third", 3, "uc") }

  function DavesDiscussion(): Discussion {
    Discussion("Topic", "ud", "dave", 0, Some([CommentA(), CommentB(), CommentC()]))
  }

  /** Logins of different lengths are never the same login. */
  lemma ScenarioLogins()
    ensures !SameLogin("alice", "me") && !SameLogin("carol", "me") && !SameLogin("dave", "me")
  {
  }

  lemma ScenarioSteps(repo: string)
    ensures var step := DiscussionCommentStep(repo, DavesDiscussion(), 0, "me");
      step(CommentA()) == [] && step(CommentB()) == []
      && step(CommentC()) == [DiscussionCommentEvent(CommentOnParticipatedDiscussion, repo, DavesDiscussion(), CommentC())]
  {
    var page := Comments(DavesDiscussion());
    ScenarioLogins();
    assert !UserCommentedBefore(page, "me", 1) by {
      forall x | x in page && SameLogin(x.author, "me") ensures x.createdAt >= 1 {
        assert x == CommentA() || x == CommentB() || x == CommentC();
      }
    }
    assert UserCommentedBefore(page, "me", 3) by {
      assert CommentB() in page && SameLogin(CommentB().author, "me");
    }
  }

  lemma ScenarioPage(repo: string)
    ensures FlatMap(Comments(DavesDiscussion()), DiscussionCommentStep(repo, DavesDiscussion(), 0, "me"))
         == [DiscussionCommentEvent(CommentOnParticipatedDiscussion, repo, DavesDiscussion(), CommentC())]
  {
    var step := DiscussionCommentStep(repo, DavesDiscussion(), 0, "me");
    ScenarioSteps(repo);
    FlatMapOfThree(CommentA(), CommentB(), CommentC(), step);
  }

  /**
   * Boundary 0: only C is notified, as "participated"; A comes before any
   * comment of mine and B is mine.
   */
  lemma ParticipationScenario(repo: string)
    ensures DiscussionStep(repo, 0, "me")(DavesDiscussion())
         == [DiscussionCommentEvent(CommentOnParticipatedDiscussion, repo, DavesDiscussion(), CommentC())]
  {
    ScenarioPage(repo);
    assert NewDiscussionEvents(repo, DavesDiscussion(), 0, "me") == [];
  }
}
