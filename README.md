# GitHub notification checker: event-detection rules

This project models the decision logic of `repo-checker.js`. That script polls a list of GitHub repositories for one
configured user and posts a Discord notification for each of these:

- a pull request that requests the user's review;
- a new review on a pull request from the list fetched with the user as `creator`;
- an issue assigned to the user;
- a new comment by someone else on one of the user's issues;
- an issue that mentions the user;
- a new discussion;
- a new comment on the user's own discussion;
- a new comment on a discussion the user took part in.

The network is factored out. Each repository is a `RepoSnapshot` holding the lists the hosting API returned. Timestamps are integers. One look-back boundary is shared by the whole run. A notification is an `Event` tagged with its `Category`; the category's `Title()` carries the embed title.

Modules:

- `Wrappers`: the `Option` datatype. It models fields that may be `null` or missing.
- `Seqs`: order-preserving `Filter`, `Map` and `FlatMap`, with their membership and concatenation lemmas.
- `Text`: the helpers `truncateText` and `getReviewStateEmoji`. Also ASCII case folding and the login identity `SameLogin`. Also `split('/')` and the `owner/repo` label it produces.
- `Records`: the fetched records, the eight notification categories and the `Event` datatype.
- `Detectors`: one pure function per rule and per scan. Each returns the ordered sequence of events the scan sends.
- `Checker`: the scans as they are written, as nested `for` loops. Each loop level is one method that builds the sent sequence one notification at a time. Each method is proved equal to its `Detectors` function.
- `Properties`: the rules proved about the `Detectors` functions. These are:
  - boundary exclusivity;
  - self-suppression;
  - pull-request exclusion;
  - the two discussion-comment branches excluding each other;
  - exact event contents.
- `Scenarios`: two worked examples on concrete data.

A timestamp must be strictly after the boundary to count. A timestamp equal to the boundary is never notified. Logins are compared after lower-casing both sides.

## Model

| member | source | states |
|---|---|---|
| Text.TruncateText | repo-checker.js:357-361 | An absent or empty text gives `""`. A text of at most `maxLength` characters comes back unchanged. A longer text gives exactly `maxLength + 3` characters: the first `maxLength` characters of the input, then `...`. |
| Text.ReviewStateEmoji | repo-checker.js:347-354 | `APPROVED` gives ✅, `CHANGES_REQUESTED` gives ❌ and `COMMENTED` gives 💬. The answer is ❓ exactly when the state is none of these three. |
| Text.ReviewStateEmojiInjective | repo-checker.js:349-351 | Two known review states with the same marker are the same state. |
| Text.SameLoginIffLowerEqual | repo-checker.js:61 | The character-wise login identity holds exactly when both logins lower-case to the same string. |
| Text.SameLoginIsEquivalence | repo-checker.js:61 | Comparing logins after lower-casing is reflexive, symmetric and transitive. |
| Text.Split | repo-checker.js:41 | `split` on one separator gives at least one piece, and no piece contains the separator. |
| Text.JoinSplit | repo-checker.js:41 | Joining the pieces of `split` with the separator gives back the original name. |
| Text.SplitOfPieces | repo-checker.js:41 | Splitting `a/b` when `a` has no slash gives `a` followed by the pieces of `b`. |
| Text.SplitWithoutSeparator | repo-checker.js:41 | A string without the separator splits into itself alone. |
| Text.RepoLabelOfOwnerName | repo-checker.js:76 | The label of a well-formed `owner/name` is that same `owner/name`. |
| Text.RepoLabelWithoutSlash | repo-checker.js:76 | A name without a slash is labelled `name/undefined`, because the destructured second piece is undefined. |
| Text.RepoLabelDropsExtraPieces | repo-checker.js:76 | Everything after a second slash is dropped from the label. |
| Text.SameLogin | repo-checker.js:61 | The definition of login identity, the `toLowerCase` comparison used at lines 61, 183, 289, 307, 310 and 323: equal length and equal lower-cased characters at every position. It has no contract of its own; `SameLoginIffLowerEqual` relates it to whole-string lower-casing. |
| Text.RepoLabel | repo-checker.js:41 | The definition of the `${owner}/${repo}` label that line 76 and the other scans build after the destructuring `split('/')` of line 41. It has no contract of its own; the `RepoLabel…` lemmas state its behaviour. |
| Detectors.NotifiesReviewRequest | repo-checker.js:59-67 | The definition of the review-request test: some requested reviewer (a missing list counts as empty) is the user ignoring case, and the update is strictly after the boundary. It has no contract of its own; `RepoReviewRequestsIff` states the rule. |
| Detectors.IsNewReview | repo-checker.js:107-109 | The definition of a new review: a submission time that is present and strictly after the boundary. It has no contract of its own; `PullReviewEventsIff` states the rule. |
| Detectors.IsNewForeignComment | repo-checker.js:180-184 | The definition of the comment filter on my issues: created strictly after the boundary, by someone other than the user ignoring case. It has no contract of its own; `IssueCommentEventsIff` states the rule. |
| Detectors.MyIssueStep | repo-checker.js:174-196 | The definition of one issue's comment events: nothing for a pull request, otherwise one event per kept comment, in order. It has no contract of its own; `IssueCommentEventsIff` states the rule. |
| Detectors.UserCommentedBefore | repo-checker.js:322-325 | The definition of the `.some` participation test: a comment by the user, ignoring case, created strictly before the given time on the same page. It has no contract of its own; `DiscussionCommentOutcome` uses it. |
| Detectors.DiscussionCommentStep | repo-checker.js:303-337 | The definition of one discussion comment's event: the time and self test, then the "on my discussion" or the "participated" branch. It has no contract of its own; `DiscussionCommentOutcome` states the rule. |
| Detectors.NewDiscussionEvents | repo-checker.js:287-297 | The definition of a discussion's announcement: one event when the discussion is new and not the user's. It has no contract of its own; `NewDiscussionIff` states the rule. |
| Detectors.ReviewRequestEvents | repo-checker.js:40-83 | The definition of the review-request scan: each repository's events, repositories in configured order. It has no contract of its own; `ReviewRequestEventsKind` and `CheckForReviewRequests` are stated against it. |
| Detectors.NewReviewEvents | repo-checker.js:90-127 | The definition of the review scan: each repository's new-review events, repositories in configured order. It has no contract of its own; `NewReviewEventsKind` and `CheckForNewReviews` are stated against it. |
| Detectors.IssueEvents | repo-checker.js:134-224 | The definition of the issue scan: per repository, the assigned, comment and mention events, repositories in configured order. It has no contract of its own; `IssueEventsKind` and `CheckForNewIssuesAndComments` are stated against it. |
| Detectors.DiscussionEvents | repo-checker.js:231-343 | The definition of the discussion scan: per repository, each fetched discussion's announcement followed by its comment events. It has no contract of its own; `DiscussionEventsKind` and `CheckForNewDiscussions` are stated against it. |
| Detectors.RunEvents | repo-checker.js:388-395 | The definition of one run: the four scans' events back to back, in the order `main` awaits them, with one shared boundary. It has no contract of its own; `RunSelfSuppression`, `RunWithNothingNew` and `RunChecks` are stated against it. |
| Properties.RepoReviewRequestsExact | repo-checker.js:54-79 | One repository's review-request events are the qualifying open pull requests, in list order, one event each. |
| Properties.RepoReviewRequestsIff | repo-checker.js:59-67 | An event is sent exactly for an open pull request that has a requested reviewer equal to the user ignoring case and was updated strictly after the boundary. Its description, URL, author and repository label are given in full. |
| Properties.ReviewRequestNeedsReviewerAndUpdate | repo-checker.js:59-67 | A missing or empty reviewer list gives no event. So does an update time at or before the boundary. |
| Properties.ReviewRequestsStale | repo-checker.js:65-67 | When no pull request was updated after the boundary, the whole review-request scan sends nothing. |
| Properties.PullReviewEventsIff | repo-checker.js:107-122 | For one pull request of the list fetched with the user as `creator`, an event is sent exactly for a review submitted strictly after the boundary, whoever the reviewer is. It carries the pull request's title, the review's state marker and state, the review's URL and the review's author. |
| Properties.NewReviewsInOrder | repo-checker.js:107-109 | The new-review filter keeps the original order. It distributes over concatenation and keeps a single review exactly when that review is new. |
| Properties.NewReviewsStale | repo-checker.js:107-109 | When no review was submitted after the boundary, the whole review scan sends nothing. A review without a submission time never counts. |
| Properties.ListedIssueEventsExact | repo-checker.js:150-161 | Each assigned or mentioning item that is not a pull request gives exactly one event, in list order. The number of events is the number of such items. |
| Properties.IssueEventsIgnorePullRequests | repo-checker.js:150-219 | Removing every item that carries a pull-request marker from the three issue lists leaves the repository's issue events unchanged. |
| Properties.OnlyPullRequestsNoIssueEvents | repo-checker.js:152 | Lists made only of pull requests give no issue event at all. |
| Properties.IssueCommentEventsIff | repo-checker.js:174-194 | A comment on one of my issues is notified exactly when all of these hold: the issue is not a pull request; the comment is strictly after the boundary; its author is not the user, ignoring case. The description is the issue title plus the body truncated to 100 characters. |
| Properties.NewDiscussionIff | repo-checker.js:287-297 | A discussion gives at most one announcement. It is announced exactly when it was created strictly after the boundary by someone other than the user. |
| Properties.DiscussionCommentOutcome | repo-checker.js:303-337 | A comment gives at most one event, and none when it is old or the user's own. A qualifying comment is "on my discussion" when the discussion is the user's. Otherwise it is "participated" exactly when the same page has a comment by the user created strictly earlier. The two branches never both apply. |
| Properties.DiscussionStepIff | repo-checker.js:283-338 | The events of one discussion are exactly its announcement, if any, and the qualifying comments of its fetched page, each with its full description. |
| Properties.MissingDiscussionsNoEvents | repo-checker.js:278 | Missing discussion data counts as an empty list, so that repository sends no discussion event. |
| Properties.ReviewRequestEventsKind | repo-checker.js:71-77 | Every event of the review-request scan is a review request. |
| Properties.NewReviewEventsKind | repo-checker.js:115-121 | Every event of the review scan is a submitted review. |
| Properties.IssueEventsKind | repo-checker.js:150-219 | Every event of the issue scan is one of two things: an assignment or a mention; or a comment whose author is not the user. |
| Properties.DiscussionEventsKind | repo-checker.js:287-335 | Every event of the discussion scan is one of its three discussion kinds, and its author is never the user. |
| Properties.RunSelfSuppression | repo-checker.js:183-310 | Over a whole run, no issue-comment, discussion or discussion-comment notification has the user, in any letter case, as its author. |
| Properties.RunWithNothingNew | repo-checker.js:388-395 | When no compared timestamp is after the boundary, a run can only notify assigned and mentioned issues. The API already restricts those lists by time. |
| Scenarios.RepoABLabel | repo-checker.js:76 | The repository `a/b` is labelled `a/b`. |
| Scenarios.RepoABReviewRequests | repo-checker.js:54-79 | Two pull requests request `me`: #5 is updated after the boundary and #6 before. The scan notifies #5 only. |
| Scenarios.ReviewRequestScenario | repo-checker.js:388-395 | For that repository, the whole run sends exactly one notification, the review request for #5. |
| Scenarios.ScenarioSteps | repo-checker.js:303-335 | On a discussion by someone else, with the page A (other, time 1), B (me, time 2), C (other, time 3): A and B give nothing and C gives the "participated" event. |
| Scenarios.ScenarioPage | repo-checker.js:303-338 | On that page, the comment loop sends only the "participated" notification for C. |
| Scenarios.ParticipationScenario | repo-checker.js:283-338 | That discussion as a whole has no announcement, and its only event is the "participated" notification for C. |
| Checker.NotifyReviewRequests | repo-checker.js:54-79 | The per-pull-request loop sends exactly the review-request events of the repository's pull requests, in order. |
| Checker.CheckForReviewRequests | repo-checker.js:40-83 | The scan over all repositories sends exactly `ReviewRequestEvents`. |
| Checker.NotifyReviews | repo-checker.js:114-122 | The loop over the new reviews sends one event per review, in order. |
| Checker.NotifyPullReviews | repo-checker.js:102-123 | The loop over the pull requests fetched with the user as `creator` sends the new-review events of each, in order. |
| Checker.CheckForNewReviews | repo-checker.js:90-127 | The scan over all repositories sends exactly `NewReviewEvents`. |
| Checker.NotifyListedIssues | repo-checker.js:150-161 | The loop over an assigned or mentioning list sends one event per item that is not a pull request, in order. |
| Checker.NotifyComments | repo-checker.js:186-194 | The loop over the new foreign comments of one issue sends one event per comment, in order. |
| Checker.NotifyIssueComments | repo-checker.js:174-196 | The loop over my issues sends the comment events of each issue that is not a pull request, in order. |
| Checker.NotifyRepoIssues | repo-checker.js:138-219 | One repository's three issue sub-scans send the assigned events, then the comment events, then the mention events. |
| Checker.CheckForNewIssuesAndComments | repo-checker.js:134-224 | The scan over all repositories sends exactly `IssueEvents`. |
| Checker.NotifyDiscussionComments | repo-checker.js:303-338 | The loop over a discussion's fetched comments sends exactly the qualifying comment events, in order. |
| Checker.NotifyDiscussions | repo-checker.js:283-339 | The loop over the fetched discussions sends, for each one, its announcement and then its comment events. |
| Checker.CheckForNewDiscussions | repo-checker.js:231-343 | The scan over all repositories sends exactly `DiscussionEvents`. |
| Checker.RunChecks | repo-checker.js:388-395 | The main sequence sends the four scans' events back to back, in the order the script runs them. |

## Left out

- HTTP and GraphQL transport: the API client, its headers, the GraphQL query and the webhook post. The fetched lists are inputs, and the sent notifications are the returned `seq<Event>`.
- The query parameters of the API calls (`state`, `assignee`, `creator`, `mentioned`, `since`). Each input list is whatever the call returned, whether or not the endpoint honours the parameter; `myOpenPulls` is the list returned by the pull-request call with `creator`, and nothing in the model depends on it holding only the user's pull requests.
- Pagination: every REST read takes only the first page of its answer, and the GraphQL query takes the first 10 discussions and the first 10 comments of each. The input lists are those pages.
- The Discord embed shape: colour, footer, `new Date()` timestamp and author object. An event keeps the title, description, URL, author and repository label the embed is built from.
- Environment configuration, JSON parsing of the repository list, and console logging.
- The wall clock: computing the boundary as now minus two hours, and `Date` parsing of ISO strings. The boundary is one integer parameter shared by the whole run, and timestamps are integers. A review whose `submitted_at` is missing or unparsable is `None` and never counts, because an invalid `Date` never compares greater. A `null` `submitted_at` parses as the epoch, time 0, so it is excluded only because the boundary, two hours before now, is positive.
- Async sequencing and `try`/`catch` isolation, both per repository and per notification. A failed request or post is not modelled, so neither is a scan that stops half-way through a repository.
- A throw on a missing author (a deleted account) or on a missing `comments` object. Authors are always present strings.
- Full Unicode `toLowerCase`. Case folding is ASCII-only, applied to both sides of every comparison.
- UTF-16 code units: `truncateText` counts and cuts characters of `seq<char>`.
