/**
 * The string helpers of the checker: case-insensitive login comparison,
 * `truncateText`, `getReviewStateEmoji`, and the `owner/repo` label built from
 * a configured repository name.
 */
module Text {
  import opened Wrappers

  /** `toLowerCase` on one character, restricted to ASCII letters. */
  function LowerChar(c: char): char {
    if 'A' <= c <= 'Z' then (c as int + 32) as char else c
  }

  /** `toLowerCase` on a string, character by character. */
  function Lower(s: string): (r: string)
    ensures |r| == |s|
    ensures forall i :: 0 <= i < |s| ==> r[i] == LowerChar(s[i])
  {
    if s == [] then [] else [LowerChar(s[0])] + Lower(s[1..])
  }

  /**
   * The identity test used for logins, `a.toLowerCase() === b.toLowerCase()`,
   * stated character by character: same length, and the same character at
   * each position once letters are lower-cased.
   */
  predicate SameLogin(a: string, b: string) {
    |a| == |b| && forall i :: 0 <= i < |a| ==> LowerChar(a[i]) == LowerChar(b[i])
  }

  /** The character-wise test is exactly equality of the lower-cased strings. */
  lemma SameLoginIffLowerEqual(a: string, b: string)
    ensures SameLogin(a, b) <==> Lower(a) == Lower(b)
  {
    if SameLogin(a, b) {
      assert forall i :: 0 <= i < |a| ==> Lower(a)[i] == Lower(b)[i];
    }
    if Lower(a) == Lower(b) {
      assert forall i :: 0 <= i < |a| ==> LowerChar(a[i]) == Lower(a)[i] == Lower(b)[i] == LowerChar(b[i]);
    }
  }

  /** The login identity is an equivalence relation. */
  lemma SameLoginIsEquivalence(a: string, b: string, c: string)
    ensures SameLogin(a, a)
    ensures SameLogin(a, b) ==> SameLogin(b, a)
    ensures SameLogin(a, b) && SameLogin(b, c) ==> SameLogin(a, c)
  {
  }

  const Ellipsis := "..."

  /**
   * `truncateText(text, maxLength)`: an absent or empty text becomes the empty
   * string, a text of at most `maxLength` characters is kept, and a longer one
   * is cut to its first `maxLength` characters followed by `...`.
   */
  function TruncateText(text: Option<string>, maxLength: nat): (r: string)
    ensures (text.None? || text == Some("")) ==> r == ""
    ensures text.Some? && |text.value| <= maxLength ==> r == text.value
    ensures text.Some? && |text.value| > maxLength ==>
              |r| == maxLength + 3 && r[..maxLength] == text.value[..maxLength] && r[maxLength..] == Ellipsis
    ensures |r| <= maxLength + 3
  {
    match text
    case None => ""
    case Some(t) =>
      if t == "" then ""
      else if |t| <= maxLength then t
      else t[..maxLength] + Ellipsis
  }

  const ApprovedMarker := "✅"
  const ChangesRequestedMarker := "❌"
  const CommentedMarker := "💬"
  const UnknownStateMarker := "❓"

  /** The review states that have a marker of their own. */
  const KnownReviewStates := {"APPROVED", "CHANGES_REQUESTED", "COMMENTED"}

  /**
   * `getReviewStateEmoji(state)`: a total mapping; the three known states get
   * three distinct markers and every other string the question mark.
   */
  function ReviewStateEmoji(state: string): (r: string)
    ensures state == "APPROVED" ==> r == ApprovedMarker
    ensures state == "CHANGES_REQUESTED" ==> r == ChangesRequestedMarker
    ensures state == "COMMENTED" ==> r == CommentedMarker
    ensures r == UnknownStateMarker <==> state !in KnownReviewStates
  {
    match state
    case "APPROVED" => ApprovedMarker
    case "CHANGES_REQUESTED" => ChangesRequestedMarker
    case "COMMENTED" => CommentedMarker
    case _ => UnknownStateMarker
  }

  /** Distinct known states never share a marker. */
  lemma ReviewStateEmojiInjective(s1: string, s2: string)
    requires s1 in KnownReviewStates && s2 in KnownReviewStates
    ensures ReviewStateEmoji(s1) == ReviewStateEmoji(s2) ==> s1 == s2
  {
  }

  /**
   * JavaScript's `s.split(sep)` for a one-character separator: the maximal
   * separator-free pieces, always at least one (`"".split('/')` is `[""]`).
   */
  function Split(s: string, sep: char): (parts: seq<string>)
    ensures |parts| >= 1
    ensures forall i :: 0 <= i < |parts| ==> sep !in parts[i]
  {
    if s == [] then [""]
    else
      var rest := Split(s[1..], sep);
      if s[0] == sep then [""] + rest
      else [[s[0]] + rest[0]] + rest[1..]
  }

  /** The pieces glued back together with `sep` in between (`Array.prototype.join`). */
  function Join(parts: seq<string>, sep: char): string {
    if parts == [] then ""
    else if |parts| == 1 then parts[0]
    else parts[0] + [sep] + Join(parts[1..], sep)
  }

  /** Splitting loses nothing: joining the pieces gives back the string. */
  lemma {:induction false} JoinSplit(s: string, sep: char)
    ensures Join(Split(s, sep), sep) == s
  {
    if s != [] {
      var rest := Split(s[1..], sep);
      JoinSplit(s[1..], sep);
      if s[0] == sep {
        assert ([""] + rest)[1..] == rest;
      } else if |rest| == 1 {
      } else {
        var parts := [[s[0]] + rest[0]] + rest[1..];
        assert parts[1..] == rest[1..];
        assert Join(rest, sep) == rest[0] + [sep] + Join(rest[1..], sep);
      }
    }
  }

  lemma {:induction false} SplitOfPieces(a: string, sep: char, b: string)
    requires sep !in a
    ensures Split(a + [sep] + b, sep) == [a] + Split(b, sep)
  {
    if a == [] {
      assert (a + [sep] + b)[1..] == b;
    } else {
      assert (a + [sep] + b)[1..] == a[1..] + [sep] + b;
      SplitOfPieces(a[1..], sep, b);
      assert [a[0]] + a[1..] == a;
    }
  }

  lemma {:induction false} SplitWithoutSeparator(s: string, sep: char)
    requires sep !in s
    ensures Split(s, sep) == [s]
  {
    if s != [] {
      SplitWithoutSeparator(s[1..], sep);
      assert [s[0]] + s[1..] == s;
    }
  }

  /**
   * The repository label `${owner}/${repo}` after `const [owner, repo] =
   * fullName.split('/')`: the first two pieces, a missing second piece
   * printing as `undefined`, any further pieces dropped.
   */
  function RepoLabel(fullName: string): string {
    var parts := Split(fullName, '/');
    parts[0] + "/" + (if |parts| >= 2 then parts[1] else "undefined")
  }

  /** A well-formed `owner/name` labels itself. */
  lemma RepoLabelOfOwnerName(owner: string, name: string)
    requires '/' !in owner && '/' !in name
    ensures RepoLabel(owner + "/" + name) == owner + "/" + name
  {
    SplitOfPieces(owner, '/', name);
    SplitWithoutSeparator(name, '/');
  }

  /** A name without a slash gets the literal second half `undefined`. */
  lemma RepoLabelWithoutSlash(fullName: string)
    requires '/' !in fullName
    ensures RepoLabel(fullName) == fullName + "/undefined"
  {
    SplitWithoutSeparator(fullName, '/');
  }

  /** Everything after a second slash is ignored. */
  lemma RepoLabelDropsExtraPieces(owner: string, name: string, rest: string)
    requires '/' !in owner && '/' !in name
    ensures RepoLabel(owner + "/" + name + "/" + rest) == owner + "/" + name
  {
    assert owner + "/" + name + "/" + rest == owner + ['/'] + (name + ['/'] + rest);
    SplitOfPieces(owner, '/', name + ['/'] + rest);
    SplitOfPieces(name, '/', rest);
  }
}
