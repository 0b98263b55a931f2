/** The redundancy test of `authorMentionedSinceIssueClosed`: the regular
    expression `@<author>\b`, built afresh for every call and applied once
    with `test`, written out as an explicit boundary check. */
module Mention {

  /** The characters JavaScript's `\w` matches; they decide where `\b` lies. */
  predicate IsWordChar(c: char) {
    ('a' <= c <= 'z') || ('A' <= c <= 'Z') || ('0' <= c <= '9') || c == '_'
  }

  /** The characters a GitHub login is made of. */
  predicate IsLoginChar(c: char) {
    ('a' <= c <= 'z') || ('A' <= c <= 'Z') || ('0' <= c <= '9') || c == '-'
  }

  /** A GitHub login: non-empty, login characters only, not ending in '-'.
      Such a login holds no regular-expression metacharacter and ends in a
      word character, so interpolating it unescaped into `@<author>\b`
      yields exactly the check MentionAt spells out. */
  predicate IsLogin(s: string) {
    && |s| > 0
    && (forall k :: 0 <= k < |s| ==> IsLoginChar(s[k]))
    && s[|s| - 1] != '-'
  }

  /** The pattern matches `body` starting at index `i`: an '@', then the
      author verbatim (case-sensitive), then a non-word character or the end
      of the text. Nothing is required of the character before the '@'. */
  predicate MentionAt(body: string, author: string, i: nat) {
    && i + 1 + |author| <= |body|
    && body[i] == '@'
    && body[i + 1..i + 1 + |author|] == author
    && (i + 1 + |author| == |body| || !IsWordChar(body[i + 1 + |author|]))
  }

  /** The pattern is not anchored: it matches when it matches anywhere. */
  ghost predicate Mentions(body: string, author: string) {
    exists i: nat :: MentionAt(body, author, i)
  }

  /** Tries every start position from `from` onwards. */
  function MentionsFrom(body: string, author: string, from: nat): (r: bool)
    requires from <= |body|
    decreases |body| - from
    ensures r <==> exists i: nat :: from <= i && MentionAt(body, author, i)
  {
    if from == |body| then false
    else MentionAt(body, author, from) || MentionsFrom(body, author, from + 1)
  }

  /** `re.test(body)`: the `g` flag only matters for a reused regular
      expression, and this one starts from index 0 on its only use. */
  function Matches(body: string, author: string): (r: bool)
    ensures r <==> Mentions(body, author)
  {
    MentionsFrom(body, author, 0)
  }

  /** `@author` followed by a non-word character or the end of the text is a
      mention, whatever precedes the '@'. */
  lemma MentionFound(before: string, author: string, after: string)
    requires after == [] || !IsWordChar(after[0])
    ensures Matches(before + "@" + author + after, author)
  {
    var body := before + "@" + author + after;
    var i := |before|;
    assert body[i] == '@';
    assert body[i + 1..i + 1 + |author|] == author;
    assert i + 1 + |author| < |body| ==> body[i + 1 + |author|] == after[0];
    assert MentionAt(body, author, i);
  }

  /** A longer handle that begins with the author's login is not a mention
      of the author: when the only '@' of the text is followed by the login
      and then a word character, the pattern does not match. */
  lemma LongerHandleNotMentioned(before: string, author: string, after: string)
    requires IsLogin(author)
    requires '@' !in before && '@' !in after
    requires after != [] && IsWordChar(after[0])
    ensures !Matches(before + "@" + author + after, author)
  {
    var body := before + "@" + author + after;
    var at := |before|;
    forall i: nat | i < |body|
      ensures !MentionAt(body, author, i)
    {
      if i < at {
        assert body[i] == before[i];
      } else if at < i <= at + |author| {
        assert body[i] == author[i - at - 1];
        assert IsLoginChar(author[i - at - 1]);
      } else if at + |author| < i {
        assert body[i] == after[i - at - 1 - |author|];
      } else {
        assert body[at + 1 + |author|] == after[0];
      }
    }
  }

  /** A text without '@' mentions nobody. */
  lemma NoAtSignNoMention(body: string, author: string)
    requires '@' !in body
    ensures !Matches(body, author)
  {
    forall i: nat | i < |body|
      ensures !MentionAt(body, author, i)
    {
      assert body[i] != '@';
    }
  }

  /** The comment body of the source's "already mentioned" test mentions
      `swinton`. */
  lemma ClosingCommentMentions()
    ensures Matches("Closing this out :v: /cc @swinton.", "swinton")
  {
    MentionFound("Closing this out :v: /cc ", "swinton", ".");
    assert "Closing this out :v: /cc " + "@" + "swinton" + "." == "Closing this out :v: /cc @swinton.";
  }

  /** The comment body of the source's "similar @-mentions" test does not
      mention `swinton`: `@swinton88` is another handle. */
  lemma SimilarHandleExample()
    ensures !Matches("Closing this out :v: /cc @swinton88.", "swinton")
  {
    LongerHandleNotMentioned("Closing this out :v: /cc ", "swinton", "88.");
    assert "Closing this out :v: /cc " + "@" + "swinton" + "88." == "Closing this out :v: /cc @swinton88.";
  }

  /** The comment body of the source's "not yet mentioned" test mentions
      nobody. */
  lemma PlainCommentExample()
    ensures !Matches("Closing this out :v:.", "swinton")
  {
    NoAtSignNoMention("Closing this out :v:.", "swinton");
  }

  /** '-' is not a word character, so a mention of a hyphenated login that
      begins with the author's login counts as a mention of the author. */
  lemma HyphenatedHandleMatches()
    ensures Matches("/cc @swinton-bot", "swinton")
  {
    MentionFound("/cc ", "swinton", "-bot");
    assert "/cc " + "@" + "swinton" + "-bot" == "/cc @swinton-bot";
  }
}
