/** `notifyIssueAuthor`: when an issue is closed by someone other than its
    author, and the first comment posted since the closure does not mention
    the author, post one comment that tells the author who closed it.
    The `github.issues` client is a collaborator that records every call it
    receives; the engine is specified by the outcome it reports and the
    calls it makes. */
module NotifyIssueAuthor {
  import opened Wrappers
  import Mention
  import Template

  /** What the engine reads from the action's context and event payload. */
  datatype Context = Context(
    event: string,     // context.event
    action: string,    // payload.action
    actor: string,     // context.actor: who closed the issue
    owner: string,     // payload.repository.owner.login
    repo: string,      // payload.repository.name
    author: string,    // payload.issue.user.login
    number: int,       // payload.issue.number
    closedAt: string)  // payload.issue.closed_at, passed on as is

  datatype Comment = Comment(body: string)

  /** A request sent to the collaborator. */
  datatype Call =
    | ListComments(owner: string, repo: string, number: int, since: string)
    | CreateComment(owner: string, repo: string, number: int, body: string)

  /** How a run can fail: a collaborator request is rejected, or the
      template is outside what the renderer accepts. Nothing is retried. */
  datatype Failure = ListCommentsRejected | CreateCommentRejected | TemplateError

  /** The branch a run ends in; the source logs one message per branch. */
  datatype Outcome =
    | IrrelevantEvent
    | SelfClosed
    | AlreadyMentioned
    | Notified
    | Failed(failure: Failure)

  /** The collaborator's answers: the comments listed (None when the list
      request is rejected) and whether the create request succeeds. */
  datatype Replies = Replies(listed: Option<seq<Comment>>, createAccepted: bool)

  /** A whole run: the outcome and the requests made, in order. */
  datatype Decision = Decision(outcome: Outcome, calls: seq<Call>)

  /** `issueClosedEvent`: the event is an `issues` event whose action is
      `closed`; both names are compared exactly. */
  function IssueClosedEvent(ctx: Context): bool {
    ctx.event == "issues" && ctx.action == "closed"
  }

  /** The test `authorMentionedSinceIssueClosed` applies to the listed
      comments: only the first one is looked at. */
  function AuthorMentioned(comments: seq<Comment>, author: string): (r: bool)
    ensures r <==> |comments| > 0 && Mention.Mentions(comments[0].body, author)
  {
    |comments| > 0 && Mention.Matches(comments[0].body, author)
  }

  /** The `--template` argument, or the default message when it is absent.
      An argument that is present is used as given, even when empty. */
  function TemplateOrDefault(template: Option<string>): string {
    match template
    case Some(t) => t
    case None => Template.DefaultTemplate
  }

  /** The comment body: the template rendered with `author` and `actor`. */
  function CommentBody(ctx: Context, template: Option<string>): Template.Rendered {
    Template.Render(TemplateOrDefault(template), Template.Bindings(ctx.author, ctx.actor))
  }

  /** The guard chain, written as a function of the context, the template
      argument and the collaborator's answers. */
  function Decide(ctx: Context, template: Option<string>, replies: Replies): (d: Decision)
    // at most one read and one write, the read first, with the issue's
    // coordinates and closing time passed on unmodified
    ensures |d.calls| <= 2
    ensures |d.calls| >= 1 ==> d.calls[0] == ListComments(ctx.owner, ctx.repo, ctx.number, ctx.closedAt)
    ensures |d.calls| == 2 ==>
      && d.calls[1].CreateComment?
      && d.calls[1].owner == ctx.owner && d.calls[1].repo == ctx.repo && d.calls[1].number == ctx.number
    // the two guards: nothing is requested unless the event is a closed
    // issue that someone other than its author closed
    ensures d.outcome == IrrelevantEvent <==> !IssueClosedEvent(ctx)
    ensures d.outcome == SelfClosed <==> IssueClosedEvent(ctx) && ctx.actor == ctx.author
    ensures d.calls == [] <==> d.outcome in {IrrelevantEvent, SelfClosed}
    // a mention of the author in the first listed comment stops the run
    // before any write
    ensures d.outcome == AlreadyMentioned <==>
      d.calls != [] && replies.listed.Some? && AuthorMentioned(replies.listed.value, ctx.author)
    ensures d.outcome == AlreadyMentioned ==> |d.calls| == 1
    // otherwise the rendered template is posted, once
    ensures |d.calls| == 2 <==>
      && d.calls != [] && replies.listed.Some? && !AuthorMentioned(replies.listed.value, ctx.author)
      && CommentBody(ctx, template).Ok?
    ensures |d.calls| == 2 ==> d.calls[1].body == CommentBody(ctx, template).text
    ensures d.outcome == Notified <==> |d.calls| == 2 && replies.createAccepted
    // and each failure names the step that failed
    ensures d.outcome == Failed(ListCommentsRejected) <==> d.calls != [] && replies.listed.None?
    ensures d.outcome == Failed(TemplateError) <==>
      && d.calls != [] && replies.listed.Some? && !AuthorMentioned(replies.listed.value, ctx.author)
      && CommentBody(ctx, template).Err?
    ensures d.outcome == Failed(CreateCommentRejected) <==> |d.calls| == 2 && !replies.createAccepted
  {
    if !IssueClosedEvent(ctx) then Decision(IrrelevantEvent, [])
    else if ctx.actor == ctx.author then Decision(SelfClosed, [])
    else
      var list := ListComments(ctx.owner, ctx.repo, ctx.number, ctx.closedAt);
      match replies.listed
      case None => Decision(Failed(ListCommentsRejected), [list])
      case Some(comments) =>
        if AuthorMentioned(comments, ctx.author) then Decision(AlreadyMentioned, [list])
        else
          match CommentBody(ctx, template)
          case Err(_) => Decision(Failed(TemplateError), [list])
          case Ok(body) =>
            var create := CreateComment(ctx.owner, ctx.repo, ctx.number, body);
            if replies.createAccepted then Decision(Notified, [list, create])
            else Decision(Failed(CreateCommentRejected), [list, create])
  }

  /** The `github.issues` client: it answers with the replies it was set up
      with and records every request in `calls`. */
  class Issues {
    var calls: seq<Call>
    const replies: Replies

    constructor (replies: Replies)
      ensures this.replies == replies && calls == []
    {
      this.replies := replies;
      calls := [];
    }

    /** `github.issues.listComments({ owner, repo, number, since })`. */
    method ListComments(owner: string, repo: string, number: int, since: string)
      returns (listed: Option<seq<Comment>>)
      modifies this
      ensures calls == old(calls) + [Call.ListComments(owner, repo, number, since)]
      ensures listed == replies.listed
    {
      calls := calls + [Call.ListComments(owner, repo, number, since)];
      listed := replies.listed;
    }

    /** `github.issues.createComment({ owner, repo, number, body })`. */
    method CreateComment(owner: string, repo: string, number: int, body: string)
      returns (accepted: bool)
      modifies this
      ensures calls == old(calls) + [Call.CreateComment(owner, repo, number, body)]
      ensures accepted == replies.createAccepted
    {
      calls := calls + [Call.CreateComment(owner, repo, number, body)];
      accepted := replies.createAccepted;
    }
  }

  /** `authorMentionedSinceIssueClosed`: one list request, then the test on
      the first comment; None when the request is rejected. */
  method AuthorMentionedSinceIssueClosed(
    github: Issues, owner: string, repo: string, number: int, since: string, author: string)
    returns (mentioned: Option<bool>)
    modifies github
    ensures github.calls == old(github.calls) + [ListComments(owner, repo, number, since)]
    ensures github.replies.listed.None? ==> mentioned == None
    ensures github.replies.listed.Some? ==>
      mentioned == Some(AuthorMentioned(github.replies.listed.value, author))
  {
    var listed := github.ListComments(owner, repo, number, since);
    match listed
    case None =>
      mentioned := None;
    case Some(comments) =>
      mentioned := Some(AuthorMentioned(comments, author));
  }

  /** `notifyIssueAuthor`: the guard chain run against the collaborator. */
  method Notify(github: Issues, ctx: Context, template: Option<string>)
    returns (outcome: Outcome)
    modifies github
    ensures outcome == Decide(ctx, template, github.replies).outcome
    ensures github.calls == old(github.calls) + Decide(ctx, template, github.replies).calls
  {
    if !IssueClosedEvent(ctx) {
      return IrrelevantEvent;
    }
    if ctx.actor == ctx.author {
      return SelfClosed;
    }
    var mentioned := AuthorMentionedSinceIssueClosed(github, ctx.owner, ctx.repo, ctx.number, ctx.closedAt, ctx.author);
    if mentioned.None? {
      return Failed(ListCommentsRejected);
    }
    if mentioned.value {
      return AlreadyMentioned;
    }
    var rendered := CommentBody(ctx, template);
    if rendered.Err? {
      return Failed(TemplateError);
    }
    var accepted := github.CreateComment(ctx.owner, ctx.repo, ctx.number, rendered.text);
    outcome := if accepted then Notified else Failed(CreateCommentRejected);
  }

  /** Comments after the first never change the redundancy test. */
  lemma LaterCommentsIgnored(comments: seq<Comment>, others: seq<Comment>, author: string)
    requires |comments| > 0 && |others| > 0 && comments[0] == others[0]
    ensures AuthorMentioned(comments, author) == AuthorMentioned(others, author)
  {
  }

  /** Without a `--template` argument the default message always renders, so
      a write follows whenever the guards pass and the author is not yet
      mentioned, and it addresses the author and names the actor. */
  lemma DefaultTemplatePosted(ctx: Context, replies: Replies)
    ensures var d := Decide(ctx, None, replies);
      && (|d.calls| == 2 <==>
            d.calls != [] && replies.listed.Some? && !AuthorMentioned(replies.listed.value, ctx.author))
      && (|d.calls| == 2 ==>
            d.calls[1].body == "@" + ctx.author + ", this issue was closed by @" + ctx.actor + ".")
  {
    Template.DefaultMessage(Template.Bindings(ctx.author, ctx.actor));
  }

  /** A `--template` argument, even an empty one, replaces the default: the
      write carries that template rendered with the author and the actor,
      and an empty template posts an empty comment. */
  lemma TemplateArgumentPosted(ctx: Context, template: string, replies: Replies)
    ensures var d := Decide(ctx, Some(template), replies);
      && (|d.calls| == 2 ==>
            Template.Render(template, Template.Bindings(ctx.author, ctx.actor)) == Template.Ok(d.calls[1].body))
      && (template == "" && |d.calls| == 2 ==> d.calls[1].body == "")
  {
  }

  // The scenarios of the source's tests: issue 36 of swinton/example, written
  // by swinton and closed by octocat.

  const Since: string := "0000-00-00T00:00:00Z"

  const ClosedByOctocat: Context :=
    Context("issues", "closed", "octocat", "swinton", "example", "swinton", 36, Since)

  const ListIssue36: Call := ListComments("swinton", "example", 36, Since)

  /** A non-closing event (an issue being opened) is ignored without a request. */
  lemma IgnoresIrrelevantEvents(template: Option<string>, replies: Replies)
    ensures Decide(ClosedByOctocat.(action := "opened"), template, replies) == Decision(IrrelevantEvent, [])
  {
  }

  /** An issue its author closed is ignored without a request. */
  lemma IgnoresIssuesClosedByAuthor(template: Option<string>, replies: Replies)
    ensures Decide(ClosedByOctocat.(author := "octocat"), template, replies) == Decision(SelfClosed, [])
  {
  }

  /** The default message for swinton and octocat, joined a piece at a time
      from the left so that each step compares a short literal. */
  lemma DefaultSpelledForIssue36()
    ensures "@" + "swinton" + ", this issue was closed by @" + "octocat" + "."
         == "@swinton, this issue was closed by @octocat."
  {
    assert "@" + "swinton" == "@swinton";
    assert "@swinton" + ", this issue was closed by @" == "@swinton, this issue was closed by @";
    assert "@swinton, this issue was closed by @" + "octocat" == "@swinton, this issue was closed by @octocat";
  }

  /** The default message for swinton's issue closed by octocat. */
  lemma DefaultBodyForIssue36()
    ensures CommentBody(ClosedByOctocat, None) == Template.Ok("@swinton, this issue was closed by @octocat.")
  {
    DefaultSpelledForIssue36();
    Template.DefaultMessage(Template.Bindings("swinton", "octocat"));
  }

  /** A first comment that mentions `@swinton.` suppresses the notification. */
  lemma IgnoresWhenAuthorAlreadyMentioned(createAccepted: bool)
    ensures Decide(ClosedByOctocat, None,
                   Replies(Some([Comment("Closing this out :v: /cc @swinton.")]), createAccepted))
         == Decision(AlreadyMentioned, [ListIssue36])
  {
    Mention.ClosingCommentMentions();
  }

  /** `@swinton88` is not a mention of swinton: the notification is posted. */
  lemma DistinguishesSimilarMentions()
    ensures Decide(ClosedByOctocat, None,
                   Replies(Some([Comment("Closing this out :v: /cc @swinton88.")]), true))
         == Decision(Notified, [ListIssue36,
              CreateComment("swinton", "example", 36, "@swinton, this issue was closed by @octocat.")])
  {
    Mention.SimilarHandleExample();
    DefaultBodyForIssue36();
  }

  /** A first comment without a mention: the notification is posted. */
  lemma NotifiesWhenNotYetMentioned()
    ensures Decide(ClosedByOctocat, None, Replies(Some([Comment("Closing this out :v:.")]), true))
         == Decision(Notified, [ListIssue36,
              CreateComment("swinton", "example", 36, "@swinton, this issue was closed by @octocat.")])
  {
    Mention.PlainCommentExample();
    DefaultBodyForIssue36();
  }

  /** No comment since the closure: the notification is posted. */
  lemma NotifiesWhenNoComments()
    ensures Decide(ClosedByOctocat, None, Replies(Some([]), true))
         == Decision(Notified, [ListIssue36,
              CreateComment("swinton", "example", 36, "@swinton, this issue was closed by @octocat.")])
  {
    DefaultBodyForIssue36();
  }

  /** The `--template` argument of the source's tests, written piece by
      piece. */
  const LoudspeakerTemplate: string :=
    ":loudspeaker: @" + "{{ author }}" + ", your issue was closed, by @" + "{{ actor }}" + "."

  /** The custom template addresses the author and names the actor. */
  lemma LoudspeakerMessage(b: Template.Bindings)
    ensures Template.Render(LoudspeakerTemplate, b)
         == Template.Ok(":loudspeaker: @" + b.author + ", your issue was closed, by @" + b.actor + ".")
  {
    assert Template.Plain(":loudspeaker: @") && Template.Plain(", your issue was closed, by @");
    Template.AuthorActorTemplate(":loudspeaker: @", ", your issue was closed, by @", ".", b);
  }

  /** The custom message for swinton and octocat, joined a piece at a time
      from the left. */
  lemma LoudspeakerSpelledForIssue36()
    ensures ":loudspeaker: @" + "swinton" + ", your issue was closed, by @" + "octocat" + "."
         == ":loudspeaker: @swinton, your issue was closed, by @octocat."
  {
    assert ":loudspeaker: @" + "swinton" == ":loudspeaker: @swinton";
    assert ":loudspeaker: @swinton" + ", your issue was closed, by @"
        == ":loudspeaker: @swinton, your issue was closed, by @";
    assert ":loudspeaker: @swinton, your issue was closed, by @" + "octocat"
        == ":loudspeaker: @swinton, your issue was closed, by @octocat";
  }

  /** The `--template` argument of the source's tests, rendered. */
  lemma LoudspeakerBodyForIssue36()
    ensures CommentBody(ClosedByOctocat, Some(LoudspeakerTemplate))
         == Template.Ok(":loudspeaker: @swinton, your issue was closed, by @octocat.")
  {
    LoudspeakerSpelledForIssue36();
    LoudspeakerMessage(Template.Bindings("swinton", "octocat"));
  }

  /** A custom template replaces the default message. */
  lemma AllowsBodyOverride()
    ensures Decide(ClosedByOctocat, Some(LoudspeakerTemplate), Replies(Some([]), true))
         == Decision(Notified, [ListIssue36,
              CreateComment("swinton", "example", 36, ":loudspeaker: @swinton, your issue was closed, by @octocat.")])
  {
    LoudspeakerBodyForIssue36();
  }
}
