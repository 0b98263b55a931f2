# notify-issue-author, modelled in Dafny

A GitHub Action that runs when an issue is closed. If someone other than the
issue's author closed it, and the first comment posted since the closure
does not already mention the author, it posts one comment. The comment
tells the author who closed the issue. It is rendered from a template: the
`--template` argument, or `@{{ author }}, this issue was closed by @{{ actor }}.`
by default.

The model has three modules, and a fourth, `Wrappers` (wrappers.dfy), that
only holds the `Option` type they share:

- `Mention` (mention.dfy) spells out the redundancy test. The source builds
  the regular expression `@<author>\b` from the author's login. Here that is
  an explicit check: an `@`, then the login verbatim, then a character
  outside `[A-Za-z0-9_]` or the end of the text. Nothing is required of the
  character before the `@`. `Matches` scans every start position and is
  proved equal to "there is a position where the pattern matches". Lemmas
  show that `@swinton.` is a mention of `swinton` and `@swinton88.` is not.
  A consequence of `\b` is also proved: `-` is not a word character, so a
  mention of a hyphenated login such as `@swinton-bot` counts as a mention
  of `swinton`.
- `Template` (template.dfy) covers the part of `nunjucks.renderString` the
  action uses: `{{ name }}` interpolation, with any blanks (space, tab,
  line feed, carriage return, no-break space) around the name. A name is
  what the nunjucks lexer reads as a symbol: it runs up to a blank or a
  delimiter, so it may hold characters such as `$` or `@`. `true` and
  `false` render as themselves, and `{{ not }}` is a parse error. Literal
  text is copied verbatim, except `#}`, which the lexer rejects. A template
  is also given as pieces (literal text and placeholders), with `Print` and
  `Interpolate`. The central lemma proves that rendering the printed pieces
  yields their interpolation. Another pair of lemmas proves that the tag
  parser reads back exactly what a tag is written as, in both directions.
- `NotifyIssueAuthor` (engine.dfy) covers the guard chain. `Decide` states
  the whole run as a function of three things: the context, the template
  argument, and the collaborator's answers. It returns the outcome (the
  branch the source logs) and the list of requests made to the GitHub
  client. Its contract is the engine's promise:
  - at most one list request and one create request, the list request first;
  - the issue's coordinates and `closed_at` passed on unmodified;
  - no request for an irrelevant event or an issue its author closed;
  - no write when the first comment mentions the author;
  - otherwise, exactly one write, whose body is the rendered template.

  The class `Issues` stands for the `github.issues` client: it records
  every request. The methods `AuthorMentionedSinceIssueClosed` and `Notify`
  run the source's steps against it and are proved to produce exactly what
  `Decide` says. One lemma per test of the source's test file replays that
  test's scenario.

The event name checked is `issues`, as the code has it
(lib/notify-issue-author.js:6). The code checks
neither that the author and the actor are non-empty nor that `closed_at` is
a valid instant, and neither does the model.

## Model

| member | source | states |
|---|---|---|
| Mention.MentionsFrom | lib/notify-issue-author.js:19-21 | the scan from a start index is true exactly when `@author` followed by a non-word character or the end of text occurs at some later index |
| Mention.Matches | lib/notify-issue-author.js:19-21 | `re.test(body)` is true exactly when the unanchored pattern `@author\b` matches somewhere in the body |
| Mention.MentionFound | lib/notify-issue-author.js:19-21 | `@author` followed by a non-word character or the end of text is a mention, whatever precedes the `@` |
| Mention.LongerHandleNotMentioned | lib/notify-issue-author.js:19-21 | when the only `@` is followed by the login and then a word character (a longer handle), there is no match |
| Mention.NoAtSignNoMention | lib/notify-issue-author.js:21 | a body without `@` never mentions the author |
| Mention.ClosingCommentMentions | test/notify-issue-author.test.js:42-58 | `Closing this out :v: /cc @swinton.` mentions `swinton` |
| Mention.SimilarHandleExample | test/notify-issue-author.test.js:60-83 | `Closing this out :v: /cc @swinton88.` does not mention `swinton` |
| Mention.PlainCommentExample | test/notify-issue-author.test.js:85-106 | `Closing this out :v:.` does not mention `swinton` |
| Mention.HyphenatedHandleMatches | lib/notify-issue-author.js:19 | `\b` treats `-` as a boundary, so `@swinton-bot` counts as a mention of `swinton` |
| Template.Render | lib/notify-issue-author.js:63-66 | no contract of its own: `nunjucks.renderString` restricted to one-symbol variable tags, token by token; RenderPlain, RenderText, RenderCommentEnd, RenderOpenedTag and RenderPrinted characterise it |
| Template.NextStep | lib/notify-issue-author.js:63-66 | the lexer's next token: `{%` or `{#` fails, `#}` fails, `{{` reads a variable tag, any other character is data; its contract states only that each emitted step leaves less text; OpenedStep, PlainStep and RenderEmits state its cases |
| Template.Lookup | lib/notify-issue-author.js:63-66 | no contract of its own: `author` and `actor` give the two bindings, `true` and `false` give themselves, any other name is undefined and renders as the empty text; BooleanTag and RenderTag use it |
| Template.RenderPlain | lib/notify-issue-author.js:63-66 | a template of plain text (no `{`, and every `#` followed by a character other than `}`) renders as itself |
| Template.RenderText | lib/notify-issue-author.js:63-66 | plain literal text is copied verbatim in front of the rendering of whatever follows it |
| Template.RenderCommentEnd | lib/notify-issue-author.js:63-66 | `#}` after plain text makes rendering fail with UnexpectedCommentEnd, whatever follows |
| Template.ParseTag | lib/notify-issue-author.js:63-66 | a variable tag that parses yields a symbol name and leaves strictly less text to render |
| Template.ParseInside | lib/notify-issue-author.js:63-66 | blanks, a name, blanks, `}}` and any rest parse back to exactly that name and that rest, whatever the blanks |
| Template.ParsedAsWritten | lib/notify-issue-author.js:63-66 | conversely, whenever a tag parses, its text is blanks, the parsed name, blanks, `}}` and the parsed rest |
| Template.RenderOpenedTag | lib/notify-issue-author.js:63-66 | after `{{`: text that does not parse as a tag, or the name `not`, fails with MalformedTag; any other name renders as its value in front of the rest's rendering |
| Template.RenderTag | lib/notify-issue-author.js:63-66 | a tag written with any blanks around a printable name renders as the value bound to the name, in front of the rest's rendering |
| Template.RenderPrinted | lib/notify-issue-author.js:63-66 | rendering a template written from well-formed pieces (plain text, placeholders with any blanks) gives their interpolation: literal text verbatim, each placeholder replaced by its value |
| Template.AuthorActorTemplate | lib/notify-issue-author.js:63-66 | any plain text around an `author` tag and an `actor` tag renders as that text around the author's and the actor's logins |
| Template.DefaultMessage | lib/notify-issue-author.js:61-66 | the default template renders as `@<author>, this issue was closed by @<actor>.` for every author and actor |
| Template.UnspacedTag | lib/notify-issue-author.js:63-66 | `{{author}}` without blanks renders as the author's login |
| Template.TabbedTag | lib/notify-issue-author.js:63-66 | `{{\tactor  }}`, with a tab and two spaces, renders as the actor's login |
| Template.BooleanTag | lib/notify-issue-author.js:63-66 | `{{ true }}` renders as `true`, the boolean literal, not as a variable |
| Template.NegationTag | lib/notify-issue-author.js:63-66 | `{{ not }}` fails with MalformedTag: a negation without an operand |
| Template.StrayCommentEnd | lib/notify-issue-author.js:63-66 | a template starting `issue #}` fails with UnexpectedCommentEnd |
| NotifyIssueAuthor.IssueClosedEvent | lib/notify-issue-author.js:5-7 | no contract of its own (it compares the event with `issues` and the action with `closed`, exactly); `Decide`'s clauses state what it decides: IrrelevantEvent exactly when it is false, and then no request |
| NotifyIssueAuthor.TemplateOrDefault | lib/notify-issue-author.js:61 | no contract of its own; DefaultTemplatePosted and TemplateArgumentPosted state what its choice means for the posted comment |
| NotifyIssueAuthor.CommentBody | lib/notify-issue-author.js:61-66 | no contract of its own; `Decide`'s clauses tie it to the write (made exactly when it renders, carrying its text), and DefaultTemplatePosted and TemplateArgumentPosted characterise it for each kind of argument |
| NotifyIssueAuthor.DefaultTemplatePosted | lib/notify-issue-author.js:61-67 | for every context and every collaborator reply, a run without `--template` writes exactly when the list succeeded and the first comment does not mention the author, and the write's body is `@<author>, this issue was closed by @<actor>.` |
| NotifyIssueAuthor.TemplateArgumentPosted | lib/notify-issue-author.js:61-67 | for every context, reply and `--template` argument, including the empty one (the default applies only to an absent argument), a write carries that argument rendered with the author and the actor; an empty argument posts an empty comment |
| NotifyIssueAuthor.AuthorMentioned | lib/notify-issue-author.js:21 | false on an empty comment list; otherwise true exactly when the first comment's body mentions the author |
| NotifyIssueAuthor.LaterCommentsIgnored | lib/notify-issue-author.js:21 | two comment lists with the same first comment give the same answer: later comments never change the result |
| NotifyIssueAuthor.Decide | lib/notify-issue-author.js:25-69 | at most one list request and one create request, the list first, with owner, repo, number and `closed_at` unmodified; IrrelevantEvent exactly when the event is not `issues`/`closed`; SelfClosed exactly when the actor is the author; no request in those two cases; AlreadyMentioned exactly when the first listed comment mentions the author, and then no write; a write exactly when the list succeeded, the author is not mentioned and the template renders, carrying the rendered body; Notified exactly when that write succeeds; Failed(ListCommentsRejected) exactly when the list request is rejected, Failed(TemplateError) exactly when the template does not render where the write would follow, Failed(CreateCommentRejected) exactly when the write is rejected |
| NotifyIssueAuthor.Issues.ListComments | lib/notify-issue-author.js:12-17 | appends one list request with the given owner, repo, number and `since` to the record, and answers with the configured comments |
| NotifyIssueAuthor.Issues.CreateComment | lib/notify-issue-author.js:67 | appends one create request with the given owner, repo, number and body to the record |
| NotifyIssueAuthor.AuthorMentionedSinceIssueClosed | lib/notify-issue-author.js:10-22 | issues exactly one list request with its arguments unmodified, then reports whether the first listed comment mentions the author |
| NotifyIssueAuthor.Notify | lib/notify-issue-author.js:25-69 | returns the outcome `Decide` gives and adds to the client's record exactly the requests `Decide` lists |
| NotifyIssueAuthor.IgnoresIrrelevantEvents | test/notify-issue-author.test.js:21-28 | an `opened` event ends as IrrelevantEvent with no request |
| NotifyIssueAuthor.IgnoresIssuesClosedByAuthor | test/notify-issue-author.test.js:30-40 | an issue octocat wrote and closed ends as SelfClosed with no request |
| NotifyIssueAuthor.IgnoresWhenAuthorAlreadyMentioned | test/notify-issue-author.test.js:42-58 | a first comment mentioning `@swinton.` gives one list request for swinton/example#36 since `0000-00-00T00:00:00Z`, and no write |
| NotifyIssueAuthor.DistinguishesSimilarMentions | test/notify-issue-author.test.js:60-83 | a first comment mentioning `@swinton88.` gives the list request, then one write of `@swinton, this issue was closed by @octocat.` |
| NotifyIssueAuthor.NotifiesWhenNotYetMentioned | test/notify-issue-author.test.js:85-106 | a first comment without a mention gives the list request, then the default message |
| NotifyIssueAuthor.NotifiesWhenNoComments | test/notify-issue-author.test.js:108-129 | no comment since the closure gives the list request, then the default message |
| NotifyIssueAuthor.LoudspeakerMessage | test/notify-issue-author.test.js:136-139 | the test's custom template renders as `:loudspeaker: @<author>, your issue was closed, by @<actor>.` for every author and actor |
| NotifyIssueAuthor.DefaultBodyForIssue36 | test/notify-issue-author.test.js:99-105 | the default template for author swinton and actor octocat renders as `@swinton, this issue was closed by @octocat.` |
| NotifyIssueAuthor.LoudspeakerBodyForIssue36 | test/notify-issue-author.test.js:136-155 | the test's custom template renders as `:loudspeaker: @swinton, your issue was closed, by @octocat.` |
| NotifyIssueAuthor.AllowsBodyOverride | test/notify-issue-author.test.js:131-156 | with the custom template, the list request is followed by one write of the custom message |

## Left out

- lib/logger.js: logger setup from environment variables and an output stream. The four log messages of the engine are the four outcomes `IrrelevantEvent`, `SelfClosed`, `AlreadyMentioned` and `Notified`.
- lib/utils.js: `getTools` wraps the `actions-toolkit` constructor and checks that the environment is present. It is foreign library code and environment plumbing, and so is the entry point that uses it. test/entrypoint.test.js and test/logger.test.js test only that plumbing.
- The test fixtures `issues.opened` and `issues.closed` are not part of this model. The scenario lemmas rebuild their values from the tests' expectations: owner `swinton`, repository `example`, issue 36, author `swinton`, `closed_at` `0000-00-00T00:00:00Z`, and the action `opened` for the opened fixture.
- Payload destructuring: the source reads owner, repo, author, number and `closed_at` before the event check (lib/notify-issue-author.js:28-38). A payload without `repository`, `repository.owner`, `issue` or `issue.user` throws, even for an irrelevant event. A missing repository name, issue number or `closed_at` is read as undefined and passed on. The model takes every field as present. The test at test/notify-issue-author.test.js:32 replaces the issue by one that holds only its author; the model gives that issue the fixture's other fields.
- Promises: a rejected `listComments` or `createComment` request ends the run with `Failed`, and nothing after it is requested. The source rejects its own promise instead of returning a value. Nothing is retried.
- The collaborator's answers are fixed in advance. GitHub's filtering by `since` and the order of the listed comments belong to the API and are not modelled.
- Template.Render: only `{{ name }}` interpolation of a single symbol is modelled. Filters, member access, operators, string literals, `{%` control tags, `{#` comments and whitespace control (`{{-`, `-}}`) make rendering fail (`Err`). Nunjucks would evaluate those, or throw on a syntax error; a failure to render ends the run with `Failed(TemplateError)` after the list request.
- Template.Render: a number literal such as `{{ 42 }}` renders its digits in nunjucks; the model reports MalformedTag.
- Template.Render: names other than `author`, `actor`, `true` and `false` render as the empty text, as undefined variables and `none`/`null` do. Nunjucks looks names up with JavaScript's `in`, so names inherited from `Object.prototype` (such as `constructor`) and the globals `range`, `cycler` and `joiner` would render as the text of an object or a function instead.
- Template.Render: autoescaping is not modelled. It leaves GitHub logins unchanged, which is all the two bindings ever hold.
- Mention.Matches: the author is interpolated unescaped into the regular expression. The model agrees with that expression only for login-shaped authors (`Mention.IsLogin`: letters, digits and `-`, not ending in `-`). Metacharacters in the author, and a `\b` after a trailing non-word character, are not modelled.
- Mention.Matches: the `g` flag and `lastIndex` are not modelled. The expression is built anew on each call and tested once, so they have no effect.
- The issue number is an unbounded integer; JavaScript numbers are not modelled.
