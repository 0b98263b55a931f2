/** The part of `nunjucks.renderString` the notification message relies on:
    `{{ name }}` interpolation, with optional blanks inside the braces, of the
    two bindings `author` and `actor`. Every other character of the template
    is copied verbatim, except the markup the nunjucks lexer rejects or
    evaluates, which makes rendering fail. */
module Template {
  import opened Wrappers

  /** The context object handed to the renderer. */
  datatype Bindings = Bindings(author: string, actor: string)

  datatype RenderError =
    | UnsupportedTag        // `{%` (a control tag) or `{#` (a comment)
    | MalformedTag          // `{{` not followed by blanks, a name, blanks and `}}`, or naming `not`
    | UnexpectedCommentEnd  // `#}` in literal text, which the lexer rejects

  datatype Rendered = Ok(text: string) | Err(error: RenderError)

  /** The blanks the template lexer skips inside a tag. */
  predicate IsBlank(c: char) {
    c == ' ' || c == '\t' || c == '\n' || c == '\r' || c == '\U{A0}'
  }

  predicate Blanks(w: string) {
    forall k :: 0 <= k < |w| ==> IsBlank(w[k])
  }

  /** The punctuation the lexer reads as an operator or a bracket; it ends a
      name. */
  predicate IsDelimiter(c: char) {
    || c == '(' || c == ')' || c == '[' || c == ']' || c == '{' || c == '}'
    || c == '%' || c == '*' || c == '-' || c == '+' || c == '~' || c == '/'
    || c == '#' || c == ',' || c == ':' || c == '|' || c == '.' || c == '<'
    || c == '>' || c == '=' || c == '!'
  }

  predicate IsNameChar(c: char) {
    !IsBlank(c) && !IsDelimiter(c)
  }

  predicate IsDigit(c: char) {
    '0' <= c <= '9'
  }

  /** A name the lexer reads as a symbol: name characters, not opening a
      string literal, and not all digits (that is a number). */
  predicate IsName(s: string) {
    && |s| > 0
    && s[0] != '"' && s[0] != '\''
    && (forall k :: 0 <= k < |s| ==> IsNameChar(s[k]))
    && (exists k :: 0 <= k < |s| && !IsDigit(s[k]))
  }

  /** A name a variable tag can print: every name except `not`, which opens
      a negation and leaves the tag without an operand. */
  predicate IsPrintable(name: string) {
    IsName(name) && name != "not"
  }

  /** The value a name renders to. `true` and `false` are boolean literals;
      an unbound name is undefined and renders as the empty text. */
  function Lookup(name: string, b: Bindings): string {
    if name == "author" then b.author
    else if name == "actor" then b.actor
    else if name == "true" then "true"
    else if name == "false" then "false"
    else ""
  }

  /** Drops the leading blanks of `s`. */
  function SkipBlanks(s: string): (r: string)
    ensures |r| <= |s| && r == s[|s| - |r|..]
    ensures Blanks(s[..|s| - |r|])
    ensures r == [] || !IsBlank(r[0])
  {
    if s != [] && IsBlank(s[0]) then
      var r := SkipBlanks(s[1..]);
      assert s[..|s| - |r|] == [s[0]] + s[1..][..|s| - 1 - |r|];
      r
    else s
  }

  /** The longest prefix of `s` made of name characters. */
  function TakeName(s: string): (r: string)
    ensures |r| <= |s| && r == s[..|r|]
    ensures forall k :: 0 <= k < |r| ==> IsNameChar(r[k])
    ensures |r| == |s| || !IsNameChar(s[|r|])
  {
    if s != [] && IsNameChar(s[0]) then [s[0]] + TakeName(s[1..]) else []
  }

  /** The inside of a variable tag as it is written: blanks, the name,
      blanks, the closing `}}`, and the text after it. */
  function Inside(lead: string, name: string, trail: string, rest: string): string {
    lead + (name + (trail + ("}}" + rest)))
  }

  /** Reads the inside of a variable tag, `s` being the text after `{{`:
      the name and what follows the closing `}}`. */
  function ParseTag(s: string): (r: Option<(string, string)>)
    ensures r.Some? ==> IsName(r.value.0) && |r.value.1| < |s|
  {
    var a := SkipBlanks(s);
    var name := TakeName(a);
    var d := SkipBlanks(a[|name|..]);
    if IsName(name) && |d| >= 2 && d[..2] == "}}" then Some((name, d[2..]))
    else None
  }

  /** What a tag parses to is what is written in it: the text after `{{` is
      blanks, the name, blanks, `}}` and the rest. */
  lemma ParsedAsWritten(s: string)
    requires ParseTag(s).Some?
    ensures exists lead, trail :: Blanks(lead) && Blanks(trail)
                               && s == Inside(lead, ParseTag(s).value.0, trail, ParseTag(s).value.1)
  {
    var lead, trail := Written(s);
    WrittenAs(s, lead, ParseTag(s).value.0, trail, ParseTag(s).value.1);
  }

  /** The blanks around the name of a tag that parses. */
  lemma Written(s: string) returns (lead: string, trail: string)
    requires ParseTag(s).Some?
    ensures Blanks(lead) && Blanks(trail)
    ensures s == Inside(lead, ParseTag(s).value.0, trail, ParseTag(s).value.1)
  {
    var a := SkipBlanks(s);
    var name := TakeName(a);
    var c := a[|name|..];
    var d := SkipBlanks(c);
    assert ParseTag(s).value == (name, d[2..]) && |d| >= 2 && d[..2] == "}}";
    lead, trail := Split(s, a, name, c, d);
  }

  /** The text after `{{` taken apart at the points the parser finds. */
  lemma Split(s: string, a: string, name: string, c: string, d: string) returns (lead: string, trail: string)
    requires a == SkipBlanks(s) && |name| <= |a| && name == a[..|name|] && c == a[|name|..]
    requires d == SkipBlanks(c)
    requires |d| >= 2 && d[..2] == "}}"
    ensures Blanks(lead) && Blanks(trail)
    ensures s == Inside(lead, name, trail, d[2..])
  {
    lead, trail := s[..|s| - |a|], c[..|c| - |d|];
    assert s == Inside(lead, name, trail, d[2..]) by {
      SkippedBlanks(s);
      SkippedBlanks(c);
      SplitAt(a, |name|);
      Reassemble(s, lead, a, name, c, trail, d);
    }
  }

  lemma WrittenAs(s: string, lead: string, name: string, trail: string, rest: string)
    requires Blanks(lead) && Blanks(trail) && s == Inside(lead, name, trail, rest)
    ensures exists lead', trail' :: Blanks(lead') && Blanks(trail') && s == Inside(lead', name, trail', rest)
  {
  }

  lemma SkippedBlanks(s: string)
    ensures s == s[..|s| - |SkipBlanks(s)|] + SkipBlanks(s)
  {
  }

  lemma SplitAt(s: string, n: nat)
    requires n <= |s|
    ensures s == s[..n] + s[n..]
  {
  }

  lemma Reassemble(s: string, lead: string, a: string, name: string, c: string, trail: string, d: string)
    requires s == lead + a && a == name + c && c == trail + d
    requires |d| >= 2 && d[..2] == "}}"
    ensures s == Inside(lead, name, trail, d[2..])
  {
    assert d == "}}" + d[2..];
  }

  /** `prefix` put in front of a successful rendering; an error stays. */
  function Prepend(prefix: string, r: Rendered): Rendered {
    match r
    case Ok(text) => Ok(prefix + text)
    case Err(e) => Err(e)
  }

  /** Literal text the lexer copies as it is: no `{`, and every `#` followed
      by a character other than `}`. */
  predicate Plain(s: string) {
    forall k {:trigger s[k]} :: 0 <= k < |s| ==>
      s[k] != '{' && (s[k] == '#' ==> k + 1 < |s| && s[k + 1] != '}')
  }

  /** What the lexer makes of the start of a template: some text to emit
      and the rest of the template, or a failure. */
  datatype Step = Emit(text: string, rest: string) | Fail(error: RenderError)

  /** The next token of a non-empty template, rendered: a variable tag emits
      its name's value, any other character is copied, and the markup
      outside the modelled subset fails. */
  function NextStep(t: string, b: Bindings): (s: Step)
    requires t != []
    ensures s.Emit? ==> |s.rest| < |t|
  {
    if |t| >= 2 && t[0] == '{' && (t[1] == '%' || t[1] == '#') then Fail(UnsupportedTag)
    else if |t| >= 2 && t[0] == '#' && t[1] == '}' then Fail(UnexpectedCommentEnd)
    else if |t| >= 2 && t[0] == '{' && t[1] == '{' then
      match ParseTag(t[2..])
      case None => Fail(MalformedTag)
      case Some((name, rest)) =>
        if name == "not" then Fail(MalformedTag) else Emit(Lookup(name, b), rest)
    else Emit([t[0]], t[1..])
  }

  lemma PlainTail(s: string)
    requires Plain(s) && s != []
    ensures Plain(s[1..])
  {
    var t := s[1..];
    forall k | 0 <= k < |t|
      ensures t[k] != '{' && (t[k] == '#' ==> k + 1 < |t| && t[k + 1] != '}')
    {
      assert t[k] == s[k + 1];
      assert k + 1 < |t| ==> t[k + 1] == s[k + 2];
    }
  }

  /** Renders the template `t` with the bindings `b`, token by token. */
  function Render(t: string, b: Bindings): (r: Rendered)
    decreases |t|
  {
    if t == [] then Ok([])
    else
      match NextStep(t, b)
      case Fail(e) => Err(e)
      case Emit(text, rest) => Prepend(text, Render(rest, b))
  }

  /** A template taken apart: literal text and placeholders, each placeholder
      with the blanks written before and after its name. */
  datatype Piece = Text(text: string) | Placeholder(lead: string, name: string, trail: string)

  /** Pieces a template can be written from: plain literal text, and
      placeholders with blanks around a printable name. */
  predicate WellFormed(ps: seq<Piece>) {
    forall k :: 0 <= k < |ps| ==>
      match ps[k]
      case Text(s) => Plain(s)
      case Placeholder(lead, n, trail) => Blanks(lead) && IsPrintable(n) && Blanks(trail)
  }

  /** The template text the pieces spell. */
  function Print(ps: seq<Piece>): string {
    if ps == [] then []
    else
      match ps[0]
      case Text(s) => s + Print(ps[1..])
      case Placeholder(lead, n, trail) => "{{" + Inside(lead, n, trail, Print(ps[1..]))
  }

  /** The message the pieces stand for: literal text as is, each placeholder
      replaced by the value of its name. */
  function Interpolate(ps: seq<Piece>, b: Bindings): string {
    if ps == [] then []
    else
      match ps[0]
      case Text(s) => s + Interpolate(ps[1..], b)
      case Placeholder(_, n, _) => Lookup(n, b) + Interpolate(ps[1..], b)
  }

  lemma PrependAssoc(p: string, q: string, r: Rendered)
    ensures Prepend(p, Prepend(q, r)) == Prepend(p + q, r)
  {
    if r.Ok? {
      assert p + (q + r.text) == (p + q) + r.text;
    }
  }

  /** One step of rendering that emits text: the text, then the rendering
      of what is left. */
  lemma RenderEmits(t: string, b: Bindings)
    requires t != [] && NextStep(t, b).Emit?
    ensures Render(t, b) == Prepend(NextStep(t, b).text, Render(NextStep(t, b).rest, b))
  {
  }

  /** A plain character in front of any text is emitted as it is. */
  lemma PlainStep(p: string, t: string, b: Bindings)
    requires Plain(p) && p != []
    ensures NextStep(p + t, b) == Emit([p[0]], p[1..] + t)
  {
    var pt := p + t;
    assert pt[0] == p[0] && pt[0] != '{';
    assert p[0] == '#' ==> |p| >= 2 && pt[1] == p[1] && pt[1] != '}';
    assert pt[1..] == p[1..] + t;
  }

  /** Plain text is copied verbatim in front of the rest's rendering. */
  lemma {:induction false} RenderText(p: string, t: string, b: Bindings)
    requires Plain(p)
    ensures Render(p + t, b) == Prepend(p, Render(t, b))
  {
    if p == [] {
      assert p + t == t;
    } else {
      PlainStep(p, t, b);
      RenderEmits(p + t, b);
      PlainTail(p);
      RenderText(p[1..], t, b);
      PrependAssoc([p[0]], p[1..], Render(t, b));
      assert [p[0]] + p[1..] == p;
    }
  }

  /** A template of plain text renders as itself. */
  lemma RenderPlain(t: string, b: Bindings)
    requires Plain(t)
    ensures Render(t, b) == Ok(t)
  {
    RenderText(t, [], b);
    assert t + [] == t;
  }

  /** `#}` after plain text makes rendering fail, whatever follows. */
  lemma RenderCommentEnd(p: string, t: string, b: Bindings)
    requires Plain(p)
    ensures Render(p + "#}" + t, b) == Err(UnexpectedCommentEnd)
  {
    var s := "#}" + t;
    assert p + "#}" + t == p + s;
    RenderText(p, s, b);
    assert s[0] == '#' && s[1] == '}';
  }

  /** Leading blanks are skipped up to the first other character. */
  lemma {:induction false} SkipLeadingBlanks(w: string, s: string)
    requires Blanks(w)
    requires s == [] || !IsBlank(s[0])
    ensures SkipBlanks(w + s) == s
  {
    if w != [] {
      assert (w + s)[0] == w[0];
      assert (w + s)[1..] == w[1..] + s;
      SkipLeadingBlanks(w[1..], s);
    } else {
      assert w + s == s;
    }
  }

  lemma TakeWholeName(name: string, rest: string)
    requires forall k :: 0 <= k < |name| ==> IsNameChar(name[k])
    requires rest == [] || !IsNameChar(rest[0])
    ensures TakeName(name + rest) == name
  {
    assert (name + rest)[..|name|] == name;
  }

  /** The inside of a tag, written with any blanks around a name, parses
      back to that name and the text after `}}`. */
  lemma ParseInside(lead: string, name: string, trail: string, rest: string)
    requires Blanks(lead) && IsName(name) && Blanks(trail)
    ensures ParseTag(Inside(lead, name, trail, rest)) == Some((name, rest))
  {
    var close := "}}" + rest;
    var a := name + (trail + close);
    LeadSkipped(lead, name, trail + close);
    NameTaken(name, trail, rest);
    assert a[|name|..] == trail + close;
    TrailSkipped(trail, rest);
    assert close[..2] == "}}" && close[2..] == rest;
    ParseSteps(lead + a, a, name, close);
  }

  /** The blanks before a name are skipped up to the name. */
  lemma LeadSkipped(lead: string, name: string, after: string)
    requires Blanks(lead) && IsName(name)
    ensures SkipBlanks(lead + (name + after)) == name + after
  {
    assert (name + after)[0] == name[0] && IsNameChar(name[0]);
    SkipLeadingBlanks(lead, name + after);
  }

  /** A name followed by blanks and `}}` is read whole. */
  lemma NameTaken(name: string, trail: string, rest: string)
    requires IsName(name) && Blanks(trail)
    ensures TakeName(name + (trail + ("}}" + rest))) == name
  {
    var after := trail + ("}}" + rest);
    assert !IsNameChar(after[0]) by {
      if trail == [] {
        assert after[0] == '}';
      } else {
        assert after[0] == trail[0];
      }
    }
    TakeWholeName(name, after);
  }

  /** The blanks after a name are skipped up to `}}`. */
  lemma TrailSkipped(trail: string, rest: string)
    requires Blanks(trail)
    ensures SkipBlanks(trail + ("}}" + rest)) == "}}" + rest
  {
    SkipLeadingBlanks(trail, "}}" + rest);
  }

  /** The parser's three steps, given their results, yield the name and the
      text after `}}`. */
  lemma ParseSteps(s: string, a: string, name: string, d: string)
    requires a == SkipBlanks(s) && name == TakeName(a) && d == SkipBlanks(a[|name|..])
    requires IsName(name) && |d| >= 2 && d[..2] == "}}"
    ensures ParseTag(s) == Some((name, d[2..]))
  {
  }

  /** After an opening `{{` the lexer reads a variable tag. */
  lemma OpenedStep(t: string, b: Bindings)
    requires |t| >= 2 && t[0] == '{' && t[1] == '{'
    ensures NextStep(t, b) ==
      match ParseTag(t[2..])
      case None => Fail(MalformedTag)
      case Some((name, rest)) =>
        if name == "not" then Fail(MalformedTag) else Emit(Lookup(name, b), rest)
  {
  }

  /** What follows an opening `{{` decides how the tag renders: a parse
      failure or the name `not` fails, any other name renders as its value
      in front of the rest's rendering. */
  lemma RenderOpenedTag(inside: string, b: Bindings)
    ensures ParseTag(inside).None? ==> Render("{{" + inside, b) == Err(MalformedTag)
    ensures ParseTag(inside).Some? && ParseTag(inside).value.0 == "not" ==>
      Render("{{" + inside, b) == Err(MalformedTag)
    ensures ParseTag(inside).Some? && ParseTag(inside).value.0 != "not" ==>
      Render("{{" + inside, b)
        == Prepend(Lookup(ParseTag(inside).value.0, b), Render(ParseTag(inside).value.1, b))
  {
    var s := "{{" + inside;
    assert s[0] == '{' && s[1] == '{' && s[2..] == inside;
    OpenedStep(s, b);
    if ParseTag(inside).Some? && ParseTag(inside).value.0 != "not" {
      RenderEmits(s, b);
    }
  }

  /** A placeholder tag, written with any blanks around its name, renders
      as the name's value in front of the rest's rendering. */
  lemma RenderTag(lead: string, name: string, trail: string, t: string, b: Bindings)
    requires Blanks(lead) && IsPrintable(name) && Blanks(trail)
    ensures Render("{{" + Inside(lead, name, trail, t), b) == Prepend(Lookup(name, b), Render(t, b))
  {
    ParseInside(lead, name, trail, t);
    RenderOpenedTag(Inside(lead, name, trail, t), b);
  }

  /** Rendering a well-formed template yields its interpolation: the
      literal text verbatim and each placeholder replaced by its value. */
  lemma {:induction false} RenderPrinted(ps: seq<Piece>, b: Bindings)
    requires WellFormed(ps)
    ensures Render(Print(ps), b) == Ok(Interpolate(ps, b))
  {
    if ps != [] {
      assert WellFormed(ps[1..]) by {
        forall k | 0 <= k < |ps[1..]| ensures ps[1..][k] == ps[k + 1] { }
      }
      RenderPrinted(ps[1..], b);
      match ps[0]
      case Text(s) =>
        assert Plain(s) by { assert ps[0] == ps[0 + 0]; }
        RenderText(s, Print(ps[1..]), b);
      case Placeholder(lead, n, trail) =>
        assert Blanks(lead) && IsPrintable(n) && Blanks(trail) by { assert ps[0] == ps[0 + 0]; }
        RenderTag(lead, n, trail, Print(ps[1..]), b);
    }
  }

  /** A placeholder with one blank on each side of `author` prints as
      `{{ author }}`; likewise for `actor`. */
  lemma SpelledTags(x: string)
    ensures "{{" + Inside(" ", "author", " ", x) == "{{ author }}" + x
    ensures "{{" + Inside(" ", "actor", " ", x) == "{{ actor }}" + x
  {
  }

  /** The pieces of a template with an `author` tag and an `actor` tag, each
      written `{{ name }}`, spell that template. */
  lemma AuthorActorPrint(pre: string, mid: string, post: string)
    ensures Print([Text(pre), Placeholder(" ", "author", " "), Text(mid), Placeholder(" ", "actor", " "), Text(post)])
         == pre + "{{ author }}" + mid + "{{ actor }}" + post
  {
    var ps := [Text(pre), Placeholder(" ", "author", " "), Text(mid), Placeholder(" ", "actor", " "), Text(post)];
    assert ps[1..][1..] == ps[2..] && ps[2..][1..] == ps[3..] && ps[3..][1..] == ps[4..] && ps[4..][1..] == [];
    assert Print(ps[4..]) == post + [] == post;
    assert Print(ps[3..]) == "{{ actor }}" + post by { SpelledTags(post); }
    assert Print(ps[2..]) == mid + ("{{ actor }}" + post);
    assert Print(ps[1..]) == "{{ author }}" + (mid + ("{{ actor }}" + post)) by {
      SpelledTags(Print(ps[2..]));
    }
    Regrouped(pre, "{{ author }}", mid, "{{ actor }}", post);
  }

  lemma Regrouped(s1: string, s2: string, s3: string, s4: string, s5: string)
    ensures s1 + (s2 + (s3 + (s4 + s5))) == s1 + s2 + s3 + s4 + s5
  {
  }

  /** The same pieces interpolate to the text around the two bindings. */
  lemma AuthorActorInterpolate(pre: string, mid: string, post: string, b: Bindings)
    ensures Interpolate([Text(pre), Placeholder(" ", "author", " "), Text(mid), Placeholder(" ", "actor", " "), Text(post)], b)
         == pre + b.author + mid + b.actor + post
  {
    var ps := [Text(pre), Placeholder(" ", "author", " "), Text(mid), Placeholder(" ", "actor", " "), Text(post)];
    assert ps[1..][1..] == ps[2..] && ps[2..][1..] == ps[3..] && ps[3..][1..] == ps[4..] && ps[4..][1..] == [];
    assert Interpolate(ps[4..], b) == post + [] == post;
    assert Interpolate(ps[3..], b) == b.actor + post;
    assert Interpolate(ps[2..], b) == mid + (b.actor + post);
    assert Interpolate(ps[1..], b) == b.author + (mid + (b.actor + post));
  }

  /** `author` and `actor` are names a tag can print. */
  lemma BindingNames()
    ensures IsPrintable("author") && IsPrintable("actor")
  {
    assert !IsDigit("author"[0]) && !IsDigit("actor"[0]);
  }

  /** Plain text around the two tags makes well-formed pieces. */
  lemma AuthorActorWellFormed(pre: string, mid: string, post: string)
    requires Plain(pre) && Plain(mid) && Plain(post)
    ensures WellFormed([Text(pre), Placeholder(" ", "author", " "), Text(mid), Placeholder(" ", "actor", " "), Text(post)])
  {
    var ps := [Text(pre), Placeholder(" ", "author", " "), Text(mid), Placeholder(" ", "actor", " "), Text(post)];
    BindingNames();
    assert Blanks(" ");
    forall k | 0 <= k < |ps|
      ensures match ps[k]
              case Text(s) => Plain(s)
              case Placeholder(lead, n, trail) => Blanks(lead) && IsPrintable(n) && Blanks(trail)
    {
    }
  }

  /** A template that writes plain text around an `author` tag and an
      `actor` tag, spelled `{{ author }}` and `{{ actor }}`, renders as that
      text around the two bindings. */
  lemma AuthorActorTemplate(pre: string, mid: string, post: string, b: Bindings)
    requires Plain(pre) && Plain(mid) && Plain(post)
    ensures Render(pre + "{{ author }}" + mid + "{{ actor }}" + post, b)
         == Ok(pre + b.author + mid + b.actor + post)
  {
    var ps := [Text(pre), Placeholder(" ", "author", " "), Text(mid), Placeholder(" ", "actor", " "), Text(post)];
    AuthorActorWellFormed(pre, mid, post);
    RenderPrinted(ps, b);
    AuthorActorPrint(pre, mid, post);
    AuthorActorInterpolate(pre, mid, post, b);
  }

  /** The message used when no template is configured,
      `@{{ author }}, this issue was closed by @{{ actor }}.`, written piece
      by piece. */
  const DefaultTemplate: string := "@" + "{{ author }}" + ", this issue was closed by @" + "{{ actor }}" + "."

  /** The default template addresses the author and names the actor. */
  lemma DefaultMessage(b: Bindings)
    ensures Render(DefaultTemplate, b) == Ok("@" + b.author + ", this issue was closed by @" + b.actor + ".")
  {
    assert Plain(", this issue was closed by @");
    AuthorActorTemplate("@", ", this issue was closed by @", ".", b);
  }

  // Tags written in other ways, in front of any rest of the template.

  /** A tag without blanks. */
  lemma UnspacedTag(t: string, b: Bindings)
    ensures Render("{{author}}" + t, b) == Prepend(b.author, Render(t, b))
  {
    assert !IsDigit("author"[0]);
    assert "{{author}}" + t == "{{" + Inside("", "author", "", t);
    RenderTag("", "author", "", t, b);
  }

  /** A tag with a tab before the name and two spaces after it. */
  lemma TabbedTag(t: string, b: Bindings)
    ensures Render("{{\tactor  }}" + t, b) == Prepend(b.actor, Render(t, b))
  {
    assert !IsDigit("actor"[0]);
    assert Blanks("\t") && Blanks("  ");
    assert "{{\tactor  }}" + t == "{{" + Inside("\t", "actor", "  ", t);
    RenderTag("\t", "actor", "  ", t, b);
  }

  /** `true` is a boolean literal, not a variable. */
  lemma BooleanTag(t: string, b: Bindings)
    ensures Render("{{ true }}" + t, b) == Prepend("true", Render(t, b))
  {
    assert !IsDigit("true"[0]);
    assert "{{ true }}" + t == "{{" + Inside(" ", "true", " ", t);
    RenderTag(" ", "true", " ", t, b);
  }

  /** `not` alone is a negation without an operand. */
  lemma NegationTag(t: string, b: Bindings)
    ensures Render("{{ not }}" + t, b) == Err(MalformedTag)
  {
    assert !IsDigit("not"[0]);
    assert "{{ not }}" + t == "{{" + Inside(" ", "not", " ", t);
    ParseInside(" ", "not", " ", t);
    RenderOpenedTag(Inside(" ", "not", " ", t), b);
  }

  /** `#}` in literal text is rejected. */
  lemma StrayCommentEnd(t: string, b: Bindings)
    ensures Render("issue #}" + t, b) == Err(UnexpectedCommentEnd)
  {
    assert "issue #}" + t == "issue " + "#}" + t;
    RenderCommentEnd("issue ", t, b);
  }
}
