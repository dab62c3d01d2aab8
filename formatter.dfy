/**
 * The reply formatter of the chat bot: for each kind of reply it chooses the
 * colour and the reply style, builds immutable `Reply` values, and assembles
 * the key/value payload that the template engine renders.
 */
module Formatter {
  import opened Wrappers
  import opened Strings
  import opened Template
  import opened Meeseeks

  // Default colours offered to the configuration.
  const DefaultInfoColorMessage := ""
  const DefaultSuccessColorMessage := "good"
  const DefaultWarningColorMessage := "warning"
  const DefaultErrColorMessage := "danger"

  /** The actions whose replies are decorated with the error colour. */
  const ErrorActions: set<Action> := {UnknownCommand, Unauthorized, Failure}

  /** The five actions for which a configured reply style is honoured. */
  const StyledActions: set<Action> := {Handshake, UnknownCommand, Unauthorized, Failure, Success}

  /** The keys of the payload handed to the template engine. */
  const PayloadKeys: set<string> :=
    {"command", "args", "user", "userlink", "userid", "channel",
     "channellink", "channelid", "isim", "error", "output"}

  /** The configured reply colours. */
  datatype MessageColors = MessageColors(info: string, success: string, error: string) {
    /** No two of the three colours coincide, so a colour identifies its kind. */
    predicate Distinct() {
      info != success && info != error && success != error
    }
  }

  /** The formatting configuration: colours and reply styles per action. */
  datatype FormatConfig = FormatConfig(colors: MessageColors, replyStyle: map<Action, string>)

  /** The reply styles table, honoured only for the five reply actions. */
  datatype ReplyStyles = ReplyStyles(styles: map<Action, string>) {

    function Get(mode: Action): (s: string)
      ensures mode in StyledActions && mode in styles ==> s == styles[mode]
      ensures mode !in StyledActions || mode !in styles ==> s == ""
    {
      match mode
      case Handshake | UnknownCommand | Unauthorized | Failure | Success =>
        if mode in styles then styles[mode] else ""
      case Other(_) => ""
    }
  }

  /** A value stored in the render payload: a string, a flag or an error. */
  datatype Value = Str(s: string) | Bool(b: bool) | Err(e: Option<string>)

  /**
   * All the data needed to send a reply. `err` is the error to render
   * (`None` for Go's nil error).
   */
  datatype Reply = Reply(
    action: Action,
    request: Request,
    output: string,
    err: Option<string>,
    colors: MessageColors,
    templates: Templates,
    style: string)
  {
    /** A copy carrying `o` as the text to render; nothing else changes. */
    function WithOutput(o: string): (r: Reply)
      ensures r.output == o
      ensures r.(output := output) == this
    {
      this.(output := o)
    }

    /** A copy carrying `e` as the error to render; nothing else changes. */
    function WithError(e: Option<string>): (r: Reply)
      ensures r.err == e
      ensures r.(err := err) == this
    {
      this.(err := e)
    }

    /**
     * The payload handed to the template engine together with the action;
     * the engine call itself is not part of this model.
     */
    function Payload(): (p: map<string, Value>)
      ensures p.Keys == PayloadKeys
      ensures request.args == [] ==> p["args"] == Str("")
    {
      map[
        "command" := Str(request.command),
        "args" := Str(Join(request.args, " ")),
        "user" := Str(request.username),
        "userlink" := Str(request.userLink),
        "userid" := Str(request.userID),
        "channel" := Str(request.channel),
        "channellink" := Str(request.channelLink),
        "channelid" := Str(request.channelID),
        "isim" := Bool(request.isIM),
        "error" := Err(err),
        "output" := Str(output)
      ]
    }

    /** The channel to reply in: the one the rendered payload names. */
    function ChannelID(): (c: string)
      ensures Payload()["channelid"] == Str(c)
    {
      request.channelID
    }

    /** The style to use for the reply. */
    function ReplyStyle(): string {
      style
    }

    /** The colour decorating the reply, always one of the three configured ones. */
    function Color(): (c: string)
      ensures action == Handshake ==> c == colors.info
      ensures action in ErrorActions ==> c == colors.error
      ensures action != Handshake && action !in ErrorActions ==> c == colors.success
    {
      match action
      case Handshake => colors.info
      case UnknownCommand | Unauthorized | Failure => colors.error
      case _ => colors.success
    }
  }

  /** Colours, templates and reply styles shared by every reply. */
  datatype Formatter = Formatter(colors: MessageColors, templates: Templates, replyStyle: ReplyStyles) {

    /** A fresh reply for `action`: no output, no error, configured style and colours. */
    function NewReplier(action: Action, req: Request): (r: Reply)
      ensures r.action == action && r.request == req
      ensures r.output == "" && r.err == None
      ensures r.colors == colors && r.templates == templates
      ensures r.style == replyStyle.Get(action)
    {
      Reply(action, req, "", None, colors, templates, replyStyle.Get(action))
    }

    function HandshakeReply(req: Request): (r: Reply)
      ensures r.action == Handshake && r.request == req
      ensures r.Color() == colors.info
      ensures r.ReplyStyle() == (if Handshake in replyStyle.styles then replyStyle.styles[Handshake] else "")
      ensures r.output == "" && r.err == None
    {
      NewReplier(Handshake, req)
    }

    function UnknownCommandReply(req: Request): (r: Reply)
      ensures r.action == UnknownCommand && r.request == req
      ensures r.Color() == colors.error
      ensures r.ReplyStyle() == (if UnknownCommand in replyStyle.styles then replyStyle.styles[UnknownCommand] else "")
      ensures r.output == "" && r.err == None
    {
      NewReplier(UnknownCommand, req)
    }

    function UnauthorizedCommandReply(req: Request): (r: Reply)
      ensures r.action == Unauthorized && r.request == req
      ensures r.Color() == colors.error
      ensures r.ReplyStyle() == (if Unauthorized in replyStyle.styles then replyStyle.styles[Unauthorized] else "")
      ensures r.output == "" && r.err == None
    {
      NewReplier(Unauthorized, req)
    }

    /** The only constructor that sets the error; it differs from a fresh reply in `err` alone. */
    function FailureReply(req: Request, e: Option<string>): (r: Reply)
      ensures r.action == Failure && r.request == req
      ensures r.Color() == colors.error
      ensures r.ReplyStyle() == (if Failure in replyStyle.styles then replyStyle.styles[Failure] else "")
      ensures r.output == "" && r.err == e
      ensures r.(err := None) == NewReplier(Failure, req)
    {
      NewReplier(Failure, req).WithError(e)
    }

    function SuccessReply(req: Request): (r: Reply)
      ensures r.action == Success && r.request == req
      ensures r.Color() == colors.success
      ensures r.ReplyStyle() == (if Success in replyStyle.styles then replyStyle.styles[Success] else "")
      ensures r.output == "" && r.err == None
    {
      NewReplier(Success, req)
    }
  }

  /** Builds the formatter from the template messages and the configuration. */
  function Configure(messages: map<string, seq<string>>, cnf: FormatConfig): (f: Formatter)
    ensures f.colors == cnf.colors
    ensures f.replyStyle.styles == cnf.replyStyle
    ensures f.templates.messages == messages
  {
    Formatter(cnf.colors, Templates(messages), ReplyStyles(cnf.replyStyle))
  }

  // ---------------------------------------------------------------------
  // Reading a payload back: the partner of Reply.Payload.

  /** Arguments that survive being joined with spaces and split again. */
  predicate ArgsRecoverable(args: seq<string>) {
    args != [""] && forall i :: 0 <= i < |args| ==> ' ' !in args[i]
  }

  /** The argument list a rendered `args` string stands for. */
  function ArgsOf(s: string): seq<string> {
    if s == "" then [] else Split(s, ' ')
  }

  function StrAt(p: map<string, Value>, k: string): Option<string> {
    if k in p && p[k].Str? then Some(p[k].s) else None
  }

  /** The request a payload describes, if it has every request key with the right kind of value. */
  function RequestOf(p: map<string, Value>): Option<Request> {
    if && StrAt(p, "command").Some? && StrAt(p, "args").Some?
       && StrAt(p, "user").Some? && StrAt(p, "userlink").Some? && StrAt(p, "userid").Some?
       && StrAt(p, "channel").Some? && StrAt(p, "channellink").Some? && StrAt(p, "channelid").Some?
       && "isim" in p && p["isim"].Bool?
    then
      Some(Request(
        StrAt(p, "command").value, ArgsOf(StrAt(p, "args").value),
        StrAt(p, "user").value, StrAt(p, "userlink").value, StrAt(p, "userid").value,
        StrAt(p, "channel").value, StrAt(p, "channellink").value, StrAt(p, "channelid").value,
        p["isim"].b))
    else None
  }

  /** The error a payload carries, if it carries one in the right form. */
  function ErrorOf(p: map<string, Value>): Option<Option<string>> {
    if "error" in p && p["error"].Err? then Some(p["error"].e) else None
  }

  // ---------------------------------------------------------------------
  // Properties.

  /**
   * Joining arguments with spaces and reading them back gives the arguments
   * exactly when none contains a space and they are not the single empty
   * argument.
   */
  lemma ArgsRoundTrip(args: seq<string>)
    ensures ArgsOf(Join(args, " ")) == args <==> ArgsRecoverable(args)
  {
    assert " " == [' '];
    if |args| > 1 {
      assert Join(args, " ") == args[0] + " " + Join(args[1..], " ");
    }
    if ArgsRecoverable(args) {
      if |args| > 0 {
        SplitJoin(args, ' ');
      }
    } else if ArgsOf(Join(args, " ")) == args && args != [""] {
      SplitJoinOnlyIfSeparatorFree(args, ' ');
    }
  }

  /**
   * The payload determines the request, the output and the error it was built
   * from; the request comes back whole exactly when its arguments contain no
   * space and are not the single empty argument.
   */
  lemma PayloadRoundTrip(r: Reply)
    ensures RequestOf(r.Payload()) == Some(r.request.(args := ArgsOf(Join(r.request.args, " "))))
    ensures RequestOf(r.Payload()) == Some(r.request) <==> ArgsRecoverable(r.request.args)
    ensures StrAt(r.Payload(), "output") == Some(r.output)
    ensures ErrorOf(r.Payload()) == Some(r.err)
  {
    ArgsRoundTrip(r.request.args);
  }

  /** Setting the output changes the payload at "output" and nowhere else. */
  lemma PayloadWithOutput(r: Reply, o: string)
    ensures r.WithOutput(o).Payload() == r.Payload()["output" := Str(o)]
  {
  }

  /** Setting the error changes the payload at "error" and nowhere else. */
  lemma PayloadWithError(r: Reply, e: Option<string>)
    ensures r.WithError(e).Payload() == r.Payload()["error" := Err(e)]
  {
  }

  /** The payload does not depend on the action, colours, templates or style. */
  lemma PayloadIgnoresPresentation(r: Reply, a: Action, c: MessageColors, t: Templates, s: string)
    ensures r.(action := a, colors := c, templates := t, style := s).Payload() == r.Payload()
  {
  }

  /** The default colours are distinct, so ColorClassification applies to them. */
  lemma DefaultColorsDistinct()
    ensures MessageColors(DefaultInfoColorMessage, DefaultSuccessColorMessage, DefaultErrColorMessage).Distinct()
  {
  }

  /** With distinct colours, each colour identifies exactly its kind of action. */
  lemma ColorClassification(r: Reply)
    requires r.colors.Distinct()
    ensures r.Color() == r.colors.info <==> r.action == Handshake
    ensures r.Color() == r.colors.error <==> r.action in ErrorActions
    ensures r.Color() == r.colors.success <==> r.action != Handshake && r.action !in ErrorActions
  {
  }

  /** Only the last output set survives; the same for the error; the two commute. */
  lemma BuildersLastWins(r: Reply, o1: string, o2: string, e1: Option<string>, e2: Option<string>)
    ensures r.WithOutput(o1).WithOutput(o2) == r.WithOutput(o2)
    ensures r.WithError(e1).WithError(e2) == r.WithError(e2)
    ensures r.WithOutput(o1).WithError(e1) == r.WithError(e1).WithOutput(o1)
  {
  }

  /** The accessors do not look at the output or the error. */
  lemma AccessorsIgnoreOutputAndError(r: Reply, o: string, e: Option<string>)
    ensures r.WithOutput(o).WithError(e).Color() == r.Color()
    ensures r.WithOutput(o).WithError(e).ChannelID() == r.ChannelID()
    ensures r.WithOutput(o).WithError(e).ReplyStyle() == r.ReplyStyle()
  {
  }

  /** Unknown-command, unauthorized and failure replies stay error-coloured whatever is added to them. */
  lemma ErrorRepliesStayErrorColoured(f: Formatter, req: Request, e: Option<string>, o: string, e2: Option<string>)
    ensures f.UnknownCommandReply(req).WithOutput(o).WithError(e2).Color() == f.colors.error
    ensures f.UnauthorizedCommandReply(req).WithOutput(o).WithError(e2).Color() == f.colors.error
    ensures f.FailureReply(req, e).WithOutput(o).WithError(e2).Color() == f.colors.error
  {
  }

  /**
   * A configured style reaches a reply only through the five reply actions:
   * an entry for any other action is never used.
   */
  lemma ConfiguredStyles(messages: map<string, seq<string>>, cnf: FormatConfig, req: Request, name: string)
    ensures var f := Configure(messages, cnf);
      Failure in cnf.replyStyle ==> f.FailureReply(req, None).ReplyStyle() == cnf.replyStyle[Failure]
    ensures var f := Configure(messages, cnf);
      f.NewReplier(Other(name), req).ReplyStyle() == ""
    ensures var f := Configure(messages, cnf);
      forall a :: a in StyledActions ==>
        f.NewReplier(a, req).ReplyStyle() == (if a in cnf.replyStyle then cnf.replyStyle[a] else "")
  {
  }
}
