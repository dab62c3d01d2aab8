# meeseeks-box reply formatter, modelled in Dafny

meeseeks-box is a chat bot that runs operations commands on request. This
project models its reply formatter (`formatter/formatter.go`). For every kind of
reply the bot sends (handshake, unknown command, unauthorized, failure,
success), the formatter picks the colour and the reply style. It builds
immutable `Reply` values and assembles the key/value payload that the
template engine renders.

Files:

- `formatter.dfy` (module `Formatter`): colours, reply styles, `Reply`, `Formatter`,
  `Configure`, the payload, a payload reader, and the properties.
- `strings.dfy` (module `Strings`): Go's `strings.Join` and, as its partner, Go's
  `strings.Split` on a one-character separator, with a round-trip proof.
- `template.dfy` (module `Template`): the reply actions and the templates builder,
  both from a package that is not part of this model.
- `meeseeks.dfy` (module `Meeseeks`): the request record, with the fields a reply reads.
- `wrappers.dfy` (module `Wrappers`): `Option`.

Modelling choices:

- Actions are a datatype with the five named actions and `Other(name)`, which
  stands for any other action string. So an action written by hand can never
  coincide with a named one.
- Go's `error` is `Option<string>`, where `None` is the nil error. A payload
  value is a string, a flag or an error.
- The reply-style map of the configuration is keyed by action. A key that is
  none of the five named actions is `Other(key)`.
- The templates builder is an opaque value, known only by the messages it was
  built from. `Clone` is a copy of that value.
- The package-level `Configure`/`Get` singleton is an ordinary function,
  `Configure`, that returns a `Formatter` value.
- `Reply.Payload` is `Render` up to, but not including, the template engine call.
- The partners that the lemmas relate the operations to are a Go-style `Split`
  (for `Join`) and `RequestOf`/`ErrorOf`/`StrAt`, which read a payload back.

## Model

| member | source | states |
|---|---|---|
| `Formatter.ReplyStyles.Get` | formatter/formatter.go:106-119 | the configured style is returned only for the five reply actions with an entry; otherwise `""`, even when the map holds an entry for another action |
| `Formatter.Reply.Color` | formatter/formatter.go:176-185 | handshake gives the info colour; unknown command, unauthorized and failure give the error colour; every other action gives the success colour |
| `Formatter.ColorClassification` | formatter/formatter.go:176-185 | with three distinct colours, each colour is returned exactly for its kind of action (both directions) |
| `Formatter.DefaultColorsDistinct` | formatter/formatter.go:11-16 | the default info, success and error colours are pairwise distinct, so `ColorClassification` applies to them |
| `Formatter.Reply.WithOutput` | formatter/formatter.go:134-137 | the copy carries the new output and equals the receiver in every other field |
| `Formatter.Reply.WithError` | formatter/formatter.go:140-143 | the copy carries the new error and equals the receiver in every other field |
| `Formatter.BuildersLastWins` | formatter/formatter.go:134-143 | applying `WithOutput` or `WithError` twice keeps only the last value, and the two builders commute |
| `Formatter.AccessorsIgnoreOutputAndError` | formatter/formatter.go:166-185 | `Color`, `ChannelID` and `ReplyStyle` do not change when output or error are set |
| `Formatter.Reply.ReplyStyle` | formatter/formatter.go:171-173 | the reply's stored style; the constructors' contracts state that it is the configured style for their action or `""`, and `AccessorsIgnoreOutputAndError` that output and error do not change it |
| `Formatter.Reply.ChannelID` | formatter/formatter.go:166-168 | the channel to reply in is the channel id that the payload carries |
| `Formatter.Formatter.NewReplier` | formatter/formatter.go:91-100 | a new reply has the given action and request, no output, no error, the formatter's colours and templates, and the style `Get` gives for the action |
| `Formatter.Formatter.HandshakeReply` | formatter/formatter.go:67-69 | the reply is a handshake for the request, in the info colour, with the configured handshake style or `""`, and with no output or error |
| `Formatter.Formatter.UnknownCommandReply` | formatter/formatter.go:72-74 | the reply is an unknown-command reply, in the error colour, with its configured style or `""`, and with no output or error |
| `Formatter.Formatter.UnauthorizedCommandReply` | formatter/formatter.go:77-79 | the reply is an unauthorized reply, in the error colour, with its configured style or `""`, and with no output or error |
| `Formatter.Formatter.FailureReply` | formatter/formatter.go:82-84 | the reply is a failure reply carrying the given error, in the error colour, and it differs from a new failure reply in the error alone |
| `Formatter.Formatter.SuccessReply` | formatter/formatter.go:87-89 | the reply is a success reply, in the success colour, with its configured style or `""`, and with no output or error |
| `Formatter.ErrorRepliesStayErrorColoured` | formatter/formatter.go:72-84 | unknown-command, unauthorized and failure replies keep the error colour whatever output or error is set afterwards |
| `Formatter.Configure` | formatter/formatter.go:41-48 | the formatter takes its colours and reply styles from the configuration and its templates from the messages |
| `Formatter.ConfiguredStyles` | formatter/formatter.go:91-119 | through a configured formatter, every reply action gets its configured style (or `""`), and a style configured for any other action never reaches a reply |
| `Formatter.Reply.Payload` | formatter/formatter.go:146-160 | the payload has exactly the eleven keys command, args, user, userlink, userid, channel, channellink, channelid, isim, error and output; empty args give `""` |
| `Formatter.PayloadRoundTrip` | formatter/formatter.go:147-160 | reading the payload back gives the request (with its args re-split), the output and the error; the request comes back whole if and only if no arg contains a space and the args are not the single empty arg |
| `Formatter.ArgsRoundTrip` | formatter/formatter.go:149 | args are recovered from their space-joined form if and only if no arg contains a space and the args are not the single empty arg |
| `Formatter.PayloadWithOutput` | formatter/formatter.go:160 | setting the output changes the payload at `output` and nowhere else |
| `Formatter.PayloadWithError` | formatter/formatter.go:159 | setting the error changes the payload at `error` and nowhere else |
| `Formatter.PayloadIgnoresPresentation` | formatter/formatter.go:147-160 | the payload does not depend on the action, colours, templates or style |
| `Strings.Join` | formatter/formatter.go:149 | joining no parts gives `""` and joining one part gives that part |
| `Strings.SplitJoin` | formatter/formatter.go:149 | splitting a join of a non-empty list of separator-free parts on the separator gives the parts back |
| `Strings.SplitJoinOnlyIfSeparatorFree` | formatter/formatter.go:149 | conversely, a non-empty list comes back from its join only when no part contains the separator |

## Left out

- The job store, dispatcher and remote worker pipeline. In the repository the
  pipeline (`remote/server/command_pipeline.go`) is a stub that returns nil. Its
  completion-channel design exists only as comments. The job store's
  implementation is not part of this model. The comments in that stub describe
  an intended per-job finish channel, kept in a map keyed by job id, that a
  remote command would block on until the agent reports the end of the job;
  none of it is implemented, so there is no code to model the job lifecycle from.
- The Slack messenger (`messenger/messenger.go`): network I/O and a goroutine
  feeding a channel.
- The test scaffolding (`testingstubs/testingstubs.go`) and the builtin-command
  tests: they are not product logic, and the code they exercise is not part of
  this model.
- `Formatter.Templates`, `Formatter.WithTemplates` and the final template
  engine call in `Render`: they wrap the template package, which is not part of
  this model. The engine call is a function of the action and `Payload()`.
- `Get` as a process-wide singleton: `Configure` returns a value instead of
  assigning global state.
- `Configure`, `Reply`: Go's sharing of data is not modelled. `Configure` keeps
  the caller's reply-style map by reference, and every copy of a `Reply` shares
  the request's argument slice, so in Go a later change to either would show in
  later styles or payloads. The model's values are immutable copies; the
  formatter itself never changes them.
- Go `error` identity: an error is modelled by its message only.
- `DefaultWarningColorMessage` is declared, but no colour field or reply uses it.
