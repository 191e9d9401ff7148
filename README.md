# Panasonic projector driver: a verified model

This project models the protocol core of the PepperDash Essentials plugin that
drives Panasonic projectors. The plugin talks to a projector either over
RS-232 or over TCP/IP.

- **Command framing.** The two command builders are modelled.
  - The serial builder frames `AD{id};{cmd}[:{param}]` between STX (0x02)
    and ETX (0x03).
  - The IP builder emits `00{cmd}[:{param}]` and a carriage return.
  - `GetCommandBuilder` picks one builder from the configured control
    method.
  - Both builders go through a model of `String.Format` (module
    `Formatting`). The exact output string of every command is proved from
    the format strings themselves.
- **The controller's protocol state.** This is the outbound queue (capacity
  50), the current command, the authentication prefix (`_hash`), the power
  flags (on, warming, cooling, ignore-the-power-on-echo) and the current
  input.
  - The operations are `SendText`, `Poll`, `DequeueAndSend`,
    `ParseResponse`, the string part of `GetHash`, `SetInput`, `PowerOn`,
    `PowerOff`, `PowerToggle`, the two timer callbacks, the `PowerIsOn` and
    `CurrentInput` setters, and the timer durations computed in the
    constructor.
  - `Controller.Controller` is a class whose fields these methods update in
    place, in the same order as the driver.
  - Each method is proved to leave the object in exactly the state given by
    a pure step function of `ControllerState`, for example
    `Snapshot() == SendTextStep(settings, old(Snapshot()))`.
  - The module `ControllerProperties` proves what the driver promises about
    those step functions. This covers:
    - an invariant kept by every event;
    - when the prefix can change;
    - FIFO draining of the queue;
    - how replies are attributed to the current command;
    - the power-on/power-off state machine.
- **Supporting models of .NET behaviour.**
  - `Text` models `ToLower`/`ToUpper` (ASCII), ordinal `Contains`,
    `Replace(x, "")`, `Trim` with the `Char.IsWhiteSpace` set, and
    `Split(char)`.
  - `Inputs` models the `eInputTypes` members the driver routes to, their
    names, and `Enum.Parse` with ignore-case, which trims the value first.

Things the driver calls but whose code is not available are parameters of
the model:

- **Transport.** A `connected` flag and the log `sent` of every string
  handed to `SendText` stand in for the comms object. The
  `ConnectionChange` method sets the flag and updates the connect and
  status feedbacks.
- **MD5.** The MD5 provider, together with the UTF-8 decoding of its output,
  is the arbitrary function `Settings.md5`. Only the string that is hashed is
  proved.
- **Feedback.** Feedback objects are the log `feedback` of `FireUpdate`
  calls.
- **Timers.** A timer is running exactly while `isWarming` (or
  `isCooling`) holds. Its expiry is a method that may only be called then.
- **Null strings.** The empty string stands for a null `_currentCommand` or
  `_hash`. The driver only tests these with `String.IsNullOrEmpty`.

Behaviour of the driver worth noting:

- **Sending does not wait for replies.** `SendText` sends at once whenever
  the link is up, and an ordinary reply never drains the queue. So there is
  no "one command in flight" property; `ControllerProperties.OrdinaryReply`
  states the opposite.
- **The prefix is never reset.** Nothing clears it, on a disconnect or
  otherwise; `ControllerProperties.HashChangesOnlyOnChallenge` states this.
- **The ignored echo is the "on" reply.** While `_powerOnIgnoreFb` is set,
  the reply that is ignored (once) is an "on" reply (`001`/`pon`), not an
  "off" one. An "off" reply in that state still turns the power flag off.
- **The input reply is matched case-sensitively.** The input reply is
  cleaned with a case-sensitive `Replace("iis:", "")`. So an upper-case echo
  such as `IIS:HD1` leaves a value that names no input, and the current
  input becomes `None` (`ControllerProperties.UpperCaseInputReplyClears`).

## Model

| member | source | states |
|---|---|---|
| SerialCommandBuilder.GetCommandWithParameter | epi-display-panasonic-projectors/SerialCommandBuilder.cs:14-26 | the two format passes give exactly STX + "AD" + id + ";" + cmd + ":" + parameter + ETX |
| SerialCommandBuilder.GetCommand | epi-display-panasonic-projectors/SerialCommandBuilder.cs:15-32 | the two format passes give exactly STX + "AD" + id + ";" + cmd + ETX |
| SerialCommandBuilder.EnvelopeFormat | epi-display-panasonic-projectors/SerialCommandBuilder.cs:24 | the first pass puts the command format between STX and ETX and keeps its items for the second pass |
| SerialCommandBuilder.FillWithParameter | epi-display-panasonic-projectors/SerialCommandBuilder.cs:22-26 | the second pass substitutes id, command and parameter into the enveloped format |
| SerialCommandBuilder.FillWithoutParameter | epi-display-panasonic-projectors/SerialCommandBuilder.cs:28-32 | the second pass substitutes id and command into the enveloped format |
| SerialCommandBuilder.FrameShape | epi-display-panasonic-projectors/SerialCommandBuilder.cs:22-32 | every frame starts with STX and ends with the delimiter ETX; lengths are 6+\|id\|+\|cmd\|+\|p\| and 5+\|id\|+\|cmd\| |
| SerialCommandBuilder.IdInFrame | epi-display-panasonic-projectors/SerialCommandBuilder.cs:12-32 | the id given to the builder sits right after "AD" in every frame, followed by ';' and the command |
| SerialCommandBuilder.CountInEnvelope | epi-display-panasonic-projectors/SerialCommandBuilder.cs:24-30 | the envelope adds exactly one STX and one ETX to the body's count |
| SerialCommandBuilder.ControlBytesOnce | epi-display-panasonic-projectors/SerialCommandBuilder.cs:22-32 | when id, command and parameter hold no STX/ETX, each control byte occurs exactly once in either frame |
| IpCommandBuilder.FillWithParameter | epi-display-panasonic-projectors/IpCommandBuilder.cs:15-18 | formatting "00{0}:{1}{2}" gives "00" + cmd + ":" + parameter + "\r" |
| IpCommandBuilder.FillWithoutParameter | epi-display-panasonic-projectors/IpCommandBuilder.cs:20-23 | formatting "00{0}{1}" gives "00" + cmd + "\r" |
| IpCommandBuilder.GetCommandWithParameter | epi-display-panasonic-projectors/IpCommandBuilder.cs:15-18 | the line is exactly "00" + cmd + ":" + parameter + "\r"; no device id appears |
| IpCommandBuilder.GetCommand | epi-display-panasonic-projectors/IpCommandBuilder.cs:20-23 | the line is exactly "00" + cmd + "\r"; no device id appears |
| IpCommandBuilder.AgreesWithFormatConstants | epi-display-panasonic-projectors/IpCommandBuilder.cs:7-23 | each line is the matching unused format constant, filled in, followed by the delimiter |
| IpCommandBuilder.FillParameterOnly | epi-display-panasonic-projectors/IpCommandBuilder.cs:7 | the constant `00{0}:{1}` formats to "00" + cmd + ":" + parameter |
| IpCommandBuilder.FillCommandOnly | epi-display-panasonic-projectors/IpCommandBuilder.cs:8 | the constant `00{0}` formats to "00" + cmd |
| IpCommandBuilder.LineShape | epi-display-panasonic-projectors/IpCommandBuilder.cs:10-23 | every line starts with "00" and ends with "\r"; lengths are 4+\|cmd\|+\|p\| and 3+\|cmd\| |
| IpCommandBuilder.Colons | epi-display-panasonic-projectors/IpCommandBuilder.cs:15-23 | with no ':' in cmd or parameter, the parameter form has exactly one ':' and the bare form none |
| IpCommandBuilder.CarriageReturns | epi-display-panasonic-projectors/IpCommandBuilder.cs:10-23 | with no '\r' in cmd or parameter, the delimiter is the only carriage return of either form |
| CommandBuilder.Delimiter | epi-display-panasonic-projectors/SerialCommandBuilder.cs:7-10 | the delimiter is one character: ETX for the serial builder, '\r' for the IP builder |
| CommandBuilder.GetCommandWithParameter | epi-display-panasonic-projectors/PanasonicProjectorController.cs:430 | every parameter command ends with its builder's delimiter |
| CommandBuilder.GetCommand | epi-display-panasonic-projectors/PanasonicProjectorController.cs:338 | every bare command ends with its builder's delimiter |
| CommandBuilder.CommandNameInFrame | epi-display-panasonic-projectors/PanasonicProjectorController.cs:363 | the lowered frame of a command contains the lowered command name, so a reply to QPW is routed to the power branch |
| CommandBuilder.CommandNameInFrameWithParameter | epi-display-panasonic-projectors/PanasonicProjectorController.cs:381 | the lowered frame of IIS with a parameter contains "iis" |
| CommandBuilder.FrameAround | epi-display-panasonic-projectors/SerialCommandBuilder.cs:22-26 | a parameter command is the builder's head, the command, ':' + parameter and the delimiter, in this order |
| ControllerState.GetCommandBuilder | epi-display-panasonic-projectors/PanasonicProjectorController.cs:262-277 | a builder exists exactly for Com and Tcpip; it is serial exactly for Com and then carries the configured id |
| Controller.Controller.Create | epi-display-panasonic-projectors/PanasonicProjectorController.cs:98-105 | no controller is usable exactly when the control method is neither Com nor Tcpip; otherwise a fresh, valid one in the initial state |
| Controller.Controller.constructor | epi-display-panasonic-projectors/PanasonicProjectorController.cs:63-98 | settings and builder from the configuration, timer durations from the configured seconds, empty queue, no prefix, no command, everything off |
| ControllerState.TimeMs | epi-display-panasonic-projectors/PanasonicProjectorController.cs:76-92 | the default for 0 seconds, else seconds*1000 reduced to 32 bits by the uint cast |
| ControllerState.WarmupTimeMs | epi-display-panasonic-projectors/PanasonicProjectorController.cs:76-83 | 1000 ms for 0 seconds, seconds*1000 while that fits a uint |
| ControllerState.CooldownTimeMs | epi-display-panasonic-projectors/PanasonicProjectorController.cs:85-92 | 2000 ms for 0 seconds, seconds*1000 while that fits a uint |
| ControllerProperties.TimerWraps | epi-display-panasonic-projectors/PanasonicProjectorController.cs:76-92 | the cast wraps: 536870912 s gives 0 ms, -1 s gives 4294966296 ms |
| ControllerState.HashPreimage | epi-display-panasonic-projectors/PanasonicProjectorController.cs:418-419 | the string hashed is username + ":" + password + ":" + seed |
| ControllerState.ChallengeSeed | epi-display-panasonic-projectors/PanasonicProjectorController.cs:416 | a third space-separated token exists exactly when the line has two spaces; it holds no space and occurs in the line |
| ControllerState.GetHash | epi-display-panasonic-projectors/PanasonicProjectorController.cs:413-426 | a prefix exists exactly when there is a third token and an MD5 provider; it is the digest of the pre-image with that token |
| ControllerState.WirePayload | epi-display-panasonic-projectors/PanasonicProjectorController.cs:324 | the transport receives the prefix followed by the command (the command alone with no prefix) |
| ControllerState.DequeueStep | epi-display-panasonic-projectors/PanasonicProjectorController.cs:389-411 | an empty queue changes nothing; otherwise the oldest entry leaves the queue, becomes the current command and is sent with the prefix; nothing else changes |
| ControllerState.SetPowerIsOnStep | epi-display-panasonic-projectors/PanasonicProjectorController.cs:130-146 | the flag takes the value; feedback fires exactly when it changed; nothing else changes |
| ControllerState.SetCurrentInputStep | epi-display-panasonic-projectors/PanasonicProjectorController.cs:587-608 | the current input's own name is a no-op; otherwise the member named (ignoring case) or None, with one feedback update |
| ControllerState.ReplyStep | epi-display-panasonic-projectors/PanasonicProjectorController.cs:357-385 | a reply to the current command changes only the power flag, the echo flag, the current input and feedback |
| Controller.Controller.SetPowerIsOn | epi-display-panasonic-projectors/PanasonicProjectorController.cs:130-146 | keeps Valid; the object ends in SetPowerIsOnStep of its old state |
| Controller.Controller.SetCurrentInput | epi-display-panasonic-projectors/PanasonicProjectorController.cs:587-608 | keeps Valid; the object ends in SetCurrentInputStep of its old state |
| Controller.Controller.SendText | epi-display-panasonic-projectors/PanasonicProjectorController.cs:310-333 | keeps Valid and ends in SendTextStep: sent unprefixed on serial, sent with the prefix when connected, else queued at the tail |
| Controller.Controller.Poll | epi-display-panasonic-projectors/PanasonicProjectorController.cs:335-339 | keeps Valid and ends in PollStep: a QPW command through SendText |
| Controller.Controller.DequeueAndSend | epi-display-panasonic-projectors/PanasonicProjectorController.cs:389-411 | the object ends in DequeueStep of its old state |
| Controller.Controller.ParseResponse | epi-display-panasonic-projectors/PanasonicProjectorController.cs:341-386 | keeps Valid and ends in ParseStep: the challenge sets the prefix and dequeues, "ntcontrol 0" dequeues, anything else is a reply |
| Controller.Controller.ParseReply | epi-display-panasonic-projectors/PanasonicProjectorController.cs:357-385 | keeps Valid; the object ends in ReplyStep of its old state |
| Controller.Controller.SetInput | epi-display-panasonic-projectors/PanasonicProjectorController.cs:428-433 | keeps Valid and ends in SetInputStep: IIS with the upper-case name is sent, then the input is set by name |
| Controller.Controller.PowerOn | epi-display-panasonic-projectors/PanasonicProjectorController.cs:461-474 | keeps Valid and ends in PowerOnStep |
| Controller.Controller.WarmupExpired | epi-display-panasonic-projectors/PanasonicProjectorController.cs:475-480 | keeps Valid and ends in WarmupExpiredStep: warming ends, then power is on |
| Controller.Controller.PowerOff | epi-display-panasonic-projectors/PanasonicProjectorController.cs:483-494 | keeps Valid and ends in PowerOffStep |
| Controller.Controller.CooldownExpired | epi-display-panasonic-projectors/PanasonicProjectorController.cs:495-500 | keeps Valid and ends in CooldownExpiredStep: cooling ends and power is off |
| Controller.Controller.PowerToggle | epi-display-panasonic-projectors/PanasonicProjectorController.cs:503-506 | keeps Valid and ends in PowerToggleStep |
| Controller.Controller.ConnectionChange | epi-display-panasonic-projectors/PanasonicProjectorController.cs:280-295 | keeps Valid; the transport's connected flag follows the event and the connect and status feedbacks are updated; the queue and the prefix are kept |
| ControllerProperties.InitialStateIsValid | epi-display-panasonic-projectors/PanasonicProjectorController.cs:63-127 | the state after construction satisfies the invariant |
| ControllerProperties.ParseKeepsInv | epi-display-panasonic-projectors/PanasonicProjectorController.cs:341-386 | handling any line keeps the invariant, in particular the prefix stays a digest of the credentials |
| ControllerProperties.NextPreservesInv | epi-display-panasonic-projectors/PanasonicProjectorController.cs:310-506 | every enabled event keeps the invariant: never warming and cooling, queue within 50, nothing queued on serial, prefix absent or a digest |
| ControllerProperties.TraceKeepsInv | epi-display-panasonic-projectors/PanasonicProjectorController.cs:310-506 | every sequence of enabled events keeps the invariant |
| ControllerProperties.NeverWarmingAndCooling | epi-display-panasonic-projectors/PanasonicProjectorController.cs:461-501 | from construction, warming and cooling are never both set, and the serial link never queues |
| ControllerProperties.ParseChangesHashOnlyOnChallenge | epi-display-panasonic-projectors/PanasonicProjectorController.cs:344-349 | a line changes the prefix only when it contains "ntcontrol 1" and the new prefix is GetHash of it |
| ControllerProperties.HashChangesOnlyOnChallenge | epi-display-panasonic-projectors/PanasonicProjectorController.cs:346 | no event except a received challenge changes the prefix; nothing ever resets it |
| ControllerProperties.Handshake | epi-display-panasonic-projectors/PanasonicProjectorController.cs:344-355 | a marker line leaves power, input and feedback alone and sends at most one line; "ntcontrol 0" only dequeues; the challenge sets the digest and sends the oldest entry with it, or changes nothing when GetHash throws |
| ControllerProperties.FirstTwoTokens | epi-display-panasonic-projectors/PanasonicProjectorController.cs:416 | splitting on ' ' yields the two leading words first |
| ControllerProperties.LeadingToken | epi-display-panasonic-projectors/PanasonicProjectorController.cs:416 | a token followed by a space or the end of the line is the first piece of the split |
| ControllerProperties.ThirdToken | epi-display-panasonic-projectors/PanasonicProjectorController.cs:415-416 | the third piece of "word flag seed..." is the seed |
| ControllerProperties.ChallengeDigest | epi-display-panasonic-projectors/PanasonicProjectorController.cs:413-426 | on a socket, GetHash of "word flag seed..." is md5(username:password:seed) |
| ControllerProperties.ChallengeMarker | epi-display-panasonic-projectors/PanasonicProjectorController.cs:344 | an upper-case "NTCONTROL 1 seed" line is recognised as the challenge |
| ControllerProperties.ChallengeUnblocksOldest | epi-display-panasonic-projectors/PanasonicProjectorController.cs:344-349 | a challenge sets the digest and sends the oldest queued command prefixed with it, which becomes the current command |
| ControllerProperties.Prefixed | epi-display-panasonic-projectors/PanasonicProjectorController.cs:407 | each command in order with the prefix in front |
| ControllerProperties.DisconnectedSendsQueue | epi-display-panasonic-projectors/PanasonicProjectorController.cs:326-332 | while the IP link is down, SendText appends each text at the tail and changes nothing else |
| ControllerProperties.DequeueTimesIsFifo | epi-display-panasonic-projectors/PanasonicProjectorController.cs:389-411 | n dequeues send the n oldest entries oldest first with the prefix; the rest of the queue stays in order; the last one sent is current |
| ControllerProperties.DequeueTimesFrame | epi-display-panasonic-projectors/PanasonicProjectorController.cs:389-411 | dequeueing changes only the queue, the sent log and the current command |
| ControllerProperties.DrainAll | epi-display-panasonic-projectors/PanasonicProjectorController.cs:389-411 | as many dequeues as entries empty the queue and send all entries in order |
| ControllerProperties.QueueIsFifo | epi-display-panasonic-projectors/PanasonicProjectorController.cs:389-411 | texts queued while disconnected are sent in the order queued, after those already waiting, each exactly once |
| ControllerProperties.OrdinaryReply | epi-display-panasonic-projectors/PanasonicProjectorController.cs:357-385 | a non-handshake line never dequeues, sends, clears the current command or touches the prefix; with no current command it changes nothing |
| ControllerProperties.PowerReply | epi-display-panasonic-projectors/PanasonicProjectorController.cs:363-379 | after QPW an "on" reply while ignoring the echo only clears the flag; otherwise power := says-on with the flag kept; an "off" reply turns power off |
| ControllerProperties.InputReply | epi-display-panasonic-projectors/PanasonicProjectorController.cs:381-384 | after IIS the input is the member named by the cleaned reply, or None; power flags unchanged |
| ControllerProperties.PowerQueryAnsweredOn | epi-display-panasonic-projectors/PanasonicProjectorController.cs:371-374 | "001" answering a QPW sets power on when the echo is not being ignored |
| ControllerProperties.PowerQueryAnsweredOff | epi-display-panasonic-projectors/PanasonicProjectorController.cs:371-378 | "000" answering a QPW sets power off, whatever the echo flag |
| ControllerProperties.PowerOnEchoIgnoredOnce | epi-display-panasonic-projectors/PanasonicProjectorController.cs:365-369 | "001" while ignoring the echo clears the flag and changes nothing else |
| ControllerProperties.OtherReplyIgnored | epi-display-panasonic-projectors/PanasonicProjectorController.cs:363-385 | a non-handshake reply to a current command that holds neither "qpw" nor "iis" in any case changes nothing |
| ControllerProperties.PowerCommandReplyIgnored | epi-display-panasonic-projectors/PanasonicProjectorController.cs:363-385 | a non-handshake reply to the PON or POF frame (on serial, a device id without q or i) changes nothing |
| ControllerProperties.NoIis | epi-display-panasonic-projectors/PanasonicProjectorController.cs:381 | text with no 'i' or 'I' is not taken for an input command |
| ControllerProperties.NoQpw | epi-display-panasonic-projectors/PanasonicProjectorController.cs:363 | text with no 'q' or 'Q' is not taken for a power query |
| ControllerProperties.InputCommandFrame | epi-display-panasonic-projectors/PanasonicProjectorController.cs:363-384 | an IIS frame is routed to the input branch, not the power branch, when id and parameter hold no 'q' |
| ControllerProperties.NoQInInputCommand | epi-display-panasonic-projectors/PanasonicProjectorController.cs:430 | an IIS frame contains no 'q'/'Q' beyond those of the id and parameter |
| ControllerProperties.NoQInSerialInputCommand | epi-display-panasonic-projectors/SerialCommandBuilder.cs:22-26 | the serial IIS frame adds no 'q'/'Q' |
| ControllerProperties.NoQInIpInputCommand | epi-display-panasonic-projectors/IpCommandBuilder.cs:15-18 | the IP IIS line adds no 'q'/'Q' |
| ControllerProperties.ShortLineIsNoHandshake | epi-display-panasonic-projectors/PanasonicProjectorController.cs:344-355 | a line shorter than 11 characters is never a handshake marker |
| ControllerProperties.InputReplySelects | epi-display-panasonic-projectors/PanasonicProjectorController.cs:381-384 | "iis:" followed by a member name in any case selects that member |
| ControllerProperties.UpperMarkerKept | epi-display-panasonic-projectors/PanasonicProjectorController.cs:383 | the case-sensitive Replace does not find "iis:" in "IIS:" + name |
| ControllerProperties.UpperEchoValue | epi-display-panasonic-projectors/PanasonicProjectorController.cs:383 | cleaning "IIS:" + name leaves it unchanged |
| ControllerProperties.LongValueRejected | epi-display-panasonic-projectors/PanasonicProjectorController.cs:597-604 | a value longer than four characters once trimmed names no member, so it falls back to None |
| ControllerProperties.UpperCaseInputReplyClears | epi-display-panasonic-projectors/PanasonicProjectorController.cs:381-384 | an upper-case "IIS:" + name reply makes the current input None |
| ControllerProperties.PowerOnGuard | epi-display-panasonic-projectors/PanasonicProjectorController.cs:463-466 | PowerOn changes nothing exactly when on, warming or cooling |
| ControllerProperties.PowerOffGuard | epi-display-panasonic-projectors/PanasonicProjectorController.cs:485-488 | PowerOff changes nothing exactly when off, warming or cooling |
| ControllerProperties.PowerOnIdempotent | epi-display-panasonic-projectors/PanasonicProjectorController.cs:461-474 | a second PowerOn does nothing |
| ControllerProperties.PowerOffIdempotent | epi-display-panasonic-projectors/PanasonicProjectorController.cs:483-494 | a second PowerOff does nothing |
| ControllerProperties.SendTextSentOrQueued | epi-display-panasonic-projectors/PanasonicProjectorController.cs:310-333 | the text is either sent (prefixed on IP) or queued, queued exactly on a disconnected IP link; it becomes current exactly when sent; nothing else changes |
| ControllerProperties.WarmupCycle | epi-display-panasonic-projectors/PanasonicProjectorController.cs:461-480 | from off, PowerOn sends or queues PON, starts warming and ignores the next echo; expiry leaves power on and neither flag set |
| ControllerProperties.CooldownCycle | epi-display-panasonic-projectors/PanasonicProjectorController.cs:483-500 | from on, PowerOff sends or queues POF and starts cooling; expiry leaves power off and neither flag set |
| ControllerProperties.ToggleChangesNoFlag | epi-display-panasonic-projectors/PanasonicProjectorController.cs:503-506 | PowerToggle sends POF when on, else PON, and changes no flag and no feedback |
| ControllerProperties.SetInputSelects | epi-display-panasonic-projectors/PanasonicProjectorController.cs:428-433 | SetInput sends or queues IIS with the upper-case name and makes that member current |
| Inputs.Find | epi-display-panasonic-projectors/PanasonicProjectorController.cs:599 | a member is found only if its lowered name is the value; none is found only if no member's is |
| Inputs.ParseIff | epi-display-panasonic-projectors/PanasonicProjectorController.cs:599 | Enum.Parse with ignore-case gives a member exactly when the value, without its surrounding white space, is the member's name up to case |
| Inputs.ParseRejects | epi-display-panasonic-projectors/PanasonicProjectorController.cs:599-604 | a value that, trimmed, is no member's name in any case fails to parse |
| Inputs.ParsePadded | epi-display-panasonic-projectors/PanasonicProjectorController.cs:599 | a member's name in any case with white space before and after it parses to that member |
| Inputs.ParseName | epi-display-panasonic-projectors/PanasonicProjectorController.cs:430-432 | a member's name, as written, upper-cased or lower-cased, parses back to that member |
| Inputs.NamesDistinct | epi-display-panasonic-projectors/PanasonicProjectorController.cs:223-248 | no two members share a name up to case |
| Inputs.LowerName | epi-display-panasonic-projectors/PanasonicProjectorController.cs:223-248 | the lowered names of the members |
| Inputs.LowerNameShape | epi-display-panasonic-projectors/PanasonicProjectorController.cs:223-248 | every name has three or four characters, all letters and digits |
| Inputs.NameChars | epi-display-panasonic-projectors/PanasonicProjectorController.cs:599 | a value that names a member up to case has 3 or 4 characters, none white space or ':' |
| Text.Lower | epi-display-panasonic-projectors/PanasonicProjectorController.cs:344 | ToLower keeps the length and lowers each character in place |
| Text.Upper | epi-display-panasonic-projectors/PanasonicProjectorController.cs:430 | ToUpper keeps the length and raises each character in place |
| Text.ContainsIff | epi-display-panasonic-projectors/PanasonicProjectorController.cs:344 | Contains holds exactly when the substring occurs at some index |
| Text.Trim | epi-display-panasonic-projectors/PanasonicProjectorController.cs:383 | the result is a slice of the input with only white space before and after it, neither starts nor ends with white space, and is the input when it has no white space |
| Text.TrimPadded | epi-display-panasonic-projectors/PanasonicProjectorController.cs:383 | trimming white space padding around a text that starts and ends with a non-space gives the text back |
| Text.TrimIdempotent | epi-display-panasonic-projectors/PanasonicProjectorController.cs:383 | trimming twice is trimming once |
| Text.RemoveAll | epi-display-panasonic-projectors/PanasonicProjectorController.cs:383 | Replace(x, "") never lengthens and leaves a string without x unchanged |
| Text.RemoveAllLeading | epi-display-panasonic-projectors/PanasonicProjectorController.cs:383 | a leading occurrence is removed |
| Text.RemoveAllKeepsFirst | epi-display-panasonic-projectors/PanasonicProjectorController.cs:383 | a first character that does not start an occurrence is kept in front of the rest's result |
| Text.RemoveAllKeepsPlain | epi-display-panasonic-projectors/PanasonicProjectorController.cs:383 | text in which the pattern's first character does not appear is kept as it is, in front of the rest's result |
| Text.Split | epi-display-panasonic-projectors/PanasonicProjectorController.cs:416 | one more piece than separators, no piece holds the separator, the first piece is a prefix |
| Text.JoinSplit | epi-display-panasonic-projectors/PanasonicProjectorController.cs:416 | joining the pieces with the separator gives back the line |
| Text.SplitPartOccurs | epi-display-panasonic-projectors/PanasonicProjectorController.cs:416 | every piece occurs in the line |
| Text.SplitAtSeparator | epi-display-panasonic-projectors/PanasonicProjectorController.cs:416 | the first piece ends at the first separator |
| Formatting.FormatText | epi-display-panasonic-projectors/IpCommandBuilder.cs:17 | text without braces is copied to the output |
| Formatting.FormatHole | epi-display-panasonic-projectors/IpCommandBuilder.cs:17 | `{k}` is replaced by the k-th argument |
| Formatting.ColonTriple | epi-display-panasonic-projectors/PanasonicProjectorController.cs:418-419 | "{0}:{1}:{2}" formats to a + ":" + b + ":" + c |

## Left out

- MD5 and UTF-8 are left out because they are foreign cryptography and encoding. This covers `MD5CryptoServiceProvider` and the UTF-8 encode/decode around it. The digest is an arbitrary function of the pre-image string, so the lossy decoding of hash bytes is not modelled.
- Timers, the 50 s poll and the status monitor are left out because they are time-based (`CTimer`, `CustomActivate`, `PanasonicIpStatusMonitor`). Timer expiry is a method callable only while the timer runs. The polling itself is the `Poll` method.
- The receive queue (`_rxQueue`, `QueueMessage`) is left out because it only serialises calls to `ParseResponse`. The model handles one line per call.
- Concurrency is left out. The timer callbacks, the receive worker and the callers' threads read and write the controller's fields without locks. The model runs each event atomically, one after another, so interleavings inside an operation are not modelled.
- Controller.Controller.ParseResponse: a challenge line with fewer than three space-separated tokens makes `GetHash` throw, and the exception leaves `ParseResponse` before anything is assigned. The model renders this as a step that changes nothing. What the receive worker does with the exception is not part of this model.
- Controller.Controller.Create: for a control method other than com or tcpip, the source keeps a half-constructed object with no command builder, comms monitor or line handler. `SendText` would still work on it. The model returns null instead, and does not model that object.
- Reconnection, `Connect`, feedback objects, routing ports, `LinkToApi` and logging are left out because they are I/O and UI plumbing. A reconnect attempt (`BeginInvoke` of `Connect`) is not modelled. The `FireUpdate` calls are kept as a log, including those for the connect and status feedbacks on a connection change.
- `ExecuteSwitch` is left out because it depends on subscribing to feedback events.
- Configuration deserialisation is left out. Control method, id, credentials and timer seconds are plain inputs.
- Controller.Controller.SendText: the queue capacity of 50 is a precondition (`CanSend`). The library queue's blocking on a full queue and `Dequeue(10)`'s timeout are not visible, so they are not modelled.
- Inputs.Parse: white space around the value is trimmed, as `Enum.Parse` does, but the numeric and comma-separated forms that `Enum.Parse` also accepts are not modelled; such values give None here. The enum's declaration is not part of this model, so its members are those the driver routes to, plus None, and its default is taken to be None.
- Text.Lower: case mapping is ASCII only. Culture-specific and non-ASCII case mappings are not modelled.
- Text.Upper: case mapping is ASCII only, as for Text.Lower.
- Strings are sequences of characters; UTF-16 surrogate pairs are not distinguished. A null `_currentCommand` or `_hash` is the empty string.
- ControllerState.ControlMethod: the control methods other than Com and Tcpip are one value, `Other`.
- Formatting.Format: only format items with a single-digit index and no alignment or format part are modelled. Those are the only items the driver uses.
- ControllerState.WarmupTimeMs: states the exact value only while seconds*1000 fits a uint. The wrap-around beyond that is stated by ControllerState.TimeMs and ControllerProperties.TimerWraps.
- ControllerState.CooldownTimeMs: same as ControllerState.WarmupTimeMs.
