/**
 * The protocol state of the projector controller as a value, and one pure
 * function per controller operation giving the state that operation leaves.
 * The Controller class (Controller.dfy) updates its fields step by step and
 * is proved to end in exactly these states.
 *
 * Stand-ins for what the controller calls but cannot be seen:
 * - the transport is `connected` plus the log `sent` of every string handed
 *   to its SendText;
 * - the MD5 digest (and the UTF-8 decoding of its bytes) is `md5`, an
 *   arbitrary function from the pre-image string to the prefix string;
 * - feedback objects are the log `feedback` of FireUpdate calls;
 * - the empty string stands for a null `_currentCommand` or `_hash`, since
 *   the code only ever tests them with String.IsNullOrEmpty.
 */
module ControllerState {
  import opened Wrappers
  import opened Text
  import opened Formatting
  import opened CommandBuilder
  import Inputs

  /** The configured control method: the two the driver supports, and every other one. */
  datatype ControlMethod = Com | Tcpip | Other

  /**
   * GetCommandBuilder: Com gives the serial builder with the configured id,
   * Tcpip the IP builder, anything else no builder at all.
   */
  function GetCommandBuilder(control: ControlMethod, id: string): (r: Option<Builder>)
    ensures r.Some? <==> control == Com || control == Tcpip
    ensures r.Some? ==> (r.value.Serial? <==> control == Com)
    ensures r.Some? && r.value.Serial? ==> r.value.id == id
  {
    if control == Com then Some(Serial(id))
    else if control == Tcpip then Some(Ip)
    else None
  }

  const DefaultWarmUpTimeMs: nat := 1000
  const DefaultCooldownTimeMs: nat := 2000

  /** 2^32: the values of a C# uint. */
  const UIntRange: nat := 0x1_0000_0000

  /**
   * The timer duration in ms from a configured number of seconds: the default
   * for 0, otherwise seconds*1000 cast to uint. Whatever the width of the
   * configured integer, unchecked multiplication followed by the cast keeps
   * the low 32 bits, i.e. the product modulo 2^32.
   */
  function TimeMs(seconds: int, defaultMs: nat): (ms: nat)
    requires defaultMs < UIntRange
    ensures ms < UIntRange
    ensures seconds == 0 ==> ms == defaultMs
    ensures 0 < seconds <= 4294967 ==> ms == seconds * 1000
    ensures seconds != 0 ==> (ms - seconds * 1000) % UIntRange == 0
  {
    if seconds == 0 then defaultMs else (seconds * 1000) % UIntRange
  }

  function WarmupTimeMs(seconds: int): (ms: nat)
    ensures ms < UIntRange
    ensures seconds == 0 ==> ms == 1000
    ensures 0 < seconds <= 4294967 ==> ms == seconds * 1000
  {
    TimeMs(seconds, DefaultWarmUpTimeMs)
  }

  function CooldownTimeMs(seconds: int): (ms: nat)
    ensures ms < UIntRange
    ensures seconds == 0 ==> ms == 2000
    ensures 0 < seconds <= 4294967 ==> ms == seconds * 1000
  {
    TimeMs(seconds, DefaultCooldownTimeMs)
  }

  /** Capacity the outbound queue is created with. */
  const TxQueueCapacity: nat := 50

  /** The feedback objects whose FireUpdate the driver calls. */
  datatype Feedback =
    | PowerIsOnChanged | WarmingChanged | CoolingChanged | InputChanged
    | ConnectUpdated | StatusUpdated

  /**
   * What is fixed at construction: the control method and the builder chosen
   * from it, the credentials, whether the comms object is a socket (only
   * then is an MD5 provider created), and the digest function.
   */
  datatype Settings = Settings(
    control: ControlMethod,
    builder: Builder,
    username: string,
    password: string,
    isSocket: bool,
    md5: string -> string)

  /** A controller is only ever running with the builder its method selects. */
  predicate ValidSettings(st: Settings) {
    st.control != Other && (st.builder.Serial? <==> st.control == Com)
  }

  datatype State = State(
    txQueue: seq<string>,
    currentCommand: string,
    hash: string,
    powerIsOn: bool,
    isWarming: bool,
    isCooling: bool,
    powerOnIgnoreFb: bool,
    currentInput: Inputs.InputType,
    connected: bool,
    sent: seq<string>,
    feedback: seq<Feedback>)

  /** The state right after construction; the input is the enum's default, taken to be None. */
  function InitialState(): State {
    State([], "", "", false, false, false, false, Inputs.None, false, [], [])
  }

  /** The string that is hashed for a challenge: username, password and seed joined by colons. */
  function HashPreimage(username: string, password: string, seed: string): (r: string)
    ensures r == username + ":" + password + ":" + seed
  {
    ColonTriple(username, password, seed);
    Format("{0}:{1}:{2}", [username, password, seed]).value
  }

  /** The third space-separated token of the whole line; absent when the line has fewer than three. */
  function ChallengeSeed(response: string): (r: Option<string>)
    ensures r.Some? <==> Count(response, ' ') >= 2
    ensures r.Some? ==> ' ' !in r.value && Contains(response, r.value)
  {
    var parts := Split(response, ' ');
    if |parts| > 2 then
      SplitPartOccurs(response, ' ', 2);
      Some(parts[2])
    else None
  }

  /**
   * GetHash: the digest of "username:password:seed". It throws, leaving the
   * caller's state as it was, when the line has no third token or when no
   * MD5 provider exists because the comms object is not a socket.
   */
  function GetHash(st: Settings, response: string): (r: Option<string>)
    ensures r.Some? <==> st.isSocket && ChallengeSeed(response).Some?
    ensures r.Some? ==> r.value == st.md5(HashPreimage(st.username, st.password, ChallengeSeed(response).value))
  {
    match ChallengeSeed(response)
    case None => None
    case Some(seed) => if st.isSocket then Some(st.md5(HashPreimage(st.username, st.password, seed))) else None
  }

  /** `h` is the digest of the credentials with some seed. */
  ghost predicate IsDigest(st: Settings, h: string) {
    exists seed :: h == st.md5(HashPreimage(st.username, st.password, seed))
  }

  /**
   * What every reachable state satisfies: never warming and cooling at once,
   * the queue within its capacity, nothing ever queued on the serial link,
   * and the prefix either absent or a digest of the credentials (and absent
   * when there is no MD5 provider).
   */
  ghost predicate Inv(st: Settings, s: State) {
    && !(s.isWarming && s.isCooling)
    && |s.txQueue| <= TxQueueCapacity
    && (st.control == Com ==> s.txQueue == [])
    && (!st.isSocket ==> s.hash == "")
    && (s.hash == "" || IsDigest(st, s.hash))
  }

  /** The invariant depends only on the timers, the queue and the prefix. */
  lemma InvOfSameCore(st: Settings, s: State, t: State)
    requires Inv(st, s)
    requires t.isWarming == s.isWarming && t.isCooling == s.isCooling
    requires t.txQueue == s.txQueue && t.hash == s.hash
    ensures Inv(st, t)
  {
  }

  /** The text handed to the transport: the prefix, when there is one, in front of the command. */
  function WirePayload(hash: string, text: string): (w: string)
    ensures w == hash + text
  {
    if hash == "" then text else hash + text
  }

  /** SendText either sends at once or enqueues; enqueueing needs room in the queue. */
  predicate CanSend(st: Settings, s: State) {
    st.control == Com || s.connected || |s.txQueue| < TxQueueCapacity
  }

  /**
   * SendText: on the serial link the text is sent as it is; on IP it is sent
   * with the prefix when connected and queued at the tail otherwise. Sending
   * makes the text the current command.
   */
  function SendTextStep(st: Settings, s: State, text: string): State
    requires CanSend(st, s)
  {
    if st.control == Com then
      s.(currentCommand := text, sent := s.sent + [text])
    else if s.connected then
      s.(currentCommand := text, sent := s.sent + [WirePayload(s.hash, text)])
    else
      s.(txQueue := s.txQueue + [text])
  }

  /**
   * DequeueAndSend: nothing happens on an empty queue; otherwise the oldest
   * entry is taken off the queue, becomes the current command and is sent
   * with the prefix, whatever the connection.
   */
  function DequeueStep(s: State): (r: State)
    ensures s.txQueue == [] ==> r == s
    ensures s.txQueue != [] ==>
      && [r.currentCommand] + r.txQueue == s.txQueue
      && r.sent == s.sent + [s.hash + r.currentCommand]
      && r == s.(txQueue := r.txQueue, currentCommand := r.currentCommand, sent := r.sent)
  {
    if s.txQueue == [] then s
    else
      var cmdToSend := s.txQueue[0];
      s.(txQueue := s.txQueue[1..], currentCommand := cmdToSend, sent := s.sent + [WirePayload(s.hash, cmdToSend)])
  }

  /** The PowerIsOn setter: a change is recorded and reported, an equal value is ignored. */
  function SetPowerIsOnStep(s: State, value: bool): (r: State)
    ensures r.powerIsOn == value
    ensures r.feedback == s.feedback + (if value == s.powerIsOn then [] else [PowerIsOnChanged])
    ensures r == s.(powerIsOn := value, feedback := r.feedback)
  {
    if value == s.powerIsOn then s
    else s.(powerIsOn := value, feedback := s.feedback + [PowerIsOnChanged])
  }

  /**
   * The CurrentInput setter: the current input's own name changes nothing;
   * any other value selects the member it names, ignoring case, or None.
   */
  function SetCurrentInputStep(s: State, value: string): (r: State)
    ensures Inputs.Parse(value).Some? ==> r.currentInput == Inputs.Parse(value).value
    ensures Inputs.Parse(value).None? ==> r.currentInput == Inputs.None
    ensures r.feedback == s.feedback + (if value == Inputs.Name(s.currentInput) then [] else [InputChanged])
    ensures r == s.(currentInput := r.currentInput, feedback := r.feedback)
  {
    if value == Inputs.Name(s.currentInput) then
      Inputs.ParseOwnName(s.currentInput);
      s
    else
      s.(currentInput := Inputs.Parse(value).GetOr(Inputs.None), feedback := s.feedback + [InputChanged])
  }

  /** Setting the input to anything but its own name selects what the value parses to, or None. */
  lemma SetCurrentInputChanges(s: State, value: string)
    requires value != Inputs.Name(s.currentInput)
    ensures SetCurrentInputStep(s, value)
         == s.(currentInput := Inputs.Parse(value).GetOr(Inputs.None), feedback := s.feedback + [InputChanged])
  {
  }

  /** A power reply says "on": "001" as written, or "pon" in any case. */
  predicate SaysOn(response: string) {
    Contains(response, "001") || Contains(Lower(response), "pon")
  }

  /** A power reply says "off": "000" as written, or "pof" in any case. */
  predicate SaysOff(response: string) {
    Contains(response, "000") || Contains(Lower(response), "pof")
  }

  /** The input named in a reply: every "iis:" (exact case) removed, then trimmed. */
  function IisValue(response: string): string {
    Trim(RemoveAll(response, "iis:"))
  }

  /**
   * ParseResponse, for one received line. The handshake markers come first
   * and each drains one queued command; any other line is a reply to the
   * current command.
   */
  function ParseStep(st: Settings, s: State, response: string): State {
    var lower := Lower(response);
    if Contains(lower, "ntcontrol 1") then
      match GetHash(st, response)
      case None => s
      case Some(h) => DequeueStep(s.(hash := h))
    else if Contains(lower, "ntcontrol 0") then DequeueStep(s)
    else ReplyStep(s, response)
  }

  /**
   * A reply is attributed to the current command by a case-insensitive search
   * of the framed line, "qpw" before "iis". While the power-on echo is being
   * ignored, a reply that says "on" only clears that flag; any other power
   * reply sets the power state (the code's separate test for an "off" reply
   * leads to the same update). Only the power and input state can change.
   */
  function ReplyStep(s: State, response: string): (r: State)
    ensures r == s.(powerIsOn := r.powerIsOn, powerOnIgnoreFb := r.powerOnIgnoreFb,
                    currentInput := r.currentInput, feedback := r.feedback)
  {
    if s.currentCommand == "" then s
    else if Contains(Lower(s.currentCommand), "qpw") then
      if s.powerOnIgnoreFb && SaysOn(response) then s.(powerOnIgnoreFb := false)
      else SetPowerIsOnStep(s, SaysOn(response))
    else if Contains(Lower(s.currentCommand), "iis") then SetCurrentInputStep(s, IisValue(response))
    else s
  }

  /** PowerOn sends PON only from a state that is off, not warming and not cooling. */
  predicate PowerOnSends(s: State) {
    !(s.powerIsOn || s.isWarming || s.isCooling)
  }

  /** PowerOff sends POF only from a state that is on, not warming and not cooling. */
  predicate PowerOffSends(s: State) {
    s.powerIsOn && !s.isWarming && !s.isCooling
  }

  /** PowerOn: ignore the next "on" echo, send PON, start warming. */
  function PowerOnStep(st: Settings, s: State): State
    requires PowerOnSends(s) ==> CanSend(st, s)
  {
    if !PowerOnSends(s) then s
    else
      var s1 := SendTextStep(st, s.(powerOnIgnoreFb := true), GetCommand(st.builder, "PON"));
      s1.(isWarming := true, feedback := s1.feedback + [WarmingChanged])
  }

  /** PowerOff: send POF, start cooling. */
  function PowerOffStep(st: Settings, s: State): State
    requires PowerOffSends(s) ==> CanSend(st, s)
  {
    if !PowerOffSends(s) then s
    else
      var s1 := SendTextStep(st, s, GetCommand(st.builder, "POF"));
      s1.(isCooling := true, feedback := s1.feedback + [CoolingChanged])
  }

  /** PowerToggle: POF when on, PON otherwise, with no guard and no flag change. */
  function PowerToggleStep(st: Settings, s: State): State
    requires CanSend(st, s)
  {
    SendTextStep(st, s, GetCommand(st.builder, if s.powerIsOn then "POF" else "PON"))
  }

  /** The warm-up timer's callback: warming ends and power is on. */
  function WarmupExpiredStep(s: State): State
    requires s.isWarming
  {
    var s1 := s.(isWarming := false, feedback := s.feedback + [WarmingChanged]);
    SetPowerIsOnStep(s1, true)
  }

  /** The cool-down timer's callback: cooling ends and power is off. */
  function CooldownExpiredStep(s: State): State
    requires s.isCooling
  {
    var s1 := SetPowerIsOnStep(s.(isCooling := false), false);
    s1.(feedback := s1.feedback + [CoolingChanged])
  }

  /** Poll: a power query. */
  function PollStep(st: Settings, s: State): State
    requires CanSend(st, s)
  {
    SendTextStep(st, s, GetCommand(st.builder, "QPW"))
  }

  /**
   * The socket's connection change: the connect and status feedbacks are
   * updated and the transport's flag follows. Neither the queue nor the
   * prefix is cleared.
   */
  function ConnectionChangeStep(s: State, isConnected: bool): State {
    s.(connected := isConnected, feedback := s.feedback + [ConnectUpdated, StatusUpdated])
  }

  /** SetInput: send IIS with the upper-case member name, then set the current input by name. */
  function SetInputStep(st: Settings, s: State, input: Inputs.InputType): State
    requires CanSend(st, s)
  {
    var s1 := SendTextStep(st, s, GetCommandWithParameter(st.builder, "IIS", Upper(Inputs.Name(input))));
    SetCurrentInputStep(s1, Inputs.Name(input))
  }

  /**
   * Everything that can happen to a controller: the callers' commands and
   * writes to the public PowerIsOn and CurrentInput properties, the
   * transport's lines and connection changes, and the timers' expiries.
   */
  datatype Event =
    | SendText(text: string)
    | Poll
    | SetInput(input: Inputs.InputType)
    | PowerOn
    | PowerOff
    | PowerToggle
    | WarmupExpired
    | CooldownExpired
    | Receive(line: string)
    | ConnectionChanged(isConnected: bool)
    | SetPowerIsOn(on: bool)
    | SetCurrentInput(name: string)

  /** When an event can happen: a timer fires only while it runs, and enqueueing needs room. */
  predicate Enabled(st: Settings, s: State, e: Event) {
    match e
    case SendText(_) => CanSend(st, s)
    case Poll => CanSend(st, s)
    case SetInput(_) => CanSend(st, s)
    case PowerOn => PowerOnSends(s) ==> CanSend(st, s)
    case PowerOff => PowerOffSends(s) ==> CanSend(st, s)
    case PowerToggle => CanSend(st, s)
    case WarmupExpired => s.isWarming
    case CooldownExpired => s.isCooling
    case Receive(_) => true
    case ConnectionChanged(_) => true
    case SetPowerIsOn(_) => true
    case SetCurrentInput(_) => true
  }

  function Next(st: Settings, s: State, e: Event): State
    requires Enabled(st, s, e)
  {
    match e
    case SendText(text) => SendTextStep(st, s, text)
    case Poll => PollStep(st, s)
    case SetInput(input) => SetInputStep(st, s, input)
    case PowerOn => PowerOnStep(st, s)
    case PowerOff => PowerOffStep(st, s)
    case PowerToggle => PowerToggleStep(st, s)
    case WarmupExpired => WarmupExpiredStep(s)
    case CooldownExpired => CooldownExpiredStep(s)
    case Receive(line) => ParseStep(st, s, line)
    case ConnectionChanged(b) => ConnectionChangeStep(s, b)
    case SetPowerIsOn(value) => SetPowerIsOnStep(s, value)
    case SetCurrentInput(value) => SetCurrentInputStep(s, value)
  }

  /** Every event of the sequence is enabled in the state the previous ones leave. */
  predicate Trace(st: Settings, s: State, events: seq<Event>)
    decreases |events|
  {
    events == [] || (Enabled(st, s, events[0]) && Trace(st, Next(st, s, events[0]), events[1..]))
  }

  /** The state a trace ends in. */
  function Final(st: Settings, s: State, events: seq<Event>): State
    requires Trace(st, s, events)
    decreases |events|
  {
    if events == [] then s else Final(st, Next(st, s, events[0]), events[1..])
  }
}
