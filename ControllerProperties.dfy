/**
 * What the controller's operations guarantee, stated on the step functions
 * of ControllerState: the invariant every event keeps, the authentication
 * prefix, FIFO draining of the outbound queue, attribution of replies, and
 * the power-on/power-off state machine.
 */
module ControllerProperties {
  import opened Wrappers
  import opened Text
  import opened CommandBuilder
  import opened ControllerState
  import SerialCommandBuilder
  import IpCommandBuilder
  import Inputs

  // ---------------------------------------------------------------------------
  // The invariant

  lemma InitialStateIsValid(st: Settings)
    ensures Inv(st, InitialState())
  {
  }

  /** A received line keeps the invariant: a new prefix is always a digest of the credentials. */
  lemma ParseKeepsInv(st: Settings, s: State, line: string)
    requires Inv(st, s)
    ensures Inv(st, ParseStep(st, s, line))
  {
    if Contains(Lower(line), "ntcontrol 1") {
      var h := GetHash(st, line);
      if h.Some? {
        var seed := ChallengeSeed(line).value;
        assert h.value == st.md5(HashPreimage(st.username, st.password, seed));
        assert IsDigest(st, h.value);
      }
    }
  }

  /** Every event that can happen keeps the invariant. */
  lemma NextPreservesInv(st: Settings, s: State, e: Event)
    requires Inv(st, s) && Enabled(st, s, e)
    ensures Inv(st, Next(st, s, e))
  {
    match e
    case Receive(line) => ParseKeepsInv(st, s, line);
    case _ =>
  }

  /** Every state a trace reaches from a valid state is valid. */
  lemma {:induction false} TraceKeepsInv(st: Settings, s: State, events: seq<Event>)
    requires Inv(st, s) && Trace(st, s, events)
    ensures Inv(st, Final(st, s, events))
    decreases |events|
  {
    if events != [] {
      NextPreservesInv(st, s, events[0]);
      TraceKeepsInv(st, Next(st, s, events[0]), events[1..]);
    }
  }

  /**
   * Whatever happens after construction, the controller is never warming up
   * and cooling down at once, and a serial controller never queues.
   */
  lemma NeverWarmingAndCooling(st: Settings, events: seq<Event>)
    requires Trace(st, InitialState(), events)
    ensures !(Final(st, InitialState(), events).isWarming && Final(st, InitialState(), events).isCooling)
    ensures st.control == Com ==> Final(st, InitialState(), events).txQueue == []
  {
    InitialStateIsValid(st);
    TraceKeepsInv(st, InitialState(), events);
  }

  // ---------------------------------------------------------------------------
  // The authentication prefix

  /** Only a challenge line whose digest can be computed replaces the prefix, and with that digest. */
  lemma ParseChangesHashOnlyOnChallenge(st: Settings, s: State, line: string)
    ensures ParseStep(st, s, line).hash != s.hash ==>
      Contains(Lower(line), "ntcontrol 1") && GetHash(st, line) == Some(ParseStep(st, s, line).hash)
  {
    if !Contains(Lower(line), "ntcontrol 1") && !Contains(Lower(line), "ntcontrol 0") {
      assert ParseStep(st, s, line) == ReplyStep(s, line);
    }
  }

  /**
   * The prefix changes only when a line holding "ntcontrol 1" (any case)
   * arrives and its digest can be computed; it then becomes that digest.
   * Nothing resets it.
   */
  lemma HashChangesOnlyOnChallenge(st: Settings, s: State, e: Event)
    requires Enabled(st, s, e)
    ensures Next(st, s, e).hash != s.hash ==>
      && e.Receive?
      && Contains(Lower(e.line), "ntcontrol 1")
      && GetHash(st, e.line) == Some(Next(st, s, e).hash)
  {
    match e
    case Receive(line) => ParseChangesHashOnlyOnChallenge(st, s, line);
    case SetInput(input) =>
      var s1 := SendTextStep(st, s, GetCommandWithParameter(st.builder, "IIS", Upper(Inputs.Name(input))));
      assert s1.hash == s.hash;
      assert Next(st, s, e) == SetCurrentInputStep(s1, Inputs.Name(input));
    case WarmupExpired =>
      assert Next(st, s, e).hash == s.(isWarming := false, feedback := s.feedback + [WarmingChanged]).hash;
    case CooldownExpired =>
      assert Next(st, s, e).hash == SetPowerIsOnStep(s.(isCooling := false), false).hash;
    case _ =>
  }

  /**
   * A handshake line is handled before the current command is looked at: it
   * never changes the power or input state, and it sends at most one queued
   * command. "ntcontrol 0" keeps the prefix; "ntcontrol 1" first replaces it
   * with the digest, so the dequeued command goes out with the new prefix.
   */
  lemma Handshake(st: Settings, s: State, line: string)
    requires Contains(Lower(line), "ntcontrol 1") || Contains(Lower(line), "ntcontrol 0")
    ensures var r := ParseStep(st, s, line);
      && r.powerIsOn == s.powerIsOn && r.powerOnIgnoreFb == s.powerOnIgnoreFb
      && r.currentInput == s.currentInput && r.feedback == s.feedback
      && |r.sent| <= |s.sent| + 1
    ensures !Contains(Lower(line), "ntcontrol 1") ==> ParseStep(st, s, line) == DequeueStep(s)
    ensures Contains(Lower(line), "ntcontrol 1") && GetHash(st, line).None? ==> ParseStep(st, s, line) == s
    ensures Contains(Lower(line), "ntcontrol 1") && GetHash(st, line).Some? ==>
      var r := ParseStep(st, s, line);
      && r.hash == st.md5(HashPreimage(st.username, st.password, ChallengeSeed(line).value))
      && (s.txQueue != [] ==> r.txQueue == s.txQueue[1..] && r.sent == s.sent + [r.hash + s.txQueue[0]])
      && (s.txQueue == [] ==> r.txQueue == [] && r.sent == s.sent)
  {
  }

  /** The challenge line regrouped around its first two separators. */
  lemma ChallengeRegroup(word: string, flag: string, seed: string, rest: string)
    ensures word + " " + flag + " " + seed + rest == word + [' '] + (flag + [' '] + (seed + rest))
  {
    var sp := " ";
    assert sp == [' '];
    var a, b, tail := word + sp, flag + sp, seed + rest;
    AppendAssoc(a + flag + sp, seed, rest);
    AppendAssoc(a, flag, sp);
    AppendAssoc(a, b, tail);
  }

  /** The first two tokens come off the front of the split. */
  lemma FirstTwoTokens(word: string, flag: string, tail: string)
    requires ' ' !in word && ' ' !in flag
    ensures Split(word + [' '] + (flag + [' '] + tail), ' ') == [word, flag] + Split(tail, ' ')
  {
    SplitAtSeparator(word, ' ', flag + [' '] + tail);
    SplitAtSeparator(flag, ' ', tail);
  }

  /** A token followed by nothing or by a separator is the first piece. */
  lemma LeadingToken(seed: string, rest: string)
    requires ' ' !in seed
    requires rest == [] || rest[0] == ' '
    ensures Split(seed + rest, ' ')[0] == seed
  {
    if rest == [] {
      assert seed + rest == seed;
      SplitWithoutSeparator(seed, ' ');
    } else {
      assert rest == [' '] + rest[1..];
      AppendAssoc(seed, [' '], rest[1..]);
      SplitAtSeparator(seed, ' ', rest[1..]);
    }
  }

  /** The third space-separated token of "word flag seed ..." is the seed. */
  lemma ThirdToken(word: string, flag: string, seed: string, rest: string)
    requires ' ' !in word && ' ' !in flag && ' ' !in seed
    requires rest == [] || rest[0] == ' '
    ensures var parts := Split(word + " " + flag + " " + seed + rest, ' ');
      |parts| > 2 && parts[2] == seed
  {
    ChallengeRegroup(word, flag, seed, rest);
    FirstTwoTokens(word, flag, seed + rest);
    LeadingToken(seed, rest);
  }

  /**
   * The seed is the third space-separated token, whatever follows it: for a
   * challenge "word flag seed ..." the digest is that of
   * "username:password:seed".
   */
  lemma ChallengeDigest(st: Settings, word: string, flag: string, seed: string, rest: string)
    requires st.isSocket
    requires ' ' !in word && ' ' !in flag && ' ' !in seed
    requires rest == [] || rest[0] == ' '
    ensures GetHash(st, word + " " + flag + " " + seed + rest)
         == Some(st.md5(st.username + ":" + st.password + ":" + seed))
  {
    ThirdToken(word, flag, seed, rest);
  }

  /** The upper-case challenge marker is found by the case-insensitive search. */
  lemma ChallengeMarker(seed: string)
    ensures Contains(Lower("NTCONTROL 1 " + seed), "ntcontrol 1")
  {
    var x := "NTCONTROL 1 " + seed;
    var l := Lower(x);
    forall k | 0 <= k < 11
      ensures l[k] == "ntcontrol 1"[k]
    {
      assert l[k] == LowerChar("NTCONTROL 1 "[k]);
    }
    assert l[..11] == "ntcontrol 1";
  }

  /**
   * A challenge "NTCONTROL 1 <seed>" that arrives while commands wait sets
   * the prefix to the digest and sends the oldest command with it.
   */
  lemma ChallengeUnblocksOldest(st: Settings, s: State, seed: string)
    requires st.isSocket && ' ' !in seed && s.txQueue != []
    ensures var r := ParseStep(st, s, "NTCONTROL 1 " + seed);
      var digest := st.md5(st.username + ":" + st.password + ":" + seed);
      && r.hash == digest
      && r.currentCommand == s.txQueue[0]
      && r.sent == s.sent + [digest + s.txQueue[0]]
      && r.txQueue == s.txQueue[1..]
  {
    ChallengeMarker(seed);
    assert "NTCONTROL 1 " + seed == "NTCONTROL" + " " + "1" + " " + seed + "";
    ChallengeDigest(st, "NTCONTROL", "1", seed, "");
  }

  // ---------------------------------------------------------------------------
  // The outbound queue

  /** SendText for each text in turn. */
  function SendTexts(st: Settings, s: State, texts: seq<string>): State
    requires st.control != Com && !s.connected && |s.txQueue| + |texts| <= TxQueueCapacity
    decreases |texts|
  {
    if texts == [] then s else SendTexts(st, SendTextStep(st, s, texts[0]), texts[1..])
  }

  /** DequeueAndSend n times. */
  function DequeueTimes(s: State, n: nat): State
    decreases n
  {
    if n == 0 then s else DequeueTimes(DequeueStep(s), n - 1)
  }

  /** Each text with the prefix in front. */
  function Prefixed(hash: string, texts: seq<string>): (r: seq<string>)
    ensures |r| == |texts| && forall i :: 0 <= i < |texts| ==> r[i] == hash + texts[i]
  {
    if texts == [] then [] else [hash + texts[0]] + Prefixed(hash, texts[1..])
  }

  /** While the IP link is down, SendText appends at the tail and sends nothing. */
  lemma {:induction false} DisconnectedSendsQueue(st: Settings, s: State, texts: seq<string>)
    requires st.control != Com && !s.connected && |s.txQueue| + |texts| <= TxQueueCapacity
    ensures var r := SendTexts(st, s, texts);
      r.txQueue == s.txQueue + texts && r == s.(txQueue := r.txQueue)
    decreases |texts|
  {
    if texts != [] {
      var s1 := SendTextStep(st, s, texts[0]);
      DisconnectedSendsQueue(st, s1, texts[1..]);
      assert s.txQueue + [texts[0]] + texts[1..] == s.txQueue + texts;
    }
  }

  /**
   * Dequeueing n times sends the n oldest entries, oldest first, each with
   * the prefix; the rest of the queue stays in order and the last one sent
   * is the current command.
   */
  lemma {:induction false} DequeueTimesIsFifo(s: State, n: nat)
    requires n <= |s.txQueue|
    ensures var r := DequeueTimes(s, n);
      && r.txQueue == s.txQueue[n..]
      && r.sent == s.sent + Prefixed(s.hash, s.txQueue[..n])
      && (n > 0 ==> r.currentCommand == s.txQueue[n - 1])
    decreases n
  {
    if n > 0 {
      var s1 := DequeueStep(s);
      DequeueTimesIsFifo(s1, n - 1);
      assert s1.txQueue == s.txQueue[1..] && s1.hash == s.hash;
      assert s.txQueue[1..][n - 1..] == s.txQueue[n..];
      assert s.txQueue[1..][..n - 1] == s.txQueue[1..n];
      assert s.txQueue[..n] == [s.txQueue[0]] + s.txQueue[1..n];
      assert Prefixed(s.hash, s.txQueue[..n]) == [s.hash + s.txQueue[0]] + Prefixed(s.hash, s.txQueue[1..n]);
    }
  }

  /** Dequeueing changes the queue, the log of sent lines and the current command, and nothing else. */
  lemma {:induction false} DequeueTimesFrame(s: State, n: nat)
    ensures var r := DequeueTimes(s, n);
      r == s.(txQueue := r.txQueue, sent := r.sent, currentCommand := r.currentCommand)
    decreases n
  {
    if n > 0 {
      DequeueTimesFrame(DequeueStep(s), n - 1);
    }
  }

  /**
   * Commands queued while the IP link is down are sent strictly in the order
   * they were queued, after those already waiting, each exactly once, when
   * as many handshake lines arrive.
   */
  lemma QueueIsFifo(st: Settings, s: State, texts: seq<string>)
    requires st.control != Com && !s.connected && |s.txQueue| + |texts| <= TxQueueCapacity
    ensures var r := DequeueTimes(SendTexts(st, s, texts), |s.txQueue| + |texts|);
      r.txQueue == [] && r.sent == s.sent + Prefixed(s.hash, s.txQueue + texts)
  {
    var q := SendTexts(st, s, texts);
    DisconnectedSendsQueue(st, s, texts);
    DrainAll(q);
  }

  /** Dequeueing as often as there are entries empties the queue and sends all of them in order. */
  lemma DrainAll(q: State)
    ensures var r := DequeueTimes(q, |q.txQueue|);
      r.txQueue == [] && r.sent == q.sent + Prefixed(q.hash, q.txQueue)
  {
    DequeueTimesIsFifo(q, |q.txQueue|);
    assert q.txQueue[..|q.txQueue|] == q.txQueue;
  }

  // ---------------------------------------------------------------------------
  // Attribution of ordinary replies

  /**
   * A line that is not a handshake never dequeues, never sends, never clears
   * the current command and never touches the prefix; with no current
   * command it changes nothing at all.
   */
  lemma OrdinaryReply(st: Settings, s: State, line: string)
    requires !Contains(Lower(line), "ntcontrol 1") && !Contains(Lower(line), "ntcontrol 0")
    ensures var r := ParseStep(st, s, line);
      && r.txQueue == s.txQueue && r.sent == s.sent && r.currentCommand == s.currentCommand
      && r.hash == s.hash && r.connected == s.connected
      && r.isWarming == s.isWarming && r.isCooling == s.isCooling
    ensures s.currentCommand == "" ==> ParseStep(st, s, line) == s
  {
    assert ParseStep(st, s, line) == ReplyStep(s, line);
  }

  /**
   * A reply to a power query sets the power state to what it says, except the
   * first "on" echo after PowerOn, which only clears the flag. The input is
   * never touched, even when the current command also mentions "iis", and an
   * "off" reply is not ignored while the flag is set.
   */
  lemma PowerReply(st: Settings, s: State, line: string)
    requires !Contains(Lower(line), "ntcontrol 1") && !Contains(Lower(line), "ntcontrol 0")
    requires s.currentCommand != "" && Contains(Lower(s.currentCommand), "qpw")
    ensures var r := ParseStep(st, s, line);
      && r.currentInput == s.currentInput
      && (s.powerOnIgnoreFb && SaysOn(line) ==> !r.powerOnIgnoreFb && r.powerIsOn == s.powerIsOn)
      && (!(s.powerOnIgnoreFb && SaysOn(line)) ==> r.powerIsOn == SaysOn(line) && r.powerOnIgnoreFb == s.powerOnIgnoreFb)
      && (SaysOff(line) && !SaysOn(line) ==> !r.powerIsOn)
  {
    assert ParseStep(st, s, line) == ReplyStep(s, line);
  }

  /** A reply to an input command sets the input it names, or None; power is not touched. */
  lemma InputReply(st: Settings, s: State, line: string)
    requires !Contains(Lower(line), "ntcontrol 1") && !Contains(Lower(line), "ntcontrol 0")
    requires s.currentCommand != "" && !Contains(Lower(s.currentCommand), "qpw")
    requires Contains(Lower(s.currentCommand), "iis")
    ensures var r := ParseStep(st, s, line);
      && r.powerIsOn == s.powerIsOn && r.powerOnIgnoreFb == s.powerOnIgnoreFb
      && (Inputs.Parse(IisValue(line)).Some? ==> r.currentInput == Inputs.Parse(IisValue(line)).value)
      && (Inputs.Parse(IisValue(line)).None? ==> r.currentInput == Inputs.None)
  {
    assert ParseStep(st, s, line) == ReplyStep(s, line);
    assert ReplyStep(s, line) == SetCurrentInputStep(s, IisValue(line));
  }

  /** Once the power query is the current command, the reply "001" turns power on. */
  lemma PowerQueryAnsweredOn(st: Settings, s: State)
    requires s.currentCommand == GetCommand(st.builder, "QPW") && !s.powerOnIgnoreFb
    ensures ParseStep(st, s, "001") == SetPowerIsOnStep(s, true)
  {
    ShortLineIsNoHandshake("001");
    CommandNameInFrame(st.builder, "QPW");
    assert Lower("QPW") == "qpw";
    assert StartsWith("001", "001");
    assert ParseStep(st, s, "001") == ReplyStep(s, "001");
  }

  /** Once the power query is the current command, the reply "000" turns power off. */
  lemma PowerQueryAnsweredOff(st: Settings, s: State)
    requires s.currentCommand == GetCommand(st.builder, "QPW")
    ensures ParseStep(st, s, "000") == SetPowerIsOnStep(s, false)
  {
    ShortLineIsNoHandshake("000");
    CommandNameInFrame(st.builder, "QPW");
    assert Lower("QPW") == "qpw";
    NotContainsWithoutChar("000", "001", 2);
    NotContainsWithoutFirstChar(Lower("000"), "pon");
    assert ParseStep(st, s, "000") == ReplyStep(s, "000");
  }

  /** The power-on echo "001" right after PowerOn only clears the flag. */
  lemma PowerOnEchoIgnoredOnce(st: Settings, s: State)
    requires s.currentCommand == GetCommand(st.builder, "QPW") && s.powerOnIgnoreFb
    ensures ParseStep(st, s, "001") == s.(powerOnIgnoreFb := false)
  {
    ShortLineIsNoHandshake("001");
    assert ParseStep(st, s, "001") == ReplyStep(s, "001");
    CommandNameInFrame(st.builder, "QPW");
    assert Lower("QPW") == "qpw";
    assert StartsWith("001", "001");
  }

  /** A reply to a command that is neither a power query nor an input command changes nothing. */
  lemma OtherReplyIgnored(st: Settings, s: State, line: string)
    requires !Contains(Lower(line), "ntcontrol 1") && !Contains(Lower(line), "ntcontrol 0")
    requires !Contains(Lower(s.currentCommand), "qpw") && !Contains(Lower(s.currentCommand), "iis")
    ensures ParseStep(st, s, line) == s
  {
    assert ParseStep(st, s, line) == ReplyStep(s, line);
  }

  /**
   * The replies to PowerOn's PON and PowerOff's POF frames (on serial, with
   * a device id holding no 'q' or 'i' in either case) change nothing: the
   * frames hold neither "qpw" nor "iis".
   */
  lemma PowerCommandReplyIgnored(st: Settings, s: State, cmd: string, line: string)
    requires cmd == "PON" || cmd == "POF"
    requires s.currentCommand == GetCommand(st.builder, cmd)
    requires st.builder.Serial? ==> 'q' !in st.builder.id && 'Q' !in st.builder.id
    requires st.builder.Serial? ==> 'i' !in st.builder.id && 'I' !in st.builder.id
    requires !Contains(Lower(line), "ntcontrol 1") && !Contains(Lower(line), "ntcontrol 0")
    ensures ParseStep(st, s, line) == s
  {
    CharNotInPowerCommand(st.builder, cmd, 'q');
    CharNotInPowerCommand(st.builder, cmd, 'Q');
    CharNotInPowerCommand(st.builder, cmd, 'i');
    CharNotInPowerCommand(st.builder, cmd, 'I');
    NoQpw(s.currentCommand);
    NoIis(s.currentCommand);
    OtherReplyIgnored(st, s, line);
  }

  /** A letter q or i, in either case, that is not in the device id is not in a PON or POF frame. */
  lemma CharNotInPowerCommand(b: Builder, cmd: string, c: char)
    requires cmd == "PON" || cmd == "POF"
    requires c == 'q' || c == 'Q' || c == 'i' || c == 'I'
    requires b.Serial? ==> c !in b.id
    ensures c !in GetCommand(b, cmd)
  {
    match b
    case Serial(id) =>
      var pre := [SerialCommandBuilder.STX] + "AD" + id + ";";
      assert c !in pre;
      assert GetCommand(b, cmd) == pre + cmd + [SerialCommandBuilder.ETX];
    case Ip =>
      assert GetCommand(b, cmd) == "00" + cmd + "\r";
  }

  /** No 'i' in either case in the text means no "iis" in its lowered form. */
  lemma NoIis(text: string)
    requires 'i' !in text && 'I' !in text
    ensures !Contains(Lower(text), "iis")
  {
    NotContainsWithoutFirstChar(Lower(text), "iis");
  }

  /** No 'q' in either case in the text means no "qpw" in its lowered form. */
  lemma NoQpw(text: string)
    requires 'q' !in text && 'Q' !in text
    ensures !Contains(Lower(text), "qpw")
  {
    NotContainsWithoutFirstChar(Lower(text), "qpw");
  }

  /** The frame of an input command whose parameter holds no 'q' holds no "qpw" and does hold "iis". */
  lemma InputCommandFrame(b: Builder, parameter: string)
    requires 'q' !in parameter && 'Q' !in parameter
    requires b.Serial? ==> 'q' !in b.id && 'Q' !in b.id
    ensures var cc := GetCommandWithParameter(b, "IIS", parameter);
      cc != "" && !Contains(Lower(cc), "qpw") && Contains(Lower(cc), "iis")
  {
    var cc := GetCommandWithParameter(b, "IIS", parameter);
    NoQInInputCommand(b, parameter, 'q');
    NoQInInputCommand(b, parameter, 'Q');
    NoQpw(cc);
    CommandNameInFrameWithParameter(b, "IIS", parameter);
    assert Lower("IIS") == "iis";
  }

  /** A character that is not in "IIS", the fixed framing, the id or the parameter is not in the frame. */
  lemma NoQInInputCommand(b: Builder, parameter: string, c: char)
    requires c == 'q' || c == 'Q'
    requires c !in parameter
    requires b.Serial? ==> c !in b.id
    ensures c !in GetCommandWithParameter(b, "IIS", parameter)
  {
    match b
    case Serial(id) => NoQInSerialInputCommand(id, parameter, c);
    case Ip => NoQInIpInputCommand(parameter, c);
  }

  lemma NoQInSerialInputCommand(id: string, parameter: string, c: char)
    requires c == 'q' || c == 'Q'
    requires c !in parameter && c !in id
    ensures c !in SerialCommandBuilder.GetCommandWithParameter(id, "IIS", parameter)
  {
    var pre := [SerialCommandBuilder.STX] + "AD" + id + ";IIS:";
    assert c !in pre;
    assert SerialCommandBuilder.GetCommandWithParameter(id, "IIS", parameter)
        == pre + parameter + [SerialCommandBuilder.ETX];
  }

  lemma NoQInIpInputCommand(parameter: string, c: char)
    requires c == 'q' || c == 'Q'
    requires c !in parameter
    ensures c !in IpCommandBuilder.GetCommandWithParameter("IIS", parameter)
  {
    assert IpCommandBuilder.GetCommandWithParameter("IIS", parameter) == "00IIS:" + parameter + "\r";
  }

  /** A reply of at most ten characters is no handshake. */
  lemma ShortLineIsNoHandshake(line: string)
    requires |line| < 11
    ensures !Contains(Lower(line), "ntcontrol 1") && !Contains(Lower(line), "ntcontrol 0")
  {
    ContainsLength(Lower(line), "ntcontrol 1");
    ContainsLength(Lower(line), "ntcontrol 0");
  }

  /**
   * After an input command (whose parameter and, on serial, device id hold
   * no 'q'), the reply "iis:" followed by an input's name in any case
   * selects that input.
   */
  lemma InputReplySelects(st: Settings, s: State, parameter: string, name: string, i: Inputs.InputType)
    requires s.currentCommand == GetCommandWithParameter(st.builder, "IIS", parameter)
    requires 'q' !in parameter && 'Q' !in parameter
    requires st.builder.Serial? ==> 'q' !in st.builder.id && 'Q' !in st.builder.id
    requires Lower(name) == Lower(Inputs.Name(i))
    ensures ParseStep(st, s, "iis:" + name).currentInput == i
  {
    var line := "iis:" + name;
    InputCommandFrame(st.builder, parameter);
    Inputs.NameChars(name, i);
    ShortLineIsNoHandshake(line);
    RemoveAllLeading("iis:", name);
    NotContainsWithoutChar(name, "iis:", 3);
    assert IisValue(line) == name;
    Inputs.NameUntrimmed(name, i);
    Inputs.ParseIff(name, i);
    assert ParseStep(st, s, line) == ReplyStep(s, line);
    assert ReplyStep(s, line) == SetCurrentInputStep(s, name);
  }

  /** "IIS:" in front of a colon-free text does not hold the lower-case marker "iis:". */
  lemma UpperMarkerKept(name: string)
    requires ':' !in name
    ensures !Contains("IIS:" + name, "iis:")
  {
    var line := "IIS:" + name;
    forall k | 0 <= k && k + 4 <= |line|
      ensures !OccursAt(line, "iis:", k)
    {
      if k == 0 {
        assert line[k..k + 4][0] == 'I';
      } else {
        assert line[k..k + 4][3] == line[k + 3] == name[k - 1];
      }
    }
    ContainsIff(line, "iis:");
  }

  /** The upper-case echo of a name is its own input value: nothing is removed, nothing trimmed. */
  lemma UpperEchoValue(name: string)
    requires forall k :: 0 <= k < |name| ==> !IsWhiteSpace(name[k]) && name[k] != ':'
    ensures IisValue("IIS:" + name) == "IIS:" + name
  {
    var line := "IIS:" + name;
    UpperMarkerKept(name);
    forall k | 0 <= k < |line|
      ensures !IsWhiteSpace(line[k])
    {
      if k >= 4 {
        assert line[k] == name[k - 4];
      }
    }
  }

  /** A value longer than four characters once trimmed names no input. */
  lemma LongValueRejected(value: string)
    requires |Trim(value)| > 4
    ensures Inputs.Parse(value) == None
  {
    forall j: Inputs.InputType
      ensures Lower(Trim(value)) != Lower(Inputs.Name(j))
    {
      Inputs.LowerNameShape(j);
    }
    Inputs.ParseRejects(value);
  }

  /**
   * The echo "IIS:" in upper case is not removed by the case-sensitive
   * Replace, so the whole line fails to parse and the input becomes None.
   */
  lemma UpperCaseInputReplyClears(st: Settings, s: State, parameter: string, name: string, i: Inputs.InputType)
    requires s.currentCommand == GetCommandWithParameter(st.builder, "IIS", parameter)
    requires 'q' !in parameter && 'Q' !in parameter
    requires st.builder.Serial? ==> 'q' !in st.builder.id && 'Q' !in st.builder.id
    requires Lower(name) == Lower(Inputs.Name(i))
    ensures ParseStep(st, s, "IIS:" + name).currentInput == Inputs.None
  {
    var line := "IIS:" + name;
    InputCommandFrame(st.builder, parameter);
    Inputs.NameChars(name, i);
    ShortLineIsNoHandshake(line);
    UpperEchoValue(name);
    assert Trim(line) == line;
    LongValueRejected(line);
    assert ParseStep(st, s, line) == ReplyStep(s, line);
    assert ReplyStep(s, line) == SetCurrentInputStep(s, line);
  }

  // ---------------------------------------------------------------------------
  // Power and input

  /** PowerOn does something exactly when power is off and neither timer runs. */
  lemma PowerOnGuard(st: Settings, s: State)
    requires PowerOnSends(s) ==> CanSend(st, s)
    ensures PowerOnStep(st, s) == s <==> !PowerOnSends(s)
  {
  }

  /** PowerOff does something exactly when power is on and neither timer runs. */
  lemma PowerOffGuard(st: Settings, s: State)
    requires PowerOffSends(s) ==> CanSend(st, s)
    ensures PowerOffStep(st, s) == s <==> !PowerOffSends(s)
  {
  }

  /** A second PowerOn, while the first warms up, does nothing and sends nothing. */
  lemma PowerOnIdempotent(st: Settings, s: State)
    requires PowerOnSends(s) ==> CanSend(st, s)
    ensures PowerOnStep(st, PowerOnStep(st, s)) == PowerOnStep(st, s)
  {
  }

  /** A second PowerOff, while the first cools down, does nothing and sends nothing. */
  lemma PowerOffIdempotent(st: Settings, s: State)
    requires PowerOffSends(s) ==> CanSend(st, s)
    ensures PowerOffStep(st, PowerOffStep(st, s)) == PowerOffStep(st, s)
  {
  }

  /** The one text SendText handed on was sent (with the prefix on IP) or queued, never both. */
  predicate SentOrQueued(st: Settings, s: State, r: State, text: string) {
    || (r.txQueue == s.txQueue + [text] && r.sent == s.sent)
    || (r.txQueue == s.txQueue && r.sent == s.sent + [if st.control == Com then text else s.hash + text])
  }

  /**
   * SendText sends or queues the text and nothing else; it only sets the
   * current command when it sends, and it keeps every flag.
   */
  lemma SendTextSentOrQueued(st: Settings, s: State, text: string)
    requires CanSend(st, s)
    ensures var r := SendTextStep(st, s, text);
      && SentOrQueued(st, s, r, text)
      && (r.txQueue != s.txQueue <==> st.control != Com && !s.connected)
      && r == s.(txQueue := r.txQueue, sent := r.sent, currentCommand := r.currentCommand)
      && (r.sent != s.sent ==> r.currentCommand == text)
      && (r.sent == s.sent ==> r.currentCommand == s.currentCommand)
  {
  }

  /**
   * From off: PowerOn sends or queues one PON and starts warming, with the
   * power-on echo to be ignored; when the warm-up timer fires, power is on.
   */
  lemma WarmupCycle(st: Settings, s: State)
    requires PowerOnSends(s) && CanSend(st, s)
    ensures var w := PowerOnStep(st, s);
      && w.isWarming && !w.isCooling && !w.powerIsOn && w.powerOnIgnoreFb
      && SentOrQueued(st, s, w, GetCommand(st.builder, "PON"))
    ensures var r := WarmupExpiredStep(PowerOnStep(st, s));
      r.powerIsOn && !r.isWarming && !r.isCooling
  {
    SendTextSentOrQueued(st, s.(powerOnIgnoreFb := true), GetCommand(st.builder, "PON"));
  }

  /**
   * From on: PowerOff sends or queues one POF and starts cooling; when the
   * cool-down timer fires, power is off.
   */
  lemma CooldownCycle(st: Settings, s: State)
    requires PowerOffSends(s) && CanSend(st, s)
    ensures var c := PowerOffStep(st, s);
      && c.isCooling && !c.isWarming && c.powerIsOn
      && SentOrQueued(st, s, c, GetCommand(st.builder, "POF"))
    ensures var r := CooldownExpiredStep(PowerOffStep(st, s));
      !r.powerIsOn && !r.isWarming && !r.isCooling
  {
    SendTextSentOrQueued(st, s, GetCommand(st.builder, "POF"));
  }

  /** PowerToggle sends POF when on and PON otherwise, and changes no power flag. */
  lemma ToggleChangesNoFlag(st: Settings, s: State)
    requires CanSend(st, s)
    ensures var r := PowerToggleStep(st, s);
      && r.powerIsOn == s.powerIsOn && r.isWarming == s.isWarming && r.isCooling == s.isCooling
      && r.powerOnIgnoreFb == s.powerOnIgnoreFb && r.feedback == s.feedback
      && SentOrQueued(st, s, r, GetCommand(st.builder, if s.powerIsOn then "POF" else "PON"))
  {
    SendTextSentOrQueued(st, s, GetCommand(st.builder, if s.powerIsOn then "POF" else "PON"));
  }

  /** SetInput sends or queues IIS with the upper-case name, and that input becomes the current one. */
  lemma SetInputSelects(st: Settings, s: State, input: Inputs.InputType)
    requires CanSend(st, s)
    ensures var r := SetInputStep(st, s, input);
      && r.currentInput == input
      && SentOrQueued(st, s, r, GetCommandWithParameter(st.builder, "IIS", Upper(Inputs.Name(input))))
      && r.powerIsOn == s.powerIsOn && r.isWarming == s.isWarming && r.isCooling == s.isCooling
  {
    var text := GetCommandWithParameter(st.builder, "IIS", Upper(Inputs.Name(input)));
    SendTextSentOrQueued(st, s, text);
    Inputs.ParseName(input);
  }

  /** Timer durations wrap modulo 2^32: a configured 536870912 s gives a 0 ms timer. */
  lemma TimerWraps()
    ensures WarmupTimeMs(536870912) == 0 && CooldownTimeMs(536870912) == 0
    ensures WarmupTimeMs(-1) == 4294966296
  {
  }
}
