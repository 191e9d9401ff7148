/**
 * The projector controller as an object whose methods update its fields in
 * place, in the order the driver does. Every method is proved to leave the
 * object in the state the matching step function of ControllerState gives,
 * so every property proved about the step functions (ControllerProperties)
 * holds of the object; the public methods also keep Valid().
 */
module Controller {
  import opened Wrappers
  import opened Text
  import opened CommandBuilder
  import opened ControllerState
  import opened ControllerProperties
  import Inputs

  class Controller {
    /** The configuration, fixed at construction. */
    const settings: Settings
    /** Warm-up and cool-down timer durations in ms. */
    const warmupTime: nat
    const cooldownTime: nat

    var txQueue: seq<string>
    var currentCommand: string
    var hash: string
    var powerIsOn: bool
    var isWarming: bool
    var isCooling: bool
    var powerOnIgnoreFb: bool
    var currentInput: Inputs.InputType
    /** Whether the transport reports itself connected. */
    var connected: bool
    /** Every string handed to the transport, oldest first. */
    var sent: seq<string>
    /** Every FireUpdate, oldest first. */
    var feedback: seq<Feedback>

    /** The fields as one value. */
    function Snapshot(): State
      reads this
    {
      State(txQueue, currentCommand, hash, powerIsOn, isWarming, isCooling, powerOnIgnoreFb,
            currentInput, connected, sent, feedback)
    }

    ghost predicate Valid()
      reads this
    {
      Inv(settings, Snapshot())
    }

    /**
     * A controller for a configuration whose control method has a builder:
     * timer durations from the configured seconds, everything else empty.
     */
    constructor(control: ControlMethod, id: string, warmupSeconds: int, cooldownSeconds: int,
                username: string, password: string, isSocket: bool, md5: string -> string)
      requires GetCommandBuilder(control, id).Some?
      ensures settings == Settings(control, GetCommandBuilder(control, id).value, username, password, isSocket, md5)
      ensures warmupTime == WarmupTimeMs(warmupSeconds) && cooldownTime == CooldownTimeMs(cooldownSeconds)
      ensures Snapshot() == InitialState()
      ensures Valid() && ValidSettings(settings)
    {
      settings := Settings(control, GetCommandBuilder(control, id).value, username, password, isSocket, md5);
      warmupTime := WarmupTimeMs(warmupSeconds);
      cooldownTime := CooldownTimeMs(cooldownSeconds);
      txQueue := [];
      currentCommand := "";
      hash := "";
      powerIsOn := false;
      isWarming := false;
      isCooling := false;
      powerOnIgnoreFb := false;
      currentInput := Inputs.None;
      connected := false;
      sent := [];
      feedback := [];
    }

    /** Construction with any control method: no controller is usable when no builder exists. */
    static method Create(control: ControlMethod, id: string, warmupSeconds: int, cooldownSeconds: int,
                         username: string, password: string, isSocket: bool, md5: string -> string)
      returns (c: Controller?)
      ensures c == null <==> control == Other
      ensures c != null ==> fresh(c) && c.Valid() && c.Snapshot() == InitialState()
      ensures c != null ==> c.settings.builder == if control == Com then Serial(id) else Ip
    {
      if GetCommandBuilder(control, id).None? {
        return null;
      }
      c := new Controller(control, id, warmupSeconds, cooldownSeconds, username, password, isSocket, md5);
    }

    /** The PowerIsOn setter. */
    method SetPowerIsOn(value: bool)
      requires Valid()
      modifies this
      ensures Valid()
      ensures Snapshot() == SetPowerIsOnStep(old(Snapshot()), value)
    {
      if value == powerIsOn {
        return;
      }
      powerIsOn := value;
      feedback := feedback + [PowerIsOnChanged];
    }

    /** The CurrentInput setter; a value no member is named by selects None. */
    method SetCurrentInput(value: string)
      requires Valid()
      modifies this
      ensures Valid()
      ensures Snapshot() == SetCurrentInputStep(old(Snapshot()), value)
    {
      if Inputs.Name(currentInput) == value {
        return;
      }
      ghost var s := Snapshot();
      // Enum.Parse throws on a name that is not a member; the catch selects None.
      currentInput := Inputs.Parse(value).GetOr(Inputs.None);
      feedback := feedback + [InputChanged];
      SetCurrentInputChanges(s, value);
      InvOfSameCore(settings, s, Snapshot());
    }

    method SendText(text: string)
      requires Valid() && CanSend(settings, Snapshot())
      modifies this
      ensures Valid()
      ensures Snapshot() == SendTextStep(settings, old(Snapshot()), text)
    {
      if settings.control == Com {
        currentCommand := text;
        sent := sent + [text];
        return;
      }
      if connected {
        currentCommand := text;
        sent := sent + [WirePayload(hash, text)];
      } else {
        txQueue := txQueue + [text];
      }
    }

    method Poll()
      requires Valid() && CanSend(settings, Snapshot())
      modifies this
      ensures Valid()
      ensures Snapshot() == PollStep(settings, old(Snapshot()))
    {
      SendText(GetCommand(settings.builder, "QPW"));
    }

    /** Takes the oldest queued command, if any, and sends it with the prefix. */
    method DequeueAndSend()
      modifies this
      ensures Snapshot() == DequeueStep(old(Snapshot()))
    {
      if txQueue == [] {
        return;
      }
      var cmdToSend := txQueue[0];
      txQueue := txQueue[1..];
      currentCommand := cmdToSend;
      sent := sent + [WirePayload(hash, cmdToSend)];
    }

    /** Handles one received line. */
    method ParseResponse(response: string)
      requires Valid()
      modifies this
      ensures Valid()
      ensures Snapshot() == ParseStep(settings, old(Snapshot()), response)
    {
      ghost var s0 := Snapshot();
      ParseKeepsInv(settings, s0, response);
      var lower := Lower(response);
      if Contains(lower, "ntcontrol 1") {
        var h := GetHash(settings, response);
        if h.None? {
          return;
        }
        hash := h.value;
        DequeueAndSend();
        return;
      }
      if Contains(lower, "ntcontrol 0") {
        DequeueAndSend();
        return;
      }
      ParseReply(response);
    }

    /** The part of ParseResponse that attributes a reply to the current command. */
    method ParseReply(response: string)
      requires Valid()
      modifies this
      ensures Valid()
      ensures Snapshot() == ReplyStep(old(Snapshot()), response)
    {
      if currentCommand == "" {
        return;
      }
      if Contains(Lower(currentCommand), "qpw") {
        if powerOnIgnoreFb && SaysOn(response) {
          powerOnIgnoreFb := false;
          return;
        }
        if !(powerOnIgnoreFb && SaysOff(response)) {
          SetPowerIsOn(SaysOn(response));
          return;
        }
        SetPowerIsOn(SaysOn(response));
        return;
      }
      if Contains(Lower(currentCommand), "iis") {
        SetCurrentInput(IisValue(response));
      }
    }

    method SetInput(input: Inputs.InputType)
      requires Valid() && CanSend(settings, Snapshot())
      modifies this
      ensures Valid()
      ensures Snapshot() == SetInputStep(settings, old(Snapshot()), input)
    {
      SendText(GetCommandWithParameter(settings.builder, "IIS", Upper(Inputs.Name(input))));
      SetCurrentInput(Inputs.Name(input));
    }

    method PowerOn()
      requires Valid() && (PowerOnSends(Snapshot()) ==> CanSend(settings, Snapshot()))
      modifies this
      ensures Valid()
      ensures Snapshot() == PowerOnStep(settings, old(Snapshot()))
    {
      if powerIsOn || isWarming || isCooling {
        return;
      }
      powerOnIgnoreFb := true;
      SendText(GetCommand(settings.builder, "PON"));
      isWarming := true;
      feedback := feedback + [WarmingChanged];
    }

    /** The warm-up timer's callback; the timer runs exactly while warming. */
    method WarmupExpired()
      requires Valid() && isWarming
      modifies this
      ensures Valid()
      ensures Snapshot() == WarmupExpiredStep(old(Snapshot()))
    {
      isWarming := false;
      feedback := feedback + [WarmingChanged];
      SetPowerIsOn(true);
    }

    method PowerOff()
      requires Valid() && (PowerOffSends(Snapshot()) ==> CanSend(settings, Snapshot()))
      modifies this
      ensures Valid()
      ensures Snapshot() == PowerOffStep(settings, old(Snapshot()))
    {
      if !powerIsOn || isWarming || isCooling {
        return;
      }
      SendText(GetCommand(settings.builder, "POF"));
      isCooling := true;
      feedback := feedback + [CoolingChanged];
    }

    /** The cool-down timer's callback; the timer runs exactly while cooling. */
    method CooldownExpired()
      requires Valid() && isCooling
      modifies this
      ensures Valid()
      ensures Snapshot() == CooldownExpiredStep(old(Snapshot()))
    {
      isCooling := false;
      SetPowerIsOn(false);
      feedback := feedback + [CoolingChanged];
    }

    method PowerToggle()
      requires Valid() && CanSend(settings, Snapshot())
      modifies this
      ensures Valid()
      ensures Snapshot() == PowerToggleStep(settings, old(Snapshot()))
    {
      SendText(GetCommand(settings.builder, if powerIsOn then "POF" else "PON"));
    }

    /** The transport's connection-change event. */
    method ConnectionChange(isConnected: bool)
      requires Valid()
      modifies this
      ensures Valid()
      ensures Snapshot() == ConnectionChangeStep(old(Snapshot()), isConnected)
    {
      feedback := feedback + [ConnectUpdated, StatusUpdated];
      connected := isConnected;
    }
  }
}
