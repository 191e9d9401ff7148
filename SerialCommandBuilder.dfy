/**
 * Framing for the serial (RS-232) link: `AD{id};{cmd}[:{param}]` between the
 * control characters STX (0x02) and ETX (0x03). The device id is the one the
 * builder was created with; the receive side splits lines on ETX.
 */
module SerialCommandBuilder {
  import opened Wrappers
  import opened Text
  import opened Formatting

  const STX: char := 2 as char
  const ETX: char := 3 as char

  /** The line terminator of the serial link. */
  const Delimiter: string := [ETX]

  const CommandWithParameterFormat: string := "AD{0};{1}:{2}"
  const CommandWithoutParameterFormat: string := "AD{0};{1}"

  /** The envelope both commands are first formatted into, `"\x02{0}\x03"`. */
  const Envelope: string := [STX] + "{0}" + [ETX]

  /** Placing a format into the envelope keeps its items for the second pass. */
  lemma EnvelopeFormat(format: string)
    ensures Format(Envelope, [format]) == Some([STX] + format + [ETX])
  {
    var args := [format];
    assert Envelope == [STX] + (Hole(0) + ([ETX] + ""));
    FormatText([ETX], "", args);
    FormatHole(0, [ETX] + "", args);
    FormatText([STX], Hole(0) + ([ETX] + ""), args);
    assert [STX] + (format + ([ETX] + "")) == [STX] + format + [ETX];
  }

  /** The second pass fills in id, command and parameter. */
  lemma FillWithParameter(id: string, cmd: string, parameter: string)
    ensures Format([STX] + CommandWithParameterFormat + [ETX], [id, cmd, parameter])
            == Some([STX] + "AD" + id + ";" + cmd + ":" + parameter + [ETX])
  {
    var args := [id, cmd, parameter];
    var t3 := [ETX] + "";
    var t2 := Hole(2) + t3;
    var t1 := ":" + t2;
    var t0 := Hole(1) + t1;
    var u := ";" + t0;
    var v := Hole(0) + u;
    assert [STX] + CommandWithParameterFormat + [ETX] == ([STX] + "AD") + v;
    FormatText([ETX], "", args);
    FormatHole(2, t3, args);
    FormatText(":", t2, args);
    FormatHole(1, t1, args);
    FormatText(";", t0, args);
    FormatHole(0, u, args);
    FormatText([STX] + "AD", v, args);
    var p := [STX] + "AD";
    var x := [ETX];
    assert x + "" == x;
    var r4 := parameter + x;
    var r3 := ":" + r4;
    var r2 := cmd + r3;
    var r1 := ";" + r2;
    AppendAssoc(p, id, r1);
    AppendAssoc(p + id, ";", r2);
    AppendAssoc(p + id + ";", cmd, r3);
    AppendAssoc(p + id + ";" + cmd, ":", r4);
    AppendAssoc(p + id + ";" + cmd + ":", parameter, x);
  }

  /** The second pass fills in id and command. */
  lemma FillWithoutParameter(id: string, cmd: string)
    ensures Format([STX] + CommandWithoutParameterFormat + [ETX], [id, cmd])
            == Some([STX] + "AD" + id + ";" + cmd + [ETX])
  {
    var args := [id, cmd];
    var t1 := [ETX] + "";
    var t0 := Hole(1) + t1;
    var u := ";" + t0;
    var v := Hole(0) + u;
    assert [STX] + CommandWithoutParameterFormat + [ETX] == ([STX] + "AD") + v;
    FormatText([ETX], "", args);
    FormatHole(1, t1, args);
    FormatText(";", t0, args);
    FormatHole(0, u, args);
    FormatText([STX] + "AD", v, args);
    assert ([STX] + "AD") + (id + (";" + (cmd + ([ETX] + ""))))
        == [STX] + "AD" + id + ";" + cmd + [ETX];
  }

  /** GetCommand(cmd, parameter): the two format passes produce exactly this frame. */
  function GetCommandWithParameter(id: string, cmd: string, parameter: string): (r: string)
    ensures r == [STX] + "AD" + id + ";" + cmd + ":" + parameter + [ETX]
  {
    EnvelopeFormat(CommandWithParameterFormat);
    FillWithParameter(id, cmd, parameter);
    var cmdToSend := Format(Envelope, [CommandWithParameterFormat]).value;
    Format(cmdToSend, [id, cmd, parameter]).value
  }

  /** GetCommand(cmd): the two format passes produce exactly this frame. */
  function GetCommand(id: string, cmd: string): (r: string)
    ensures r == [STX] + "AD" + id + ";" + cmd + [ETX]
  {
    EnvelopeFormat(CommandWithoutParameterFormat);
    FillWithoutParameter(id, cmd);
    var cmdToSend := Format(Envelope, [CommandWithoutParameterFormat]).value;
    Format(cmdToSend, [id, cmd]).value
  }

  /** Every frame starts with STX, ends with the delimiter and has the expected length. */
  lemma FrameShape(id: string, cmd: string, parameter: string)
    ensures var r := GetCommandWithParameter(id, cmd, parameter);
      StartsWith(r, [STX]) && EndsWith(r, Delimiter) && |r| == 6 + |id| + |cmd| + |parameter|
    ensures var r := GetCommand(id, cmd);
      StartsWith(r, [STX]) && EndsWith(r, Delimiter) && |r| == 5 + |id| + |cmd|
  {
  }

  /** Every frame carries the builder's id right after "AD", and the command after the ';'. */
  lemma IdInFrame(id: string, cmd: string, parameter: string)
    ensures var r := GetCommandWithParameter(id, cmd, parameter);
      r[3..3 + |id|] == id && r[3 + |id|] == ';' && r[4 + |id|..4 + |id| + |cmd|] == cmd
    ensures var r := GetCommand(id, cmd);
      r[3..3 + |id|] == id && r[3 + |id|] == ';' && r[4 + |id|..4 + |id| + |cmd|] == cmd
  {
  }

  /** The envelope adds one STX and one ETX to what the body holds. */
  lemma CountInEnvelope(body: string, c: char)
    ensures Count([STX] + body + [ETX], c) == Count(body, c) + (if c == STX then 1 else 0) + (if c == ETX then 1 else 0)
  {
    assert [STX] + body + [ETX] == [STX] + (body + [ETX]);
    CountAppend([STX], body + [ETX], c);
    CountAppend(body, [ETX], c);
  }

  /**
   * When id, command and parameter hold no control characters, STX and ETX
   * each occur exactly once in a frame: the terminator is not duplicated.
   */
  lemma ControlBytesOnce(id: string, cmd: string, parameter: string)
    requires STX !in id && STX !in cmd && STX !in parameter
    requires ETX !in id && ETX !in cmd && ETX !in parameter
    ensures Count(GetCommandWithParameter(id, cmd, parameter), STX) == 1
    ensures Count(GetCommandWithParameter(id, cmd, parameter), ETX) == 1
    ensures Count(GetCommand(id, cmd), STX) == 1
    ensures Count(GetCommand(id, cmd), ETX) == 1
  {
    var body := "AD" + id + ";" + cmd + ":" + parameter;
    var bare := "AD" + id + ";" + cmd;
    assert STX != ETX;
    assert STX !in body && ETX !in body && STX !in bare && ETX !in bare;
    assert GetCommandWithParameter(id, cmd, parameter) == [STX] + body + [ETX];
    assert GetCommand(id, cmd) == [STX] + bare + [ETX];
    CountInEnvelope(body, STX);
    CountInEnvelope(body, ETX);
    CountInEnvelope(bare, STX);
    CountInEnvelope(bare, ETX);
  }
}
