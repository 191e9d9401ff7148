/**
 * Framing for the TCP/IP link: `00{cmd}[:{param}]` followed by a carriage
 * return. The "00" is a fixed protocol prefix; no device id is sent.
 */
module IpCommandBuilder {
  import opened Wrappers
  import opened Text
  import opened Formatting

  /** The line terminator of the IP link. */
  const Delimiter: string := "\r"

  /** Format constants that the two commands never use, though they agree with them. */
  const CommandWithParameterOnly: string := "00{0}:{1}"
  const CommandOnly: string := "00{0}"

  lemma FillWithParameter(cmd: string, parameter: string)
    ensures Format("00{0}:{1}{2}", [cmd, parameter, Delimiter]) == Some("00" + cmd + ":" + parameter + Delimiter)
  {
    var args := [cmd, parameter, Delimiter];
    var t2 := Hole(2) + "";
    var t1 := Hole(1) + t2;
    var u := ":" + t1;
    var v := Hole(0) + u;
    assert "00{0}:{1}{2}" == "00" + v;
    FormatHole(2, "", args);
    FormatHole(1, t2, args);
    FormatText(":", t1, args);
    FormatHole(0, u, args);
    FormatText("00", v, args);
    assert Delimiter + "" == Delimiter;
    AppendAssoc(":", parameter, Delimiter);
    AppendAssoc(cmd, ":" + parameter, Delimiter);
    AppendAssoc(cmd, ":", parameter);
    AppendAssoc("00", cmd + ":" + parameter, Delimiter);
    AppendAssoc("00", cmd, ":");
    AppendAssoc("00" + cmd, ":", parameter);
    AppendAssoc("00", cmd + ":", parameter);
  }

  lemma FillWithoutParameter(cmd: string)
    ensures Format("00{0}{1}", [cmd, Delimiter]) == Some("00" + cmd + Delimiter)
  {
    var args := [cmd, Delimiter];
    var t1 := Hole(1) + "";
    var v := Hole(0) + t1;
    assert "00{0}{1}" == "00" + v;
    FormatHole(1, "", args);
    FormatHole(0, t1, args);
    FormatText("00", v, args);
    assert "00" + (cmd + (Delimiter + "")) == "00" + cmd + Delimiter;
  }

  /** GetCommand(cmd, parameter): the format produces exactly this line. */
  function GetCommandWithParameter(cmd: string, parameter: string): (r: string)
    ensures r == "00" + cmd + ":" + parameter + Delimiter
  {
    FillWithParameter(cmd, parameter);
    Format("00{0}:{1}{2}", [cmd, parameter, Delimiter]).value
  }

  /** GetCommand(cmd): the format produces exactly this line. */
  function GetCommand(cmd: string): (r: string)
    ensures r == "00" + cmd + Delimiter
  {
    FillWithoutParameter(cmd);
    Format("00{0}{1}", [cmd, Delimiter]).value
  }

  /** Each line is the matching unused format constant, filled in, followed by the delimiter. */
  lemma AgreesWithFormatConstants(cmd: string, parameter: string)
    ensures Format(CommandWithParameterOnly, [cmd, parameter]).Some?
    ensures GetCommandWithParameter(cmd, parameter) == Format(CommandWithParameterOnly, [cmd, parameter]).value + Delimiter
    ensures Format(CommandOnly, [cmd]).Some?
    ensures GetCommand(cmd) == Format(CommandOnly, [cmd]).value + Delimiter
  {
    FillParameterOnly(cmd, parameter);
    FillCommandOnly(cmd);
  }

  lemma FillParameterOnly(cmd: string, parameter: string)
    ensures Format(CommandWithParameterOnly, [cmd, parameter]) == Some("00" + cmd + ":" + parameter)
  {
    var args := [cmd, parameter];
    var t1 := Hole(1) + "";
    var u := ":" + t1;
    var v := Hole(0) + u;
    assert CommandWithParameterOnly == "00" + v;
    FormatHole(1, "", args);
    FormatText(":", t1, args);
    FormatHole(0, u, args);
    FormatText("00", v, args);
    assert parameter + "" == parameter;
    AppendAssoc(cmd, ":", parameter);
    AppendAssoc("00", cmd + ":", parameter);
    AppendAssoc("00", cmd, ":");
  }

  lemma FillCommandOnly(cmd: string)
    ensures Format(CommandOnly, [cmd]) == Some("00" + cmd)
  {
    var w := Hole(0) + "";
    assert CommandOnly == "00" + w;
    FormatHole(0, "", [cmd]);
    FormatText("00", w, [cmd]);
    assert cmd + "" == cmd;
  }

  /** Every line starts with "00", ends with the delimiter and has the expected length. */
  lemma LineShape(cmd: string, parameter: string)
    ensures var r := GetCommandWithParameter(cmd, parameter);
      StartsWith(r, "00") && EndsWith(r, Delimiter) && |r| == 4 + |cmd| + |parameter|
    ensures var r := GetCommand(cmd);
      StartsWith(r, "00") && EndsWith(r, Delimiter) && |r| == 3 + |cmd|
  {
  }

  /** When command and parameter hold no colon, the parameter form has exactly one colon, the bare form none. */
  lemma Colons(cmd: string, parameter: string)
    requires ':' !in cmd && ':' !in parameter
    ensures Count(GetCommandWithParameter(cmd, parameter), ':') == 1
    ensures Count(GetCommand(cmd), ':') == 0
  {
    var head := "00" + cmd;
    var tail := parameter + Delimiter;
    assert ':' !in head && ':' !in tail;
    assert GetCommandWithParameter(cmd, parameter) == head + (":" + tail);
    CountAppend(head, ":" + tail, ':');
    CountAppend(":", tail, ':');
    assert ':' !in head + Delimiter;
  }

  /** When command and parameter hold no carriage return, the delimiter is the only one. */
  lemma CarriageReturns(cmd: string, parameter: string)
    requires '\r' !in cmd && '\r' !in parameter
    ensures Count(GetCommandWithParameter(cmd, parameter), '\r') == 1
    ensures Count(GetCommand(cmd), '\r') == 1
  {
    var body := "00" + cmd + ":" + parameter;
    assert '\r' !in body;
    assert GetCommandWithParameter(cmd, parameter) == body + Delimiter;
    CountAppend(body, Delimiter, '\r');
    var head := "00" + cmd;
    assert '\r' !in head;
    CountAppend(head, Delimiter, '\r');
  }
}
