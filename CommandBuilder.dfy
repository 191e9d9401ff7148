/**
 * The command-builder interface with its two implementations, as one
 * two-variant value: Serial carries the device id fixed when it is created,
 * Ip carries nothing.
 */
module CommandBuilder {
  import opened Text
  import SerialCommandBuilder
  import IpCommandBuilder

  datatype Builder = Serial(id: string) | Ip

  /** The terminator the receive side splits lines on. */
  function Delimiter(b: Builder): (d: string)
    ensures |d| == 1
    ensures d[0] == SerialCommandBuilder.ETX <==> b.Serial?
    ensures d[0] == '\r' <==> b.Ip?
  {
    match b
    case Serial(_) => SerialCommandBuilder.Delimiter
    case Ip => IpCommandBuilder.Delimiter
  }

  function GetCommandWithParameter(b: Builder, cmd: string, parameter: string): (r: string)
    ensures EndsWith(r, Delimiter(b))
  {
    match b
    case Serial(id) => SerialCommandBuilder.GetCommandWithParameter(id, cmd, parameter)
    case Ip => IpCommandBuilder.GetCommandWithParameter(cmd, parameter)
  }

  function GetCommand(b: Builder, cmd: string): (r: string)
    ensures EndsWith(r, Delimiter(b))
  {
    match b
    case Serial(id) => SerialCommandBuilder.GetCommand(id, cmd)
    case Ip => IpCommandBuilder.GetCommand(cmd)
  }

  /**
   * Whatever the builder, the upper-case command name appears in the framed
   * line, so a case-insensitive search for it in the lowered line succeeds.
   */
  lemma CommandNameInFrame(b: Builder, cmd: string)
    ensures Contains(Lower(GetCommand(b, cmd)), Lower(cmd))
  {
    var r := GetCommand(b, cmd);
    var pre := match b case Serial(id) => [SerialCommandBuilder.STX] + "AD" + id + ";" case Ip => "00";
    var post := Delimiter(b);
    assert r == pre + cmd + post;
    LowerAppend(pre + cmd, post);
    LowerAppend(pre, cmd);
    ContainsInfix(Lower(pre), Lower(cmd), Lower(post));
  }

  /** The same for the parameter form. */
  lemma CommandNameInFrameWithParameter(b: Builder, cmd: string, parameter: string)
    ensures Contains(Lower(GetCommandWithParameter(b, cmd, parameter)), Lower(cmd))
  {
    var pre := match b case Serial(id) => [SerialCommandBuilder.STX] + "AD" + id + ";" case Ip => "00";
    var post := ":" + parameter + Delimiter(b);
    FrameAround(b, cmd, parameter, pre, post);
    LowerAppend(pre + cmd, post);
    LowerAppend(pre, cmd);
    ContainsInfix(Lower(pre), Lower(cmd), Lower(post));
  }

  lemma FrameAround(b: Builder, cmd: string, parameter: string, pre: string, post: string)
    requires pre == match b case Serial(id) => [SerialCommandBuilder.STX] + "AD" + id + ";" case Ip => "00"
    requires post == ":" + parameter + Delimiter(b)
    ensures GetCommandWithParameter(b, cmd, parameter) == pre + cmd + post
  {
    var x := pre + cmd;
    var d := Delimiter(b);
    match b
    case Serial(id) =>
      assert GetCommandWithParameter(b, cmd, parameter) == x + ":" + parameter + d;
      AppendAssoc(x + ":", parameter, d);
      AppendAssoc(x, ":", parameter + d);
      AppendAssoc(":", parameter, d);
    case Ip =>
      assert GetCommandWithParameter(b, cmd, parameter) == x + ":" + parameter + d;
      AppendAssoc(x + ":", parameter, d);
      AppendAssoc(x, ":", parameter + d);
      AppendAssoc(":", parameter, d);
  }
}
