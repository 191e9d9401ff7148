/**
 * String.Format for the format items the driver uses: `{n}` with a single
 * digit n is replaced by the n-th argument, `{{` and `}}` stand for a literal
 * brace, and any other brace, or an index past the last argument, makes the
 * call throw a FormatException (None here). Arguments are inserted as they
 * are: the text of an argument is never read as a format.
 */
module Formatting {
  import opened Wrappers

  predicate NoBraces(s: string) {
    '{' !in s && '}' !in s
  }

  predicate IsDigit(c: char) {
    '0' <= c <= '9'
  }

  /** The format item `{k}`. */
  function Hole(k: nat): (h: string)
    requires k < 10
    ensures |h| == 3 && h[0] == '{' && IsDigit(h[1]) && h[2] == '}'
  {
    ['{', ('0' as int + k) as char, '}']
  }

  /** `prefix` in front of a successful result; a failure stays a failure. */
  function Prepend(prefix: string, o: Option<string>): Option<string> {
    match o
    case Some(s) => Some(prefix + s)
    case None => None
  }

  function Format(template: string, args: seq<string>): Option<string>
    decreases |template|
  {
    if template == [] then Some("")
    else if template[0] == '{' then
      if |template| >= 2 && template[1] == '{' then Prepend("{", Format(template[2..], args))
      else if |template| >= 3 && IsDigit(template[1]) && template[2] == '}'
              && (template[1] as int - '0' as int) < |args|
      then Prepend(args[template[1] as int - '0' as int], Format(template[3..], args))
      else None
    else if template[0] == '}' then
      if |template| >= 2 && template[1] == '}' then Prepend("}", Format(template[2..], args))
      else None
    else Prepend(template[..1], Format(template[1..], args))
  }

  /** Text without braces is copied to the output unchanged. */
  lemma {:induction false} FormatText(text: string, rest: string, args: seq<string>)
    requires NoBraces(text)
    ensures Format(text + rest, args) == Prepend(text, Format(rest, args))
    decreases |text|
  {
    if text != [] {
      var t := text + rest;
      assert t[0] == text[0] && t[..1] == text[..1] && t[1..] == text[1..] + rest;
      FormatText(text[1..], rest, args);
      assert text[..1] + text[1..] == text;
      match Format(rest, args)
      case Some(v) => assert text[..1] + (text[1..] + v) == text + v;
      case None =>
    } else {
      assert text + rest == rest;
      match Format(rest, args)
      case Some(v) => assert text + v == v;
      case None =>
    }
  }

  /** The item `{k}` is replaced by the k-th argument. */
  lemma FormatHole(k: nat, rest: string, args: seq<string>)
    requires k < 10 && k < |args|
    ensures Format(Hole(k) + rest, args) == Prepend(args[k], Format(rest, args))
  {
    var t := Hole(k) + rest;
    assert t[0] == '{' && t[1] == Hole(k)[1] && t[2] == '}' && t[3..] == rest;
  }

  /** A template without braces formats to itself, whatever the arguments. */
  lemma PlainTemplate(text: string, args: seq<string>)
    requires NoBraces(text)
    ensures Format(text, args) == Some(text)
  {
    FormatText(text, "", args);
    assert text + "" == text;
  }

  /** A doubled brace is an escaped literal brace. */
  lemma EscapedBraces(args: seq<string>)
    ensures Format("{{}}", args) == Some("{}")
  {
    assert "{{}}"[2..] == "}}";
    assert "}}"[2..] == "";
    assert Format("}}", args) == Prepend("}", Some(""));
    assert Format("{{}}", args) == Prepend("{", Format("}}", args));
    assert "}" + "" == "}" && "{" + "}" == "{}";
  }

  /** An index past the last argument throws. */
  lemma MissingArgument(k: nat, args: seq<string>)
    requires |args| <= k < 10
    ensures Format(Hole(k), args) == None
  {
  }

  /**
   * The composite format "{0}:{1}:{2}" with three arguments, used for the
   * authentication pre-image: the arguments joined by colons.
   */
  lemma ColonTriple(a: string, b: string, c: string)
    ensures Format("{0}:{1}:{2}", [a, b, c]) == Some(a + ":" + b + ":" + c)
  {
    var args := [a, b, c];
    assert "{0}:{1}:{2}" == Hole(0) + (":" + (Hole(1) + (":" + (Hole(2) + ""))));
    FormatHole(2, "", args);
    FormatText(":", Hole(2) + "", args);
    FormatHole(1, ":" + (Hole(2) + ""), args);
    FormatText(":", Hole(1) + (":" + (Hole(2) + "")), args);
    FormatHole(0, ":" + (Hole(1) + (":" + (Hole(2) + ""))), args);
    assert a + (":" + (b + (":" + (c + "")))) == a + ":" + b + ":" + c;
  }
}
