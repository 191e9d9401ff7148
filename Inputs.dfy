/**
 * The projector inputs (the eInputTypes members the driver routes to, plus
 * None), their names as Enum.ToString gives them, and Enum.Parse with
 * ignoreCase set, which trims the value and throws on a name that is not a
 * member.
 */
module Inputs {
  import opened Text
  import Wrappers

  datatype InputType = None | Rg1 | Rg2 | Vid | Svd | Dvi | Hd1 | Hd2 | Sd1 | Dl1

  /** Enum.ToString: the member's name. */
  function Name(i: InputType): string {
    match i
    case None => "None"
    case Rg1 => "Rg1"
    case Rg2 => "Rg2"
    case Vid => "Vid"
    case Svd => "Svd"
    case Dvi => "Dvi"
    case Hd1 => "Hd1"
    case Hd2 => "Hd2"
    case Sd1 => "Sd1"
    case Dl1 => "Dl1"
  }

  /** Every member, in declaration order. */
  const Members: seq<InputType> := [None, Rg1, Rg2, Vid, Svd, Dvi, Hd1, Hd2, Sd1, Dl1]

  /** The first of `members` whose lower-cased name is v. */
  function Find(v: string, members: seq<InputType>): (r: Wrappers.Option<InputType>)
    ensures r.Some? ==> r.value in members && v == Lower(Name(r.value))
    ensures r.None? ==> forall i :: i in members ==> v != Lower(Name(i))
    decreases |members|
  {
    if members == [] then Wrappers.None
    else if v == Lower(Name(members[0])) then Wrappers.Some(members[0])
    else Find(v, members[1..])
  }

  /**
   * Enum.Parse(typeof(eInputTypes), value, true): surrounding white space is
   * trimmed, then the member whose name matches, ignoring case.
   */
  function Parse(value: string): Wrappers.Option<InputType> {
    Find(Lower(Trim(value)), Members)
  }

  /** The names lowered, computed once. */
  lemma LowerName(i: InputType)
    ensures Lower(Name(i)) == match i
      case None => "none" case Rg1 => "rg1" case Rg2 => "rg2" case Vid => "vid" case Svd => "svd"
      case Dvi => "dvi" case Hd1 => "hd1" case Hd2 => "hd2" case Sd1 => "sd1" case Dl1 => "dl1"
  {
  }

  /** A lower-case letter or a digit. */
  predicate IsLowerAlnum(c: char) {
    'a' <= c <= 'z' || '0' <= c <= '9'
  }

  /** Every lowered name has three or four characters, all letters and digits. */
  lemma LowerNameShape(i: InputType)
    ensures 3 <= |Lower(Name(i))| <= 4
    ensures forall k :: 0 <= k < |Lower(Name(i))| ==> IsLowerAlnum(Lower(Name(i))[k])
  {
    LowerName(i);
    match i
    case None =>
    case _ =>
  }

  /**
   * A value that is some member's name up to case is three or four
   * characters long and made of letters and digits only: no white space, no
   * colon.
   */
  lemma NameChars(value: string, i: InputType)
    requires Lower(value) == Lower(Name(i))
    ensures 3 <= |value| <= 4
    ensures forall k :: 0 <= k < |value| ==> !IsWhiteSpace(value[k]) && value[k] != ':'
  {
    LowerNameShape(i);
    var v := Lower(value);
    forall k | 0 <= k < |value|
      ensures !IsWhiteSpace(value[k]) && value[k] != ':'
    {
      assert v[k] == LowerChar(value[k]);
      AlnumChar(value[k]);
    }
  }

  /** A character that lowers to a letter or digit is neither white space nor a colon. */
  lemma AlnumChar(c: char)
    requires IsLowerAlnum(LowerChar(c))
    ensures !IsWhiteSpace(c) && c != ':'
  {
  }

  /** Names are distinct even ignoring case. */
  lemma NamesDistinct(i: InputType, j: InputType)
    requires Lower(Name(i)) == Lower(Name(j))
    ensures i == j
  {
    LowerName(i);
    LowerName(j);
    var a, b := Lower(Name(i)), Lower(Name(j));
    assert a[0] == b[0] && a[|a| - 1] == b[|b| - 1] && |a| == |b|;
    if |a| == 3 {
      assert a[1] == b[1];
    }
  }

  /**
   * Parsing accepts a value exactly when, without its surrounding white
   * space, it is a member's name up to case, and gives that member.
   */
  lemma ParseIff(value: string, i: InputType)
    ensures Parse(value) == Wrappers.Some(i) <==> Lower(Trim(value)) == Lower(Name(i))
  {
    assert i in Members;
    var r := Parse(value);
    if Lower(Trim(value)) == Lower(Name(i)) {
      assert r.Some?;
      NamesDistinct(r.value, i);
    }
  }

  /** A value that, trimmed, is no member's name in any case fails to parse. */
  lemma ParseRejects(value: string)
    requires forall i: InputType :: Lower(Trim(value)) != Lower(Name(i))
    ensures Parse(value) == Wrappers.None
  {
    if Parse(value).Some? {
      ParseIff(value, Parse(value).value);
    }
  }

  /** A member's name, as Enum.ToString gives it, parses back to the member. */
  lemma ParseOwnName(i: InputType)
    ensures Parse(Name(i)) == Wrappers.Some(i)
  {
    NameUntrimmed(Name(i), i);
    ParseIff(Name(i), i);
  }

  /** Every member's name parses back to it, as written, upper-cased or lower-cased. */
  lemma ParseName(i: InputType)
    ensures Parse(Name(i)) == Wrappers.Some(i)
    ensures Parse(Upper(Name(i))) == Wrappers.Some(i)
    ensures Parse(Lower(Name(i))) == Wrappers.Some(i)
  {
    LowerName(i);
    LowerOfUpper(Name(i));
    LowerOfLower(Name(i));
    ParseOwnName(i);
    NameUntrimmed(Upper(Name(i)), i);
    NameUntrimmed(Lower(Name(i)), i);
    ParseIff(Upper(Name(i)), i);
    ParseIff(Lower(Name(i)), i);
  }

  /** A member's name, in any case, with white space around it parses to the member. */
  lemma ParsePadded(pre: string, value: string, post: string, i: InputType)
    requires forall k :: 0 <= k < |pre| ==> IsWhiteSpace(pre[k])
    requires forall k :: 0 <= k < |post| ==> IsWhiteSpace(post[k])
    requires Lower(value) == Lower(Name(i))
    ensures Parse(pre + value + post) == Wrappers.Some(i)
  {
    NameChars(value, i);
    TrimPadded(pre, value, post);
    ParseIff(pre + value + post, i);
  }

  /** Trimming leaves a member's name, in any case, as it is. */
  lemma NameUntrimmed(value: string, i: InputType)
    requires Lower(value) == Lower(Name(i))
    ensures Trim(value) == value
  {
    NameChars(value, i);
  }

  lemma LowerOfUpper(s: string)
    ensures Lower(Upper(s)) == Lower(s)
  {
  }

  lemma LowerOfLower(s: string)
    ensures Lower(Lower(s)) == Lower(s)
  {
  }
}
