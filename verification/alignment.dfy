/**
 The padding arithmetic shared by both column writers and the header: how the
 slack between a value and its column width is split into a left and a right
 run of spaces for each alignment mode.
 */
module Alignment {
  import opened Text
  import CSharpInt

  datatype Align = Left | Center | Right

  /** The spaces written before and after a value. */
  datatype Padding = Padding(left: string, right: string)

  /** The spaces a value of `valueLength` characters needs to fill `maxChar` columns; none when it is already wider. */
  function Slack(valueLength: int, maxChar: int): nat {
    if maxChar > valueLength then maxChar - valueLength else 0
  }

  /** How many spaces precede the value: none when left-aligned, all the slack when right-aligned, the smaller half when centred. */
  function Lead(valueLength: int, maxChar: int, align: Align): nat {
    var d := Slack(valueLength, maxChar);
    match align
    case Left => 0
    case Center => d / 2
    case Right => d
  }

  /**
   The padding policy stated on the clamped slack with Euclidean halving: this
   is the reference the as-written computation below is compared with.
   */
  function Policy(valueLength: nat, maxChar: int, align: Align): (p: Padding)
    ensures AllSpaces(p.left) && AllSpaces(p.right)
    ensures |p.left| == Lead(valueLength, maxChar, align)
    ensures |p.left| + valueLength + |p.right| == Max(maxChar, valueLength)
  {
    var d := Slack(valueLength, maxChar);
    match align
    case Left => Padding("", Spaces(d))
    case Center => Padding(Spaces(d / 2), Spaces(d / 2 + d % 2))
    case Right => Padding(Spaces(d), "")
  }

  /**
   The padding as the column and header code computes it: C# halving of
   `maxChar - value.Length`, a loop that appends no space for a non-positive
   half, and one extra space only when the C# remainder is exactly 1.
   */
  function Pad(value: string, maxChar: int, align: Align): (p: Padding)
    ensures AllSpaces(p.left) && AllSpaces(p.right)
    ensures |p.left| == Lead(|value|, maxChar, align)
    ensures |p.left| + |value| + |p.right| == Max(maxChar, |value|)
    ensures align == Left ==> p.left == ""
    ensures align == Right ==> p.right == ""
  {
    var spacesAll := maxChar - |value|;
    var withOneSpace := CSharpInt.Rem2(spacesAll);
    var spaces := Spaces(CSharpInt.Div2(spacesAll));
    var oneSpace := if withOneSpace == 1 then " " else "";
    CSharpInt.Halve(spacesAll);
    match align
    case Left => Padding("", spaces + spaces + oneSpace)
    case Center => Padding(spaces, spaces + oneSpace)
    case Right => Padding(spaces + spaces + oneSpace, "")
  }

  /** The as-written computation agrees with the clamped policy on every input, negative slack included. */
  lemma PadMatchesPolicy(value: string, maxChar: int, align: Align)
    ensures Pad(value, maxChar, align) == Policy(|value|, maxChar, align)
  {
  }

  /**
   Centring puts the smaller half of the slack on the left and the odd space,
   if any, on the right.
   */
  lemma CenterSplit(value: string, maxChar: int)
    ensures |Pad(value, maxChar, Center).left| == Slack(|value|, maxChar) / 2
    ensures |Pad(value, maxChar, Center).right| == Slack(|value|, maxChar) / 2 + Slack(|value|, maxChar) % 2
    ensures 0 <= |Pad(value, maxChar, Center).right| - |Pad(value, maxChar, Center).left| <= 1
  {
  }

  /**
   Left and right alignment put the whole slack on one side: doubling the half
   and adding the odd space loses nothing.
   */
  lemma OneSidedSplit(value: string, maxChar: int)
    ensures |Pad(value, maxChar, Left).right| == Slack(|value|, maxChar)
    ensures |Pad(value, maxChar, Right).left| == Slack(|value|, maxChar)
  {
  }

  /** A value wider than its column is neither padded nor cut. */
  lemma OverlongUnpadded(value: string, maxChar: int, align: Align)
    requires |value| >= maxChar
    ensures Pad(value, maxChar, align) == Padding("", "")
  {
  }

  /** "ID" centred in 5 columns: one space before, two after. */
  lemma CenterOddExample()
    ensures Pad("ID", 5, Center) == Padding(" ", "  ")
  {
  }

  /** "TO" centred in 12 columns: five spaces on each side. */
  lemma CenterEvenExample()
    ensures Pad("TO", 12, Center) == Padding("     ", "     ")
  {
  }

  /**
   One framed cell: a bar, the left padding, the value and the right padding.
   Its width is the column width plus the bar unless the value is wider, the
   value sits right after the leading spaces, and everything else but the bar
   is a space.
   */
  function Cell(value: string, maxChar: int, align: Align): (c: string)
    ensures |c| == 1 + Max(maxChar, |value|)
    ensures c[0] == '|'
    ensures c[1 + Lead(|value|, maxChar, align) .. 1 + Lead(|value|, maxChar, align) + |value|] == value
    ensures forall k :: 1 <= k < |c| && !(1 + Lead(|value|, maxChar, align) <= k < 1 + Lead(|value|, maxChar, align) + |value|) ==> c[k] == ' '
  {
    var p := Pad(value, maxChar, align);
    var c := "|" + p.left + value + p.right;
    assert c[1 + |p.left| .. 1 + |p.left| + |value|] == value;
    assert forall k :: 1 <= k < 1 + |p.left| ==> c[k] == p.left[k - 1];
    assert forall k :: 1 + |p.left| + |value| <= k < |c| ==> c[k] == p.right[k - 1 - |p.left| - |value|];
    c
  }
}
