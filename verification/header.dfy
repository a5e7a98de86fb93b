/**
 The header writer: a value centred in a three-line box whose top and bottom
 repeat the border string `maxChar` times.
 */
module Header {
  import opened Text
  import opened Terminal
  import opened Alignment
  import CSharpInt

  /** The default border, for which the box uses double-line corner and side glyphs. */
  const DoubleLine: string := "\U{2550}"

  /** The glyphs that frame a header box. */
  datatype Glyphs = Glyphs(topLeft: string, topRight: string, bottomLeft: string, bottomRight: string, side: string)

  /** The box-drawing corners and side for the default border; any other border string frames itself. */
  function BoxGlyphs(border: string): (g: Glyphs)
    ensures border == DoubleLine ==> g == Glyphs("\U{2554}", "\U{2557}", "\U{255A}", "\U{255D}", "\U{2551}")
    ensures border != DoubleLine ==>
      g.topLeft == g.topRight == g.bottomLeft == g.bottomRight == g.side == border
  {
    if border == DoubleLine then
      Glyphs("\U{2554}", "\U{2557}", "\U{255A}", "\U{255D}", "\U{2551}")
    else
      Glyphs(border, border, border, border, border)
  }

  /** The corners differ from one another exactly when the default border is used. */
  lemma CornersDistinctIffDefault(border: string)
    ensures BoxGlyphs(border).topLeft != BoxGlyphs(border).topRight <==> border == DoubleLine
  {
  }

  /** The three lines of a header, as the writer emits them after clearing the screen. */
  method WriteHeader(value: string, foreground: Color, background: Color, maxChar: int, border: string)
    returns (lines: seq<Line>)
    ensures |lines| == 3
    ensures forall i :: 0 <= i < 3 ==> lines[i].foreground == foreground && lines[i].background == background
    ensures var g := BoxGlyphs(border);
      && lines[0].text == g.topLeft + Repeat(border, maxChar) + g.topRight
      && lines[2].text == g.bottomLeft + Repeat(border, maxChar) + g.bottomRight
    ensures var g, p := BoxGlyphs(border), Pad(value, maxChar, Center);
      lines[1].text == g.side + p.left + value + p.right + g.side
    ensures |lines[1].text| == 2 * |BoxGlyphs(border).side| + Max(maxChar, |value|)
  {
    var totalNoOfSpaces := maxChar - |value|;
    var withOneSpace := CSharpInt.Rem2(totalNoOfSpaces);
    var spaceLeftAndRight := CSharpInt.Div2(totalNoOfSpaces);

    var spaces := "";
    var oneSpace := "";
    var headerBorder := "";

    var half := Max(spaceLeftAndRight, 0);
    for i := 0 to half
      invariant spaces == Spaces(i)
    {
      spaces := spaces + " ";
    }
    for i := 0 to Max(maxChar, 0)
      invariant headerBorder == Repeat(border, i)
    {
      headerBorder := headerBorder + border;
    }
    if withOneSpace == 1 {
      oneSpace := " ";
    }

    var g := BoxGlyphs(border);
    var p := Padding(spaces, spaces + oneSpace);
    CenteredLikeACell(value, maxChar, half, p);
    lines := [
      Line(g.topLeft + headerBorder + g.topRight, foreground, background),
      Line(g.side + p.left + value + p.right + g.side, foreground, background),
      Line(g.bottomLeft + headerBorder + g.bottomRight, foreground, background)
    ];
  }

  /** The header's own half-and-odd-space computation is the centred padding of a column cell. */
  lemma CenteredLikeACell(value: string, maxChar: int, half: nat, p: Padding)
    requires half == Max(CSharpInt.Div2(maxChar - |value|), 0)
    requires p == Padding(Spaces(half), Spaces(half) + if CSharpInt.Rem2(maxChar - |value|) == 1 then " " else "")
    ensures Pad(value, maxChar, Center) == p
  {
  }

  /** "X" in the default box of width 5: two spaces either side, between the double-line side glyphs. */
  lemma HeaderExample()
    ensures var g, p := BoxGlyphs(DoubleLine), Pad("X", 5, Center);
      g.side + p.left + "X" + p.right + g.side == "\U{2551}  X  \U{2551}"
  {
  }
}
