/**
 The interactive menu: a 1-based selection that the arrow keys move with
 wraparound and Enter confirms, redrawn in place before every key is read.
 The blocking key loop is modelled as a fold over a finite sequence of keys;
 when the keys run out before Enter the loop is still waiting.
 */
module Menu {
  import opened Terminal

  /** The process-wide menu styling, passed explicitly. */
  datatype MenuSetting = MenuSetting(
    foregroundColor: Color,
    backgroundColor: Color,
    highlightedOptionColor: Color,
    useInstructions: bool)

  /** The settings as the library initialises them: white on black, the selection in green, instructions on. */
  const DefaultMenuSetting := MenuSetting(White, Black, Green, true)

  /** The hint written when instructions are enabled but none are given. */
  const DefaultInstructions: string :=
    "\nUse \U{2B06} and \U{2B07} to navigate and press the Enter/Return key to select"

  /** The instruction line written once before the first redraw, if any. */
  function Instructions(setting: MenuSetting, instructions: string): (hint: Option<string>)
    ensures hint.Some? <==> setting.useInstructions
    ensures hint.Some? ==> hint.value == (if |instructions| == 0 then DefaultInstructions else instructions)
  {
    if !setting.useInstructions then None
    else if |instructions| == 0 then Some(DefaultInstructions)
    else Some(instructions)
  }

  /** What one key does: move the selection, or confirm it. */
  datatype Transition = Move(option: int) | Return(option: int)

  /**
   One key against `numberOfMenus` options: Down moves to the next option and
   from the last back to the first, Up the reverse, Enter returns the current
   option, and every other key leaves it where it is. The selection stays a
   valid 1-based index whenever it starts as one.
   */
  function Step(option: int, numberOfMenus: int, key: Key): (t: Transition)
    ensures t.Return? <==> key == Enter
    ensures key == Enter || key == OtherKey ==> t.option == option
    ensures 1 <= option <= numberOfMenus ==> 1 <= t.option <= numberOfMenus
  {
    match key
    case DownArrow => Move(if option == numberOfMenus then 1 else option + 1)
    case UpArrow => Move(if option == 1 then numberOfMenus else option - 1)
    case Enter => Return(option)
    case OtherKey => Move(option)
  }

  /** Down from the last option reaches the first; Up from the first reaches the last. */
  lemma Wraparound(numberOfMenus: int)
    requires numberOfMenus >= 1
    ensures Step(numberOfMenus, numberOfMenus, DownArrow) == Move(1)
    ensures Step(1, numberOfMenus, UpArrow) == Move(numberOfMenus)
  {
  }

  /** Down then Up, or Up then Down, brings the selection back. */
  lemma DownUpInverse(option: int, numberOfMenus: int)
    requires 1 <= option <= numberOfMenus
    ensures Step(Step(option, numberOfMenus, DownArrow).option, numberOfMenus, UpArrow) == Move(option)
    ensures Step(Step(option, numberOfMenus, UpArrow).option, numberOfMenus, DownArrow) == Move(option)
  {
  }

  /** The selection shown at each redraw, starting from `option`, until Enter or the end of the keys. */
  function Trace(option: int, numberOfMenus: int, keys: seq<Key>): (shown: seq<int>)
    ensures 1 <= |shown| <= |keys| + 1
    ensures shown[0] == option
    decreases |keys|
  {
    if |keys| == 0 then [option]
    else match Step(option, numberOfMenus, keys[0])
      case Return(_) => [option]
      case Move(next) => [option] + Trace(next, numberOfMenus, keys[1..])
  }

  /** The option the menu returns, or `None` when the keys run out before Enter and the menu is still waiting. */
  function Navigate(option: int, numberOfMenus: int, keys: seq<Key>): (chosen: Option<int>)
    decreases |keys|
  {
    if |keys| == 0 then None
    else match Step(option, numberOfMenus, keys[0])
      case Return(o) => Some(o)
      case Move(next) => Navigate(next, numberOfMenus, keys[1..])
  }

  /** Starting from a valid selection, every selection shown and the one returned are valid 1-based indices. */
  lemma {:induction false} NavigateInRange(option: int, numberOfMenus: int, keys: seq<Key>)
    requires 1 <= option <= numberOfMenus
    ensures forall j :: 0 <= j < |Trace(option, numberOfMenus, keys)| ==>
      1 <= Trace(option, numberOfMenus, keys)[j] <= numberOfMenus
    ensures Navigate(option, numberOfMenus, keys).Some? ==>
      1 <= Navigate(option, numberOfMenus, keys).value <= numberOfMenus
    decreases |keys|
  {
    if |keys| > 0 && Step(option, numberOfMenus, keys[0]).Move? {
      NavigateInRange(Step(option, numberOfMenus, keys[0]).option, numberOfMenus, keys[1..]);
    }
  }

  /**
   The menu returns the selection shown at the last redraw, which comes just
   before the first Enter; without an Enter there is one redraw per key read
   plus the one the menu is waiting behind.
   */
  lemma {:induction false} NavigateReturnsShown(option: int, numberOfMenus: int, keys: seq<Key>)
    ensures Enter in keys ==> |Trace(option, numberOfMenus, keys)| <= |keys|
    ensures var t := Trace(option, numberOfMenus, keys);
      Enter in keys ==> Navigate(option, numberOfMenus, keys) == Some(t[|t| - 1])
    ensures var t := Trace(option, numberOfMenus, keys);
      Enter in keys ==> keys[|t| - 1] == Enter && Enter !in keys[..|t| - 1]
    ensures Enter !in keys ==> |Trace(option, numberOfMenus, keys)| == |keys| + 1
    ensures Enter !in keys ==> Navigate(option, numberOfMenus, keys) == None
    decreases |keys|
  {
    if |keys| > 0 && keys[0] != Enter {
      var next := Step(option, numberOfMenus, keys[0]).option;
      NavigateReturnsShown(next, numberOfMenus, keys[1..]);
      assert Enter in keys <==> Enter in keys[1..];
      var t := Trace(next, numberOfMenus, keys[1..]);
      if Enter in keys {
        assert keys[..|t|] == [keys[0]] + keys[1..][..|t| - 1];
      }
    }
  }

  /** The keys the menu reacts to, in order. */
  function Relevant(keys: seq<Key>): (r: seq<Key>)
    ensures OtherKey !in r
    ensures |r| <= |keys|
  {
    if |keys| == 0 then []
    else if keys[0] == OtherKey then Relevant(keys[1..])
    else [keys[0]] + Relevant(keys[1..])
  }

  /** Keys other than the arrows and Enter change nothing: the menu returns what it would without them. */
  lemma {:induction false} OtherKeysIgnored(option: int, numberOfMenus: int, keys: seq<Key>)
    ensures Navigate(option, numberOfMenus, keys) == Navigate(option, numberOfMenus, Relevant(keys))
    decreases |keys|
  {
    if |keys| > 0 {
      var next := Step(option, numberOfMenus, keys[0]).option;
      OtherKeysIgnored(next, numberOfMenus, keys[1..]);
      if keys[0] != OtherKey {
        assert ([keys[0]] + Relevant(keys[1..]))[1..] == Relevant(keys[1..]);
      }
    }
  }

  /** `k` presses of the Down arrow. */
  function Downs(k: nat): seq<Key> {
    seq(k, _ => DownArrow)
  }

  /** `k` presses of Down that do not pass the last option move the selection `k` places on. */
  lemma {:induction false} DownsAdvance(option: int, numberOfMenus: int, k: nat, rest: seq<Key>)
    requires 1 <= option && option + k <= numberOfMenus
    ensures Navigate(option, numberOfMenus, Downs(k) + rest) == Navigate(option + k, numberOfMenus, rest)
    decreases k
  {
    if k > 0 {
      assert (Downs(k) + rest)[1..] == Downs(k - 1) + rest;
      DownsAdvance(option + 1, numberOfMenus, k - 1, rest);
    } else {
      assert Downs(0) + rest == rest;
    }
  }

  /** As many Downs as there are options bring the selection round the cycle to where it started. */
  lemma FullCycle(option: int, numberOfMenus: int)
    requires 1 <= option <= numberOfMenus
    ensures Navigate(option, numberOfMenus, Downs(numberOfMenus) + [Enter]) == Some(option)
  {
    var tail := Downs(option - 1) + [Enter];
    assert Downs(numberOfMenus) + [Enter] == Downs(numberOfMenus - option) + ([DownArrow] + tail);
    DownsAdvance(option, numberOfMenus, numberOfMenus - option, [DownArrow] + tail);
    assert ([DownArrow] + tail)[1..] == tail;
    DownsAdvance(1, numberOfMenus, option - 1, [Enter]);
  }

  /** Three options: Down, Down, Enter returns 3, and Up, Enter wraps round to 3. */
  lemma NavigateExamples()
    ensures Navigate(1, 3, [DownArrow, DownArrow, Enter]) == Some(3)
    ensures Navigate(1, 3, [UpArrow, Enter]) == Some(3)
  {
  }

  /** With no options the selection escapes the valid range: Up from 1 gives 0. */
  lemma EmptyMenuEscapes()
    ensures Navigate(1, 0, [UpArrow, Enter]) == Some(0)
    ensures Navigate(1, 0, [DownArrow, Enter]) == Some(2)
  {
  }

  /** The text before each label: a check mark or three spaces in typewriter mode, a tab otherwise. */
  function Prefix(typeWriterMode: bool, selected: bool): (p: string)
    ensures typeWriterMode ==> |p| == 3 && p[1..] == "  " && (p[0] == '\U{2714}' <==> selected) && (!selected ==> p[0] == ' ')
    ensures !typeWriterMode ==> p == "\t"
  {
    if typeWriterMode then (if selected then "\U{2714}  " else "   ") else "\t"
  }

  /** A redraw with `option` selected: one line per label, in order, only the selected one highlighted. */
  predicate IsFrame(lines: seq<Line>, menus: seq<string>, option: int, typeWriterMode: bool, setting: MenuSetting) {
    && |lines| == |menus|
    && forall i :: 0 <= i < |lines| ==>
      lines[i] == Line(
        Prefix(typeWriterMode, i + 1 == option) + menus[i],
        if i + 1 == option then setting.highlightedOptionColor else setting.foregroundColor,
        setting.backgroundColor)
  }

  /** When the highlight colour differs from the normal one, a frame highlights exactly the selected line. */
  lemma HighlightExactlyOne(lines: seq<Line>, menus: seq<string>, option: int, typeWriterMode: bool, setting: MenuSetting, i: int)
    requires IsFrame(lines, menus, option, typeWriterMode, setting)
    requires setting.highlightedOptionColor != setting.foregroundColor
    requires 0 <= i < |lines|
    ensures lines[i].foreground == setting.highlightedOptionColor <==> i == option - 1
  {
  }

  /** Under the default settings a line of a frame is green exactly when it is the selected one. */
  lemma DefaultHighlight(lines: seq<Line>, menus: seq<string>, option: int, typeWriterMode: bool, i: int)
    requires IsFrame(lines, menus, option, typeWriterMode, DefaultMenuSetting)
    requires 0 <= i < |lines|
    ensures lines[i].foreground == Green <==> i == option - 1
    ensures lines[i].foreground != Green ==> lines[i].foreground == White
  {
    HighlightExactlyOne(lines, menus, option, typeWriterMode, DefaultMenuSetting, i);
  }

  /**
   One redraw of the option list. In typewriter mode the mode is switched off
   around each line, so the lines are written at full speed, and switched back
   on afterwards. `animated` records, per line, whether the mode was on as the
   line was written.
   */
  method Redraw(menus: seq<string>, option: int, typeWriterMode: bool, setting: MenuSetting)
    returns (lines: seq<Line>, animated: seq<bool>, typeWriterAfter: bool)
    ensures IsFrame(lines, menus, option, typeWriterMode, setting)
    ensures |animated| == |menus|
    ensures forall i :: 0 <= i < |menus| ==> !animated[i]
    ensures typeWriterAfter == typeWriterMode
  {
    var mode := typeWriterMode;
    lines, animated := [], [];
    for i := 0 to |menus|
      invariant mode == typeWriterMode
      invariant |lines| == i == |animated|
      invariant forall j :: 0 <= j < i ==> lines[j].text == Prefix(typeWriterMode, j + 1 == option) + menus[j]
      invariant forall j :: 0 <= j < i ==>
        lines[j].foreground == (if j + 1 == option then setting.highlightedOptionColor else setting.foregroundColor)
      invariant forall j :: 0 <= j < i ==> lines[j].background == setting.backgroundColor
      invariant forall j :: 0 <= j < i ==> !animated[j]
    {
      var menu := menus[i];
      var color := if i + 1 == option then setting.highlightedOptionColor else setting.foregroundColor;
      if mode {
        mode := false;
        var text := if i + 1 == option then "\U{2714}  " + menu else "   " + menu;
        lines, animated := lines + [Line(text, color, setting.backgroundColor)], animated + [mode];
        mode := true;
      } else {
        lines, animated := lines + [Line("\t" + menu, color, setting.backgroundColor)], animated + [mode];
      }
    }
    typeWriterAfter := mode;
  }

  /** Frame `j` of `frames` is a redraw with selection `shown[j]`, for every redraw. */
  predicate FramesShow(frames: seq<seq<Line>>, shown: seq<int>, menus: seq<string>, typeWriterMode: bool, setting: MenuSetting) {
    && |frames| == |shown|
    && forall j :: 0 <= j < |frames| ==> IsFrame(frames[j], menus, shown[j], typeWriterMode, setting)
  }

  /** One more redraw extends the frames written so far. */
  lemma AddFrame(frames: seq<seq<Line>>, shown: seq<int>, lines: seq<Line>, option: int,
                 menus: seq<string>, typeWriterMode: bool, setting: MenuSetting)
    requires FramesShow(frames, shown, menus, typeWriterMode, setting)
    requires IsFrame(lines, menus, option, typeWriterMode, setting)
    ensures FramesShow(frames + [lines], shown + [option], menus, typeWriterMode, setting)
  {
  }

  /** Reading one key: Enter ends the run on the selection just shown, any other key continues from the new selection. */
  lemma ReadOneKey(option: int, numberOfMenus: int, keys: seq<Key>)
    requires |keys| > 0
    ensures var t := Step(option, numberOfMenus, keys[0]);
      t.Return? ==> Trace(option, numberOfMenus, keys) == [option] && Navigate(option, numberOfMenus, keys) == Some(option)
    ensures var t := Step(option, numberOfMenus, keys[0]);
      t.Move? ==> && Trace(option, numberOfMenus, keys) == [option] + Trace(t.option, numberOfMenus, keys[1..])
                  && Navigate(option, numberOfMenus, keys) == Navigate(t.option, numberOfMenus, keys[1..])
  {
  }

  /**
   The whole menu run over a finite sequence of keys: the optional instruction
   line, one frame per redraw showing the selections of `Trace`, and the option
   `Navigate` returns. The typewriter mode is as it was.
   */
  method WriteMenu(menus: seq<string>, instructions: string, setting: MenuSetting, typeWriterMode: bool, keys: seq<Key>)
    returns (hint: Option<string>, frames: seq<seq<Line>>, chosen: Option<int>, typeWriterAfter: bool)
    ensures hint == Instructions(setting, instructions)
    ensures FramesShow(frames, Trace(1, |menus|, keys), menus, typeWriterMode, setting)
    ensures chosen == Navigate(1, |menus|, keys)
    ensures typeWriterAfter == typeWriterMode
  {
    hint := Instructions(setting, instructions);
    var option := 1;
    var numberOfMenus := |menus|;
    var k := 0;
    var mode := typeWriterMode;
    ghost var shown: seq<int> := [];
    frames := [];
    while true
      invariant 0 <= k <= |keys|
      invariant mode == typeWriterMode
      invariant Trace(1, numberOfMenus, keys) == shown + Trace(option, numberOfMenus, keys[k..])
      invariant Navigate(1, numberOfMenus, keys) == Navigate(option, numberOfMenus, keys[k..])
      invariant FramesShow(frames, shown, menus, typeWriterMode, setting)
      decreases |keys| - k
    {
      var lines, _, mode' := Redraw(menus, option, mode, setting);
      AddFrame(frames, shown, lines, option, menus, typeWriterMode, setting);
      frames, shown, mode := frames + [lines], shown + [option], mode';
      if k == |keys| {
        chosen, typeWriterAfter := None, mode;
        return;
      }
      var t := Step(option, numberOfMenus, keys[k]);
      ReadOneKey(option, numberOfMenus, keys[k..]);
      assert keys[k..][1..] == keys[k + 1..];
      k := k + 1;
      if t.Return? {
        chosen, typeWriterAfter := Some(t.option), mode;
        return;
      }
      assert shown + Trace(t.option, numberOfMenus, keys[k..])
          == shown[..|shown| - 1] + ([option] + Trace(t.option, numberOfMenus, keys[k..]));
      option := t.option;
    }
  }
}
