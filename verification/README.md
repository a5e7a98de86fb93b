# ConsoleWriter layout core in Dafny

A model of the pure layout logic of `ConsoleWriter`, a C# helper for console
applications, and proofs about it:

- **Padding and alignment.** Both `WriteColumn` overloads and `WriteHeader`
  split the slack between a value and its width (`maxChar - value.Length`)
  into a left and a right run of spaces, using C#'s truncating `/ 2` and
  `% 2`. Module `CSharpInt` models that truncating halving explicitly.
  `Alignment.Pad` follows the C# statements as written. Its results are
  proved equal to a reference policy (`Alignment.Policy`) that states the
  split on the slack clamped at zero.
- **Rows and header box.** `Columns` builds a row of framed cells
  (`"|" + left + value + right`, then one closing `"|"`) for both the
  one-width array form and the per-key dictionary form. `Header` builds the
  three-line box around a centred value.
- **Menu navigation.** `Menu` models the 1-based selection that Down and Up
  move with wraparound and Enter confirms. The blocking key loop becomes a
  fold over a finite key sequence. `Trace` gives the selection shown at each
  redraw and `Navigate` gives the option returned. `WriteMenu` is the loop
  itself and is proved to produce exactly those frames and that result.

Console effects are not performed. Operations return the lines they would
write (`Terminal.Line`: text plus foreground and background colour). They
take the keys they would read as a sequence. The global settings
`MenuSetting` and `IsTypeWriterMode` are passed as parameters.

Three facts about the code that the proofs settle:

- The code halves the unclamped slack with C#'s truncating operators.
  `Alignment.PadMatchesPolicy` proves this equals the split of the slack
  clamped at zero, negative slack included.
- Left and right alignment write `spaces + spaces + oneSpace` on one side.
  `Alignment.OneSidedSplit` proves that this is exactly the clamped slack.
- The menu code does not reject an empty option list. `Menu.EmptyMenuEscapes`
  shows what it then returns: 0 after Up, 2 after Down.

The default header box uses `║` for its sides.

## Model

| member | source | states |
|---|---|---|
| CSharpInt.Div2 | Alcuino.ConsoleWriter472/ConsoleWriter.cs:119-120 | C# `s / 2` has magnitude `abs(s) / 2` and never has the opposite sign of `s`, i.e. it truncates toward zero |
| CSharpInt.Rem2 | Alcuino.ConsoleWriter472/ConsoleWriter.cs:118 | C# `s % 2` completes `s == 2 * (s / 2) + r` with `r` in -1..1 and signed like `s`, so a negative odd slack gives -1 |
| CSharpInt.Halve | Alcuino.ConsoleWriter472/ConsoleWriter.cs:118-127 | on non-negative slack C# and Euclidean halving agree; on negative slack the half is never positive and the remainder is never 1, so neither loop nor odd space adds anything |
| Text.Spaces | Alcuino.ConsoleWriter472/ConsoleWriter.cs:125-126 | the appending loop yields `max(n, 0)` characters, all spaces |
| Text.Repeat | Alcuino.ConsoleWriter472/ConsoleWriter.cs:305-306 | the border built by appending `border` once per turn of the loop has length `len(border) * max(maxChar, 0)` |
| Text.RepeatAdd | Alcuino.ConsoleWriter472/ConsoleWriter.cs:305-306 | the border built by appending `border` `a + b` times is the `a`-fold border followed by the `b`-fold one |
| Text.RepeatChar | Alcuino.ConsoleWriter472/ConsoleWriter.cs:305-306 | a one-character border repeated gives a run of that character only |
| Alignment.Policy | Alcuino.ConsoleWriter472/ConsoleWriter.cs:132-148 | reference policy on the clamped slack: both pads are spaces, the left pad is the mode's lead and the padded width is `max(maxChar, len(value))` |
| Alignment.Pad | Alcuino.ConsoleWriter472/ConsoleWriter.cs:118-148 | the as-written pads are spaces only; `len(left) + len(value) + len(right) == max(maxChar, len(value))`; Left has an empty left pad, Right an empty right pad, Center a left pad of half the clamped slack |
| Alignment.PadMatchesPolicy | Alcuino.ConsoleWriter472/ConsoleWriter.cs:118-148 | the C# computation on unclamped slack equals the clamped reference policy for every value, width and mode |
| Alignment.CenterSplit | Alcuino.ConsoleWriter472/ConsoleWriter.cs:138-141 | centring gives `slack/2` spaces left and `slack/2 + slack%2` right, so the odd space always goes right and the sides differ by 0 or 1 |
| Alignment.OneSidedSplit | Alcuino.ConsoleWriter472/ConsoleWriter.cs:134-145 | for Left the right pad, for Right the left pad, holds exactly the clamped slack |
| Alignment.OverlongUnpadded | Alcuino.ConsoleWriter472/ConsoleWriter.cs:118-127 | a value at least as wide as `maxChar` gets no padding in any mode, and nothing is cut |
| Alignment.CenterOddExample | Alcuino.ConsoleWriter472/ConsoleWriter.cs:118-141 | "ID" centred in width 5 gets one space before and two after |
| Alignment.CenterEvenExample | Alcuino.ConsoleWriter472/ConsoleWriter.cs:118-141 | "TO" centred in width 12 gets five spaces on each side |
| Alignment.Cell | Alcuino.ConsoleWriter472/ConsoleWriter.cs:150 | a cell is one bar plus `max(maxChar, len(value))` characters, the value sits right after the mode's leading spaces and every other character is a space |
| Columns.WriteColumn | Alcuino.ConsoleWriter472/ConsoleWriter.cs:106-154 | the array writer emits, in the given colours, the cells of the values in order, each padded to the shared width, then one closing bar |
| Columns.WriteColumnWidths | Alcuino.ConsoleWriter472/ConsoleWriter.cs:163-211 | the dictionary writer emits the cells of the keys in enumeration order, each padded to its own width, then one closing bar |
| Columns.OverloadsAgree | Alcuino.ConsoleWriter472/ConsoleWriter.cs:172-207 | a dictionary mapping every value to the same width yields the same cells as the array writer given that width |
| Columns.RowAppend | Alcuino.ConsoleWriter472/ConsoleWriter.cs:116-152 | the row of `a + b` is the cells of `a` followed by the row of `b`: cells appear in input order and the bar comes once, at the end |
| Columns.RowLength | Alcuino.ConsoleWriter472/ConsoleWriter.cs:116-152 | a row's width is the sum over values of `1 + max(maxChar, len(value))`, plus one for the closing bar |
| Columns.EmptyRow | Alcuino.ConsoleWriter472/ConsoleWriter.cs:152 | with no values the row is the closing bar alone |
| Header.BoxGlyphs | Alcuino.ConsoleWriter472/ConsoleWriter.cs:312-323 | the default border `═` gives the corners `╔ ╗ ╚ ╝` and the side `║`; any other border string is used itself as every corner and as the side |
| Header.CornersDistinctIffDefault | Alcuino.ConsoleWriter472/ConsoleWriter.cs:312-323 | the box uses distinct corner glyphs exactly when the border is the default `═` |
| Header.WriteHeader | Alcuino.ConsoleWriter472/ConsoleWriter.cs:288-325 | three lines in the given colours: top and bottom are corners around the border repeated `maxChar` times; the middle is side, centred pads and value, side, its interior exactly `max(maxChar, len(value))` wide and padded like a centred cell |
| Header.CenteredLikeACell | Alcuino.ConsoleWriter472/ConsoleWriter.cs:295-307 | the header's own half, loop and odd-space computation yields exactly the centred padding of a column cell |
| Header.HeaderExample | Alcuino.ConsoleWriter472/ConsoleWriter.cs:295-315 | "X" in the default box of width 5 has the middle line `║  X  ║` |
| Menu.Instructions | Alcuino.ConsoleWriter472/ConsoleWriter.cs:396-400 | an instruction line is written exactly when instructions are enabled: the caller's text, or the default hint when that text is empty |
| Menu.Step | Alcuino.ConsoleWriter472/ConsoleWriter.cs:431-441 | only Enter ends the loop, returning the current option; other keys leave it; from a valid 1-based selection every key keeps it in `[1, n]` |
| Menu.Wraparound | Alcuino.ConsoleWriter472/ConsoleWriter.cs:433-437 | Down at the last option goes to 1 and Up at 1 goes to the last option |
| Menu.DownUpInverse | Alcuino.ConsoleWriter472/ConsoleWriter.cs:433-437 | Down then Up, and Up then Down, restore any valid selection |
| Menu.Navigate | Alcuino.ConsoleWriter472/ConsoleWriter.cs:409-441 | the option returned by folding `Step` over the keys, `None` while the loop is still waiting for Enter; it has no contract of its own, and its properties are `NavigateReturnsShown`, `NavigateInRange` and `OtherKeysIgnored` |
| Menu.Trace | Alcuino.ConsoleWriter472/ConsoleWriter.cs:403-441 | the first redraw shows the start option, and there is at most one redraw per key read plus one |
| Menu.NavigateInRange | Alcuino.ConsoleWriter472/ConsoleWriter.cs:403-437 | starting from a valid selection, every selection redrawn and the one returned lie in `[1, n]` |
| Menu.NavigateReturnsShown | Alcuino.ConsoleWriter472/ConsoleWriter.cs:409-441 | the loop returns an option exactly when an Enter is among the keys; the option returned is the one shown at the last redraw, which precedes the first Enter; without Enter there are `len(keys) + 1` redraws and no result |
| Menu.OtherKeysIgnored | Alcuino.ConsoleWriter472/ConsoleWriter.cs:431-441 | removing every key other than Up, Down and Enter does not change the option returned |
| Menu.DownsAdvance | Alcuino.ConsoleWriter472/ConsoleWriter.cs:433-434 | `k` Downs that do not pass the last option move the selection exactly `k` places |
| Menu.FullCycle | Alcuino.ConsoleWriter472/ConsoleWriter.cs:433-434 | `n` Downs on `n` options come back round to the starting option |
| Menu.NavigateExamples | Alcuino.ConsoleWriter472/ConsoleWriter.cs:403-441 | on three options, Down, Down, Enter returns 3 and Up, Enter returns 3 |
| Menu.EmptyMenuEscapes | Alcuino.ConsoleWriter472/ConsoleWriter.cs:403-437 | with no options the selection leaves the valid range: Up gives 0, Down gives 2 |
| Menu.Prefix | Alcuino.ConsoleWriter472/ConsoleWriter.cs:420-425 | in typewriter mode the prefix is three characters, a check mark first exactly when the line is selected and a space otherwise, then two spaces; outside typewriter mode it is a tab |
| Menu.HighlightExactlyOne | Alcuino.ConsoleWriter472/ConsoleWriter.cs:420-425 | when the highlight colour differs from the normal one, a line of a frame is highlighted if and only if it is the selected one |
| Menu.DefaultHighlight | Alcuino.ConsoleWriter472/ConsoleWriter.cs:420-425 | with the settings the library starts with (lines 454-468), a line of a frame is green exactly when it is the selected one, and white otherwise |
| Menu.Redraw | Alcuino.ConsoleWriter472/ConsoleWriter.cs:413-427 | one line per option, in order, prefix then label; only the selected line in the highlight colour, all on the menu background; no line written animated; the typewriter mode is the same afterwards |
| Menu.ReadOneKey | Alcuino.ConsoleWriter472/ConsoleWriter.cs:429-441 | reading Enter ends the run on the selection just shown; any other key continues the run from the stepped selection |
| Menu.WriteMenu | Alcuino.ConsoleWriter472/ConsoleWriter.cs:392-443 | the loop emits the instruction line once, then one full frame per redraw showing the selections of `Trace`, and returns what `Navigate` returns, with the typewriter mode unchanged |

## Left out

- Console effects are not performed. This covers writing, `Clear`, `SetCursorPosition`, `CursorLeft`/`CursorTop`, `OutputEncoding` and `ResetColor`. Lines are returned with their colours, each redraw is a separate frame, and the cursor anchor is implicit.
- `ReadKey`: the keys are a finite sequence. Every key other than Up, Down and Enter is one `OtherKey`. If the sequence ends before Enter, the model returns `None` where the program would still be waiting.
- The `TypeWrite` family (ConsoleWriter.cs:218-275): random per-character or per-word delays with `Random` and `Thread.Sleep`, and the word split through `Regex.Split`. With a `TypeWriterSpeed` of zero or more they change only the timing, not the text. The model records only whether a menu line is written with animation on (it never is).
- Columns.WriteColumn: always returns the full row. With `IsTypeWriterMode` on and a negative `TypeWriterSpeed`, `rand.Next(ms)` (ConsoleWriter.cs:232, 240) throws before the first character of the first cell is written, so the program writes no cells and throws. The model does not include that speed setting or the exception.
- Columns.WriteColumnWidths: the same exception path (ConsoleWriter.cs:207 via 232, 240) is not modelled, for the same reason.
- `Write`, `WriteLine`, `ReadLine`, `WriteError` and the two short `WriteHeader` overloads: they only delegate.
- The instruction line's colours: it is written in whatever colours are current, so the model keeps only its text.
- The `default:` branches of the alignment switches (ConsoleWriter.cs:146 and 203) are left out. The model's three-constructor datatype cannot reach them. A C# enum is open, so a value such as `(Align)3` does reach them, and the program then writes `|value` with no padding.
- Alignment.Pad: `maxChar - value.Length` is unbounded, not 32-bit. The C# subtraction wraps only when `maxChar` is within `value.Length` of `int.MinValue`, which real column widths do not reach.
- Text lengths count Unicode scalar values. C# `string.Length` counts UTF-16 code units, so the two differ only for characters outside the Basic Multilingual Plane.
- Null arrays, dictionaries, column values and header text are not modelled: the code calls `.Length` on them or enumerates them, so it throws. A null `instructions`, menu label or border does not throw. `string.IsNullOrEmpty` (ConsoleWriter.cs:397) and string concatenation and interpolation (ConsoleWriter.cs:306, 320-322, 420, 425) treat it as the empty string, and the model covers the empty string.
- Columns.WriteColumnWidths: a dictionary is a sequence of (key, width) pairs in enumeration order. Distinct keys are not required, because the row does not depend on them.
- Menu.NavigateInRange: the bounds hold only for a non-empty menu. With no options the program does not fail, and `Menu.EmptyMenuEscapes` shows the out-of-range results it returns.
