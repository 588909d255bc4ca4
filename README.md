# aFiltor controller, modelled in Dafny

aFiltor is an Arduino sketch that drives a step attenuator and a board of RF
filters. It uses a five-button keypad and a 16x2 character display. This
project models the sketch's controller:

- the two interaction flags (`mAttUnity`, `mAttFocused`) and the longest
  filter name (`mFilterMaxLen`);
- the key switch of `loop()`;
- the three drawing routines `displayAtt`, `displayFilter` and
  `displayUpdate`.

Modules:

- `DecimalFormat`: how `print(n, DEC)` writes a number. It covers the
  decimal digits and both directions of the round trip with their value.
- `LcdGrid`: the display as a cursor plus a history of writes. The
  `Lcd` class has `SetCursor`, `Write`, `Print` and `Clear`. A cell shows
  the last write to it since the last clear, or a blank. The lemmas say
  which cells a print covers and that a clear forgets everything before it.
- `Devices`: the attenuator and the filter bank. The controller relies on
  their contracts: `Inc`/`Dec` clamp to `[0, max]`, and `Next`/`Previous`
  move the selection to a valid filter through the bank's own tables.
- `Display`: what each drawing routine writes, as pure functions
  (`AttOps`, `FilterOps`, `UpdateOps`), and the imperative routines that
  write it through an `Lcd`. This includes the pad loop of `displayFilter`.
  The layout lemmas cover:
  - the value field and its minus sign;
  - where the step marker sits;
  - the fixed-width filter field;
  - the redraw order, which puts the focused region on top.
- `Dispatch`: the key switch as a function on a value `Panel`
  (focus, unity flag, attenuation, filter). It holds:
  - `StepOps`, the writes that one key produces;
  - `Run`, for a sequence of keys;
  - lemmas for each behaviour of the switch;
  - the invariant that tens mode needs at least 10 dB;
  - the result that the partial redraws keep the screen equal to a full
    redraw of the current state.
- `AFiltor`: the `Controller` class, which holds the global state, with:
  - `setup()` (the constructor);
  - one method per case of the switch;
  - `HandleKey` for one pass;
  - `Loop` for a finite stretch of polls.

  Each is proved against `Dispatch.Step`, `Dispatch.StepOps` and `Dispatch.Run`.

## Model

| member | source | states |
|---|---|---|
| DecimalFormat.Decimal | sketch.cpp:90 | the number is printed as a canonical digit string (no leading zero), with exactly as many digits as its size needs |
| DecimalFormat.DecimalRoundTrip | sketch.cpp:90 | reading back the printed digits gives the number |
| DecimalFormat.ValueRoundTrip | sketch.cpp:90 | every canonical digit string is the printout of its value |
| DecimalFormat.TwoDigitShape | sketch.cpp:86-90 | below 100 the number takes 1 cell under 10 and 2 otherwise; the last cell is the units digit and the first is the tens digit |
| LcdGrid.PutsCells | sketch.cpp:90-91 | the i-th character of a print lands i cells right of where the print started, on the same row |
| LcdGrid.PutsAppend | sketch.cpp:83-91 | consecutive writes continue where the cursor stopped: printing s then t writes what printing s + t writes |
| LcdGrid.CellAtPuts | sketch.cpp:82-91 | a print from (start, row) shows its own characters on exactly its own cells and leaves every other cell as it was |
| LcdGrid.CellAtAfterClear | sketch.cpp:137 | after clear() nothing written before it is visible |
| LcdGrid.ClearForgets | sketch.cpp:137 | whatever was on the screen, writes that begin with clear() leave the same cells |
| LcdGrid.Lcd.constructor | sketch.cpp:64 | a fresh display has an empty history and its cursor at (0, 0) |
| LcdGrid.Lcd.SetCursor | sketch.cpp:82 | moves the cursor and writes nothing |
| LcdGrid.Lcd.Write | sketch.cpp:83 | writes one glyph at the cursor, which moves one cell right |
| LcdGrid.Lcd.Print | sketch.cpp:90-91 | writes a string cell by cell from the cursor, which ends after it |
| LcdGrid.Lcd.Clear | sketch.cpp:137 | appends a clear and homes the cursor |
| Devices.IncClamp | sketch.cpp:227 | stepping up takes the whole step exactly when it fits under max, and otherwise stops at max |
| Devices.DecClamp | sketch.cpp:241 | stepping down takes the whole step exactly when it fits above 0, and otherwise stops at 0 |
| Devices.Attenuator.constructor | sketch.cpp:66 | the attenuator starts in range with max in [10, 255] |
| Devices.Attenuator.Inc | sketch.cpp:227 | the value becomes the clamped step up and stays in range |
| Devices.Attenuator.Dec | sketch.cpp:241 | the value becomes the clamped step down and stays in range |
| Devices.FilterBank.constructor | sketch.cpp:68 | the bank starts with consistent tables and a valid selection |
| Devices.FilterBank.FilterName | sketch.cpp:117 | the selected filter's name is no longer than the longest name |
| Devices.FilterBank.Next | sketch.cpp:233 | the selection moves to the successor of the selected filter |
| Devices.FilterBank.Previous | sketch.cpp:250 | the selection moves to the predecessor of the selected filter |
| Display.Spaces | sketch.cpp:123-126 | n pad cells, every one a space |
| Display.AttText | sketch.cpp:80-91 | row 0 for any value: focus glyph, space, the decimal digits right before " dB", the sign cell (minus exactly when above 0) right before the digits, with a pad space in cell 2 below 10 dB, so that below 100 dB the row is 8 cells |
| Display.MarkerText | sketch.cpp:93-109 | two cells that hold the marker exactly when the attenuator is focused: the second cell in unity mode, the first in tens mode, the other cell a space; without focus, two blanks |
| Display.FilterText | sketch.cpp:119-129 | focus cell, space, pad spaces, then the name at the end; maxLen + 2 cells whenever the name fits |
| Display.UpdateOps | sketch.cpp:137-147 | one clear first, then the unfocused region's writes right after it, then the focused region's writes last |
| Display.UpdateOpsOneClear | sketch.cpp:137-147 | the only clear of displayUpdate is its first operation; every later one writes a cell |
| Display.AttTextLayout | sketch.cpp:82-91 | below 100 dB, row 0 is 8 cells: focus glyph, space, sign/pad, tens digit or sign, units digit, " dB" |
| Display.AttFieldReadsBack | sketch.cpp:86-90 | the three-cell value field carries a minus sign exactly when the value is above 0, and its digits read back as the value |
| Display.MarkerUnderStepDigit | sketch.cpp:93-109 | with focus, at every value below 100 dB (0-9 dB in unity mode included), the marker is under the digit that UP/DOWN changes (column 4 in unity mode, column 3 in tens mode), and its neighbour is blank |
| Display.NoMarkerUnfocused | sketch.cpp:95-96 | without focus displayAtt writes two blanks on the marker cells, erasing any old marker, and nothing else on row 1 |
| Display.FilterTextLayout | sketch.cpp:119-129 | the filter field is always maxLen + 2 cells, ends at column cols - 2, starts with the focus cell, and right-aligns the name after spaces |
| Display.CellAtAttOps | sketch.cpp:78-110 | displayAtt changes exactly its own cells (row 0 from column 0 and two cells of row 1 from column 3) |
| Display.CellAtFilterOps | sketch.cpp:115-130 | displayFilter changes exactly its own cells on row 1 |
| Display.RedrawFocusedOnTop | sketch.cpp:135-148 | after displayUpdate, whatever was shown before, the focused region lies over the unfocused one, which lies over a blank screen |
| Display.RedrawFocusGlyph | sketch.cpp:135-148 | for every value, after displayUpdate the focus glyph is at (0, 0) exactly when the attenuator is focused, and at the start of the filter field exactly when the filter is |
| Display.DisplayAtt | sketch.cpp:78-110 | appends exactly the value row and the marker cells |
| Display.PrintAttValue | sketch.cpp:80-91 | the focus glyph, the pad and the sign written one by one, then the digits and " dB", make up the value row |
| Display.PrintStepMarker | sketch.cpp:93-109 | the three branches write the marker cells |
| Display.DisplayFilter | sketch.cpp:115-130 | the focus cell, the space, the pad loop's spaces and the name make up the fixed-width filter field |
| Display.DisplayUpdate | sketch.cpp:135-148 | clears, then draws the unfocused region and then the focused one |
| Dispatch.Initial | sketch.cpp:71-72 | the start state is focused on the attenuator in unity mode, which keeps the tens invariant |
| Dispatch.Step | sketch.cpp:222-293 | one key keeps the attenuation and the filter in range and preserves "tens mode only at 10 dB or more" |
| Dispatch.StepOps | sketch.cpp:222-293 | what a key draws: nothing only when the state is unchanged (NO, WAIT, LEFT on the filter), everything whenever the focus moves (SELECT), otherwise either a full redraw (RIGHT on the filter) or the focused region alone (displayAtt at 229, 246, 263, 276; displayFilter at 234, 251) |
| Dispatch.Run | sketch.cpp:210-297 | any sequence of keys keeps the state in range |
| Dispatch.UpOnAttenuator | sketch.cpp:224-230 | UP on the attenuator adds 10 in tens mode and 1 in unity mode (clamped), changing nothing else |
| Dispatch.DownOnAttenuator | sketch.cpp:238-247 | DOWN subtracts 10 or 1 (clamped) and falls back to unity mode exactly when the value drops below 10 |
| Dispatch.LeftRightOnAttenuator | sketch.cpp:255-277 | from 10 dB LEFT and RIGHT toggle the step size and keep the value; below 10 dB LEFT goes to 0 and RIGHT adds 10; the branch depends on the value before the key |
| Dispatch.KeysOnFilter | sketch.cpp:222-293 | with the filter focused, UP selects the next filter, DOWN the previous one, LEFT, RIGHT, NO and WAIT change nothing, and the attenuator state never changes |
| Dispatch.IdleKeys | sketch.cpp:215-219 | KEY_WAIT and KEY_NO change nothing and draw nothing |
| Dispatch.SelectTwice | sketch.cpp:285-288 | SELECT flips only the focus, so two SELECTs give the state back; each one redraws everything |
| Dispatch.RunKeepsTensInvariant | sketch.cpp:243-244 | tens mode never holds below 10 dB over any sequence of keys |
| Dispatch.RunAppend | sketch.cpp:210-297 | running two stretches of keys one after the other is running them concatenated |
| Dispatch.RunFrom | sketch.cpp:210-297 | running keys from position i is one step, then the rest |
| Dispatch.ScenarioRightRightDown | sketch.cpp:238-283 | from 5 dB in unity mode: RIGHT gives 15 dB, RIGHT again switches to tens mode, DOWN gives 5 dB in unity mode |
| Dispatch.StepKeepsScreen | sketch.cpp:222-293 | if the screen showed the state before a key, it shows the state after it, although only displayAtt or displayFilter redrew, for attenuators below 100 dB |
| Dispatch.ThreeDigitsLeaveStaleCell | sketch.cpp:238-246 | with a 100 dB maximum, DOWN from 100 dB in unity mode leaves the 'B' of "-100 dB" on (8, 0), where the new state's full redraw is blank, so the screen no longer shows the state |
| Dispatch.RedrawCell | sketch.cpp:135-148 | each cell after a full redraw, as a function of the two regions |
| Dispatch.RedrawForgets | sketch.cpp:137 | a full redraw does not depend on what was on the screen |
| Dispatch.AttOnlyRedraw | sketch.cpp:229 | with the attenuator focused and the field width unchanged, displayAtt alone brings the screen up to date |
| Dispatch.FilterOnlyRedraw | sketch.cpp:234 | with the filter focused, displayFilter alone brings the screen up to date for any newly selected filter |
| Dispatch.CellAtScreen | sketch.cpp:222-293 | when the screen showed the old state, each cell after any key matches a full redraw of the new state, for attenuators below 100 dB |
| Dispatch.RunKeepsScreen | sketch.cpp:210-297 | the screen keeps showing the state over any sequence of keys, for attenuators below 100 dB |
| AFiltor.Controller.constructor | sketch.cpp:191-203 | setup records the longest filter name, starts focused on the attenuator in unity mode, and draws exactly a full redraw |
| AFiltor.Controller.Loop | sketch.cpp:208-298 | a stretch of polls reaches Run of the keys and writes what they draw one after the other, keeping the invariant |
| AFiltor.Controller.HandleKey | sketch.cpp:212-296 | one pass reaches Step's state, writes StepOps, keeps the tens invariant, and keeps the screen showing the state |
| AFiltor.Controller.Switch | sketch.cpp:222-293 | the switch reaches Step's state and writes StepOps |
| AFiltor.Controller.OnUp | sketch.cpp:224-236 | KEY_UP as in Step and StepOps |
| AFiltor.Controller.OnDown | sketch.cpp:238-253 | KEY_DOWN as in Step and StepOps |
| AFiltor.Controller.OnLeft | sketch.cpp:255-265 | KEY_LEFT as in Step and StepOps |
| AFiltor.Controller.OnRight | sketch.cpp:267-283 | KEY_RIGHT as in Step and StepOps (the redraw, for the filter focus) |
| AFiltor.Controller.OnSelect | sketch.cpp:285-288 | KEY_SELECT as in Step and StepOps |

## Left out

- displayBanner and displayInfo: these are fixed text screens. With the filter focused, RIGHT shows the info screen and then calls displayUpdate, whose clear hides it; only the redraw is modelled.
- The glyph table and createChar in setup: only the glyph codes 0 (marker) and 1 (focus) are modelled.
- SetUserFilterName and SetUserFilterEnabled in setup: the model takes the filter bank as set up, with its name table and longest name.
- delay() and the never-ending while (true): Loop covers any finite stretch of polls.
- The drivers' internals: the attenuator is modelled by its clamping contract; Next and Previous follow arbitrary in-range successor and predecessor tables; the display driver's command protocol is not modelled.
- Unsigned 8-bit arithmetic: the attenuator's maximum is assumed to be at most 255, so GetValue() never truncates. The filter field is assumed to start on the screen (maxNameLength + 3 <= cols), so the cursor column never wraps.
- Dispatch.StepKeepsScreen: proved only for attenuators whose maximum is below 100 dB. The value field is sized for at most two digits: going from three digits back to two would leave the last cell of " dB" on screen, as Dispatch.ThreeDigitsLeaveStaleCell shows for DOWN from 100 dB.
- AFiltor.Controller.HandleKey: keeps "the screen shows the state" only for a maximum below 100 dB, for the same reason.
- Persistence, long presses and the backlight do not occur in this sketch.
