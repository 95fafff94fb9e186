# SPSS widget state, modelled in Dafny

SPSS is a small GUI-widget toolkit on top of SFML. This project models the
discrete state behind its widgets, not the drawing:

- the **text entry box** (`TextEntryBox`): content, selection begin/end and
  direction, clamped caret moves, Shift-selection with begin/end swap,
  word skipping, insertion with truncation at `maxChars`, deletion, the
  Return commit and the edge-triggered "input complete" flag;
- **MulticolorText**: the three sparse per-character maps (fill colour,
  outline colour, outline thickness), the range setters whose end index 0
  means "to the end", the dirty flag, the map fill of the geometry rebuild,
  and `findCharacterPos` as a pen replay over abstract font metrics;
- the **message widgets** (both `InfoBoxMessage` revisions), the
  **dialog prompt** and the **text entry prompt**: newline stripping, line
  counting, string assembly, the greedy line wrap, the colour ranges, the
  width choice, the button-stack layout and its alignment flag, and the
  drag clamp;
- the **core state stack** and **State**: push, pop, top, the dispatch order
  over background states, the fixed-timestep catch-up loop and the resize
  clamp to 800×600;
- **Coordinates**, **ResourceManager** and the option list of **Slider**.

Layout: one module per source file or component. `Common` holds `Option`,
`size_t` wrap-around and the string helpers (`Remove`, `Count`,
`InsertAbsent`). `EntryEditing` states the editing engine as functions on an
`EditState` value. `TextEntryBox.TextEntryBox` is a class whose methods
update the fields in place and are proved equal to those functions.
`TextLayout` holds the find/erase loop and the wrap loop that the message
and prompt widgets share. `PromptLayout` holds what the two prompts share.

Modelling choices:

- Keyboard polling (`keyPressed`, `keysPressedTogether`) becomes a `Keys`
  parameter. The clipboard is a parameter when read and a result when written.
- Floats are `real`. Glyph advances, kerning and line spacing are abstract
  functions in a `Font` value. Drawn bounds widths and the font metrics the
  prompts read are parameters.
- A Dafny `nat` models `size_t`, with explicit wrap-around modulo 2^64 where
  the code subtracts (`SizeT`).
- The core's calls into concrete states are recorded in a `calls` sequence,
  so the dispatch order can be stated.

Some behaviours of the code a reader might not expect; the model follows the
code:

- Return does not make the box inactive; it only sets the flag, copies the
  text and clears it (src/SPSS/Graphics/TextEntryBox.cpp:199-207).
- The colour setters do write indices at or past the end of the string
  (src/SPSS/Graphics/MulticolorText.cpp:189-191).
- `getSelection` is `substr(begin, end)`, with `end` used as a count. The
  model keeps that and proves when it equals the selected range.
- Deleting without a selection first does a Shift+Left and then erases one
  character. At caret 0 this erases index 0. Backspace over a selection
  deletes twice.

## Model

| member | source | states |
|---|---|---|
| EntryEditing.Clamp | src/SPSS/Graphics/TextEntryBox.cpp:813-838 | a moved index is clamped into [0, n] and is kept when already inside |
| TextEntryBox.TextEntryBox.MoveSelectionBegin | src/SPSS/Graphics/TextEntryBox.cpp:813-824 | the begin is moved by the offset and clamped to [0, \|content\|]; nothing else changes |
| TextEntryBox.TextEntryBox.MoveSelectionEnd | src/SPSS/Graphics/TextEntryBox.cpp:827-838 | the end is moved by the offset and clamped to [0, \|content\|]; nothing else changes |
| TextEntryBox.TextEntryBox.SwapBeginAndEnd | src/SPSS/Graphics/TextEntryBox.cpp:841-845 | begin and end trade places |
| EntryEditing.SpacesBefore | src/SPSS/Graphics/TextEntryBox.cpp:658-662 | the result lies in [0, p], everything between it and p is a space, and the character before it is not |
| EntryEditing.WordBefore | src/SPSS/Graphics/TextEntryBox.cpp:664-666 | the result lies in [0, p], nothing between it and p is a space, and it is 0 or follows a space |
| EntryEditing.SpacesAfter | src/SPSS/Graphics/TextEntryBox.cpp:680-684 | the result lies in [p, \|s\|], everything from p to it is a space, and it is \|s\| or indexes a non-space |
| EntryEditing.WordAfter | src/SPSS/Graphics/TextEntryBox.cpp:686-688 | the result lies in [p, \|s\|], nothing from p to it is a space, and it is \|s\| or indexes a space |
| EntryEditing.PrevWordStartIsWordStart | src/SPSS/Graphics/TextEntryBox.cpp:650-669 | the previous word start lies in [0, from], is 0 when from is 0, moves back whenever from > 0, and is 0 or follows a space |
| EntryEditing.NextWordEndIsWordEnd | src/SPSS/Graphics/TextEntryBox.cpp:672-691 | the next word end lies in [from, \|s\|], equals from exactly at \|s\|, and is \|s\| or indexes a space after a non-space |
| TextEntryBox.TextEntryBox.PosAtPreviousWord | src/SPSS/Graphics/TextEntryBox.cpp:650-669 | the two while-loops return the previous word start |
| TextEntryBox.TextEntryBox.PosAtNextWord | src/SPSS/Graphics/TextEntryBox.cpp:672-691 | the two while-loops return the next word end |
| EntryEditing.NextWordEndExamples | src/SPSS/Graphics/TextEntryBox.cpp:672-691 | on "foo bar  baz", Ctrl+Right from 0, 4 and 7 stops at 3, 7 and 12 |
| EntryEditing.SelectAll | src/SPSS/Graphics/TextEntryBox.cpp:467-471 | the selection becomes [0, \|content\|] with a neutral direction |
| EntryEditing.UnselectAll | src/SPSS/Graphics/TextEntryBox.cpp:474-477 | the end collapses onto the begin, which is kept, and the direction becomes neutral |
| TextEntryBox.TextEntryBox.SelectAll | src/SPSS/Graphics/TextEntryBox.cpp:467-471 | the in-place update equals the SelectAll function: everything selected, direction neutral |
| TextEntryBox.TextEntryBox.UnselectAll | src/SPSS/Graphics/TextEntryBox.cpp:474-477 | the in-place update equals the UnselectAll function: the end collapses onto the kept begin, direction neutral |
| EntryEditing.SelectLeft | src/SPSS/Graphics/TextEntryBox.cpp:480-506 | begin ≤ end ≤ \|content\| is preserved; a neutral or leftward selection moves its begin to the previous word start with Ctrl, else one step left clamped at 0, and the direction becomes left; a rightward one moves its end the same way, and once the end crosses the begin the two are swapped and the direction becomes left |
| EntryEditing.SelectRight | src/SPSS/Graphics/TextEntryBox.cpp:509-534 | the mirror image of SelectLeft: the ordering is preserved; the moving edge goes to the next word end with Ctrl, else one step right clamped at \|content\|; the edges swap on crossing with the direction set to right |
| EntryEditing.SelectRightTimes | src/SPSS/Graphics/TextEntryBox.cpp:509-534 | any number of Shift+Right presses keeps the selection within the content |
| EntryEditing.SelectRightReachesEnd | src/SPSS/Graphics/TextEntryBox.cpp:509-534 | growing rightwards, enough presses bring the end exactly to \|content\| and keep the begin |
| TextEntryBox.TextEntryBox.SelectLeft | src/SPSS/Graphics/TextEntryBox.cpp:480-506 | the in-place method equals the SelectLeft function on the editing state, so the moved edge lands one clamped step left or at the previous word start |
| TextEntryBox.TextEntryBox.SelectRight | src/SPSS/Graphics/TextEntryBox.cpp:509-534 | the in-place method equals the SelectRight function on the editing state, so the moved edge lands one clamped step right or at the next word end |
| EntryEditing.MoveLeft | src/SPSS/Graphics/TextEntryBox.cpp:610-623 | without Ctrl: a selection collapses to its begin, otherwise the caret steps back one unless at 0; with Ctrl: the caret goes to the previous word start; the selection ends empty and neutral |
| EntryEditing.MoveRight | src/SPSS/Graphics/TextEntryBox.cpp:626-647 | without the word jump: a selection collapses to its end, otherwise the caret steps forward one unless at \|content\|; with it: the caret goes to the next word end; the selection ends empty and neutral |
| TextEntryBox.TextEntryBox.MoveLeft | src/SPSS/Graphics/TextEntryBox.cpp:610-623 | the in-place method equals the MoveLeft function |
| TextEntryBox.TextEntryBox.MoveRight | src/SPSS/Graphics/TextEntryBox.cpp:626-647 | the in-place method equals the MoveRight function |
| EntryEditing.DeleteSelection | src/SPSS/Graphics/TextEntryBox.cpp:699-722 | no-op on an empty string; a range [begin, end) is erased with the caret left at begin; without a range the character at the clamped index begin−1 (index 0 at caret 0) is erased |
| TextEntryBox.TextEntryBox.DeleteSelection | src/SPSS/Graphics/TextEntryBox.cpp:699-722 | the in-place method equals the DeleteSelection function |
| TextEntryBox.TextEntryBox.SequenceSelected | src/SPSS/Graphics/TextEntryBox.cpp:694-696 | true exactly when begin ≠ end |
| TextEntryBox.TextEntryBox.ValidInsertion | src/SPSS/Graphics/TextEntryBox.cpp:731-738 | codes 32 to 255 are accepted while the content is shorter than maxChars |
| EntryEditing.ValidInsertion | src/SPSS/Graphics/TextEntryBox.cpp:731-738 | an accepted code is neither Backspace nor a line break, tab or carriage return, and one more character fits under maxChars |
| EntryEditing.InsertChar | src/SPSS/Graphics/TextEntryBox.cpp:779-801 | a character is spliced in at begin when one more fits, nothing is left selected and the direction is neutral; without the word jump the caret lands right after it; when it does not fit nothing changes |
| TextEntryBox.TextEntryBox.InsertChar | src/SPSS/Graphics/TextEntryBox.cpp:779-801 | the in-place method equals the InsertChar function |
| EntryEditing.Admitted | src/SPSS/Graphics/TextEntryBox.cpp:742-757 | the pasted text loses '\n', '\t' and '\r' and is cut to maxChars − \|content\| characters, a size_t difference |
| EntryEditing.InsertText | src/SPSS/Graphics/TextEntryBox.cpp:741-776 | nothing happens when the filtered text is empty; otherwise the admitted text is spliced at begin and the caret is put after it |
| EntryEditing.InsertTextRespectsLimit | src/SPSS/Graphics/TextEntryBox.cpp:751-757 | a paste never takes a box within its limit past maxChars |
| EntryEditing.InsertionCapExample | src/SPSS/Graphics/TextEntryBox.cpp:741-776 | pasting "xyz" into "abcd" with limit 5 gives "abcdx" with the caret at 5 |
| TextEntryBox.TextEntryBox.InsertText | src/SPSS/Graphics/TextEntryBox.cpp:741-776 | the in-place paste equals the InsertText function |
| EntryEditing.AsWrittenInsertCaret | src/SPSS/Graphics/TextEntryBox.cpp:769-773 | the caret the paste code computes: size_t begin+length−1, then one step right if still inside |
| EntryEditing.AsWrittenInsertCaretAgrees | src/SPSS/Graphics/TextEntryBox.cpp:769-773 | when something is inserted or the caret is past 0, the code's caret is begin+length |
| EntryEditing.AsWrittenInsertCaretUnderflows | src/SPSS/Graphics/TextEntryBox.cpp:755-773 | in a full box with the caret at 0, nothing is admitted and the code's caret becomes SIZE_MAX |
| EntryEditing.TypedCharacterReplacesSelection | src/SPSS/Graphics/TextEntryBox.cpp:320-342 | a code in 32..255 typed without Ctrl deletes the selection and then, if the box has room, is spliced in at begin with the caret at begin+1 |
| EntryEditing.OtherCodeOnlyDeletesSelection | src/SPSS/Graphics/TextEntryBox.cpp:320-342 | any other code except 8 changes nothing unless a selection exists and Ctrl is not held |
| EntryEditing.BackspaceOverSelectionErasesOneMore | src/SPSS/Graphics/TextEntryBox.cpp:324-333 | Backspace over a selection without Ctrl deletes it and then one more character to its left |
| EntryEditing.BackspaceAtStartErasesFirst | src/SPSS/Graphics/TextEntryBox.cpp:330-333 | Backspace at caret 0 with no selection erases index 0 |
| EntryEditing.BackspaceExample | src/SPSS/Graphics/TextEntryBox.cpp:320-342 | Backspace at the end of "test" gives "tes" with the caret at 3 |
| EntryEditing.SelectAllThenTypeExample | src/SPSS/Graphics/TextEntryBox.cpp:320-342 | typing 'x' over all of "hello" gives "x" with the caret at 1 |
| TextEntryBox.TextEntryBox.HandleInput | src/SPSS/Graphics/TextEntryBox.cpp:320-342 | the in-place method equals the HandleInput function with Ctrl passed in |
| EntryEditing.HandleInput | src/SPSS/Graphics/TextEntryBox.cpp:320-342 | the state stays valid; the content grows by at most one character, only for an accepted code and never past maxChars; Backspace always shortens a non-empty content |
| EntryEditing.GetSelection | src/SPSS/Graphics/TextEntryBox.cpp:725-728 | the copy text is substr(begin, end) with end as a count, at most \|content\| − begin long |
| EntryEditing.GetSelectionIsRangeIff | src/SPSS/Graphics/TextEntryBox.cpp:725-728 | the copy text is the selected range if and only if begin is 0 or end is \|content\| |
| TextEntryBox.TextEntryBox.GetSelection | src/SPSS/Graphics/TextEntryBox.cpp:725-728 | the method returns the GetSelection function of the state |
| TextEntryBox.KeyPress | src/SPSS/Graphics/TextEntryBox.cpp:209-255 | a key press other than Return keeps the state valid; the clipboard is written exactly when Ctrl with C or X is held and neither Shift+arrow nor Ctrl+A comes first in the code's order, and it receives the copy text |
| TextEntryBox.CutRemovesSelection | src/SPSS/Graphics/TextEntryBox.cpp:225-230 | Ctrl+X removes exactly [begin, end) and writes the copy text to the clipboard |
| TextEntryBox.TextEntryBox.GetInput | src/SPSS/Graphics/TextEntryBox.cpp:196-262 | Return in an active, non-empty box raises the complete flag, copies the content to the last string and, unless always active, clears it; other keys follow KeyPress; text reaches only an active box |
| TextEntryBox.TextEntryBox.InputComplete | src/SPSS/Graphics/TextEntryBox.cpp:296-302 | returns the flag and lowers it, so each commit is reported once |
| TextEntryBox.TextEntryBox.Update | src/SPSS/Graphics/TextEntryBox.cpp:265-273 | an always-active box becomes active |
| TextEntryBox.TextEntryBox.SetActive | src/SPSS/Graphics/TextEntryBox.cpp:315-317 | setActive(b) sets whether the box accepts input |
| TextEntryBox.TextEntryBox.SetMaxChars | src/SPSS/Graphics/TextEntryBox.cpp:148-150 | the limit is stored as given; the editing state is untouched and stays valid |
| TextEntryBox.TextEntryBox.SetAlwaysVisible | src/SPSS/Graphics/TextEntryBox.cpp:153-155 | the flag is stored; nothing else changes |
| TextEntryBox.TextEntryBox.SetAlwaysActive | src/SPSS/Graphics/TextEntryBox.cpp:158-160 | the flag is stored; nothing else changes |
| TextEntryBox.TextEntryBox.ClearText | src/SPSS/Graphics/TextEntryBox.cpp:804-810 | the content becomes empty with begin = end = 0 |
| TextEntryBox.TextEntryBox.constructor | src/SPSS/Graphics/TextEntryBox.cpp:35-72 | a new box holds the string with select-all followed by one Right arrow, is inactive, and has maxChars 255 |
| EntryEditing.Initial | src/SPSS/Graphics/TextEntryBox.cpp:69-70 | without the word jump, the caret of a new box is at the end of its content with nothing selected |
| MulticolorText.MulticolorText.constructor | src/SPSS/Graphics/MulticolorText.cpp:76-94 | an empty text has no font, empty maps, a clean flag and the untouched (identity) transform |
| MulticolorText.MulticolorText.WithString | src/SPSS/Graphics/MulticolorText.cpp:97-117 | a text with a string and a font has empty maps, needs a rebuild and has the identity transform |
| MulticolorText.MulticolorText.SetString | src/SPSS/Graphics/MulticolorText.cpp:124-132 | a different string clears all three maps and raises the flag; the same string changes nothing |
| MulticolorText.MulticolorText.SetFont | src/SPSS/Graphics/MulticolorText.cpp:135-140 | a different font is stored and raises the flag; the maps are untouched |
| MulticolorText.MulticolorText.SetCharacterSize | src/SPSS/Graphics/MulticolorText.cpp:143-148 | a different size is stored and raises the flag; an equal one changes nothing |
| MulticolorText.MulticolorText.SetLetterSpacing | src/SPSS/Graphics/MulticolorText.cpp:151-158 | a different factor is stored and raises the flag |
| MulticolorText.MulticolorText.SetLineSpacing | src/SPSS/Graphics/MulticolorText.cpp:162-169 | a different factor is stored and raises the flag |
| MulticolorText.MulticolorText.SetStyle | src/SPSS/Graphics/MulticolorText.cpp:172-177 | a different style is stored and raises the flag |
| MulticolorText.RangeEnd | src/SPSS/Graphics/MulticolorText.cpp:184-187 | an end index of 0 stands for size−1 in size_t, any other end for itself |
| MulticolorText.Paint | src/SPSS/Graphics/MulticolorText.cpp:189-191 | every index of [lo, hi] inclusive holds the value, indices past the string included; other keys keep theirs |
| MulticolorText.PaintRange | src/SPSS/Graphics/MulticolorText.cpp:189-191 | the for-loop over [lo, hi] gives the Paint map |
| MulticolorText.PaintTwice | src/SPSS/Graphics/MulticolorText.cpp:189-191 | painting a range twice with one value is painting it once |
| MulticolorText.MulticolorText.SetFillColor | src/SPSS/Graphics/MulticolorText.cpp:180-197 | the fill map is painted over [start, end], with end 0 meaning the last index, and the flag is raised |
| MulticolorText.MulticolorText.SetOutlineColor | src/SPSS/Graphics/MulticolorText.cpp:217-236 | the outline-colour map is painted by the same range rule and the flag is raised |
| MulticolorText.MulticolorText.SetOutlineThickness | src/SPSS/Graphics/MulticolorText.cpp:239-260 | no-op on an empty string; otherwise the thickness map is painted by the same rule and the flag is raised |
| MulticolorText.MulticolorText.GetFillColor | src/SPSS/Graphics/MulticolorText.cpp:296-302 | the stored colour, or white when the index has none |
| MulticolorText.MulticolorText.GetOutlineColor | src/SPSS/Graphics/MulticolorText.cpp:305-311 | the stored colour, or black when the index has none |
| MulticolorText.MulticolorText.GetOutlineThickness | src/SPSS/Graphics/MulticolorText.cpp:314-321 | the stored thickness, or 0 when the index has none |
| MulticolorText.DensifyCovers | src/SPSS/Graphics/MulticolorText.cpp:461-484 | after the fill every drawn character below \|s\| has an entry, old entries are kept and new ones hold the default |
| MulticolorText.DensifyKeepsLookups | src/SPSS/Graphics/MulticolorText.cpp:461-484 | the fill changes no lookup, and a second fill changes nothing |
| MulticolorText.DensifyFull | src/SPSS/Graphics/MulticolorText.cpp:461-484 | a map that already has an entry for every character is left as it is by the fill |
| MulticolorText.MulticolorText.EnsureGeometryUpdate | src/SPSS/Graphics/MulticolorText.cpp:412-431 | without a font or a pending update nothing changes; otherwise the flag is lowered and all three maps are filled with their defaults |
| MulticolorText.FillDefault | src/SPSS/Graphics/MulticolorText.cpp:461-484 | one iteration of the fill loop extends the filled prefix by one character, skipping '\r' |
| MulticolorText.MakeLayout | src/SPSS/Graphics/MulticolorText.cpp:350-357 | the whitespace width is the space advance plus the letter spacing, which is a third of the space advance times (factor − 1) |
| MulticolorText.MulticolorText.FindCharacterPos | src/SPSS/Graphics/MulticolorText.cpp:329-379 | the origin without a font; otherwise the pen after replaying the characters before the index clamped to \|s\| (kerning first; space, tab ×4, newline to x 0 and one line down, others advance plus spacing), mapped through the text's transform, so with the identity transform it is that pen itself |
| MulticolorText.IdentityKeepsPoints | src/SPSS/Graphics/MulticolorText.cpp:376 | the untouched transform leaves a character position where it is |
| MulticolorText.ReplayHeight | src/SPSS/Graphics/MulticolorText.cpp:367-370 | the pen's y is one line spacing stacked per '\n' replayed |
| MulticolorText.LinesIsProduct | src/SPSS/Graphics/MulticolorText.cpp:367-370 | n line spacings stacked up are n times the line spacing |
| MulticolorText.ReplayAfterNewline | src/SPSS/Graphics/MulticolorText.cpp:367-370 | right after a '\n' the pen's x is 0 |
| MulticolorText.UnitOutline | src/SPSS/Graphics/InfoBoxMessage.cpp:198 | outline thickness 1 on a text of n characters covers exactly indices 0..n−1 |
| MulticolorText.ResetText | src/SPSS/Graphics/InfoBoxMessage.cpp:197-198 | storing a string and then setOutlineThickness(1) leaves outline 1 on exactly its characters and clears the colour maps when the string changed |
| Common.Remove | src/SPSS/Graphics/InfoBoxMessage.cpp:5-12 | the result holds none of the dropped characters and is the input when it had none |
| Common.RemoveAppend | src/SPSS/Graphics/InfoBoxMessage.cpp:5-12 | removing characters distributes over concatenation, so the others keep their order |
| Common.RemoveCount | src/SPSS/Graphics/InfoBoxMessage.cpp:5-12 | removing '\n' shortens the text by exactly its number of '\n' |
| TextLayout.Find | src/SPSS/Graphics/InfoBoxMessage.cpp:7-10 | find returns the first occurrence at or after `from`, or npos when there is none |
| TextLayout.RemoveNewlines | src/SPSS/Graphics/InfoBoxMessage.cpp:5-12 | the find/erase loop deletes every '\n' and keeps the other characters in order |
| TextLayout.Wrap | src/SPSS/Graphics/InfoBoxMessage.cpp:50-66 | the wrapped text is at least as long as the input and at most twice as long, so at most one '\n' is added per character |
| TextLayout.WrapKeepsCharacters | src/SPSS/Graphics/InfoBoxMessage.cpp:50-66 | taking the '\n' out of the wrapped text gives the input without its '\n' |
| TextLayout.WrapOfFlatText | src/SPSS/Graphics/InfoBoxMessage.cpp:45-68 | a text with no '\n' comes back from the wrap once the breaks are removed |
| TextLayout.WrapStepBreaks | src/SPSS/Graphics/InfoBoxMessage.cpp:61-65 | when the line width plus the advance reaches the width, a '\n' goes before the character and the line restarts at its advance |
| TextLayout.WrapStepFits | src/SPSS/Graphics/InfoBoxMessage.cpp:61-67 | otherwise the character is kept on the line and its advance is added |
| TextLayout.WrapText | src/SPSS/Graphics/InfoBoxMessage.cpp:50-66 | the insert loop computes the greedy wrap |
| GraphicsInfoBoxMessage.RawStringLayout | src/SPSS/Graphics/InfoBoxMessage.cpp:188-193 | the raw string is prefix, title, suffix, one space and content, back to back |
| GraphicsInfoBoxMessage.BreaksScanned | src/SPSS/Graphics/InfoBoxMessage.cpp:153-185 | the scan meets at most as many '\n' as characters remain, and none past the end |
| GraphicsInfoBoxMessage.BreaksScannedWhole | src/SPSS/Graphics/InfoBoxMessage.cpp:153-185 | a window reaching the end of the text counts every '\n' after the start |
| GraphicsInfoBoxMessage.InfoBoxMessage.GetNumberOfLines | src/SPSS/Graphics/InfoBoxMessage.cpp:153-185 | 1 plus the '\n' met while walking from start over end−start+1 other characters or to the end of the text |
| GraphicsInfoBoxMessage.InfoBoxMessage.LineCount | src/SPSS/Graphics/InfoBoxMessage.cpp:147-150 | 1 plus every '\n' of the text; 1 for an empty text |
| GraphicsInfoBoxMessage.FlatSegments | src/SPSS/Graphics/InfoBoxMessage.cpp:196-275 | on a text without '\n' the four ranges lie back to back and the content starts after the suffix and the space |
| GraphicsInfoBoxMessage.FlatMessageColours | src/SPSS/Graphics/InfoBoxMessage.cpp:196-275 | on such a text each part's characters end up in that part's colour, later ranges winning |
| GraphicsInfoBoxMessage.SegmentsBounded | src/SPSS/Graphics/InfoBoxMessage.cpp:196-275 | the range ends never come near SIZE_MAX for texts of bounded length |
| GraphicsInfoBoxMessage.UnwrappedMessageColours | src/SPSS/Graphics/InfoBoxMessage.cpp:73-82 | setMessage without wrapping colours every character of prefix, title, suffix and content in its part's colour |
| GraphicsInfoBoxMessage.InfoBoxMessage.ComputeSegments | src/SPSS/Graphics/InfoBoxMessage.cpp:196-265 | the index arithmetic of setTextString gives the ranges of SegmentsOf |
| GraphicsInfoBoxMessage.InfoBoxMessage.SegmentEndAt | src/SPSS/Graphics/InfoBoxMessage.cpp:208-216 | a part's end is its last index moved past the '\n' inside it |
| GraphicsInfoBoxMessage.InfoBoxMessage.PaintSegments | src/SPSS/Graphics/InfoBoxMessage.cpp:268-275 | the prefix, title, suffix and content colours are applied in that order |
| GraphicsInfoBoxMessage.InfoBoxMessage.SetTextString | src/SPSS/Graphics/InfoBoxMessage.cpp:196-276 | the text is stored with outline 1 and recoloured part by part |
| GraphicsInfoBoxMessage.InfoBoxMessage.FitWidth | src/SPSS/Graphics/InfoBoxMessage.cpp:36-70 | measuring the bounds first runs a pending geometry rebuild; unless the text is too wide or on several lines it then stays, with the flag lowered and the colour maps filled densely if a rebuild was pending; otherwise it becomes the greedy wrap of the raw string, recoloured on top of those settled colours |
| GraphicsInfoBoxMessage.InfoBoxMessage.Refit | src/SPSS/Graphics/InfoBoxMessage.cpp:44-69 | the text becomes the greedy wrap of the raw string, coloured part by part on top of the fill kept only while the string was unchanged |
| GraphicsInfoBoxMessage.InfoBoxMessage.SetMessage | src/SPSS/Graphics/InfoBoxMessage.cpp:36-82 | title and content are stored without '\n'; without a width the text is the raw string, recoloured; with a width fitWidth measures the text shown before the call, so it becomes the wrapped raw string when that old text needs a refit and otherwise the old text stays, its colours filled densely when a geometry rebuild was pending |
| GraphicsInfoBoxMessage.AsWrittenShowsStaleMessage | src/SPSS/Graphics/InfoBoxMessage.cpp:36-44 | an old one-line text narrower than the width stays on screen, so the new message is never shown |
| GraphicsInfoBoxMessage.IntendedShowsMessage | src/SPSS/Graphics/InfoBoxMessage.cpp:73-82 | measured on the new raw string, the text shown is that string up to line breaks |
| GraphicsInfoBoxMessage.InfoBoxMessage.SetMessageRefreshed | src/SPSS/Graphics/InfoBoxMessage.cpp:36-82 | with the raw string stored before fitting, the text is the raw string, wrapped when it needs a refit, and always shows the new message |
| GraphicsInfoBoxMessage.InfoBoxMessage.SetTitle | src/SPSS/Graphics/InfoBoxMessage.cpp:85-88 | the title is replaced (without '\n'), the content kept, and the text and colours are what setMessage leaves |
| GraphicsInfoBoxMessage.InfoBoxMessage.SetContent | src/SPSS/Graphics/InfoBoxMessage.cpp:91-94 | the content is replaced (without '\n'), the title kept, and the text and colours are what setMessage leaves |
| GraphicsInfoBoxMessage.InfoBoxMessage.SetTitleColor | src/SPSS/Graphics/InfoBoxMessage.cpp:97-105 | the colour is stored and the current text is recoloured |
| GraphicsInfoBoxMessage.InfoBoxMessage.SetContentColor | src/SPSS/Graphics/InfoBoxMessage.cpp:108-116 | the colour is stored and the current text is recoloured |
| GraphicsInfoBoxMessage.InfoBoxMessage.SetTitleAffixes | src/SPSS/Graphics/InfoBoxMessage.cpp:119-129 | prefix, suffix and their colours are stored, title and content are kept, and the text and colours are what setMessage leaves |
| GraphicsInfoBoxMessage.InfoBoxMessage.constructor | src/SPSS/Graphics/InfoBoxMessage.cpp:15-27 | defaults: no prefix, ':' suffix, grey title, white content; the text is the raw string, coloured |
| SystemInfoBoxMessage.FinalString | src/SPSS/System/InfoBoxMessage.cpp:12-17 | "<" + title + "> " + content when the title is non-empty, else just the content |
| SystemInfoBoxMessage.InfoBoxMessage.constructor | src/SPSS/System/InfoBoxMessage.cpp:5-18 | the text is the final string with the title coloured |
| SystemInfoBoxMessage.Substr | src/SPSS/System/InfoBoxMessage.cpp:131 | substr(pos, count) cuts the count at the end of the string |
| SystemInfoBoxMessage.LinesInWindow | src/SPSS/System/InfoBoxMessage.cpp:126-142 | end 0 stands for \|s\|−1; the result is 1 plus the '\n' in substr(start, end); a start past the end throws |
| SystemInfoBoxMessage.TitleColours | src/SPSS/System/InfoBoxMessage.cpp:85-99 | the as-written range: indices 1 to \|title\| + lines − 1 get the title colour and every other index keeps its colour |
| SystemInfoBoxMessage.InfoBoxMessage.GetNumberOfLines | src/SPSS/System/InfoBoxMessage.cpp:126-142 | the result is LinesInWindow: one plus the '\n' of substr(start, end), with end 0 standing for \|s\|−1, and a throw for a start past the end |
| SystemInfoBoxMessage.LinesOf | src/SPSS/System/InfoBoxMessage.cpp:133-140 | the find loop returns one plus the number of '\n' in the window |
| SystemInfoBoxMessage.InfoBoxMessage.SetString | src/SPSS/System/InfoBoxMessage.cpp:71-100 | the text is stored with outline 1 and indices [1, \|title\| + the '\n' among the \|title\| characters after '<'] get the title colour; an empty text throws after being stored |
| SystemInfoBoxMessage.InfoBoxMessage.PaintTitle | src/SPSS/System/InfoBoxMessage.cpp:77-99 | red for "Server", cyan for "LocalPlayer", magenta otherwise |
| SystemInfoBoxMessage.TitleColouredExactly | src/SPSS/System/InfoBoxMessage.cpp:71-100 | for a titled message without '\n' exactly the title's characters get the title colour |
| SystemInfoBoxMessage.UntitledColouring | src/SPSS/System/InfoBoxMessage.cpp:71-100 | without a title every character from index 1 on is magenta |
| SystemInfoBoxMessage.InfoBoxMessage.FitWidth | src/SPSS/System/InfoBoxMessage.cpp:34-69 | measuring the bounds first runs a pending geometry rebuild; unless the text is too wide or on several lines it then stays, with the flag lowered and the colour maps filled densely if a rebuild was pending; otherwise it is refitted (Refitted) starting from those settled colours |
| SystemInfoBoxMessage.InfoBoxMessage.Refit | src/SPSS/System/InfoBoxMessage.cpp:43-68 | the text becomes the wrap of itself without '\n', with the title coloured afresh on top of the old fill when neither setString changed the string and on empty maps otherwise; a text of nothing but '\n' is left empty and reported |
| SystemInfoBoxMessage.RestoredTitleColours | src/SPSS/System/InfoBoxMessage.cpp:45-68 | colouring the title of the flat text and then of the wrapped text equals colouring the wrapped text once, on the old base only when the wrap changed nothing |
| SystemInfoBoxMessage.AsWrittenTitleRangeMissesCharacter | src/SPSS/System/InfoBoxMessage.cpp:79-99 | for the title "abc" wrapped as "<\na\nb\nc..." the window holds 2 line breaks, so the range ends at index 5 and the 'c' at index 6 keeps the default colour |
| SystemInfoBoxMessage.ScanReaches | src/SPSS/System/InfoBoxMessage.cpp:79-99 | a non-break character reached before \|title\| characters are passed lies within the scanned range |
| SystemInfoBoxMessage.TitleScannedColoursWholeTitle | src/SPSS/System/InfoBoxMessage.cpp:79-99 | with the range scanned past \|title\| non-break characters, every character of the title gets the title colour, whatever line breaks lie inside it |
| SystemInfoBoxMessage.InfoBoxMessage.GetTransparency | src/SPSS/System/InfoBoxMessage.cpp:122-124 | the alpha of the first character's fill colour |
| PromptLayout.ChooseWidth | src/SPSS/Graphics/DialogPrompt.cpp:48-60 | 300 up to a title width of 300, the title width up to 550, else 550; always in [300, 550] |
| PromptLayout.ChosenWidthIsNearest | src/SPSS/Graphics/TextEntryPrompt.cpp:46-59 | no width in [300, 550] is closer to the title width than the one chosen |
| PromptLayout.FittedTitle | src/SPSS/Graphics/TextEntryPrompt.cpp:176-212 | the title is kept unless it needs a refit, and its non-'\n' characters are always kept in order |
| PromptLayout.RefitTitleIsWrap | src/SPSS/Graphics/DialogPrompt.cpp:228-249 | a refit title is the greedy wrap of its characters without '\n' |
| PromptLayout.FitTitle | src/SPSS/Graphics/TextEntryPrompt.cpp:176-212 | the count, erase and wrap loop computes FittedTitle |
| PromptLayout.ButtonOffset | src/SPSS/Graphics/DialogPrompt.cpp:445-451 | button i sits i·35 below the top of the button area |
| PromptLayout.Stacked | src/SPSS/Graphics/TextEntryPrompt.cpp:352-358 | every button keeps its text and width and is placed at (centre x, top + 35·i) |
| PromptLayout.StackedButtonsDoNotOverlap | src/SPSS/Graphics/DialogPrompt.cpp:445-451 | consecutive buttons are 35 apart, and the first is at the top of the area |
| PromptLayout.StackButtons | src/SPSS/Graphics/DialogPrompt.cpp:445-451 | the placing loop computes Stacked |
| DialogPrompt.HeightNeeded | src/SPSS/Graphics/DialogPrompt.cpp:424-429 | n·30 + max(n−1, 0)·5 + 10 + 10 |
| DialogPrompt.ResizeSettles | src/SPSS/Graphics/DialogPrompt.cpp:431-443 | resizing by the difference makes the area exactly as high as needed on the next alignment |
| DialogPrompt.ButtonsFillArea | src/SPSS/Graphics/DialogPrompt.cpp:424-451 | once the area fits, the first button is 10 below the lowest element and the last ends 10 above the bottom |
| DialogPrompt.ClampCentre | src/SPSS/Graphics/DialogPrompt.cpp:345-371 | the centre is kept where the box stays in the view and is untouched when already there |
| DialogPrompt.DraggedBoxStaysInView | src/SPSS/Graphics/DialogPrompt.cpp:345-371 | a box that fits in the view stays wholly inside it |
| DialogPrompt.NarrowTitleIsRefit | src/SPSS/Graphics/DialogPrompt.cpp:48-60 | a title between 280 and 300 wide still needs a refit, because the box is 300 but the title is fitted to 280 |
| DialogPrompt.DialogPrompt.constructor | src/SPSS/Graphics/DialogPrompt.cpp:23-72 | the width is chosen from the title, the title fitted, the box placed and aligned |
| DialogPrompt.DialogPrompt.AddButton | src/SPSS/Graphics/DialogPrompt.cpp:125-150 | a button 0.9 of the box wide is appended and alignment is requested |
| DialogPrompt.DialogPrompt.SetPosition | src/SPSS/Graphics/DialogPrompt.cpp:188-191 | the position is stored and alignment is requested |
| DialogPrompt.DialogPrompt.SetDraggable | src/SPSS/Graphics/DialogPrompt.cpp:206-208 | the draggable flag is stored |
| DialogPrompt.DialogPrompt.FitWidth | src/SPSS/Graphics/DialogPrompt.cpp:211-250 | the title is fitted to the width less the 20-pixel side padding |
| DialogPrompt.DialogPrompt.SetHeight | src/SPSS/Graphics/DialogPrompt.cpp:253-261 | the height is stored and alignment is requested |
| DialogPrompt.DialogPrompt.SetWidth | src/SPSS/Graphics/DialogPrompt.cpp:264-277 | the entry box gets the width less 40, the box the width, the title is fitted and alignment is requested |
| DialogPrompt.DialogPrompt.AlignElements | src/SPSS/Graphics/DialogPrompt.cpp:375-452 | nothing unless the flag is set; the flag is cleared; if the area differs only setHeight runs (raising the flag again), else the buttons are stacked |
| DialogPrompt.DialogPrompt.DragBox | src/SPSS/Graphics/DialogPrompt.cpp:326-372 | nothing when not dragging, with no view or an unmoved mouse; otherwise the box follows the mouse, clamped into the view |
| TextEntryPrompt.HeightNeeded | src/SPSS/Graphics/TextEntryPrompt.cpp:341-343 | n·30 + (n+1)·5 |
| TextEntryPrompt.ResizeSettles | src/SPSS/Graphics/TextEntryPrompt.cpp:341-350 | resizing by the difference makes the area fit on the next alignment |
| TextEntryPrompt.ButtonsFillArea | src/SPSS/Graphics/TextEntryPrompt.cpp:341-358 | once the area fits, the buttons have 5 pixels above the first and below the last |
| TextEntryPrompt.ClampCorner | src/SPSS/Graphics/TextEntryPrompt.cpp:284-302 | each axis is clamped to [0, window − box] when the box fits, and kept when already inside |
| TextEntryPrompt.DraggedBoxStaysInWindow | src/SPSS/Graphics/TextEntryPrompt.cpp:284-302 | a box that fits in the window stays wholly inside it |
| TextEntryPrompt.MidWidthTitleIsKept | src/SPSS/Graphics/TextEntryPrompt.cpp:46-59 | a title 300 to 550 wide is never refit by the constructor |
| TextEntryPrompt.TextEntryPrompt.constructor | src/SPSS/Graphics/TextEntryPrompt.cpp:20-65 | the width is chosen from the title, the title fitted to it, the box placed and aligned |
| TextEntryPrompt.TextEntryPrompt.AddButton | src/SPSS/Graphics/TextEntryPrompt.cpp:108-134 | a button 0.9 of the box wide is appended and alignment is requested |
| TextEntryPrompt.TextEntryPrompt.SetPosition | src/SPSS/Graphics/TextEntryPrompt.cpp:160-163 | the position is stored and alignment is requested |
| TextEntryPrompt.TextEntryPrompt.SetOrigin | src/SPSS/Graphics/TextEntryPrompt.cpp:165-168 | the origin is stored and alignment is requested |
| TextEntryPrompt.TextEntryPrompt.FitWidth | src/SPSS/Graphics/TextEntryPrompt.cpp:176-212 | the title is fitted to the whole width, with no padding taken off |
| TextEntryPrompt.TextEntryPrompt.SetHeight | src/SPSS/Graphics/TextEntryPrompt.cpp:214-217 | the height is stored and alignment is requested |
| TextEntryPrompt.TextEntryPrompt.SetWidth | src/SPSS/Graphics/TextEntryPrompt.cpp:219-224 | box and entry box get the width, the title is fitted and alignment is requested |
| TextEntryPrompt.TextEntryPrompt.AlignElements | src/SPSS/Graphics/TextEntryPrompt.cpp:307-359 | nothing unless the flag is set; the flag is cleared; if the area differs only setHeight runs and no button is placed, else button i goes to area top + 35·i |
| TextEntryPrompt.TextEntryPrompt.DragBox | src/SPSS/Graphics/TextEntryPrompt.cpp:270-305 | nothing when not dragging, with no window or an unmoved mouse; otherwise each axis is clamped to [0, window − box] |
| Core.FlagsAt | src/SPSS/System/Core.cpp:43 | the i-th flag read off the stack is the background flag of the i-th state, bottom first |
| Core.FlaggedExactly | src/SPSS/System/Core.cpp:38-48 | the background loop reaches exactly the flagged states below the top, in strictly ascending order |
| Core.ReceiversInOrder | src/SPSS/System/Core.cpp:54-68 | a dispatch reaches the flagged background states in ascending order and then the top |
| Core.TopReachedOnce | src/SPSS/System/Core.cpp:67 | the top state is reached exactly once, and last |
| Core.Dispatch | src/SPSS/System/Core.cpp:59-67 | one call per receiver, in order, each with the same message |
| Core.Core.GetTopState | src/SPSS/System/Core.cpp:108-113 | null for an empty stack, else the last state pushed |
| Core.Core.constructor | src/SPSS/System/Core.cpp:9-12 | the window and timeslice are stored and the state stack starts empty, with no calls made |
| Core.Core.PushState | src/SPSS/System/Core.cpp:89-91 | the state is appended and becomes the top |
| Core.Core.PopState | src/SPSS/System/Core.cpp:94-100 | the top is removed; if a state is left, the new top is told of the switch once; needs a non-empty stack |
| Core.Core.Exit | src/SPSS/System/Core.cpp:103-105 | the window is closed |
| Core.Core.DispatchBackground | src/SPSS/System/Core.cpp:55-65 | the while-loop over the background states calls exactly the flagged ones, in order |
| Core.Core.Update | src/SPSS/System/Core.cpp:54-68 | flagged background states and then the top each get one update with the timeslice |
| Core.Core.Draw | src/SPSS/System/Core.cpp:71-86 | flagged background states and then the top each draw once, then the window is displayed once |
| Core.Delivered | src/SPSS/System/Core.cpp:34 | the events handed out are the queue up to and including the first Closed |
| Core.SizeAfter | src/SPSS/System/Core.cpp:32-51 | without a Resized event the window keeps its size |
| Core.Core.GetInput | src/SPSS/System/Core.cpp:32-51 | every event handed out goes to the flagged background states and then to the top; a Closed event closes the window |
| Core.Core.HandleEvent | src/SPSS/System/Core.cpp:35-49 | a Closed event closes the window, and the event is then delivered in dispatch order |
| Core.StalledCatchUp | src/SPSS/System/Core.cpp:22-26 | with a timeslice of 0 or less a simulation behind the real time stays behind after any number of rounds |
| Core.StepsIsCeiling | src/SPSS/System/Core.cpp:22-26 | with a positive timeslice the catch-up loop runs ⌈(real − sim)/timeslice⌉ updates when behind, none otherwise |
| Core.Core.CatchUp | src/SPSS/System/Core.cpp:22-26 | the loop advances the simulation time by that many timeslices and runs that many update rounds |
| State.ClampSize | src/SPSS/System/State.cpp:21-32 | a width below 800 becomes 800, a height below 600 becomes 600, larger sizes pass through |
| State.ClampSizeIdempotent | src/SPSS/System/State.cpp:21-32 | clamping a clamped size changes nothing |
| State.ClampSizeIsLeast | src/SPSS/System/State.cpp:21-32 | the clamped size is the least size at or above both the request and the minimum |
| State.State.GetInput | src/SPSS/System/State.cpp:21-32 | a Resized event resizes the window to the clamped size; other events change nothing |
| State.State.constructor | src/SPSS/System/State.cpp:9-14 | a new state draws to the given window, with all three background flags lowered |
| State.State.OnStateSwitch | src/SPSS/System/State.cpp:35-37 | the window keeps its size, since onResize is called with the size it already has |
| State.State.OnResize | src/SPSS/System/State.cpp:70-72 | the window takes the new size |
| State.State.PreviousStatePolled | src/SPSS/System/State.cpp:55-57 | the input flag, as pollPreviousState last set it |
| State.State.PreviousStateDrawn | src/SPSS/System/State.cpp:60-62 | the draw flag, as drawPreviousState last set it |
| State.State.PreviousStateUpdated | src/SPSS/System/State.cpp:65-67 | the update flag, as updatePreviousState last set it |
| State.State.PollPreviousState | src/SPSS/System/State.cpp:40-42 | the input flag holds the argument and the getter returns it; the others are unchanged |
| State.State.DrawPreviousState | src/SPSS/System/State.cpp:45-47 | the draw flag holds the argument and the getter returns it; the others are unchanged |
| State.State.UpdatePreviousState | src/SPSS/System/State.cpp:50-52 | the update flag holds the argument and the getter returns it; the others are unchanged |
| Coordinates.CDivModNonNegative | include/SPSS/Util/Coordinates.h:17-19 | for a non-negative index and positive row length, C++ / and % agree with Euclidean ones |
| Coordinates.GetIndex | include/SPSS/Util/Coordinates.h:13-15 | a cell inside a row of positive length gets an index in that row's block [y·w, y·w + w), non-negative exactly when y is |
| Coordinates.GetCoords | include/SPSS/Util/Coordinates.h:17-19 | the column is the C++ remainder: smaller than the row length in size and never of the opposite sign to the index |
| Coordinates.CModSign | include/SPSS/Util/Coordinates.h:17-19 | the C++ % is smaller than the divisor in size and takes the sign of the dividend |
| Coordinates.NorthOf | include/SPSS/Util/Coordinates.h:21-23 | the cell's index drops by one row length, for every row length |
| Coordinates.SouthOf | include/SPSS/Util/Coordinates.h:24-26 | the cell's index rises by one row length, for every row length |
| Coordinates.EastOf | include/SPSS/Util/Coordinates.h:27-29 | the cell's index rises by one |
| Coordinates.WestOf | include/SPSS/Util/Coordinates.h:30-32 | the cell's index drops by one |
| Coordinates.CoordsOutOfRange | include/SPSS/Util/Coordinates.h:34-40 | a cell in range exists only in a grid at least one cell wide and high |
| Coordinates.IndexOutOfRange | include/SPSS/Util/Coordinates.h:42-51 | an index in [0, w·h − 1] of a grid of positive width names a cell in range |
| Coordinates.InRangeIndexHasInRangeCell | include/SPSS/Util/Coordinates.h:42-51 | an index in [0, w·h − 1] lies in a row below the grid's height and a column inside its width |
| Coordinates.CoordsOfIndex | include/SPSS/Util/Coordinates.h:13-19 | getCoords(getIndex(c, w), w) = c for 0 ≤ x < w and y ≥ 0 |
| Coordinates.IndexOfCoords | include/SPSS/Util/Coordinates.h:13-19 | getIndex(getCoords(i, w), w) = i for i ≥ 0 |
| Coordinates.CoordsInRow | include/SPSS/Util/Coordinates.h:17-19 | the coordinates of a non-negative index lie in [0, w) × [0, ∞) |
| Coordinates.NeighboursInverse | include/SPSS/Util/Coordinates.h:21-32 | north/south change only y and undo each other; east/west change only x and undo each other |
| Coordinates.InRangeCellHasInRangeIndex | include/SPSS/Util/Coordinates.h:34-51 | a cell inside the grid has an index inside the grid |
| Coordinates.NorthOfTopRowIsOutOfRange | include/SPSS/Util/Coordinates.h:21-40 | one step north of row 0 is out of range |
| Common.InsertAbsent | include/SPSS/System/ResourceManager.h:50-52 | map insert binds the key only when absent, so an existing resource stays; every other key is unchanged |
| ResourceManager.ResourceManager.Get | include/SPSS/System/ResourceManager.h:34-41 | null for an id never added, else the stored resource |
| ResourceManager.ResourceManager.constructor | include/SPSS/System/ResourceManager.h:24 | a new manager holds no resources |
| ResourceManager.ResourceManager.Add | include/SPSS/System/ResourceManager.h:50-52 | the store becomes the map insert of the id and resource |
| Slider.Trunc | include/SPSS/Graphics/Slider.h:321 | int(x) truncates toward zero |
| Slider.StepValue | include/SPSS/Graphics/Slider.h:310-321 | int(width) divided by the option count when it exceeds 1, else by 1, so the divisor is never zero |
| Slider.Slider.GetStepValue | include/SPSS/Graphics/Slider.h:310-321 | the step of the current width and option count |
| Slider.Slider.GetSelected | include/SPSS/Graphics/Slider.h:229-235 | null exactly when there are no options, else the value at the selected index |
| Slider.Slider.Select | include/SPSS/Graphics/Slider.h:332-344 | the index is stored, the inner bar is placed at outer x + step·i, and with options the label becomes title + " " + option text |
| Slider.Slider.AddValue | include/SPSS/Graphics/Slider.h:191-222 | one (value, label) pair is appended, the inner bar becomes width / count wide, and the last or the current index is selected again |
| Slider.Slider.constructor | include/SPSS/Graphics/Slider.h:30-53 | a new slider has no options and selects index 0; setSize (98-101) gives the inner bar the outer width, and setPosition (109-117) places both bars at x and reselects index 0, so the inner bar starts at x; the title is the title string |

## Findings

| source | as written | input that shows it | evidently intended | confidence | as-written member | corrected member |
|---|---|---|---|---|---|---|
| src/SPSS/Graphics/TextEntryBox.cpp:769-773 | the caret after a paste is computed as `begin + length - 1` in size_t and then moved right | a full box (length = maxChars) with the caret at 0, pasting any non-empty text: nothing is admitted and the caret becomes SIZE_MAX | the caret stays at begin + admitted length, here 0 | high, not executed | EntryEditing.AsWrittenInsertCaretUnderflows | EntryEditing.InsertText |
| src/SPSS/Graphics/InfoBoxMessage.cpp:36-79 | setMessage with a positive width calls fitWidth, which measures the text shown before the call and returns early when that text is narrower than the width and on one line | an old text "a" drawn 40 wide, a width of 100, a new message "b": "a" stays on screen | the new raw string is stored before it is measured, so it is always shown, wrapped if needed | high, not executed | GraphicsInfoBoxMessage.AsWrittenShowsStaleMessage | GraphicsInfoBoxMessage.InfoBoxMessage.SetMessageRefreshed |
| src/SPSS/System/InfoBoxMessage.cpp:79-99 | the title's colour range is widened by the line breaks in the \|title\| characters after '<'; breaks that push the title's end past that window are not counted | the title "abc" wrapped one character per line, "<\na\nb\nc\n>\n \nx": the window "\na\n" has 2 breaks, the range ends at index 5 and the 'c' at index 6 is not coloured | the range reaches the title's last character, however many line breaks lie inside it | high, not executed | SystemInfoBoxMessage.AsWrittenTitleRangeMissesCharacter | SystemInfoBoxMessage.TitleScannedColoursWholeTitle |

## Left out

- Glyph mesh building: vertex arrays, bounds, italic shear, underline and strike-through lines, setTransparency and draw in MulticolorText. These are float geometry on SFML vertex buffers. Only the map fill and the dirty flag of the rebuild are modelled, including the rebuild that the bounds queries of both fitWidth methods run.
- TextEntryBox pixel behaviour: updateCaret, updateHighlight, updateAlpha, shiftTextToLeft/Right, resetTextPosition, textTooWide, setWidth, setPosition and the colour setters. These are float layout and blink state, and they do not change the editing state, so the model treats them as no-ops.
- Keyboard and clipboard access. These are foreign calls; they become a `Keys` parameter, a clipboard parameter and a clipboard result.
- TextEntryBox.TextEntryBox.InsertText, TextEntryBox.KeyPress and TextEntryBox.TextEntryBox.GetInput: Ctrl+V pastes with the corrected caret, so their promise that the state stays valid holds for the model, not for the code, which leaves the caret at SIZE_MAX after pasting into a full box at caret 0; the as-written caret is modelled separately (see Findings).
- TextEntryBox.KeyPress: Ctrl+V goes through the corrected paste caret, as for TextEntryBox.TextEntryBox.InsertText.
- TextEntryBox.TextEntryBox.GetInput: Ctrl+V goes through the corrected paste caret, as for TextEntryBox.TextEntryBox.InsertText.
- EntryEditing.InsertText: the word jump of the final moveRight is not modelled, because the paste path always runs with Ctrl+V held, and moveRight does not jump while V is held.
- Scrollbars, MenuList, InfoBox, MenuState, the Slider's drag and mouse-over, the prompts' mouse click and mouse-over handlers, and Math.h's almostEqual. These are float view mappings and mouse hit-testing.
- Core.Core.CatchUp: the simulation time, the real time and the timeslice are unbounded integers. The source's `int` simulation time can overflow, which is undefined behaviour, and the clock's 32-bit milliseconds wrap after about 24.8 days; neither is modelled.
- Core.Core.CatchUp: with a timeslice of 0 or less while the simulation is behind, the source's catch-up loop never ends (Core.StalledCatchUp); the model requires a positive timeslice in that case.
- Core.Core.GetInput: dispatch assumes that no state pushes or pops a state during its own getInput call. In the source a menu state can run a bound popState or pushState from inside getInput; the remaining events of the same poll then go to the new top, and popping the last state leaves the following `back()` undefined.
- Core.Core.Update: assumes, like GetInput, that no state changes the stack during its own update call.
- Core.Core.Draw: assumes, like GetInput, that no state changes the stack during its own draw call.
- Coordinates.CoordsOfIndex: `int` arithmetic is unbounded here; getIndex's y·width + x overflows 32 bits (undefined behaviour) for large grids, so the round trip is stated for every grid, not only those whose indices fit in an int.
- Coordinates.IndexOfCoords: unbounded `int` arithmetic, as for CoordsOfIndex.
- Coordinates.InRangeCellHasInRangeIndex: unbounded `int` arithmetic; outOfRange's width·height − 1 overflows 32 bits for large grids.
- Coordinates.GetIndex: unbounded `int` arithmetic; y·rowLength + x overflows 32 bits for large grids, which is not modelled.
- Coordinates.IndexOutOfRange: unbounded `int` arithmetic; width·height − 1 overflows 32 bits for large grids, which is not modelled.
- Coordinates.InRangeIndexHasInRangeCell: unbounded `int` arithmetic, as for IndexOutOfRange.
- Coordinates.NorthOf, Coordinates.SouthOf, Coordinates.EastOf and Coordinates.WestOf: a step from a coordinate at INT_MIN or INT_MAX overflows in the source; the model's coordinates are unbounded.
- MulticolorText.MulticolorText.FindCharacterPos: the transform is a stored affine map, set to the identity by the constructors; the Transformable setters (position, rotation, scale, origin) that build it are not modelled.
- GraphicsInfoBoxMessage.InfoBoxMessage.SetTitle, SetContent and SetTitleAffixes call the as-written SetMessage, as the source does; the corrected SetMessageRefreshed is not wired into them.
- SystemInfoBoxMessage.InfoBoxMessage.SetString colours the as-written range, as the source does; the corrected range TitleColoursScanned is proved to cover the whole title but is not wired into setString.
- Core::run's window and clock handling: the real time is a parameter of the catch-up loop, and the outer frame loop is not modelled.
- Core.Core.PopState: popping an empty stack is undefined behaviour in the source, so it is a precondition.
- The concrete states' own update and draw: the core records the calls it makes instead of running them.
- SystemInfoBoxMessage.InfoBoxMessage.constructor: a message with an empty title and empty content makes setString throw on the empty text; the model requires a non-empty message.
- The size of `InfoBoxMessage` texts is bounded (LengthBound, 2^60) so that no range end reaches SIZE_MAX, where the range loops would never end.
- MulticolorText.MulticolorText.SetFillColor: a range ending at SIZE_MAX (end 0 on an empty string) never terminates in the source; the model requires a smaller range end.
- MulticolorText.MulticolorText.SetOutlineColor: same precondition as SetFillColor.
- MulticolorText.MulticolorText.SetOutlineThickness: same precondition as SetFillColor, for a non-empty string.
- MulticolorText.h is not part of this model. Its default arguments are taken as start 0 and end 0 (the whole string) for `setOutlineThickness(1)`.
- Slider.Slider.Select: the source does no bounds check, and an index past the options is undefined behaviour once the slider has options; the model requires it to be in range then.
- Colours are plain integer tuples, and font comparison is by an identity number standing for the font's address.
- The header TextEntryBox.h declares a constructor, a `posAtPreviousWord()` arity and `void` shift functions that differ from the .cpp; the model follows the .cpp.
